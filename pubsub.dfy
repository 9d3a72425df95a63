/**
 * The in-process publish/subscribe bus (`DefaultPublishCenter`): a map from
 * channel to the set of subscribers on it, and a reverse index from subscriber
 * to the channels it listens on, kept in step by `register` and the three
 * `unregister` variants; `pub` hands a message to the subscribers of exactly
 * one channel.
 *
 * The bus stores each subscriber inside a wrapper (`InternalMessageListener`)
 * whose `equals` and `hashCode` delegate to the subscriber. Java's hash maps
 * test `probe.equals(key)`, so a lookup made with the wrapper and one made with
 * the bare subscriber are different operations; the model keeps them apart
 * (`Probe`). A subscriber's identity is its `Listener` value.
 */
module PubSub {
  import opened Common
  import opened Wire

  /**
   * A subscriber (`CustomMessageListener`). `acceptsWrapper` says whether its
   * own `equals` answers true when handed the bus's wrapper around it; an
   * `equals` inherited from `Object` does not.
   */
  datatype Listener = Listener(id: nat, acceptsWrapper: bool)

  /** What a map or set of the bus is probed with: the wrapper around a subscriber, or the subscriber itself. */
  datatype Probe = Wrapped(l: Listener) | Bare(l: Listener)

  /** `x.equals(y)`. A wrapper equals anything that stands for its subscriber; a bare subscriber equals a wrapper only if its own `equals` says so. */
  predicate JavaEquals(x: Probe, y: Probe)
  {
    match x
    case Wrapped(l) => y.l == l
    case Bare(l) => y.l == l && (y.Bare? || l.acceptsWrapper)
  }

  /** The wrapper's `equals` is not symmetric: the wrapper equals its subscriber, but not the other way round. */
  lemma EqualsAsymmetric(l: Listener)
    requires !l.acceptsWrapper
    ensures JavaEquals(Wrapped(l), Bare(l)) && !JavaEquals(Bare(l), Wrapped(l))
  {
  }

  /** `m.get(p)` on a map keyed by wrappers. Hashes agree, so an entry is found iff `p.equals(key)`. */
  function Lookup<V>(m: map<Listener, V>, p: Probe): (r: Option<V>)
    ensures r.Some? <==> exists k :: k in m && JavaEquals(p, Wrapped(k))
    ensures r.Some? ==> p.l in m && r.value == m[p.l]
  {
    if p.l in m && JavaEquals(p, Wrapped(p.l)) then Some(m[p.l]) else None
  }

  /** `CustomSet.add`: always answers true; an element already present is kept once. */
  function SetAdd(s: set<Listener>, l: Listener): (r: (bool, set<Listener>))
    ensures r.0 && l in r.1 && r.1 - {l} == s - {l}
    ensures l in s ==> r.1 == s
  {
    (true, s + {l})
  }

  /** `CustomSet.remove`: answers true iff some element equals the probe, and that element is then gone. */
  function SetRemove(s: set<Listener>, p: Probe): (r: (bool, set<Listener>))
    ensures r.0 <==> exists k :: k in s && JavaEquals(p, Wrapped(k))
    ensures r.0 ==> r.1 == s - {p.l} && |r.1| == |s| - 1
    ensures !r.0 ==> r.1 == s
  {
    if p.l in s && JavaEquals(p, Wrapped(p.l)) then (true, s - {p.l}) else (false, s)
  }

  /** One message handed to one subscriber; `handled` is false when its decoding or handling threw (and was logged). */
  datatype Delivery = Delivery(listener: Listener, channel: string, message: seq<byte>, handled: bool)

  datatype Status = Returned | NullPointer

  /** The bus's fields: `customMessageListeners`, `cache`, the `init` flag, and the deliveries made so far. */
  datatype Bus = Bus(listeners: map<string, set<Listener>>, cache: map<Listener, set<string>>,
                     initialized: bool, delivered: seq<Delivery>)

  /** Every channel in the reverse index has an entry in the channel map. */
  predicate ChannelsKnown(b: Bus)
  {
    forall l :: l in b.cache ==> b.cache[l] <= b.listeners.Keys
  }

  /** What every operation of the bus as written keeps: the `init` flag is never set, and the reverse index names known channels. */
  predicate Valid(b: Bus)
  {
    !b.initialized && ChannelsKnown(b)
  }

  /** The subscribers on `ch` and the channels of `l`, empty when absent. */
  function On(b: Bus, ch: string): set<Listener> { if ch in b.listeners then b.listeners[ch] else {} }
  function Of(b: Bus, l: Listener): set<string> { if l in b.cache then b.cache[l] else {} }

  // ---------------------------------------------------------------------------
  // The bus as written.

  /** `init`: the flag is tested but never assigned, so every call starts both maps afresh. */
  function AfterInit(b: Bus): (r: Bus)
    ensures r.initialized == b.initialized && r.delivered == b.delivered
    ensures !b.initialized ==> r.listeners == map[] && r.cache == map[] && Valid(r)
    ensures b.initialized ==> r == b
  {
    if b.initialized then b else b.(listeners := map[], cache := map[])
  }

  /** `destroy`: clears the channel map, but only when the flag is set. */
  function AfterDestroy(b: Bus): (r: Bus)
    ensures !b.initialized ==> r == b
    ensures b.initialized ==> r.listeners == map[] && r.cache == b.cache
  {
    if !b.initialized then b else b.(listeners := map[])
  }

  /** Since `init` never sets the flag, `destroy` never does anything to a bus that `init` has prepared. */
  lemma DestroyNeverClears(b: Bus)
    requires Valid(b)
    ensures AfterDestroy(b) == b && AfterDestroy(AfterInit(b)) == AfterInit(b)
  {
  }

  /**
   * `register(channel, listener)`. On a known channel the subscriber joins its
   * set and the channel is added to the subscriber's reverse set, which throws
   * when the subscriber has none. On a new channel both sets are created
   * afresh: the subscriber's reverse set is replaced by one holding only this
   * channel.
   */
  function AfterRegister(b: Bus, ch: string, l: Listener): (r: (Bus, Status))
    ensures r.0.listeners.Keys == b.listeners.Keys + {ch} && l in r.0.listeners[ch]
    ensures forall c :: c in b.listeners && c != ch ==> r.0.listeners[c] == b.listeners[c]
    ensures r.0.listeners[ch] - {l} == On(b, ch) - {l}
    ensures ch !in b.listeners ==> r.1 == Returned && r.0.cache == b.cache[l := {ch}]
    ensures ch in b.listeners ==> (r.1 == NullPointer <==> l !in b.cache)
    ensures ch in b.listeners && l in b.cache ==> r.0.cache == b.cache[l := b.cache[l] + {ch}]
    ensures ch in b.listeners && l !in b.cache ==> r.0.cache == b.cache
    ensures r.0.initialized == b.initialized && r.0.delivered == b.delivered
    ensures Valid(b) ==> Valid(r.0)
  {
    if ch in b.listeners then
      var joined := b.(listeners := b.listeners[ch := SetAdd(b.listeners[ch], l).1]);
      match Lookup(b.cache, Wrapped(l))
      case None => (joined, NullPointer)
      case Some(channels) => (joined.(cache := b.cache[l := channels + {ch}]), Returned)
    else
      (b.(listeners := b.listeners[ch := {l}], cache := b.cache[l := {ch}]), Returned)
  }

  /** The channel map with `l` taken out of the sets of the channels in `keys`, by a bare-subscriber probe. */
  function RemoveFrom(listeners: map<string, set<Listener>>, keys: set<string>, l: Listener): (r: map<string, set<Listener>>)
    ensures r.Keys == listeners.Keys
    ensures forall c :: c in listeners && c !in keys ==> r[c] == listeners[c]
    ensures forall c :: c in listeners && c in keys ==> r[c] == SetRemove(listeners[c], Bare(l)).1
  {
    map c | c in listeners :: if c in keys then SetRemove(listeners[c], Bare(l)).1 else listeners[c]
  }

  /** Taking the subscriber out of one more channel. */
  lemma RemoveOneMore(listeners: map<string, set<Listener>>, done: set<string>, key: string, l: Listener)
    requires key in listeners && key !in done
    ensures RemoveFrom(listeners, done + {key}, l)
            == RemoveFrom(listeners, done, l)[key := SetRemove(RemoveFrom(listeners, done, l)[key], Bare(l)).1]
  {
  }

  /**
   * `unregister(listener)`: the reverse index is probed with the bare
   * subscriber. If that finds nothing (a null subscriber, one never
   * registered, or one whose `equals` does not accept the wrapper) nothing
   * changes; otherwise the subscriber leaves every channel of its reverse set,
   * and that set is emptied.
   */
  function AfterUnregisterListener(b: Bus, l: Option<Listener>): (r: Bus)
    requires Valid(b)
    ensures l.None? || Lookup(b.cache, Bare(l.value)).None? ==> r == b
    ensures l.Some? && Lookup(b.cache, Bare(l.value)).Some? ==>
              && r.cache == b.cache[l.value := {}]
              && r.listeners.Keys == b.listeners.Keys
              && (forall c :: c in b.cache[l.value] ==> l.value !in r.listeners[c])
              && (forall c :: c in b.listeners ==> r.listeners[c] - {l.value} == b.listeners[c] - {l.value})
              && (forall c :: c in b.listeners && c !in b.cache[l.value] ==> r.listeners[c] == b.listeners[c])
    ensures r.initialized == b.initialized && r.delivered == b.delivered
    ensures Valid(r)
  {
    if l.None? then b
    else match Lookup(b.cache, Bare(l.value))
      case None => b
      case Some(keys) => b.(listeners := RemoveFrom(b.listeners, keys, l.value), cache := b.cache[l.value := {}])
  }

  /**
   * The loop of `unregister(channel)`: each subscriber of the channel, in the
   * set's iteration order, has the channel taken out of its reverse set. A
   * subscriber without a reverse set throws, and the loop stops there.
   */
  function Detach(cache: map<Listener, set<string>>, ch: string, order: seq<Listener>): (r: (map<Listener, set<string>>, Status))
    requires Distinct(order)
    ensures r.1 == Returned <==> forall i :: 0 <= i < |order| ==> order[i] in cache
    ensures r.1 == Returned ==> r.0 == map k | k in cache :: if k in order then cache[k] - {ch} else cache[k]
    ensures r.0.Keys == cache.Keys
    ensures forall k :: k in cache ==> r.0[k] == cache[k] || r.0[k] == cache[k] - {ch}
    decreases |order|
  {
    if order == [] then (cache, Returned)
    else match Lookup(cache, Wrapped(order[0]))
      case None => (cache, NullPointer)
      case Some(channels) =>
        assert Distinct(order[1..]);
        Detach(cache[order[0] := channels - {ch}], ch, order[1..])
  }

  /** One step of `Detach` at position `i`: the subscriber there either has a reverse set, which loses the channel, or throws. */
  lemma DetachStep(cache: map<Listener, set<string>>, ch: string, order: seq<Listener>, i: nat)
    requires Distinct(order) && i < |order|
    ensures Distinct(order[i..]) && Distinct(order[i + 1..])
    ensures order[i] !in cache ==> Detach(cache, ch, order[i..]) == (cache, NullPointer)
    ensures order[i] in cache ==>
              Detach(cache, ch, order[i..]) == Detach(cache[order[i] := cache[order[i]] - {ch}], ch, order[i + 1..])
  {
    assert order[i..][0] == order[i] && order[i..][1..] == order[i + 1..];
  }

  /**
   * `unregister(channel)`: an empty or unknown channel changes nothing;
   * otherwise the channel leaves the reverse set of each of its subscribers and
   * its own set is emptied (the channel itself stays in the map).
   */
  function AfterUnregisterChannel(b: Bus, ch: string, order: seq<Listener>): (r: (Bus, Status))
    requires Valid(b) && Lists(order, On(b, ch))
    ensures IsEmpty(ch) || ch !in b.listeners ==> r == (b, Returned)
    ensures !IsEmpty(ch) && ch in b.listeners ==>
              (r.1 == Returned <==> forall l :: l in b.listeners[ch] ==> l in b.cache)
    ensures !IsEmpty(ch) && ch in b.listeners && r.1 == Returned ==>
              && r.0.listeners == b.listeners[ch := {}]
              && r.0.cache.Keys == b.cache.Keys
              && (forall l :: l in b.listeners[ch] ==> ch !in r.0.cache[l])
              && (forall l :: l in b.cache && l !in b.listeners[ch] ==> r.0.cache[l] == b.cache[l])
    ensures r.0.listeners.Keys == b.listeners.Keys
    ensures r.0.initialized == b.initialized && r.0.delivered == b.delivered
    ensures Valid(r.0)
  {
    if IsEmpty(ch) || ch !in b.listeners then (b, Returned)
    else
      var (cache, status) := Detach(b.cache, ch, order);
      if status == NullPointer then (b.(cache := cache), NullPointer)
      else (b.(cache := cache, listeners := b.listeners[ch := {}]), Returned)
  }

  /**
   * `unregister(channel, listener)`: both absent does nothing; an empty channel
   * falls back to `unregister(listener)` and a null subscriber to
   * `unregister(channel)`. Otherwise, on a known channel, the subscriber is
   * taken out of the channel's set by a bare probe, and the channel out of the
   * subscriber's reverse set, which throws when the bare probe finds no
   * reverse set.
   */
  function AfterUnregister(b: Bus, ch: string, l: Option<Listener>, order: seq<Listener>): (r: (Bus, Status))
    requires Valid(b) && Lists(order, On(b, ch))
    ensures IsEmpty(ch) && l.None? ==> r == (b, Returned)
    ensures IsEmpty(ch) && l.Some? ==> r == (AfterUnregisterListener(b, l), Returned)
    ensures !IsEmpty(ch) && l.None? ==> r == AfterUnregisterChannel(b, ch, order)
    ensures !IsEmpty(ch) && l.Some? && ch !in b.listeners ==> r == (b, Returned)
    ensures !IsEmpty(ch) && l.Some? && ch in b.listeners ==>
              && r.0.listeners == b.listeners[ch := SetRemove(b.listeners[ch], Bare(l.value)).1]
              && (r.1 == NullPointer <==> Lookup(b.cache, Bare(l.value)).None?)
              && (r.1 == Returned ==> r.0.cache == b.cache[l.value := b.cache[l.value] - {ch}])
              && (r.1 == NullPointer ==> r.0.cache == b.cache)
    ensures Valid(r.0)
  {
    if IsEmpty(ch) && l.None? then (b, Returned)
    else if IsEmpty(ch) then (AfterUnregisterListener(b, l), Returned)
    else if l.None? then AfterUnregisterChannel(b, ch, order)
    else if ch !in b.listeners then (b, Returned)
    else
      var left := b.(listeners := b.listeners[ch := SetRemove(b.listeners[ch], Bare(l.value)).1]);
      match Lookup(b.cache, Bare(l.value))
      case None => (left, NullPointer)
      case Some(channels) => (left.(cache := b.cache[l.value := channels - {ch}]), Returned)
  }

  /** The deliveries of one `pub`, one per subscriber in iteration order; those in `failing` throw and are logged. */
  function Deliveries(order: seq<Listener>, ch: string, message: seq<byte>, failing: set<Listener>): (r: seq<Delivery>)
    ensures |r| == |order|
    ensures forall i :: 0 <= i < |r| ==> r[i] == Delivery(order[i], ch, message, order[i] !in failing)
  {
    seq(|order|, i requires 0 <= i < |order| => Delivery(order[i], ch, message, order[i] !in failing))
  }

  /** `pub(channel, message)`: only the channel equal to `ch` is served; `message` is the serialiser's output. */
  function AfterPub(b: Bus, ch: string, message: seq<byte>, order: seq<Listener>, failing: set<Listener>): (r: Bus)
    requires Lists(order, On(b, ch))
    ensures r.(delivered := b.delivered) == b
    ensures r.delivered == b.delivered + Deliveries(order, ch, message, failing)
  {
    b.(delivered := b.delivered + Deliveries(order, ch, message, failing))
  }

  /** A duplicate-free listing of a set is as long as the set is large. */
  lemma {:induction false} ListsCardinality(order: seq<Listener>, s: set<Listener>)
    requires Lists(order, s)
    ensures |order| == |s|
    decreases |order|
  {
    if order != [] {
      var rest := s - {order[0]};
      forall x ensures x in rest <==> x in order[1..] {
        if x in order[1..] {
          var j :| 0 <= j < |order[1..]| && order[1..][j] == x;
          assert order[0] != order[j + 1];
        }
      }
      assert Distinct(order[1..]);
      ListsCardinality(order[1..], rest);
    }
  }

  /**
   * `pub` reaches exactly the subscribers of the channel, each once, on that
   * channel, with the same message; a subscriber that throws does not keep the
   * others from being served.
   */
  lemma PubReachesSubscribers(b: Bus, ch: string, message: seq<byte>, order: seq<Listener>, failing: set<Listener>)
    requires Lists(order, On(b, ch))
    ensures var sent := AfterPub(b, ch, message, order, failing).delivered[|b.delivered|..];
            && |sent| == |On(b, ch)|
            && (forall d :: d in sent ==> d.channel == ch && d.message == message && d.listener in On(b, ch)
                                           && (d.handled <==> d.listener !in failing))
            && (forall l :: l in On(b, ch) ==> exists i :: 0 <= i < |sent| && sent[i].listener == l)
  {
    ListsCardinality(order, On(b, ch));
    var sent := AfterPub(b, ch, message, order, failing).delivered[|b.delivered|..];
    assert sent == Deliveries(order, ch, message, failing);
    forall l | l in On(b, ch) ensures exists i :: 0 <= i < |sent| && sent[i].listener == l {
      var i :| 0 <= i < |order| && order[i] == l;
      assert sent[i].listener == l;
    }
  }

  // ---------------------------------------------------------------------------
  // Counterexamples to the bus as written.

  const Empty: Bus := Bus(map[], map[], false, [])

  /** A subscriber that joins a second channel new to the bus loses its first channel from its reverse set, so `unregister(listener)` leaves it on the first. */
  lemma RegisterOverwritesReverseSet()
    ensures var l := Listener(1, true);
            var first := AfterRegister(Empty, "a", l).0;
            var second := AfterRegister(first, "b", l).0;
            && second.cache[l] == {"b"}
            && l in AfterUnregisterListener(second, Some(l)).listeners["a"]
  {
    var l := Listener(1, true);
    var first := AfterRegister(Empty, "a", l).0;
    assert first.cache == map[l := {"a"}];
    var second := AfterRegister(first, "b", l).0;
    assert second.cache[l] == {"b"};
    assert second.listeners["a"] == {l};
    assert "a" !in second.cache[l];
  }

  /** A second subscriber on a known channel joins the channel's set, then `register` throws: it has no reverse set yet. */
  lemma SecondSubscriberThrows()
    ensures var l1 := Listener(1, true);
            var l2 := Listener(2, true);
            var r := AfterRegister(AfterRegister(Empty, "a", l1).0, "a", l2);
            r.1 == NullPointer && l2 in r.0.listeners["a"] && l2 !in r.0.cache
  {
  }

  /** A subscriber whose `equals` is `Object`'s is never found by `unregister(listener)`, and `unregister(channel, listener)` throws on it. */
  lemma BareProbeMisses()
    ensures var l := Listener(1, false);
            var b := AfterRegister(Empty, "a", l).0;
            && AfterUnregisterListener(b, Some(l)) == b
            && l in b.listeners["a"]
            && AfterUnregister(b, "a", Some(l), [l]).1 == NullPointer
            && l in AfterUnregister(b, "a", Some(l), [l]).0.listeners["a"]
  {
    var l := Listener(1, false);
    var b := AfterRegister(Empty, "a", l).0;
    assert b.listeners == map["a" := {l}] && b.cache == map[l := {"a"}];
    assert Lookup(b.cache, Bare(l)).None?;
  }

  /** Once a bus holds a subscriber, `destroy` after `init` still leaves it subscribed. */
  lemma DestroyKeepsSubscribers()
    ensures var l := Listener(1, true);
            var b := AfterRegister(AfterInit(Empty), "a", l).0;
            l in AfterDestroy(b).listeners["a"]
  {
  }

  // ---------------------------------------------------------------------------
  // The bus as intended: the two maps agree, subscribers are compared by identity,
  // a subscriber's reverse set only grows on `register`, and `destroy` after
  // `init` empties the bus.

  /** A subscriber is on a channel's set exactly when the channel is in the subscriber's reverse set. */
  predicate Consistent(b: Bus)
  {
    && (forall c, l :: c in b.listeners && l in b.listeners[c] ==> l in b.cache && c in b.cache[l])
    && (forall l, c :: l in b.cache && c in b.cache[l] ==> c in b.listeners && l in b.listeners[c])
  }

  function FixedInit(b: Bus): (r: Bus)
    ensures r.initialized && Consistent(r)
    ensures b.initialized ==> r == b
    ensures !b.initialized ==> r.listeners == map[] && r.cache == map[]
    requires b.initialized ==> Consistent(b)
  {
    if b.initialized then b else b.(listeners := map[], cache := map[], initialized := true)
  }

  function FixedDestroy(b: Bus): (r: Bus)
    ensures !b.initialized ==> r == b
    ensures b.initialized ==> r.listeners == map[] && r.cache == map[] && !r.initialized
    ensures Consistent(b) ==> Consistent(r)
  {
    if !b.initialized then b else b.(listeners := map[], cache := map[], initialized := false)
  }

  /** `destroy` after `init` leaves no subscriber, whatever was registered in between. */
  lemma FixedDestroyClears(b: Bus)
    requires b.initialized
    ensures forall ch :: On(FixedDestroy(b), ch) == {}
  {
  }

  /** `register`, with the reverse set extended rather than replaced, and created when missing. */
  function FixedRegister(b: Bus, ch: string, l: Listener): (r: Bus)
    ensures On(r, ch) == On(b, ch) + {l} && Of(r, l) == Of(b, l) + {ch}
    ensures forall c :: c != ch ==> On(r, c) == On(b, c)
    ensures forall k :: k != l ==> Of(r, k) == Of(b, k)
    ensures Consistent(b) ==> Consistent(r)
  {
    b.(listeners := b.listeners[ch := On(b, ch) + {l}], cache := b.cache[l := Of(b, l) + {ch}])
  }

  /** `unregister(listener)`, with the subscriber found by identity: it leaves every channel. */
  function FixedUnregisterListener(b: Bus, l: Listener): (r: Bus)
    ensures Of(r, l) == {}
    ensures Consistent(b) ==> forall c :: l !in On(r, c)
    ensures forall c :: On(r, c) - {l} == On(b, c) - {l}
    ensures Consistent(b) ==> Consistent(r)
  {
    b.(listeners := map c | c in b.listeners :: if c in Of(b, l) then b.listeners[c] - {l} else b.listeners[c],
       cache := b.cache[l := {}])
  }

  /** `unregister(channel)`: the channel loses every subscriber and leaves every reverse set. */
  function FixedUnregisterChannel(b: Bus, ch: string): (r: Bus)
    ensures On(r, ch) == {}
    ensures forall c :: c != ch ==> On(r, c) == On(b, c)
    ensures Consistent(b) ==> forall l :: Of(r, l) == Of(b, l) - {ch}
    ensures Consistent(b) ==> Consistent(r)
  {
    b.(listeners := if ch in b.listeners then b.listeners[ch := {}] else b.listeners,
       cache := map l | l in b.cache :: if l in On(b, ch) then b.cache[l] - {ch} else b.cache[l])
  }

  /** `unregister(channel, listener)`: only that pair is undone. */
  function FixedUnregisterPair(b: Bus, ch: string, l: Listener): (r: Bus)
    ensures On(r, ch) == On(b, ch) - {l} && Of(r, l) == Of(b, l) - {ch}
    ensures forall c :: c != ch ==> On(r, c) == On(b, c)
    ensures forall k :: k != l ==> Of(r, k) == Of(b, k)
    ensures Consistent(b) ==> Consistent(r)
  {
    b.(listeners := if ch in b.listeners then b.listeners[ch := b.listeners[ch] - {l}] else b.listeners,
       cache := if l in b.cache then b.cache[l := b.cache[l] - {ch}] else b.cache)
  }

  /** After the intended `unregister(listener)`, no `pub` on any channel reaches that subscriber. */
  lemma UnsubscribedHearsNothing(b: Bus, l: Listener, ch: string, message: seq<byte>, order: seq<Listener>,
                                 failing: set<Listener>)
    requires Consistent(b)
    requires Lists(order, On(FixedUnregisterListener(b, l), ch))
    ensures var r := FixedUnregisterListener(b, l);
            forall d :: d in AfterPub(r, ch, message, order, failing).delivered[|r.delivered|..] ==> d.listener != l
  {
    var r := FixedUnregisterListener(b, l);
    assert AfterPub(r, ch, message, order, failing).delivered[|r.delivered|..] == Deliveries(order, ch, message, failing);
  }

  /** `DefaultPublishCenter`. */
  class DefaultPublishCenter {
    var customMessageListeners: map<string, set<Listener>>
    var cache: map<Listener, set<string>>
    var init: bool
    /** The deliveries made so far, in order. */
    var delivered: seq<Delivery>

    ghost function State(): Bus
      reads this
    {
      Bus(customMessageListeners, cache, init, delivered)
    }

    /** The constructor runs `init`. */
    constructor ()
      ensures State() == AfterInit(Bus(map[], map[], false, [])) && Valid(State())
    {
      customMessageListeners := map[];
      cache := map[];
      init := false;
      delivered := [];
    }

    method Init()
      modifies this
      ensures State() == AfterInit(old(State()))
    {
      if init {
        return;
      }
      customMessageListeners := map[];
      cache := map[];
    }

    method Destroy()
      modifies this
      ensures State() == AfterDestroy(old(State()))
    {
      if !init {
        return;
      }
      customMessageListeners := map[];
    }

    /** `pub`, with the channel's set visited in `order` and the subscribers in `failing` throwing. */
    method Pub(ch: string, message: seq<byte>, order: seq<Listener>, failing: set<Listener>)
      requires Lists(order, On(State(), ch))
      modifies this
      ensures State() == AfterPub(old(State()), ch, message, order, failing)
    {
      var i := 0;
      while i < |order|
        invariant 0 <= i <= |order|
        invariant State() == old(State()).(delivered := old(delivered) + Deliveries(order[..i], ch, message, failing))
      {
        var l := order[i];
        assert Deliveries(order[..i + 1], ch, message, failing)
               == Deliveries(order[..i], ch, message, failing) + [Delivery(l, ch, message, l !in failing)];
        delivered := delivered + [Delivery(l, ch, message, l !in failing)];
        i := i + 1;
      }
      assert order[..i] == order;
    }

    method Register(ch: string, l: Listener) returns (status: Status)
      modifies this
      ensures (State(), status) == AfterRegister(old(State()), ch, l)
    {
      if ch in customMessageListeners {
        customMessageListeners := customMessageListeners[ch := customMessageListeners[ch] + {l}];
        if l !in cache {
          return NullPointer;
        }
        cache := cache[l := cache[l] + {ch}];
        return Returned;
      }
      customMessageListeners := customMessageListeners[ch := {l}];
      cache := cache[l := {ch}];
      return Returned;
    }

    /** `unregister(listener)`; None stands for null. */
    method UnregisterListener(l: Option<Listener>)
      requires Valid(State())
      modifies this
      ensures State() == AfterUnregisterListener(old(State()), l)
    {
      if l.None? {
        return;
      }
      var found := Lookup(cache, Bare(l.value));
      if found.None? {
        return;
      }
      var keys := found.value;
      var remaining := keys;
      while remaining != {}
        invariant remaining <= keys && init == old(init) && cache == old(cache) && delivered == old(delivered)
        invariant customMessageListeners == RemoveFrom(old(customMessageListeners), keys - remaining, l.value)
        decreases remaining
      {
        var key :| key in remaining;
        RemoveOneMore(old(customMessageListeners), keys - remaining, key, l.value);
        assert keys - (remaining - {key}) == (keys - remaining) + {key};
        customMessageListeners := customMessageListeners[key := SetRemove(customMessageListeners[key], Bare(l.value)).1];
        remaining := remaining - {key};
      }
      cache := cache[l.value := {}];
    }

    /** `unregister(channel)`, visiting the channel's set in `order`. */
    method UnregisterChannel(ch: string, order: seq<Listener>) returns (status: Status)
      requires Valid(State()) && Lists(order, On(State(), ch))
      modifies this
      ensures (State(), status) == AfterUnregisterChannel(old(State()), ch, order)
    {
      if IsEmpty(ch) || ch !in customMessageListeners {
        return Returned;
      }
      var i := 0;
      while i < |order|
        invariant 0 <= i <= |order|
        invariant customMessageListeners == old(customMessageListeners) && init == old(init)
        invariant delivered == old(delivered)
        invariant Detach(cache, ch, order[i..]) == Detach(old(cache), ch, order)
      {
        var l := order[i];
        DetachStep(cache, ch, order, i);
        if l !in cache {
          return NullPointer;
        }
        cache := cache[l := cache[l] - {ch}];
        i := i + 1;
      }
      customMessageListeners := customMessageListeners[ch := {}];
      return Returned;
    }

    /** `unregister(channel, listener)`. */
    method Unregister(ch: string, l: Option<Listener>, order: seq<Listener>) returns (status: Status)
      requires Valid(State()) && Lists(order, On(State(), ch))
      modifies this
      ensures (State(), status) == AfterUnregister(old(State()), ch, l, order)
    {
      if IsEmpty(ch) && l.None? {
        return Returned;
      }
      if IsEmpty(ch) {
        UnregisterListener(l);
        return Returned;
      }
      if l.None? {
        status := UnregisterChannel(ch, order);
        return;
      }
      if ch !in customMessageListeners {
        return Returned;
      }
      customMessageListeners := customMessageListeners[ch := SetRemove(customMessageListeners[ch], Bare(l.value)).1];
      var channels := Lookup(cache, Bare(l.value));
      if channels.None? {
        return NullPointer;
      }
      cache := cache[l.value := channels.value - {ch}];
      return Returned;
    }
  }
}
