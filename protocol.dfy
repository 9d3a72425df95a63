/**
 * The transport bridge (`ProtocolImpl`): the registry of live connections keyed
 * by id, the lifecycle events fanned out to the registered event centres, the
 * inbound deque that feeds the dispatcher, the outbound `send`, and the
 * heartbeat sweep that evicts idle connections.
 *
 * Everything the bridge does to the outside world is recorded, in order, in a
 * trace of effects: an event handed to one event centre, a connection closed, a
 * frame written, a subscription taken on the publish centre. The clock is a
 * parameter (`now`, in milliseconds), and so are the outcome of a connection's
 * `write` and the order in which the sweep visits the registry.
 */
module Protocol {
  import opened Common
  import opened Wire
  import opened Channels

  /**
   * A transport connection (`PChannel`). `handle` stands for the object's
   * identity: two registrations of one connection carry the same handle.
   */
  datatype Conn = Conn(handle: nat, id: string, host: Option<string>, port: int, lastActive: int)

  datatype ProtocolEvent = Register | Unregister | Received | ReceivedError | ReceivedSuccess | Send

  /** Why a connection was closed: replaced by another one, idle too long, or a caller's own reason. */
  datatype CloseCause = System | Timeout | Other

  /** The arguments that go with an event. */
  datatype EventArg = NoArg | Payload(data: seq<byte>) | Closing(id: string, cause: CloseCause)
                    | Carried(pd: ProtocolData) | Fault

  datatype Event = Event(channel: string, kind: ProtocolEvent, arg: EventArg)

  /** One effect on the outside world. */
  datatype Effect =
    | Delivered(center: nat, event: Event)
    | Closed(handle: nat)
    | Wrote(handle: nat, data: seq<byte>)
    | Subscribed(channel: string)

  /** What a call raised, if anything. */
  datatype Thrown = NullPointer | NoRequireParam(publishCenterMissing: bool, dequeMissing: bool) | Rejected
  datatype Status = Returned | Threw(thrown: Thrown)

  /** `ProtocolFuture`: the shared `ERRORFUTURE` (done, not successful) or the future of a write. */
  datatype Future = ErrorFuture | WriteFuture(handle: nat)
  {
    predicate IsDone() { ErrorFuture? }
    predicate IsSuccess() { false }
  }

  /** What `send` gives back: a future, or the exception it raised. */
  datatype Sending = Answer(future: Future) | Raise(thrown: Thrown)

  /**
   * The bridge's fields. The event-centre list and the registry exist only
   * once `init` has run (before that both are null), so `initialized` also says
   * whether they may be touched. `deque` is None when no deque is registered.
   */
  datatype Bridge = Bridge(
    centers: seq<nat>,
    channels: map<string, Conn>,
    publishCenter: bool,
    receiveChannel: string,
    deque: Option<seq<ProtocolData>>,
    heartbeat: int,
    initialized: bool,
    destroyed: bool,
    trace: seq<Effect>)

  const DefaultReceiveChannel: string := "/protocol/receive"
  const MinHeartbeat: int := 30

  /** The heartbeat period in seconds, with a floor of 30. */
  function ClampHeartbeat(heartbeat: int): (r: int)
    ensures r >= MinHeartbeat
    ensures heartbeat >= MinHeartbeat ==> r == heartbeat
    ensures heartbeat < MinHeartbeat ==> r == MinHeartbeat
  {
    if heartbeat < MinHeartbeat then MinHeartbeat else heartbeat
  }

  /** The publish-centre channel the bridge listens on; an empty name selects the default. */
  function ReceiveChannelOf(channel: string): (r: string)
    ensures r != []
    ensures channel != [] ==> r == channel
    ensures channel == [] ==> r == DefaultReceiveChannel
  {
    if IsEmpty(channel) then DefaultReceiveChannel else channel
  }

  /** A freshly built bridge: not initialised, no registry yet, nothing done. */
  function Built(channel: string, deque: seq<ProtocolData>, heartbeat: int): (st: Bridge)
    ensures !st.initialized && !st.destroyed && st.trace == []
    ensures st.publishCenter && st.deque == Some(deque)
    ensures st.heartbeat >= MinHeartbeat && st.receiveChannel != []
  {
    Bridge([], map[], true, ReceiveChannelOf(channel), Some(deque), ClampHeartbeat(heartbeat), false, false, [])
  }

  /** One event as every registered event centre receives it, in registration order. */
  function Deliveries(centers: seq<nat>, e: Event): (r: seq<Effect>)
    ensures |r| == |centers|
    ensures forall i :: 0 <= i < |r| ==> r[i] == Delivered(centers[i], e)
  {
    seq(|centers|, i requires 0 <= i < |centers| => Delivered(centers[i], e))
  }

  /** `publish`: the event goes to each event centre; the rest of the state is untouched. */
  function Published(st: Bridge, e: Event): (r: Bridge)
    ensures r.(trace := st.trace) == st
    ensures r.trace == st.trace + Deliveries(st.centers, e)
  {
    st.(trace := st.trace + Deliveries(st.centers, e))
  }

  /** `init`: a second call does nothing; a missing publish centre or deque is refused. */
  function AfterInit(st: Bridge): (r: (Bridge, Status))
    ensures r.1 == Returned <==> st.initialized || (st.publishCenter && st.deque.Some?)
    ensures r.1 != Returned ==>
              r == (st, Threw(NoRequireParam(!st.publishCenter, st.deque.None?)))
    ensures st.initialized ==> r.0 == st
    ensures r.1 == Returned ==> r.0.initialized && r.0.destroyed == st.destroyed
    ensures !st.initialized && r.1 == Returned ==>
              && r.0.channels == map[] && r.0.centers == []
              && r.0.trace == st.trace + [Subscribed(st.receiveChannel)]
  {
    if st.initialized then (st, Returned)
    else if !st.publishCenter || st.deque.None? then
      (st, Threw(NoRequireParam(!st.publishCenter, st.deque.None?)))
    else
      (st.(centers := [], channels := map[], initialized := true,
           trace := st.trace + [Subscribed(st.receiveChannel)]), Returned)
  }

  /**
   * `destroy`: only an initialised, not yet destroyed bridge is torn down. The
   * registry is emptied without closing a connection or publishing an event.
   */
  function AfterDestroy(st: Bridge): (r: Bridge)
    ensures !st.initialized || st.destroyed ==> r == st
    ensures st.initialized && !st.destroyed ==>
              && r.destroyed && r.channels == map[] && r.centers == []
              && r.trace == st.trace && r.deque == st.deque && r.initialized
  {
    if !st.initialized || st.destroyed then st
    else st.(centers := [], channels := map[], destroyed := true)
  }

  /** `register(EventCenter)`: appended to the list of event centres. */
  function AfterRegisterCenter(st: Bridge, center: nat): (r: (Bridge, Status))
    ensures !st.initialized ==> r == (st, Threw(NullPointer))
    ensures st.initialized ==> r.1 == Returned && r.0.centers == st.centers + [center]
    ensures r.0.(centers := st.centers) == st
  {
    if !st.initialized then (st, Threw(NullPointer))
    else (st.(centers := st.centers + [center]), Returned)
  }

  /**
   * `close(id, cause)`: an empty id, and an id with no connection, change
   * nothing; otherwise the connection leaves the registry, is closed, and
   * UNREGISTER goes out with the cause.
   */
  function AfterClose(st: Bridge, id: string, cause: CloseCause): (r: (Bridge, Status))
    ensures id == [] ==> r == (st, Returned)
    ensures id != [] && !st.initialized ==> r == (st, Threw(NullPointer))
    ensures id != [] && st.initialized ==> r.1 == Returned && id !in r.0.channels
    ensures id !in st.channels ==> r.0 == st
    ensures id != [] && st.initialized && id in st.channels ==>
              && r.0.channels == st.channels - {id}
              && r.0.trace == st.trace + [Closed(st.channels[id].handle)]
                                       + Deliveries(st.centers, Event(id, Unregister, Closing(id, cause)))
    ensures r.0.(channels := st.channels, trace := st.trace) == st
  {
    if IsEmpty(id) then (st, Returned)
    else if !st.initialized then (st, Threw(NullPointer))
    else if id !in st.channels then (st, Returned)
    else
      var c := st.channels[id];
      var removed := st.(channels := st.channels - {id}, trace := st.trace + [Closed(c.handle)]);
      (Published(removed, Event(id, Unregister, Closing(id, cause))), Returned)
  }

  /**
   * `register(PChannel)`, with its three cases: another connection under the
   * same id is closed with cause SYSTEM and replaced, without a REGISTER event;
   * the same connection again changes nothing; a new id is inserted and
   * REGISTER goes out.
   */
  function AfterRegister(st: Bridge, c: Conn): (r: (Bridge, Status))
    ensures !st.initialized ==> r == (st, Threw(NullPointer))
    ensures st.initialized ==>
              && r.1 == Returned
              && r.0.channels.Keys == st.channels.Keys + {c.id}
              && c.id in r.0.channels && r.0.channels[c.id].handle == c.handle
              && (forall k :: k in st.channels && k != c.id ==> r.0.channels[k] == st.channels[k])
    ensures st.initialized && c.id !in st.channels ==>
              r.0.channels[c.id] == c && r.0.trace == st.trace + Deliveries(st.centers, Event(c.id, Register, NoArg))
    ensures st.initialized && c.id in st.channels && st.channels[c.id].handle == c.handle ==> r.0 == st
    ensures st.initialized && c.id in st.channels && st.channels[c.id].handle != c.handle ==>
              && r.0.channels[c.id] == c
              && r.0.trace == st.trace + (if c.id == [] then [] else
                   [Closed(st.channels[c.id].handle)] + Deliveries(st.centers, Event(c.id, Unregister, Closing(c.id, System))))
    ensures r.0.(channels := st.channels, trace := st.trace) == st
  {
    if !st.initialized then (st, Threw(NullPointer))
    else if c.id in st.channels && c.handle != st.channels[c.id].handle then
      var closed := AfterClose(st, c.id, System).0;
      (closed.(channels := closed.channels[c.id := c]), Returned)
    else if c.id in st.channels then (st, Returned)
    else
      (Published(st.(channels := st.channels[c.id := c]), Event(c.id, Register, NoArg)), Returned)
  }

  /** The frame the dispatcher is given for `data` from connection `c`. */
  function Inbound(data: seq<byte>, c: Conn): (pd: ProtocolData)
    ensures pd.data == data && pd.Channel() == c.id
    ensures pd.RemoteHost() == c.host && pd.RemotePort() == c.port
  {
    ProtocolData(data, ChannelInfo(c.host, c.port, c.id))
  }

  /** Whether the asynchronous half of `receive` raises, and so publishes RECEIVEDERROR. */
  predicate ReceiveFails(st: Bridge, data: seq<byte>, src: string)
  {
    src !in st.channels || |data| <= TypeOffset || (data[TypeOffset] != HeartbeatType && st.deque.None?)
  }

  /**
   * `receive(data, src)` at time `now`, with the task it submits run at once:
   * RECEIVED goes out first; then the connection's activity time is refreshed
   * for every frame that has a type byte; a heartbeat (type 0) stops there;
   * any other frame is appended to the tail of the deque. An unknown source,
   * a frame too short to have a type byte, or a missing deque publishes
   * RECEIVEDERROR instead. Once destroyed, the worker pool refuses the task.
   */
  function AfterReceive(st: Bridge, now: int, data: seq<byte>, src: string): (r: (Bridge, Status))
    ensures !st.initialized ==> r == (st, Threw(NullPointer))
    ensures st.initialized && st.destroyed ==>
              r == (Published(st, Event(src, Received, Payload(data))), Threw(Rejected))
    ensures st.initialized && !st.destroyed ==> r.1 == Returned
    ensures st.initialized && !st.destroyed ==>
              r.0.trace == st.trace + Deliveries(st.centers, Event(src, Received, Payload(data)))
                           + (if ReceiveFails(st, data, src) then Deliveries(st.centers, Event(src, ReceivedError, Fault))
                              else [])
    ensures st.initialized && !st.destroyed && src in st.channels && |data| > TypeOffset ==>
              r.0.channels == st.channels[src := st.channels[src].(lastActive := now)]
    ensures !(st.initialized && !st.destroyed && src in st.channels && |data| > TypeOffset) ==>
              r.0.channels == st.channels
    ensures st.initialized && !st.destroyed && !ReceiveFails(st, data, src) && data[TypeOffset] != HeartbeatType ==>
              r.0.deque == Some(st.deque.value + [Inbound(data, st.channels[src])])
    ensures !(st.initialized && !st.destroyed && !ReceiveFails(st, data, src) && data[TypeOffset] != HeartbeatType) ==>
              r.0.deque == st.deque
    ensures r.0.(channels := st.channels, deque := st.deque, trace := st.trace) == st
  {
    if !st.initialized then (st, Threw(NullPointer))
    else
      var announced := Published(st, Event(src, Received, Payload(data)));
      if st.destroyed then (announced, Threw(Rejected))
      else if src !in st.channels || |data| <= TypeOffset then
        (Published(announced, Event(src, ReceivedError, Fault)), Returned)
      else
        var c := st.channels[src];
        var refreshed := announced.(channels := st.channels[src := c.(lastActive := now)]);
        if data[TypeOffset] == HeartbeatType then (refreshed, Returned)
        else if st.deque.None? then (Published(refreshed, Event(src, ReceivedError, Fault)), Returned)
        else (refreshed.(deque := Some(st.deque.value + [Inbound(data, c)])), Returned)
  }

  /**
   * `send(protocolData)`: a null frame or an unknown destination gives
   * ERRORFUTURE and does nothing else. For a known connection RECEIVEDSUCCESS
   * goes out before the write and SEND after it; a write that throws gives
   * ERRORFUTURE.
   */
  function AfterSend(st: Bridge, pd: Option<ProtocolData>, writeOk: bool): (r: (Bridge, Sending))
    ensures pd.None? ==> r == (st, Answer(ErrorFuture))
    ensures pd.Some? && !st.initialized ==> r == (st, Raise(NullPointer))
    ensures pd.Some? && st.initialized && pd.value.Channel() !in st.channels ==> r == (st, Answer(ErrorFuture))
    ensures pd.Some? && st.initialized && pd.value.Channel() in st.channels ==>
              var c := st.channels[pd.value.Channel()];
              var before := st.trace + Deliveries(st.centers, Event(c.id, ReceivedSuccess, Carried(pd.value)));
              if writeOk then
                && r.1 == Answer(WriteFuture(c.handle))
                && r.0.trace == before + [Wrote(c.handle, pd.value.data)]
                                       + Deliveries(st.centers, Event(c.id, Send, Carried(pd.value)))
              else r.1 == Answer(ErrorFuture) && r.0.trace == before
    ensures r.0.(trace := st.trace) == st
  {
    if pd.None? then (st, Answer(ErrorFuture))
    else if !st.initialized then (st, Raise(NullPointer))
    else if pd.value.Channel() !in st.channels then (st, Answer(ErrorFuture))
    else
      var c := st.channels[pd.value.Channel()];
      var announced := Published(st, Event(c.id, ReceivedSuccess, Carried(pd.value)));
      if !writeOk then (announced, Answer(ErrorFuture))
      else
        var written := announced.(trace := announced.trace + [Wrote(c.handle, pd.value.data)]);
        (Published(written, Event(c.id, Send, Carried(pd.value))), Answer(WriteFuture(c.handle)))
  }

  /** A send answers ERRORFUTURE exactly when there is no frame, no such connection, or the write fails. */
  lemma SendFails(st: Bridge, pd: Option<ProtocolData>, writeOk: bool)
    requires st.initialized
    ensures AfterSend(st, pd, writeOk).1 == Answer(ErrorFuture) <==>
              pd.None? || pd.value.Channel() !in st.channels || !writeOk
    ensures AfterSend(st, pd, writeOk).1.Answer?
  {
  }

  /** The sweep's test: whole idle seconds, truncated, beyond the heartbeat period. */
  predicate Expired(now: int, last: int, heartbeat: int)
  {
    TruncDiv(now - last, 1000) - heartbeat > 0
  }

  /**
   * Because idle time is counted in whole seconds, a connection is evicted
   * only once it has been idle for at least `heartbeat + 1` seconds, and a
   * last-activity time in the future never evicts.
   */
  lemma ExpiredIff(now: int, last: int, heartbeat: int)
    requires heartbeat >= 0
    ensures Expired(now, last, heartbeat) <==> now - last >= (heartbeat + 1) * 1000
  {
    var idle := now - last;
    if idle >= 0 {
      var q := idle / 1000;
      assert idle == q * 1000 + idle % 1000;
      if q >= heartbeat + 1 {
        assert q * 1000 >= (heartbeat + 1) * 1000;
      } else {
        assert q * 1000 <= heartbeat * 1000;
      }
    } else {
      assert TruncDiv(idle, 1000) <= 0;
    }
  }

  /** `heartbeat / 5 * 1000` in Java `int` arithmetic: the pause between two sweeps, in milliseconds. */
  function SweepPeriod(heartbeat: int): (ms: int)
    requires heartbeat >= MinHeartbeat
    ensures -0x8000_0000 <= ms < 0x8000_0000
    ensures heartbeat / 5 * 1000 <= IntMax ==> ms == heartbeat / 5 * 1000 && 6000 <= ms <= heartbeat * 200
  {
    ToInt32(heartbeat / 5 * 1000)
  }

  /** The sweep's visit to one registry entry: an expired connection is announced, closed and removed. */
  function SweepOne(st: Bridge, now: int, id: string): (r: Bridge)
    ensures r.(channels := st.channels, trace := st.trace) == st
  {
    if id in st.channels && Expired(now, st.channels[id].lastActive, st.heartbeat) then
      var announced := Published(st, Event(id, Unregister, Closing(id, Timeout)));
      announced.(trace := announced.trace + [Closed(st.channels[id].handle)], channels := st.channels - {id})
    else st
  }

  /** One pass of the sweep, visiting the ids in `order`. */
  function SweepOver(st: Bridge, now: int, order: seq<string>): (r: Bridge)
    decreases |order|
  {
    if order == [] then st else SweepOver(SweepOne(st, now, order[0]), now, order[1..])
  }

  /** The registry entries a pass over `order` leaves in place. */
  function Survivors(channels: map<string, Conn>, now: int, heartbeat: int, order: seq<string>): map<string, Conn>
  {
    map k | k in channels && !(k in order && Expired(now, channels[k].lastActive, heartbeat)) :: channels[k]
  }

  /**
   * A pass removes exactly the visited connections that have expired, leaves
   * every other entry as it was, and changes nothing but the registry and the
   * trace.
   */
  lemma {:induction false} SweepEvicts(st: Bridge, now: int, order: seq<string>)
    requires Distinct(order)
    ensures SweepOver(st, now, order).channels == Survivors(st.channels, now, st.heartbeat, order)
    ensures SweepOver(st, now, order).(channels := st.channels, trace := st.trace) == st
    decreases |order|
  {
    if order != [] {
      var next := SweepOne(st, now, order[0]);
      assert Distinct(order[1..]);
      SweepEvicts(next, now, order[1..]);
      forall k | k in next.channels
        ensures (k in order[1..] && Expired(now, next.channels[k].lastActive, next.heartbeat))
                <==> (k in order && Expired(now, st.channels[k].lastActive, st.heartbeat))
      {
        assert k != order[0] ==> (k in order <==> k in order[1..]);
        assert k == order[0] ==> k !in order[1..];
      }
    }
  }

  /** A pass over the whole registry keeps exactly the connections that have not expired. */
  lemma SweepKeepsLive(st: Bridge, now: int, order: seq<string>)
    requires Distinct(order) && (forall k :: k in st.channels ==> k in order)
    ensures var r := SweepOver(st, now, order);
            forall k :: k in r.channels <==> k in st.channels && !Expired(now, st.channels[k].lastActive, st.heartbeat)
    ensures var r := SweepOver(st, now, order);
            forall k :: k in r.channels ==> r.channels[k] == st.channels[k]
  {
    SweepEvicts(st, now, order);
  }

  /** A connection that has been active within the last `heartbeat + 1` seconds survives a sweep. */
  lemma RecentlyActiveSurvives(st: Bridge, now: int, order: seq<string>, id: string)
    requires Distinct(order) && st.heartbeat >= 0
    requires id in st.channels && now - st.channels[id].lastActive < (st.heartbeat + 1) * 1000
    ensures id in SweepOver(st, now, order).channels
  {
    SweepEvicts(st, now, order);
    ExpiredIff(now, st.channels[id].lastActive, st.heartbeat);
  }

  /** A second `close` of the same id is a no-op, whatever the cause. */
  lemma CloseIdempotent(st: Bridge, id: string, first: CloseCause, second: CloseCause)
    ensures var once := AfterClose(st, id, first).0;
            AfterClose(once, id, second) == (once, AfterClose(st, id, first).1)
  {
  }

  /** A second successful `init` is a no-op, and so is a second `destroy`. */
  lemma LifecycleIdempotent(st: Bridge)
    ensures AfterInit(st).1 == Returned ==> AfterInit(AfterInit(st).0) == (AfterInit(st).0, Returned)
    ensures AfterDestroy(AfterDestroy(st)) == AfterDestroy(st)
  {
  }

  /** `ProtocolImpl`. */
  class ProtocolImpl {
    var eventCenters: seq<nat>
    var pChannels: map<string, Conn>
    var hasPublishCenter: bool
    var channel: string
    var deque: Option<seq<ProtocolData>>
    var heartbeat: int
    var initialized: bool
    var destroyed: bool
    /** What the bridge has done to the outside world, in order. */
    var trace: seq<Effect>

    ghost function State(): Bridge
      reads this
    {
      Bridge(eventCenters, pChannels, hasPublishCenter, channel, deque, heartbeat, initialized, destroyed, trace)
    }

    /** The builder's constructor: registers the publish centre, its channel and the deque, and clamps the heartbeat. */
    constructor (channel: string, deque: seq<ProtocolData>, heartbeat: int)
      ensures State() == Built(channel, deque, heartbeat)
    {
      eventCenters := [];
      pChannels := map[];
      hasPublishCenter := true;
      this.channel := ReceiveChannelOf(channel);
      this.deque := Some(deque);
      this.heartbeat := if heartbeat < 30 then 30 else heartbeat;
      initialized := false;
      destroyed := false;
      trace := [];
    }

    /** `register(deque)`; None stands for a null deque. */
    method RegisterDeque(q: Option<seq<ProtocolData>>)
      modifies this
      ensures State() == old(State()).(deque := q)
    {
      deque := q;
    }

    /** `register(publishCenter, channel)`; `present` is false for a null publish centre. */
    method RegisterPublishCenter(present: bool, channel: string)
      modifies this
      ensures State() == old(State()).(publishCenter := present, receiveChannel := ReceiveChannelOf(channel))
    {
      hasPublishCenter := present;
      this.channel := if IsEmpty(channel) then DefaultReceiveChannel else channel;
    }

    method Init() returns (status: Status)
      modifies this
      ensures (State(), status) == AfterInit(old(State()))
    {
      if initialized {
        return Returned;
      }
      if !hasPublishCenter || deque.None? {
        return Threw(NoRequireParam(!hasPublishCenter, deque.None?));
      }
      trace := trace + [Subscribed(channel)];
      eventCenters := [];
      pChannels := map[];
      initialized := true;
      return Returned;
    }

    method Destroy()
      modifies this
      ensures State() == AfterDestroy(old(State()))
    {
      if !initialized || destroyed {
        return;
      }
      eventCenters := [];
      pChannels := map[];
      destroyed := true;
    }

    /** `publish`: hands the event to each event centre in turn. */
    method Publish(e: Event) returns (status: Status)
      modifies this
      ensures !old(initialized) ==> State() == old(State()) && status == Threw(NullPointer)
      ensures old(initialized) ==> State() == Published(old(State()), e) && status == Returned
    {
      if !initialized {
        return Threw(NullPointer);
      }
      var delivered := [];
      var i := 0;
      while i < |eventCenters|
        invariant 0 <= i <= |eventCenters|
        invariant delivered == Deliveries(eventCenters[..i], e)
      {
        assert Deliveries(eventCenters[..i + 1], e) == delivered + [Delivered(eventCenters[i], e)];
        delivered := delivered + [Delivered(eventCenters[i], e)];
        i := i + 1;
      }
      assert eventCenters[..i] == eventCenters;
      trace := trace + delivered;
      return Returned;
    }

    method RegisterEventCenter(center: nat) returns (status: Status)
      modifies this
      ensures (State(), status) == AfterRegisterCenter(old(State()), center)
    {
      if !initialized {
        return Threw(NullPointer);
      }
      eventCenters := eventCenters + [center];
      return Returned;
    }

    method Close(id: string, cause: CloseCause) returns (status: Status)
      modifies this
      ensures (State(), status) == AfterClose(old(State()), id, cause)
    {
      if IsEmpty(id) {
        return Returned;
      }
      if !initialized {
        return Threw(NullPointer);
      }
      if id !in pChannels {
        return Returned;
      }
      var c := pChannels[id];
      pChannels := pChannels - {id};
      trace := trace + [Closed(c.handle)];
      status := Publish(Event(id, Unregister, Closing(id, cause)));
    }

    /** `register(PChannel)`. */
    method RegisterChannel(c: Conn) returns (status: Status)
      modifies this
      ensures (State(), status) == AfterRegister(old(State()), c)
    {
      if !initialized {
        return Threw(NullPointer);
      }
      if c.id in pChannels && c.handle != pChannels[c.id].handle {
        status := Close(c.id, System);
        pChannels := pChannels[c.id := c];
      } else if c.id in pChannels {
        return Returned;
      } else {
        pChannels := pChannels[c.id := c];
        status := Publish(Event(c.id, Register, NoArg));
      }
    }

    method Receive(now: int, data: seq<byte>, src: string) returns (status: Status)
      modifies this
      ensures (State(), status) == AfterReceive(old(State()), now, data, src)
    {
      if !initialized {
        return Threw(NullPointer);
      }
      status := Publish(Event(src, Received, Payload(data)));
      if destroyed {
        return Threw(Rejected);
      }
      if src !in pChannels || |data| <= TypeOffset {
        status := Publish(Event(src, ReceivedError, Fault));
        return Returned;
      }
      var c := pChannels[src];
      var pd := ProtocolData(data, ChannelInfo(c.host, c.port, c.id));
      var kind := data[TypeOffset];
      pChannels := pChannels[src := c.(lastActive := now)];
      if kind == HeartbeatType {
        return Returned;
      }
      if deque.None? {
        status := Publish(Event(src, ReceivedError, Fault));
        return Returned;
      }
      deque := Some(deque.value + [pd]);
      return Returned;
    }

    /** `send`; None stands for a null frame and `writeOk` for a write that does not throw. */
    method Send(pd: Option<ProtocolData>, writeOk: bool) returns (reply: Sending)
      modifies this
      ensures (State(), reply) == AfterSend(old(State()), pd, writeOk)
    {
      if pd.None? {
        return Answer(ErrorFuture);
      }
      if !initialized {
        return Raise(NullPointer);
      }
      if pd.value.Channel() !in pChannels {
        return Answer(ErrorFuture);
      }
      var c := pChannels[pd.value.Channel()];
      var status := Publish(Event(c.id, ReceivedSuccess, Carried(pd.value)));
      if !writeOk {
        return Answer(ErrorFuture);
      }
      trace := trace + [Wrote(c.handle, pd.value.data)];
      status := Publish(Event(c.id, ProtocolEvent.Send, Carried(pd.value)));
      return Answer(WriteFuture(c.handle));
    }

    /** One pass of the cleanup thread at time `now`, visiting the registry in the map's iteration order. */
    method Sweep(now: int, order: seq<string>)
      requires initialized && Lists(order, pChannels.Keys)
      modifies this
      ensures State() == SweepOver(old(State()), now, order)
    {
      var i := 0;
      while i < |order|
        invariant 0 <= i <= |order| && initialized
        invariant SweepOver(State(), now, order[i..]) == SweepOver(old(State()), now, order)
      {
        ghost var before := State();
        var id := order[i];
        if id in pChannels {
          var c := pChannels[id];
          if TruncDiv(now - c.lastActive, 1000) - heartbeat > 0 {
            var status := Publish(Event(id, Unregister, Closing(id, Timeout)));
            trace := trace + [Closed(c.handle)];
            pChannels := pChannels - {id};
          }
        }
        assert State() == SweepOne(before, now, id);
        assert order[i..][1..] == order[i + 1..];
        i := i + 1;
      }
    }
  }
}
