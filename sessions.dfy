/**
 * The session store: `LocalSession`, a per-connection key/value store, and
 * `SessionManagerImpl`, the create-if-absent map from connection id to session.
 * Attribute values are opaque objects, modelled as tokens; a Java null is None.
 */
module Sessions {
  import opened Common
  import opened Channels

  /** `TreeMap.get`: the stored value, or null for an absent key. */
  function Attribute(attrs: map<string, Option<nat>>, key: string): (v: Option<nat>)
    ensures key !in attrs ==> v == None
    ensures key in attrs ==> v == attrs[key]
  {
    if key in attrs then attrs[key] else None
  }

  /** Reading a key back after storing it gives the stored value, and every other key reads as before. */
  lemma AttributeAfterPut(attrs: map<string, Option<nat>>, key: string, value: Option<nat>, other: string)
    requires other != key
    ensures Attribute(attrs[key := value], key) == value
    ensures Attribute(attrs[key := value], other) == Attribute(attrs, other)
  {
  }

  /** `LocalSession`: the connection it belongs to and its attributes. */
  class LocalSession {
    const channelInfo: ChannelInfo
    var cache: map<string, Option<nat>>

    /** A new session has no attributes. */
    constructor (channelInfo: ChannelInfo)
      ensures this.channelInfo == channelInfo && cache == map[]
    {
      this.channelInfo := channelInfo;
      cache := map[];
    }

    /** `getId`, `getRemoteHost`, `getRemotePort`: the connection's id, host and port. */
    function Id(): (id: string)
      ensures id == channelInfo.channel
    {
      channelInfo.channel
    }

    function RemoteHost(): (h: Option<string>)
      ensures h == channelInfo.host
    {
      channelInfo.host
    }

    function RemotePort(): (p: int)
      ensures p == channelInfo.port
    {
      channelInfo.port
    }

    method SetAttribute(key: string, value: Option<nat>)
      modifies this
      ensures cache == old(cache)[key := value]
    {
      cache := cache[key := value];
    }

    method GetAttribute(key: string) returns (value: Option<nat>)
      ensures value == Attribute(cache, key)
    {
      value := if key in cache then cache[key] else None;
    }
  }

  /** `SessionManagerImpl`: the map is null until `init`, which is when `get` and `remove` throw. */
  class SessionManagerImpl {
    var initialized: bool
    var cache: map<string, LocalSession>

    /** Each session is stored under its own connection id. */
    predicate Valid()
      reads this
    {
      forall id :: id in cache ==> cache[id].Id() == id
    }

    constructor ()
      ensures !initialized && cache == map[] && Valid()
    {
      initialized := false;
      cache := map[];
    }

    /** `init`: a new, empty map. */
    method Init()
      modifies this
      ensures initialized && cache == map[] && Valid()
    {
      initialized := true;
      cache := map[];
    }

    /** `destroy`: empties the map; before `init` it throws. */
    method Destroy() returns (threw: bool)
      modifies this
      ensures threw <==> !old(initialized)
      ensures initialized == old(initialized)
      ensures cache == if threw then old(cache) else map[]
    {
      if !initialized {
        return true;
      }
      cache := map[];
      return false;
    }

    /**
     * `get`: the session stored for the connection's id; a first access stores
     * a new session for that connection, so later accesses return the same
     * instance. No other id's entry changes. Before `init` the map is null and
     * the lookup throws NullPointerException.
     */
    method Get(channel: ChannelInfo) returns (session: LocalSession?, threw: bool)
      requires Valid()
      modifies this
      ensures Valid() && initialized == old(initialized)
      ensures threw <==> !initialized
      ensures threw ==> session == null && cache == old(cache)
      ensures !threw ==> session != null && session.Id() == channel.channel
                         && cache == old(cache)[channel.channel := session]
      ensures !threw && channel.channel in old(cache) ==> session == old(cache)[channel.channel]
      ensures !threw && channel.channel !in old(cache) ==>
                fresh(session) && session.cache == map[] && session.channelInfo == channel
    {
      if !initialized {
        return null, true;
      }
      var id := channel.channel;
      if id !in cache {
        var created := new LocalSession(channel);
        cache := cache[id := created];
      }
      session := cache[id];
      threw := false;
    }

    /** `remove` as written: returns the cached session, or null for a null connection, and deletes nothing. */
    method Remove(channel: Option<ChannelInfo>) returns (session: LocalSession?, threw: bool)
      ensures threw <==> channel.Some? && !initialized
      ensures channel.None? || threw ==> session == null
      ensures channel.Some? && !threw ==>
                session == (if channel.value.channel in cache then cache[channel.value.channel] else null)
    {
      if channel.None? {
        return null, false;
      }
      if !initialized {
        return null, true;
      }
      session := if channel.value.channel in cache then cache[channel.value.channel] else null;
      threw := false;
    }

    /** `remove` as its interface documents it: the session is returned and deleted. */
    method FixedRemove(channel: Option<ChannelInfo>) returns (session: LocalSession?, threw: bool)
      requires Valid()
      modifies this
      ensures Valid() && initialized == old(initialized)
      ensures threw <==> channel.Some? && !initialized
      ensures channel.None? || threw ==> session == null && cache == old(cache)
      ensures channel.Some? && !threw ==>
                && session == (if channel.value.channel in old(cache) then old(cache)[channel.value.channel] else null)
                && cache == old(cache) - {channel.value.channel}
    {
      if channel.None? {
        return null, false;
      }
      if !initialized {
        return null, true;
      }
      var id := channel.value.channel;
      session := if id in cache then cache[id] else null;
      cache := map k | k in cache && k != id :: cache[k];
      threw := false;
    }
  }

  /**
   * As written, a connection id that comes back after `remove` finds the old
   * session, attributes included.
   */
  method StaleAfterRemove() returns (seen: Option<nat>)
    ensures seen == Some(7)
  {
    var manager := new SessionManagerImpl();
    manager.Init();
    var info := ChannelOnly("c1");
    var first, _ := manager.Get(info);
    first.SetAttribute("user", Some(7));
    var removed, _ := manager.Remove(Some(info));
    var again, _ := manager.Get(info);
    seen := again.GetAttribute("user");
  }

  /** With `remove` deleting, the returning connection gets a new session with no attributes. */
  method FreshAfterFixedRemove() returns (seen: Option<nat>, renewed: bool)
    ensures seen == None && renewed
  {
    var manager := new SessionManagerImpl();
    manager.Init();
    var info := ChannelOnly("c1");
    var first, _ := manager.Get(info);
    first.SetAttribute("user", Some(7));
    var removed, _ := manager.FixedRemove(Some(info));
    var again, _ := manager.Get(info);
    seen := again.GetAttribute("user");
    renewed := again != first;
  }
}
