/**
 * The unit the protocol stack hands to the application: a frame's bytes and
 * the connection it came from or goes to (`ProtocolData` and its nested
 * `ChannelInfo`).
 */
module Channels {
  import opened Common
  import opened Wire

  /** Where a connection ends: remote host (null when unknown), remote port and connection id. */
  datatype ChannelInfo = ChannelInfo(host: Option<string>, port: int, channel: string)

  /** `new ChannelInfo(channel)`: host unknown and port -1. */
  function ChannelOnly(channel: string): (info: ChannelInfo)
    ensures info.channel == channel && info.host == None && info.port == -1
  {
    ChannelInfo(None, -1, channel)
  }

  /** A frame's bytes and the connection they belong to. */
  datatype ProtocolData = ProtocolData(data: seq<byte>, channelInfo: ChannelInfo)
  {
    /** `getChannel()`: the connection id. */
    function Channel(): (c: string)
      ensures c == channelInfo.channel
    {
      channelInfo.channel
    }

    /** `id()`: also the connection id. */
    function Id(): (c: string)
      ensures c == Channel()
    {
      channelInfo.channel
    }

    function RemotePort(): (p: int)
      ensures p == channelInfo.port
    {
      channelInfo.port
    }

    function RemoteHost(): (h: Option<string>)
      ensures h == channelInfo.host
    {
      channelInfo.host
    }
  }

  /** `getChannel()` and `id()` are two names for one value, and the accessors read back what was built. */
  lemma AccessorsAgree(data: seq<byte>, info: ChannelInfo)
    ensures var pd := ProtocolData(data, info);
            && pd.Channel() == pd.Id() == info.channel
            && pd.RemotePort() == info.port && pd.RemoteHost() == info.host
  {
  }
}
