/**
 * The datagram wire format: a fixed 16-byte header followed by a body.
 *
 *   byte 0       version
 *   bytes 1..4   body length, big-endian, header excluded
 *   byte 5       type (0 heartbeat, 1 MVC data, other values user-defined)
 *   bytes 6..15  charset tag
 *   bytes 16..   body
 *
 * `Decode` and `Build` play the part of the framework's datagram utility
 * (`convert`, `decode`, `build`), reconstructed from this header layout.
 */
module Wire {
  import opened Common

  /** An octet, as the unsigned value `b & 0xFF` of a Java `byte`. */
  newtype byte = x: int | 0 <= x < 0x100

  /** `Datagram.MAX_LENGTH`: the largest frame, header and body together. */
  const MaxLength: int := IntMax
  const HeadLength: nat := 16
  const LengthFieldOffset: nat := 1
  const LengthFieldLength: nat := 4
  const TypeOffset: nat := 5
  const CharsetOffset: nat := 6
  const CharsetLength: nat := 10

  const HeartbeatType: byte := 0
  const MvcType: byte := 1

  /** The charset tag written by `Build` (ASCII "UTF-8", zero padded to ten bytes). */
  const DefaultCharset: seq<byte> := [0x55, 0x54, 0x46, 0x2D, 0x38, 0, 0, 0, 0, 0]

  /**
   * A decoded frame. `data` holds header and body, `size` the body length only.
   * The value is immutable, as the Java fields are final.
   */
  datatype Datagram = Datagram(data: seq<byte>, size: int, body: seq<byte>,
                               version: byte, charset: seq<byte>, kind: byte)
  {
    predicate IsHeartbeat() { kind == HeartbeatType }
    predicate IsMvc() { kind == MvcType }

    /** The invariants every decoded or built datagram satisfies. */
    ghost predicate WellFormed() {
      && size == |body|
      && |data| == HeadLength + size
      && data[HeadLength..] == body
      && data[0] == version
      && data[TypeOffset] == kind
      && data[CharsetOffset..HeadLength] == charset
      && LengthField(data, LengthFieldOffset) == size
    }
  }

  /** The length field (`DatagramUtil.convert`): four bytes at `offset`, big-endian. */
  function LengthField(buf: seq<byte>, offset: nat): (n: nat)
    requires offset + LengthFieldLength <= |buf|
    ensures n < 0x1_0000_0000
  {
    buf[offset] as nat * 0x100_0000 + buf[offset + 1] as nat * 0x1_0000
      + buf[offset + 2] as nat * 0x100 + buf[offset + 3] as nat
  }

  /** `n` as four big-endian bytes. */
  function LengthBytes(n: nat): (b: seq<byte>)
    requires n < 0x1_0000_0000
    ensures |b| == LengthFieldLength && LengthField(b, 0) == n
  {
    var q1 := n / 0x100;
    var q2 := q1 / 0x100;
    var q3 := q2 / 0x100;
    assert q3 < 0x100;
    var b := [q3 as byte, (q2 % 0x100) as byte, (q1 % 0x100) as byte, (n % 0x100) as byte];
    ByteValue(q3);
    ByteValue(q2 % 0x100);
    ByteValue(q1 % 0x100);
    ByteValue(n % 0x100);
    assert LengthField(b, 0) == ((q3 * 0x100 + q2 % 0x100) * 0x100 + q1 % 0x100) * 0x100 + n % 0x100;
    b
  }

  lemma ByteValue(x: int)
    requires 0 <= x < 256
    ensures (x as byte) as int == x
  {
  }

  /** Only the four length bytes matter to the length field. */
  lemma LengthFieldOfPrefix(buf: seq<byte>, rest: seq<byte>, offset: nat)
    requires offset + LengthFieldLength <= |buf|
    ensures LengthField(buf + rest, offset) == LengthField(buf, offset)
  {
    assert (buf + rest)[offset..offset + LengthFieldLength] == buf[offset..offset + LengthFieldLength];
  }

  /**
   * Decode the frame at the start of `buf` (`DatagramUtil.decode`); None when the
   * buffer is shorter than a header or than the body length the header declares.
   */
  function Decode(buf: seq<byte>): (r: Option<Datagram>)
    ensures r.Some? <==> |buf| >= HeadLength && LengthField(buf, LengthFieldOffset) <= |buf| - HeadLength
    ensures r.Some? ==> r.value.WellFormed() && |r.value.data| <= |buf| && r.value.data == buf[..|r.value.data|]
  {
    if |buf| < HeadLength then None
    else
      var n := LengthField(buf, LengthFieldOffset);
      if |buf| - HeadLength < n then None
      else
        var frame := buf[..HeadLength + n];
        assert frame[LengthFieldOffset..LengthFieldOffset + LengthFieldLength]
            == buf[LengthFieldOffset..LengthFieldOffset + LengthFieldLength];
        Some(Datagram(frame, n, frame[HeadLength..], frame[0], frame[CharsetOffset..HeadLength], frame[TypeOffset]))
  }

  /** The bytes of a frame with the given body, type, version and charset tag. */
  function Encode(body: seq<byte>, kind: byte, version: byte, charset: seq<byte>): (frame: seq<byte>)
    requires |charset| == CharsetLength
    requires |body| <= MaxLength - HeadLength
    ensures |frame| == HeadLength + |body|
    ensures frame[0] == version && frame[TypeOffset] == kind
    ensures frame[CharsetOffset..HeadLength] == charset && frame[HeadLength..] == body
    ensures LengthField(frame, LengthFieldOffset) == |body|
  {
    var len := LengthBytes(|body|);
    var frame := [version] + len + [kind] + charset + body;
    assert frame[LengthFieldOffset..LengthFieldOffset + LengthFieldLength] == len;
    assert LengthField(frame, LengthFieldOffset) == LengthField(len, 0);
    frame
  }

  /** `DatagramUtil.build(body, type, version)`: a well-formed datagram around `body`. */
  function Build(body: seq<byte>, kind: byte, version: byte): (d: Datagram)
    requires |body| <= MaxLength - HeadLength
    ensures d.WellFormed()
    ensures d.body == body && d.kind == kind && d.version == version && d.size == |body|
    ensures d.charset == DefaultCharset
  {
    var frame := Encode(body, kind, version, DefaultCharset);
    Datagram(frame, |body|, body, version, DefaultCharset, kind)
  }

  /**
   * Round trip: decoding a buffer that starts with a built frame gives back that
   * datagram, whatever bytes follow it.
   */
  lemma DecodeBuild(body: seq<byte>, kind: byte, version: byte, rest: seq<byte>)
    requires |body| <= MaxLength - HeadLength
    ensures Decode(Build(body, kind, version).data + rest) == Some(Build(body, kind, version))
  {
    var d := Build(body, kind, version);
    var buf := d.data + rest;
    LengthFieldOfPrefix(d.data, rest, LengthFieldOffset);
    assert buf[..HeadLength + |body|] == d.data;
  }

  /**
   * A datagram is decided by its frame bytes: decoding a buffer that starts
   * with them gives it back, whatever bytes follow.
   */
  lemma DecodeWellFormed(d: Datagram, rest: seq<byte>)
    requires d.WellFormed()
    ensures Decode(d.data + rest) == Some(d)
  {
    LengthFieldOfPrefix(d.data, rest, LengthFieldOffset);
    assert (d.data + rest)[..HeadLength + d.size] == d.data;
  }

  /** The header is exactly 16 bytes and `size` counts the body only. */
  lemma HeaderLayout(d: Datagram)
    requires d.WellFormed()
    ensures |d.data| - |d.body| == HeadLength
    ensures d.size == LengthField(d.data, LengthFieldOffset) == |d.body|
    ensures d.data[..HeadLength] == [d.version] + d.data[1..5] + [d.kind] + d.charset
  {
  }
}
