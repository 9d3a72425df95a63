/**
 * The reassembler as its design intends it: a frame is complete only once its
 * header is in and the write cursor has reached its declared length; the bytes
 * read past a frame are kept (the write cursor moves back by the frame's length
 * instead of to 0); and every complete frame in the buffer is handed over
 * before the next read. Under these rules any split of a stream of frames into
 * reads hands over exactly those frames, in order.
 */
module Draining {
  import opened Common
  import opened Wire
  import opened Reassembly

  /** A buffer and its write cursor; the required length is read from the header when needed. */
  datatype Buffered = Buffered(buf: seq<byte>, writePoint: nat)

  /** A buffer holding at least a header, with the write cursor inside it. */
  type Window = b: Buffered | b.writePoint <= |b.buf| && HeadLength <= |b.buf| <= IntMax
    witness Buffered(Zeros(HeadLength), 0)

  /** What draining the buffer did: the frames handed over, the buffer left, and the exception, if any. */
  datatype Drained = Drained(frames: seq<Datagram>, rest: Window, failure: Option<Failure>)

  /**
   * Hand over every complete frame at the front of the buffer; when the frame
   * at the front is incomplete and longer than the buffer, grow the buffer once.
   */
  function Drain(b: Window): (r: Drained)
    ensures |r.rest.buf| >= |b.buf| && r.rest.writePoint <= b.writePoint
    decreases b.writePoint, 1
  {
    if b.writePoint < HeadLength then Drained([], b, None)
    else
      var len := LengthField(b.buf, LengthFieldOffset) + HeadLength;
      if len > MaxLength then Drained([], b, Some(Malformed))
      else if b.writePoint < len then
        if len <= |b.buf| then Drained([], b, None)
        else if |b.buf| >= IntMax then Drained([], b, Some(OutOfMemory))
        else
          var n := NewCapacity(|b.buf|);
          Drained([], Buffered(b.buf[..b.writePoint] + Zeros(n - b.writePoint), b.writePoint), None)
      else Handover(b, len)
  }

  /** The frame at the front declares `len` bytes and all of them are in: decode it and drain the rest. */
  function Handover(b: Window, len: nat): (r: Drained)
    requires HeadLength <= len <= b.writePoint
    ensures |r.rest.buf| >= |b.buf| && r.rest.writePoint <= b.writePoint
    decreases b.writePoint, 0
  {
    match Decode(b.buf)
    case None => Drained([], b, Some(Malformed))
    case Some(d) =>
      var r := Drain(Buffered(ShiftLeft(b.buf, len), b.writePoint - len));
      Drained([d] + r.frames, r.rest, r.failure)
  }

  /** One read of `chunk` at the write cursor, then draining. */
  function Feed(b: Window, chunk: seq<byte>): (r: Drained)
    ensures b.writePoint + |chunk| > |b.buf| ==> r == Drained([], b, Some(IndexOutOfBounds))
    ensures |r.rest.buf| >= |b.buf| && r.rest.writePoint <= b.writePoint + |chunk|
    ensures forall i :: 0 <= i < |r.frames| ==> r.frames[i].WellFormed()
  {
    if b.writePoint + |chunk| > |b.buf| then Drained([], b, Some(IndexOutOfBounds))
    else
      var filled := Buffered(Fill(b.buf, b.writePoint, chunk), b.writePoint + |chunk|);
      DrainWellFormed(filled);
      Drain(filled)
  }

  /** Every frame draining hands over is well-formed. */
  lemma {:induction false} DrainWellFormed(b: Window)
    ensures forall i :: 0 <= i < |Drain(b).frames| ==> Drain(b).frames[i].WellFormed()
    decreases b.writePoint
  {
    if HeadLength <= b.writePoint {
      var len := LengthField(b.buf, LengthFieldOffset) + HeadLength;
      if len <= MaxLength && len <= b.writePoint && Decode(b.buf).Some? {
        var next := Buffered(ShiftLeft(b.buf, len), b.writePoint - len);
        DrainFrame(b, Decode(b.buf).value, len, next);
        DrainWellFormed(next);
      }
    }
  }

  /** The corrected read loop over a script of chunks. */
  function FeedAll(b: Window, chunks: seq<seq<byte>>): (r: Drained)
    ensures |r.rest.buf| >= |b.buf|
    ensures forall i :: 0 <= i < |r.frames| ==> r.frames[i].WellFormed()
    decreases |chunks|
  {
    if chunks == [] then Drained([], b, None)
    else
      var first := Feed(b, chunks[0]);
      if first.failure.Some? then first
      else
        var rest := FeedAll(first.rest, chunks[1..]);
        Drained(first.frames + rest.frames, rest.rest, rest.failure)
  }

  /** The bytes of a sequence of frames sent one after the other. */
  function Stream(ds: seq<Datagram>): (s: seq<byte>)
    ensures ds != [] ==> |ds[0].data| <= |s| && s[..|ds[0].data|] == ds[0].data
  {
    if ds == [] then [] else ds[0].data + Stream(ds[1..])
  }

  /** Every frame is well-formed and no longer than `m`. */
  ghost predicate Bounded(ds: seq<Datagram>, m: nat)
  {
    forall i :: 0 <= i < |ds| ==> ds[i].WellFormed() && |ds[i].data| <= m
  }

  /** The buffer holds the start of the stream `ds`, and no whole frame of it. */
  ghost predicate HoldsStart(b: Window, ds: seq<Datagram>)
  {
    && b.writePoint <= |Stream(ds)|
    && b.buf[..b.writePoint] == Stream(ds)[..b.writePoint]
    && (ds == [] ==> b.writePoint == 0)
    && (ds != [] ==> b.writePoint < |ds[0].data|)
  }

  /** A buffer that holds the first bytes of a frame `d`, but not all of them, waits. */
  lemma DrainWait(b: Window, d: Datagram)
    requires d.WellFormed() && b.writePoint < |d.data| <= |b.buf|
    requires b.buf[..b.writePoint] == d.data[..b.writePoint]
    ensures Drain(b) == Drained([], b, None)
  {
    if HeadLength <= b.writePoint {
      assert b.buf[..HeadLength] == d.data[..HeadLength];
      assert b.buf == b.buf[..HeadLength] + b.buf[HeadLength..];
      assert d.data == d.data[..HeadLength] + d.data[HeadLength..];
      LengthFieldOfPrefix(b.buf[..HeadLength], b.buf[HeadLength..], LengthFieldOffset);
      LengthFieldOfPrefix(d.data[..HeadLength], d.data[HeadLength..], LengthFieldOffset);
    }
  }

  /** One unfolding of `Drain` on a buffer whose front frame `d` is complete. */
  lemma DrainFrame(b: Window, d: Datagram, len: nat, next: Window)
    requires HeadLength <= b.writePoint && LengthField(b.buf, LengthFieldOffset) + HeadLength == len
    requires len <= MaxLength && len <= b.writePoint && Decode(b.buf) == Some(d)
    requires next == Buffered(ShiftLeft(b.buf, len), b.writePoint - len)
    ensures Drain(b) == Drained([d] + Drain(next).frames, Drain(next).rest, Drain(next).failure)
  {
  }

  /** A buffer that starts with a whole frame `d` hands it over and drains the bytes after it. */
  lemma DrainTake(b: Window, d: Datagram, next: Window)
    requires d.WellFormed() && |d.data| <= b.writePoint && b.buf[..|d.data|] == d.data
    requires next == Buffered(ShiftLeft(b.buf, |d.data|), b.writePoint - |d.data|)
    ensures Drain(b) == Drained([d] + Drain(next).frames, Drain(next).rest, Drain(next).failure)
  {
    FrontFrame(b.buf, d);
    DrainFrame(b, d, |d.data|, next);
  }

  /** A buffer that starts with the bytes of `d` declares `d`'s length and decodes to `d`. */
  lemma FrontFrame(buf: seq<byte>, d: Datagram)
    requires d.WellFormed() && |d.data| <= |buf| && buf[..|d.data|] == d.data
    ensures LengthField(buf, LengthFieldOffset) + HeadLength == |d.data|
    ensures Decode(buf) == Some(d)
  {
    assert buf == d.data + buf[|d.data|..];
    LengthFieldOfPrefix(d.data, buf[|d.data|..], LengthFieldOffset);
    DecodeWellFormed(d, buf[|d.data|..]);
  }

  /** Two sequences that agree up to `w` agree on every slice below `w`. */
  lemma AgreeBelow(x: seq<byte>, y: seq<byte>, w: nat, k: nat)
    requires k <= w <= |x| && w <= |y| && x[..w] == y[..w]
    ensures x[..k] == y[..k] && x[k..w] == y[k..w]
  {
    assert x[..k] == x[..w][..k] && y[..k] == y[..w][..k];
    assert x[k..w] == x[..w][k..] && y[k..w] == y[..w][k..];
  }

  /** Past a prefix `a`, slices of `a + t` are slices of `t`. */
  lemma PastPrefix(a: seq<byte>, t: seq<byte>, w: nat)
    requires |a| <= w <= |a| + |t|
    ensures (a + t)[..|a|] == a && (a + t)[|a|..w] == t[..w - |a|] && (a + t)[w..] == t[w - |a|..]
  {
  }

  /** Past the first frame, the stream is the stream of the remaining frames. */
  lemma StreamAfterFirst(ds: seq<Datagram>, b: Window)
    requires ds != [] && |ds[0].data| <= b.writePoint <= |Stream(ds)|
    requires b.buf[..b.writePoint] == Stream(ds)[..b.writePoint]
    ensures var n := |ds[0].data|;
            && b.buf[..n] == ds[0].data
            && ShiftLeft(b.buf, n)[..b.writePoint - n] == Stream(ds[1..])[..b.writePoint - n]
            && Stream(ds)[b.writePoint..] == Stream(ds[1..])[b.writePoint - n..]
  {
    var n, w := |ds[0].data|, b.writePoint;
    var t := Stream(ds[1..]);
    assert Stream(ds) == ds[0].data + t;
    PastPrefix(ds[0].data, t, w);
    AgreeBelow(b.buf, Stream(ds), w, n);
    assert ShiftLeft(b.buf, n)[..w - n] == b.buf[n..w];
  }

  /** What draining a buffer that holds the start of the stream `ds` leaves. */
  ghost predicate DrainsStream(b: Window, ds: seq<Datagram>, r: Drained)
  {
    var k := |r.frames|;
    && b.writePoint <= |Stream(ds)|
    && r.failure.None? && k <= |ds| && r.frames == ds[..k]
    && |r.rest.buf| == |b.buf|
    && HoldsStart(r.rest, ds[k..])
    && Stream(ds[k..])[r.rest.writePoint..] == Stream(ds)[b.writePoint..]
  }

  /** A buffer holding no whole frame drains to itself. */
  lemma DrainsStreamNone(b: Window, ds: seq<Datagram>)
    requires HoldsStart(b, ds)
    ensures DrainsStream(b, ds, Drained([], b, None))
  {
    assert ds[0..] == ds;
  }

  /** Taking `k` more frames after the first is taking `k + 1` frames. */
  lemma TailSuffix(ds: seq<Datagram>, k: nat)
    requires k < |ds|
    ensures ds[1..][k..] == ds[k + 1..] && [ds[0]] + ds[1..][..k] == ds[..k + 1]
  {
  }

  /** Handing over the first frame and then draining the rest drains the whole stream. */
  lemma DrainsStreamCons(b: Window, ds: seq<Datagram>, next: Window, r: Drained)
    requires ds != [] && |ds[0].data| <= b.writePoint <= |Stream(ds)|
    requires next.writePoint == b.writePoint - |ds[0].data| && |next.buf| == |b.buf|
    requires Stream(ds)[b.writePoint..] == Stream(ds[1..])[next.writePoint..]
    requires DrainsStream(next, ds[1..], r)
    ensures DrainsStream(b, ds, Drained([ds[0]] + r.frames, r.rest, r.failure))
  {
    TailSuffix(ds, |r.frames|);
  }

  /** A buffer holding part of the first frame of the stream drains to itself. */
  lemma DrainStreamWait(b: Window, ds: seq<Datagram>)
    requires ds != [] && ds[0].WellFormed() && b.writePoint < |ds[0].data| <= |b.buf|
    requires b.writePoint <= |Stream(ds)| && b.buf[..b.writePoint] == Stream(ds)[..b.writePoint]
    ensures DrainsStream(b, ds, Drain(b))
  {
    assert Stream(ds)[..b.writePoint] == ds[0].data[..b.writePoint];
    DrainWait(b, ds[0]);
    DrainsStreamNone(b, ds);
  }

  /** A buffer holding the first frame of the stream whole hands it over, then drains the rest of the stream. */
  lemma DrainStreamTake(b: Window, ds: seq<Datagram>, next: Window)
    requires ds != [] && ds[0].WellFormed() && |ds[0].data| <= b.writePoint <= |Stream(ds)|
    requires b.buf[..b.writePoint] == Stream(ds)[..b.writePoint]
    requires next == Buffered(ShiftLeft(b.buf, |ds[0].data|), b.writePoint - |ds[0].data|)
    requires DrainsStream(next, ds[1..], Drain(next))
    ensures DrainsStream(b, ds, Drain(b))
  {
    StreamAfterFirst(ds, b);
    DrainTake(b, ds[0], next);
    DrainsStreamCons(b, ds, next, Drain(next));
  }

  /**
   * Draining a buffer that holds the first `writePoint` bytes of the stream
   * `ds` hands over the whole frames among them, in order, and leaves the rest
   * of those bytes at the front of the buffer, with no whole frame among them.
   */
  lemma {:induction false} DrainStream(b: Window, ds: seq<Datagram>, m: nat)
    requires Bounded(ds, m) && m <= |b.buf|
    requires b.writePoint <= |Stream(ds)| && b.buf[..b.writePoint] == Stream(ds)[..b.writePoint]
    ensures DrainsStream(b, ds, Drain(b))
    decreases b.writePoint
  {
    if ds == [] {
      assert Drain(b) == Drained([], b, None);
      DrainsStreamNone(b, ds);
    } else {
      var d := ds[0];
      assert d.WellFormed() && |d.data| <= m;
      if b.writePoint < |d.data| {
        DrainStreamWait(b, ds);
      } else {
        StreamAfterFirst(ds, b);
        var next: Window := Buffered(ShiftLeft(b.buf, |d.data|), b.writePoint - |d.data|);
        DrainStream(next, ds[1..], m);
        DrainStreamTake(b, ds, next);
      }
    }
  }

  /** A read that fits writes the chunk at the write cursor and drains. */
  lemma FeedFits(b: Window, ch: seq<byte>, filled: Window)
    requires b.writePoint + |ch| <= |b.buf|
    requires filled == Buffered(Fill(b.buf, b.writePoint, ch), b.writePoint + |ch|)
    ensures Feed(b, ch) == Drain(filled)
  {
  }

  /** Writing the next bytes of `s` after a prefix of `s` extends the prefix. */
  lemma FillPrefix(buf: seq<byte>, at: nat, ch: seq<byte>, s: seq<byte>)
    requires at + |ch| <= |buf| && at + |ch| <= |s|
    requires buf[..at] == s[..at] && ch == s[at..at + |ch|]
    ensures Fill(buf, at, ch)[..at + |ch|] == s[..at + |ch|]
  {
    assert Fill(buf, at, ch)[..at + |ch|] == buf[..at] + ch;
    assert s[..at + |ch|] == s[..at] + s[at..at + |ch|];
  }

  /**
   * One read of the next bytes of the stream, into a buffer that holds its
   * start and no whole frame, followed by draining.
   */
  lemma FeedStream(b: Window, ds: seq<Datagram>, ch: seq<byte>, m: nat)
    requires Bounded(ds, m) && m + |ch| <= |b.buf|
    requires HoldsStart(b, ds) && b.writePoint + |ch| <= |Stream(ds)|
    requires ch == Stream(ds)[b.writePoint..b.writePoint + |ch|]
    ensures DrainsStream(Buffered(Fill(b.buf, b.writePoint, ch), b.writePoint + |ch|), ds, Feed(b, ch))
  {
    if ds != [] {
      assert |ds[0].data| <= m;
    }
    var wp := b.writePoint + |ch|;
    var filled: Window := Buffered(Fill(b.buf, b.writePoint, ch), wp);
    FeedFits(b, ch, filled);
    FillPrefix(b.buf, b.writePoint, ch, Stream(ds));
    DrainStream(filled, ds, m);
  }

  /** The first read of a script that carries the rest of the stream leaves the loop ready for the remaining reads. */
  lemma FeedFirst(b: Window, ds: seq<Datagram>, chunks: seq<seq<byte>>, m: nat)
    requires chunks != [] && Bounded(ds, m)
    requires forall j :: 0 <= j < |chunks| ==> m + |chunks[j]| <= |b.buf|
    requires HoldsStart(b, ds) && Concat(chunks) == Stream(ds)[b.writePoint..]
    ensures var first := Feed(b, chunks[0]);
            var k := |first.frames|;
            && first.failure.None? && k <= |ds| && first.frames == ds[..k]
            && |first.rest.buf| == |b.buf| && Bounded(ds[k..], m)
            && HoldsStart(first.rest, ds[k..])
            && Concat(chunks[1..]) == Stream(ds[k..])[first.rest.writePoint..]
  {
    var ch := chunks[0];
    ConcatSlices(chunks, Stream(ds), b.writePoint);
    assert m + |ch| <= |b.buf|;
    FeedStream(b, ds, ch, m);
    BoundedSuffix(ds, m, |Feed(b, ch).frames|);
  }

  lemma BoundedSuffix(ds: seq<Datagram>, m: nat, k: nat)
    requires Bounded(ds, m) && k <= |ds|
    ensures Bounded(ds[k..], m)
  {
    forall i | 0 <= i < |ds[k..]| ensures ds[k..][i].WellFormed() && |ds[k..][i].data| <= m {
      assert ds[k..][i] == ds[k + i];
    }
  }

  /**
   * The corrected loop receives any split of a stream of frames: started on a
   * buffer that holds the start of the stream and no whole frame, and fed the
   * rest of the stream in reads that each fit the room left by the longest
   * frame, it hands over exactly the frames, in order, and ends with an empty
   * buffer.
   */
  lemma {:induction false} FeedAllStream(b: Window, ds: seq<Datagram>, chunks: seq<seq<byte>>, m: nat)
    requires Bounded(ds, m)
    requires forall j :: 0 <= j < |chunks| ==> m + |chunks[j]| <= |b.buf|
    requires HoldsStart(b, ds) && Concat(chunks) == Stream(ds)[b.writePoint..]
    ensures var r := FeedAll(b, chunks);
            r.frames == ds && r.failure.None? && r.rest.writePoint == 0 && |r.rest.buf| == |b.buf|
    decreases |chunks|
  {
    if chunks != [] {
      FeedFirst(b, ds, chunks, m);
      var first := Feed(b, chunks[0]);
      var k := |first.frames|;
      FeedAllStream(first.rest, ds[k..], chunks[1..], m);
      assert ds == ds[..k] + ds[k..];
    }
  }

  /**
   * From an empty buffer of any content: however a stream of well-formed
   * frames is split into reads, the corrected loop hands over exactly those
   * frames, in order.
   */
  lemma ReceivesAnySplit(b: Window, ds: seq<Datagram>, chunks: seq<seq<byte>>, m: nat)
    requires b.writePoint == 0 && Bounded(ds, m)
    requires forall j :: 0 <= j < |chunks| ==> m + |chunks[j]| <= |b.buf|
    requires Concat(chunks) == Stream(ds)
    ensures var r := FeedAll(b, chunks);
            r.frames == ds && r.failure.None? && r.rest.writePoint == 0
  {
    if ds != [] {
      assert ds[0].WellFormed();
    }
    FeedAllStream(b, ds, chunks, m);
  }
}
