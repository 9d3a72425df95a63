/**
 * The stream reassembler (`LengthFieldBasedFrameDecoder.read`): a growable byte
 * buffer, a write cursor and the required frame length. Each loop iteration
 * reads into the free tail of the buffer, learns the frame length once a full
 * header is present, and either hands over one decoded frame (shifting the
 * buffer left and resetting both cursors), grows the buffer, or waits.
 *
 * `Step` states one iteration on values and `Loop` the whole loop for any
 * step function; `Run` is the loop of `Step`. The model follows the code as
 * written, including that `dataLen` is still 0 while fewer than 16 bytes are
 * buffered and that `writePoint` is reset to 0 after a frame.
 */
module Reassembly {
  import opened Common
  import opened Wire

  /** What one `in.read(buffer, writePoint, buffer.length - writePoint)` call delivers. */
  datatype ReadResult = Bytes(chunk: seq<byte>) | EndOfStream | IoFailure

  /** The exception that ends the read loop. */
  datatype Failure = IoError | IndexOutOfBounds | OutOfMemory | Malformed | NegativeArraySize

  /** What one iteration of the loop did. */
  datatype StepResult = Frame(d: Datagram) | Grew(capacity: nat) | Pending | Failed(f: Failure)

  /** Where the length field sits and how long the header is. */
  datatype Layout = Layout(lengthFieldOffset: nat, headLength: nat)

  /** A layout whose four length bytes lie inside the header. */
  type FrameLayout = l: Layout | l.lengthFieldOffset + LengthFieldLength <= l.headLength
    witness Layout(0, LengthFieldLength)

  /** The layout of the default constructor: length field at byte 1, 16-byte header. */
  const DefaultLayout: FrameLayout := Layout(LengthFieldOffset, HeadLength)

  /** The loop's local variables: the buffer, `dataLen` and `writePoint`. */
  datatype Cursor = Cursor(buf: seq<byte>, dataLen: int, writePoint: int)

  /**
   * The states the loop can be in: a Java array holds at most
   * `Integer.MAX_VALUE` bytes, and an end-of-stream read can take the write
   * cursor to -1.
   */
  type LoopState = c: Cursor | -1 <= c.writePoint <= |c.buf| <= IntMax
    witness Cursor([], 0, 0)

  function Zeros(n: nat): (z: seq<byte>)
    ensures |z| == n && forall i :: 0 <= i < n ==> z[i] == 0
  {
    if n == 0 then [] else [0] + Zeros(n - 1)
  }

  /** A read that fits the room `in.read` was offered at the current write cursor. */
  predicate Fits(c: Cursor, r: ReadResult)
  {
    c.writePoint >= 0 && (r.Bytes? ==> c.writePoint + |r.chunk| <= |c.buf|)
  }

  /** `buf` with `chunk` written at index `at`. */
  function Fill(buf: seq<byte>, at: nat, chunk: seq<byte>): (r: seq<byte>)
    requires at + |chunk| <= |buf|
    ensures |r| == |buf| && r[..at] == buf[..at] && r[at..at + |chunk|] == chunk
    ensures r[at + |chunk|..] == buf[at + |chunk|..]
  {
    buf[..at] + chunk + buf[at + |chunk|..]
  }

  /** `System.arraycopy(buf, k, buf, 0, buf.length - k)`: the tail from `k` moves to the front. */
  function ShiftLeft(buf: seq<byte>, k: nat): (r: seq<byte>)
    requires k <= |buf|
    ensures |r| == |buf|
    ensures r[..|buf| - k] == buf[k..] && r[|buf| - k..] == buf[|buf| - k..]
  {
    buf[k..] + buf[|buf| - k..]
  }

  /**
   * The capacity after one growth: `old + min(old / 2, 2048)` in `int`
   * arithmetic, replaced by `Integer.MAX_VALUE` when the sum overflows.
   */
  function NewCapacity(len: nat): (n: nat)
    requires len < IntMax
    ensures n == Min(len + Min(len / 2, 2048), IntMax)
  {
    var grown := ToInt32(len + Min(len / 2, 2048));
    if grown < 0 then IntMax else grown
  }

  /** Growth strictly increases a capacity of at least 2, by at most 2048, and never exceeds the maximum. */
  lemma CapacityGrows(len: nat)
    requires 2 <= len < IntMax
    ensures len < NewCapacity(len) <= IntMax
    ensures NewCapacity(len) - len <= 2048
  {
  }

  /** An iteration's outcome: the new local state and what happened. */
  datatype Outcome = Outcome(next: LoopState, result: StepResult)

  /**
   * The part of an iteration after the read: hand over a complete frame, grow
   * the buffer when the frame cannot fit, or wait for more bytes.
   */
  function Settle(c: LoopState): (o: Outcome)
    ensures |o.next.buf| >= |c.buf|
    ensures o.result.Failed? || o.result.Pending? ==> o.next == c
    ensures o.result.Pending? ==> c.writePoint < c.dataLen <= |c.buf|
    ensures o.result.Frame? ==>
              && o.result.d.WellFormed() && |o.result.d.data| <= |c.buf| && o.result.d.data == c.buf[..|o.result.d.data|]
              && o.next.writePoint == 0 && o.next.dataLen == 0 && |o.next.buf| == |c.buf|
    ensures o.result.Grew? ==>
              && 0 <= c.writePoint < c.dataLen && |c.buf| < c.dataLen && |c.buf| < IntMax
              && o.result.capacity == |o.next.buf| == NewCapacity(|c.buf|)
              && o.next.writePoint == c.writePoint && o.next.dataLen == c.dataLen
              && o.next.buf[..c.writePoint] == c.buf[..c.writePoint]
  {
    if c.writePoint >= c.dataLen then
      match Decode(c.buf)
      case None => Outcome(c, Failed(Malformed))
      case Some(d) =>
        if c.dataLen < 0 then Outcome(c, Failed(IndexOutOfBounds))
        else Outcome(Cursor(ShiftLeft(c.buf, c.dataLen), 0, 0), Frame(d))
    else if c.dataLen > |c.buf| then
      if |c.buf| >= IntMax then Outcome(c, Failed(OutOfMemory))
      else if c.writePoint < 0 then Outcome(c, Failed(IndexOutOfBounds))
      else
        var n := NewCapacity(|c.buf|);
        Outcome(Cursor(c.buf[..c.writePoint] + Zeros(n - c.writePoint), c.dataLen, c.writePoint), Grew(n))
    else Outcome(c, Pending)
  }

  /**
   * The local state right after a read that fits: the chunk written at the
   * write cursor (or the cursor moved back by one at the end of the stream), and
   * the required length recomputed from the length field once the header is in.
   */
  function Received(layout: FrameLayout, c: LoopState, r: ReadResult): (d: LoopState)
    requires Fits(c, r) && !r.IoFailure?
    ensures |d.buf| == |c.buf|
    ensures r.Bytes? ==> d.writePoint == c.writePoint + |r.chunk|
                         && d.buf[..c.writePoint] == c.buf[..c.writePoint]
                         && d.buf[c.writePoint..d.writePoint] == r.chunk
                         && d.buf[d.writePoint..] == c.buf[d.writePoint..]
    ensures r.EndOfStream? ==> d.writePoint == c.writePoint - 1 && d.buf == c.buf
    ensures d.writePoint >= layout.headLength ==>
              d.dataLen == ToInt32(LengthField(d.buf, layout.lengthFieldOffset) + layout.headLength)
    ensures d.writePoint < layout.headLength ==> d.dataLen == c.dataLen
  {
    var buf := if r.Bytes? then Fill(c.buf, c.writePoint, r.chunk) else c.buf;
    var wp := if r.Bytes? then c.writePoint + |r.chunk| else c.writePoint - 1;
    var dl := if wp >= layout.headLength
              then ToInt32(LengthField(buf, layout.lengthFieldOffset) + layout.headLength)
              else c.dataLen;
    Cursor(buf, dl, wp)
  }

  /**
   * One iteration of the read loop. A read at a negative offset throws before
   * anything is read, and so does a read result longer than the room offered
   * (which `InputStream.read` never returns); an end-of-stream read adds -1 to
   * the write cursor.
   */
  function Step(layout: FrameLayout, c: LoopState, r: ReadResult): (o: Outcome)
    ensures !Fits(c, r) ==> o == Outcome(c, Failed(IndexOutOfBounds))
    ensures Fits(c, r) && r.IoFailure? ==> o == Outcome(c, Failed(IoError))
    ensures |o.next.buf| >= |c.buf|
    ensures o.result.Pending? ==> o.next.writePoint < o.next.dataLen <= |o.next.buf|
    ensures o.result.Frame? ==> o.result.d.WellFormed() && o.next.writePoint == 0 && o.next.dataLen == 0
  {
    if !Fits(c, r) then Outcome(c, Failed(IndexOutOfBounds))
    else if r.IoFailure? then Outcome(c, Failed(IoError))
    else Settle(Received(layout, c, r))
  }

  /**
   * An iteration that waits or grows keeps every byte received so far, in
   * place: the first `writePoint` bytes are the old ones followed by the chunk.
   */
  lemma StepKeepsBytes(layout: FrameLayout, c: LoopState, r: ReadResult)
    requires Fits(c, r) && r.Bytes?
    ensures var o := Step(layout, c, r);
            o.result.Pending? || o.result.Grew? ==>
              && o.next.writePoint == c.writePoint + |r.chunk| <= |o.next.buf|
              && o.next.buf[..o.next.writePoint] == c.buf[..c.writePoint] + r.chunk
  {
    var o := Step(layout, c, r);
    var d := Received(layout, c, r);
    if o.result.Pending? || o.result.Grew? {
      assert d.buf[..d.writePoint] == d.buf[..c.writePoint] + d.buf[c.writePoint..d.writePoint];
      assert o.next.buf[..o.next.writePoint] == d.buf[..d.writePoint];
    }
  }

  /**
   * A frame is handed over exactly when the write cursor has reached a
   * non-negative required length and the buffer starts with a decodable frame;
   * the frame is decoded from the start of the buffer, the bytes from the
   * required length on move to the front and both cursors are reset to 0.
   */
  lemma StepFrame(layout: FrameLayout, c: LoopState, r: ReadResult)
    ensures var o := Step(layout, c, r);
            o.result.Frame? <==>
              (Fits(c, r) && !r.IoFailure? &&
               var d := Received(layout, c, r);
               0 <= d.dataLen <= d.writePoint && Decode(d.buf).Some?)
    ensures var o := Step(layout, c, r);
            o.result.Frame? ==>
              var d := Received(layout, c, r);
              && Decode(d.buf) == Some(o.result.d)
              && o.next == Cursor(ShiftLeft(d.buf, d.dataLen), 0, 0)
  {
  }

  /**
   * The buffer grows only when the frame is incomplete and longer than the
   * buffer; it grows to `NewCapacity`, keeps the first `writePoint` bytes and
   * zero-fills the rest. A buffer already at `Integer.MAX_VALUE` cannot grow:
   * the loop fails.
   */
  lemma StepGrowth(layout: FrameLayout, c: LoopState, r: ReadResult)
    ensures var o := Step(layout, c, r);
            o.result.Grew? <==>
              (Fits(c, r) && !r.IoFailure? &&
               var d := Received(layout, c, r);
               0 <= d.writePoint < d.dataLen && |d.buf| < d.dataLen && |d.buf| < IntMax)
    ensures var o := Step(layout, c, r);
            o.result.Grew? ==>
              var d := Received(layout, c, r);
              && o.result.capacity == |o.next.buf| == NewCapacity(|c.buf|)
              && o.next.writePoint == d.writePoint && o.next.dataLen == d.dataLen
              && o.next.buf[..d.writePoint] == d.buf[..d.writePoint]
              && forall i :: d.writePoint <= i < |o.next.buf| ==> o.next.buf[i] == 0
    ensures var o := Step(layout, c, r);
            o.result == Failed(OutOfMemory) <==>
              (Fits(c, r) && !r.IoFailure? &&
               var d := Received(layout, c, r);
               d.writePoint < d.dataLen && |d.buf| < d.dataLen && |d.buf| == IntMax)
  {
  }

  /** The outcome of a loop over a finite script of reads. */
  datatype RunOut = RunOut(last: LoopState, frames: seq<Datagram>, failure: Option<Failure>, ended: bool)

  /** The frames one iteration contributes. */
  function Emitted(result: StepResult): (frames: seq<Datagram>)
    ensures result.Frame? ==> frames == [result.d]
    ensures !result.Frame? ==> frames == []
  {
    if result.Frame? then [result.d] else []
  }

  /**
   * The read loop over a finite script of reads, for any per-iteration
   * function `step`: the frames in the order they complete, and the exception
   * that stopped it, if any. With `stopAtEnd` the loop also stops after the
   * iteration that saw the end of the stream.
   */
  function Loop(step: (LoopState, ReadResult) -> Outcome, c: LoopState, script: seq<ReadResult>, stopAtEnd: bool): (out: RunOut)
    ensures out.ended ==> stopAtEnd && out.failure.None?
    decreases |script|
  {
    if script == [] then RunOut(c, [], None, false)
    else
      var o := step(c, script[0]);
      if o.result.Failed? then RunOut(o.next, [], Some(o.result.f), false)
      else if stopAtEnd && script[0].EndOfStream? then RunOut(o.next, Emitted(o.result), None, true)
      else
        var rest := Loop(step, o.next, script[1..], stopAtEnd);
        RunOut(rest.last, Emitted(o.result) + rest.frames, rest.failure, rest.ended)
  }

  /** The reassembler's per-iteration function. */
  function Stepper(layout: FrameLayout): (LoopState, ReadResult) -> Outcome
  {
    (c: LoopState, r: ReadResult) => Step(layout, c, r)
  }

  /**
   * The reassembler's read loop: at most one frame per read, every one of them
   * a well-formed datagram.
   */
  function Run(layout: FrameLayout, c: LoopState, script: seq<ReadResult>, stopAtEnd: bool): (out: RunOut)
    ensures |out.frames| <= |script|
    ensures forall d :: d in out.frames ==> d.WellFormed()
    ensures out.ended ==> stopAtEnd && out.failure.None?
  {
    StepperEmitsWellFormed(layout);
    LoopFrameCount(Stepper(layout), c, script, stopAtEnd);
    LoopFramesWellFormed(Stepper(layout), c, script, stopAtEnd);
    Loop(Stepper(layout), c, script, stopAtEnd)
  }

  /** The loop on a non-empty script: one iteration, then the loop on the rest. */
  lemma LoopUnfold(step: (LoopState, ReadResult) -> Outcome, c: LoopState, script: seq<ReadResult>, o: Outcome)
    requires script != [] && o == step(c, script[0])
    ensures o.result.Failed? ==> Loop(step, c, script, false) == RunOut(o.next, [], Some(o.result.f), false)
    ensures !o.result.Failed? ==>
              var rest := Loop(step, o.next, script[1..], false);
              Loop(step, c, script, false) == RunOut(rest.last, Emitted(o.result) + rest.frames, rest.failure, rest.ended)
  {
  }

  /** One iteration hands over at most one frame. */
  lemma {:induction false} LoopFrameCount(step: (LoopState, ReadResult) -> Outcome, c: LoopState, script: seq<ReadResult>, stopAtEnd: bool)
    ensures |Loop(step, c, script, stopAtEnd).frames| <= |script|
    decreases |script|
  {
    if script != [] {
      var o := step(c, script[0]);
      if !o.result.Failed? && !(stopAtEnd && script[0].EndOfStream?) {
        LoopFrameCount(step, o.next, script[1..], stopAtEnd);
      }
    }
  }

  /** Every iteration of `step` that hands over a frame hands over a well-formed datagram. */
  ghost predicate EmitsWellFormed(step: (LoopState, ReadResult) -> Outcome)
  {
    forall c, r :: step(c, r).result.Frame? ==> step(c, r).result.d.WellFormed()
  }

  lemma {:induction false} LoopFramesWellFormed(step: (LoopState, ReadResult) -> Outcome, c: LoopState, script: seq<ReadResult>, stopAtEnd: bool)
    requires EmitsWellFormed(step)
    ensures forall d :: d in Loop(step, c, script, stopAtEnd).frames ==> d.WellFormed()
    decreases |script|
  {
    if script != [] {
      var o := step(c, script[0]);
      if !o.result.Failed? && !(stopAtEnd && script[0].EndOfStream?) {
        LoopFramesWellFormed(step, o.next, script[1..], stopAtEnd);
      }
    }
  }

  /** The reassembler hands over only well-formed datagrams. */
  lemma StepperEmitsWellFormed(layout: FrameLayout)
    ensures EmitsWellFormed(Stepper(layout))
  {
    forall c: LoopState, r: ReadResult | Stepper(layout)(c, r).result.Frame?
      ensures Stepper(layout)(c, r).result.d.WellFormed()
    {
      assert Stepper(layout)(c, r) == Step(layout, c, r);
    }
  }

  /**
   * Frames are handed over in the order they complete: running the loop over
   * `a + b` hands over the frames of `a`, then those of `b` from where `a` left
   * the buffer; a loop stopped within `a` ignores `b`.
   */
  lemma {:induction false} LoopConcat(step: (LoopState, ReadResult) -> Outcome, c: LoopState, a: seq<ReadResult>, b: seq<ReadResult>, stopAtEnd: bool)
    ensures var first := Loop(step, c, a, stopAtEnd);
            var second := Loop(step, first.last, b, stopAtEnd);
            Loop(step, c, a + b, stopAtEnd)
              == if first.failure.Some? || first.ended then first
                 else RunOut(second.last, first.frames + second.frames, second.failure, second.ended)
    decreases |a|
  {
    if a == [] {
      assert a + b == b;
    } else {
      assert (a + b)[0] == a[0];
      assert (a + b)[1..] == a[1..] + b;
      var o := step(c, a[0]);
      if !o.result.Failed? && !(stopAtEnd && a[0].EndOfStream?) {
        LoopConcat(step, o.next, a[1..], b, stopAtEnd);
        var first' := Loop(step, o.next, a[1..], stopAtEnd);
        var second := Loop(step, first'.last, b, stopAtEnd);
        assert Emitted(o.result) + (first'.frames + second.frames) == (Emitted(o.result) + first'.frames) + second.frames;
      }
    }
  }

  /*
   * Reassembly of frames that arrive in chunks. A chunk sequence delivers a
   * frame when the chunks are non-empty, concatenate to the frame's bytes and
   * the first one already holds the whole header.
   */

  function Concat(chunks: seq<seq<byte>>): seq<byte>
  {
    if chunks == [] then [] else chunks[0] + Concat(chunks[1..])
  }

  function AsReads(chunks: seq<seq<byte>>): (script: seq<ReadResult>)
    ensures |script| == |chunks| && forall i :: 0 <= i < |chunks| ==> script[i] == Bytes(chunks[i])
  {
    if chunks == [] then [] else [Bytes(chunks[0])] + AsReads(chunks[1..])
  }

  ghost predicate Delivers(chunks: seq<seq<byte>>, frame: seq<byte>)
  {
    && Concat(chunks) == frame
    && |chunks| > 0
    && |chunks[0]| >= HeadLength
    && forall i :: 0 <= i < |chunks| ==> |chunks[i]| > 0
  }

  lemma {:induction false} ConcatLength(chunks: seq<seq<byte>>)
    requires forall i :: 0 <= i < |chunks| ==> |chunks[i]| > 0
    ensures |Concat(chunks)| >= |chunks|
    decreases |chunks|
  {
    if chunks != [] {
      ConcatLength(chunks[1..]);
    }
  }

  /** The chunks of a script that carries `s` from `at` on: the first carries the bytes right after `at`. */
  lemma ConcatSlices(chunks: seq<seq<byte>>, s: seq<byte>, at: nat)
    requires chunks != [] && at <= |s| && Concat(chunks) == s[at..]
    ensures at + |chunks[0]| <= |s|
    ensures chunks[0] == s[at..at + |chunks[0]|] && Concat(chunks[1..]) == s[at + |chunks[0]|..]
  {
    assert Concat(chunks) == chunks[0] + Concat(chunks[1..]);
    assert s[at..][..|chunks[0]|] == s[at..at + |chunks[0]|];
    assert s[at..][|chunks[0]|..] == s[at + |chunks[0]|..];
  }

  /** The frame branch of `Settle`: a buffer that starts with `d`, required length `d`'s length, write cursor at or past it. */
  lemma SettleComplete(c: LoopState, d: Datagram)
    requires d.WellFormed()
    requires c.dataLen == |d.data| <= c.writePoint && c.buf[..|d.data|] == d.data
    ensures Settle(c) == Outcome(Cursor(ShiftLeft(c.buf, |d.data|), 0, 0), Frame(d))
  {
    assert c.buf == d.data + c.buf[|d.data|..];
    DecodeWellFormed(d, c.buf[|d.data|..]);
  }

  /** The waiting branch of `Settle`: a frame that is incomplete but fits the buffer. */
  lemma SettleWait(c: LoopState)
    requires 0 <= c.writePoint < c.dataLen <= |c.buf|
    ensures Settle(c) == Outcome(c, Pending)
  {
  }

  /**
   * What reading the next `n` bytes of a frame `d` at cursor `c` should do: wait
   * while the frame is incomplete, keeping its bytes so far, and hand over `d`
   * and reset the cursors once its last byte has arrived.
   */
  ghost predicate ReceivesNext(o: Outcome, c: LoopState, d: Datagram, n: nat)
  {
    var wp := c.writePoint + n;
    && |o.next.buf| == |c.buf|
    && (wp < |d.data| ==>
          o.result == Pending && o.next.writePoint == wp && o.next.dataLen == |d.data|
          && 0 <= wp <= |o.next.buf| && o.next.buf[..wp] == d.data[..wp])
    && (wp == |d.data| ==>
          o.result == Frame(d) && o.next.writePoint == 0 && o.next.dataLen == 0)
  }

  /** `c` holds the first bytes of `d` and `ch` is the next part, completing the header if it was not complete. */
  ghost predicate ReadsOn(c: LoopState, d: Datagram, ch: seq<byte>)
  {
    && |d.data| <= |c.buf|
    && 0 <= c.writePoint && HeadLength <= c.writePoint + |ch| <= |d.data|
    && c.buf[..c.writePoint] == d.data[..c.writePoint]
    && ch == d.data[c.writePoint..c.writePoint + |ch|]
  }

  /**
   * Like `ReadsOn`, for a buffer that may be shorter than `d`: the next part
   * only has to fit the room at the write cursor.
   */
  ghost predicate ContinuesWith(c: LoopState, d: Datagram, ch: seq<byte>)
  {
    && 0 <= c.writePoint && c.writePoint + |ch| <= |c.buf|
    && HeadLength <= c.writePoint + |ch| <= |d.data| <= IntMax
    && c.buf[..c.writePoint] == d.data[..c.writePoint]
    && ch == d.data[c.writePoint..c.writePoint + |ch|]
  }

  /** `step` receives frame `d` correctly from any cursor at which its header becomes complete. */
  ghost predicate ReceivesFrame(step: (LoopState, ReadResult) -> Outcome, d: Datagram)
  {
    forall c: LoopState, ch: seq<byte> :: ReadsOn(c, d, ch) ==> ReceivesNext(step(c, Bytes(ch)), c, d, |ch|)
  }

  /** After reading the next part of `d`, the buffer starts with `d`'s bytes so far and the required length is `d`'s length. */
  lemma ReceivedOn(c: LoopState, d: Datagram, ch: seq<byte>)
    requires d.WellFormed() && ContinuesWith(c, d, ch)
    ensures var r := Received(DefaultLayout, c, Bytes(ch));
            && r.writePoint == c.writePoint + |ch| && |r.buf| == |c.buf|
            && r.buf[..r.writePoint] == d.data[..r.writePoint]
            && r.dataLen == |d.data|
  {
    var wp := c.writePoint + |ch|;
    var r := Received(DefaultLayout, c, Bytes(ch));
    assert r.buf[..wp] == d.data[..wp] by {
      assert r.buf[..wp] == r.buf[..c.writePoint] + r.buf[c.writePoint..wp];
      assert d.data[..wp] == d.data[..c.writePoint] + d.data[c.writePoint..wp];
    }
    assert LengthField(r.buf, LengthFieldOffset) == d.size by {
      LengthFieldOfPrefix(r.buf[..wp], r.buf[wp..], LengthFieldOffset);
      LengthFieldOfPrefix(d.data[..wp], d.data[wp..], LengthFieldOffset);
      assert r.buf[..wp] + r.buf[wp..] == r.buf;
      assert d.data[..wp] + d.data[wp..] == d.data;
    }
  }

  /**
   * One read of the next bytes of a well-formed frame `d`, at a write cursor at
   * which the header becomes complete: the loop waits while the frame is
   * incomplete and hands over `d` once its last byte has arrived, whatever
   * `dataLen` was before.
   */
  lemma StepReceiving(c: LoopState, d: Datagram, ch: seq<byte>)
    requires d.WellFormed() && ReadsOn(c, d, ch)
    ensures ReceivesNext(Step(DefaultLayout, c, Bytes(ch)), c, d, |ch|)
  {
    var r := Received(DefaultLayout, c, Bytes(ch));
    ReceivedOn(c, d, ch);
    assert Step(DefaultLayout, c, Bytes(ch)) == Settle(r);
    if r.writePoint == |d.data| {
      SettleComplete(r, d);
    } else {
      SettleWait(r);
    }
  }

  /** The reassembler receives every well-formed frame correctly. */
  lemma StepperReceivesFrame(d: Datagram)
    requires d.WellFormed()
    ensures ReceivesFrame(Stepper(DefaultLayout), d)
  {
    forall c: LoopState, ch: seq<byte> | ReadsOn(c, d, ch)
      ensures ReceivesNext(Stepper(DefaultLayout)(c, Bytes(ch)), c, d, |ch|)
    {
      StepReceiving(c, d, ch);
    }
  }

  /** One unfolding of the loop on a script of chunks. */
  lemma LoopChunks(step: (LoopState, ReadResult) -> Outcome, c: LoopState, chunks: seq<seq<byte>>)
    requires chunks != []
    ensures var o := step(c, Bytes(chunks[0]));
            Loop(step, c, AsReads(chunks), false)
              == if o.result.Failed? then RunOut(o.next, [], Some(o.result.f), false)
                 else var rest := Loop(step, o.next, AsReads(chunks[1..]), false);
                      RunOut(rest.last, Emitted(o.result) + rest.frames, rest.failure, rest.ended)
  {
    var script := AsReads(chunks);
    assert script[0] == Bytes(chunks[0]);
    assert script[1..] == AsReads(chunks[1..]);
  }

  /**
   * Feeding the rest of a frame, in non-empty chunks, to a cursor that holds
   * its complete header hands over exactly that frame and resets the cursors.
   */
  lemma {:induction false} FinishFrame(step: (LoopState, ReadResult) -> Outcome, c: LoopState, d: Datagram, chunks: seq<seq<byte>>)
    requires ReceivesFrame(step, d) && |d.data| <= |c.buf|
    requires HeadLength <= c.writePoint < |d.data| && c.buf[..c.writePoint] == d.data[..c.writePoint]
    requires Concat(chunks) == d.data[c.writePoint..]
    requires forall i :: 0 <= i < |chunks| ==> |chunks[i]| > 0
    ensures var out := Loop(step, c, AsReads(chunks), false);
            out.frames == [d] && out.failure.None?
            && out.last.writePoint == 0 && out.last.dataLen == 0 && |out.last.buf| == |c.buf|
    decreases |chunks|
  {
    ConcatLength(chunks);
    var ch := chunks[0];
    assert ch == d.data[c.writePoint..c.writePoint + |ch|];
    assert ReadsOn(c, d, ch);
    LoopChunks(step, c, chunks);
    var o := step(c, Bytes(ch));
    if c.writePoint + |ch| < |d.data| {
      assert Concat(chunks[1..]) == d.data[c.writePoint + |ch|..];
      FinishFrame(step, o.next, d, chunks[1..]);
    } else {
      assert chunks[1..] == [] by {
        ConcatLength(chunks[1..]);
      }
    }
  }

  /**
   * Reassembly of one frame: from reset cursors, a frame that fits the buffer
   * and arrives in chunks whose first one holds the whole header is handed
   * over exactly once, intact, and the cursors are reset again.
   */
  lemma ReassembleFrame(step: (LoopState, ReadResult) -> Outcome, c: LoopState, d: Datagram, chunks: seq<seq<byte>>)
    requires ReceivesFrame(step, d) && |d.data| <= |c.buf|
    requires c.writePoint == 0
    requires Delivers(chunks, d.data)
    ensures var out := Loop(step, c, AsReads(chunks), false);
            out.frames == [d] && out.failure.None?
            && out.last.writePoint == 0 && out.last.dataLen == 0 && |out.last.buf| == |c.buf|
  {
    var ch := chunks[0];
    assert ch == d.data[..|ch|];
    assert ReadsOn(c, d, ch);
    LoopChunks(step, c, chunks);
    var o := step(c, Bytes(ch));
    if |ch| < |d.data| {
      assert Concat(chunks[1..]) == d.data[|ch|..];
      FinishFrame(step, o.next, d, chunks[1..]);
    } else {
      assert chunks[1..] == [] by {
        ConcatLength(chunks[1..]);
      }
    }
  }

  /** The reads of several deliveries, one after the other. */
  function Scripts(deliveries: seq<seq<seq<byte>>>): seq<ReadResult>
  {
    if deliveries == [] then [] else AsReads(deliveries[0]) + Scripts(deliveries[1..])
  }

  lemma {:induction false} ReassembleAll(step: (LoopState, ReadResult) -> Outcome, c: LoopState, ds: seq<Datagram>, deliveries: seq<seq<seq<byte>>>)
    requires |ds| == |deliveries|
    requires forall i :: 0 <= i < |ds| ==> ReceivesFrame(step, ds[i]) && |ds[i].data| <= |c.buf|
    requires forall i :: 0 <= i < |ds| ==> Delivers(deliveries[i], ds[i].data)
    requires c.writePoint == 0
    ensures var out := Loop(step, c, Scripts(deliveries), false);
            out.frames == ds && out.failure.None? && out.last.writePoint == 0 && |out.last.buf| == |c.buf|
    decreases |ds|
  {
    if ds != [] {
      ReassembleFrame(step, c, ds[0], deliveries[0]);
      var first := Loop(step, c, AsReads(deliveries[0]), false);
      ReassembleAll(step, first.last, ds[1..], deliveries[1..]);
      LoopConcat(step, c, AsReads(deliveries[0]), Scripts(deliveries[1..]), false);
      assert ds == [ds[0]] + ds[1..];
    }
  }

  /**
   * Reassembly of a stream of frames: from a reset write cursor, well-formed
   * frames that each fit the buffer and each arrive in their own chunks (the
   * first chunk of each holding its whole header) are handed over in order,
   * each exactly once, and the write cursor ends reset.
   */
  lemma ReassembleFrames(c: LoopState, ds: seq<Datagram>, deliveries: seq<seq<seq<byte>>>)
    requires |ds| == |deliveries|
    requires forall i :: 0 <= i < |ds| ==> ds[i].WellFormed() && |ds[i].data| <= |c.buf|
    requires forall i :: 0 <= i < |ds| ==> Delivers(deliveries[i], ds[i].data)
    requires c.writePoint == 0
    ensures var out := Run(DefaultLayout, c, Scripts(deliveries), false);
            out.frames == ds && out.failure.None? && out.last.writePoint == 0 && |out.last.buf| == |c.buf|
  {
    forall i | 0 <= i < |ds| ensures ReceivesFrame(Stepper(DefaultLayout), ds[i]) {
      StepperReceivesFrame(ds[i]);
    }
    ReassembleAll(Stepper(DefaultLayout), c, ds, deliveries);
  }

  /**
   * The capacity after an iteration that has received `w` of a frame's `len`
   * bytes with capacity `cap`: one growth while the frame is incomplete and
   * longer than the buffer.
   */
  function CapacityAfter(cap: nat, w: int, len: nat): (n: nat)
    requires cap <= IntMax
    ensures cap <= n <= IntMax
    ensures n > cap ==> w < len && cap < len
    ensures 2 <= cap < len <= IntMax && w < len ==> n > cap
  {
    if w < len && cap < len && cap < IntMax then NewCapacity(cap) else cap
  }

  /**
   * Each chunk fits the room the loop offers when it is read, while the loop
   * receives a frame of `len` bytes from capacity `cap` and write cursor `wp`
   * and grows the buffer as it goes.
   */
  ghost predicate FitsGrowing(cap: nat, wp: nat, len: nat, chunks: seq<seq<byte>>)
    requires cap <= IntMax
    decreases |chunks|
  {
    chunks == [] ||
    (wp + |chunks[0]| <= cap &&
     FitsGrowing(CapacityAfter(cap, wp + |chunks[0]|, len), wp + |chunks[0]|, len, chunks[1..]))
  }

  /**
   * Reads of one byte each always fit, however long the frame: while it is
   * incomplete the buffer either still has room or grows by at least one byte.
   */
  lemma {:induction false} ByteReadsFit(cap: nat, wp: nat, len: nat, chunks: seq<seq<byte>>)
    requires 2 <= cap <= IntMax && len <= IntMax && wp < cap && wp + |chunks| <= len
    requires forall i :: 0 <= i < |chunks| ==> |chunks[i]| == 1
    ensures FitsGrowing(cap, wp, len, chunks)
    decreases |chunks|
  {
    if chunks != [] && wp + 1 < len {
      ByteReadsFit(CapacityAfter(cap, wp + 1, len), wp + 1, len, chunks[1..]);
    }
  }

  /**
   * What reading the next `n` bytes of a frame `d` at cursor `c` should do when
   * `d` may be longer than the buffer: while `d` is incomplete, keep its bytes
   * so far and grow the buffer once if `d` does not fit; once the last byte has
   * arrived, hand over `d` and reset the cursors.
   */
  ghost predicate ReceivesGrowing(o: Outcome, c: LoopState, d: Datagram, n: nat)
  {
    var w := c.writePoint + n;
    && |o.next.buf| == CapacityAfter(|c.buf|, w, |d.data|)
    && (w < |d.data| ==>
          && o.result == (if |c.buf| < |d.data| then Grew(|o.next.buf|) else Pending)
          && o.next.writePoint == w && 0 <= w <= |o.next.buf| && o.next.buf[..w] == d.data[..w])
    && (w == |d.data| ==> o.result == Frame(d) && o.next.writePoint == 0 && o.next.dataLen == 0)
  }

  /** `step` receives frame `d` correctly, growing the buffer as needed, from any cursor at which its header becomes complete. */
  ghost predicate GrowsFrame(step: (LoopState, ReadResult) -> Outcome, d: Datagram)
  {
    forall c: LoopState, ch: seq<byte> {:trigger ContinuesWith(c, d, ch)} ::
      ContinuesWith(c, d, ch) ==> ReceivesGrowing(step(c, Bytes(ch)), c, d, |ch|)
  }

  /**
   * One read of the next part of a frame `d`, which may be longer than the
   * buffer: while `d` is incomplete the loop keeps its bytes so far, and grows
   * the buffer exactly when `d` does not fit it; once the last byte has
   * arrived it hands over `d` and resets the cursors.
   */
  lemma StepGrowing(c: LoopState, d: Datagram, ch: seq<byte>)
    requires d.WellFormed() && ContinuesWith(c, d, ch)
    ensures ReceivesGrowing(Step(DefaultLayout, c, Bytes(ch)), c, d, |ch|)
  {
    var r := Received(DefaultLayout, c, Bytes(ch));
    ReceivedOn(c, d, ch);
    assert Step(DefaultLayout, c, Bytes(ch)) == Settle(r);
    if r.writePoint == |d.data| {
      SettleComplete(r, d);
    } else if |d.data| <= |c.buf| {
      SettleWait(r);
    }
  }

  /** The reassembler receives every well-formed frame correctly, growing its buffer as needed. */
  lemma StepperGrowsFrame(d: Datagram)
    requires d.WellFormed()
    ensures GrowsFrame(Stepper(DefaultLayout), d)
  {
    forall c: LoopState, ch: seq<byte> | ContinuesWith(c, d, ch)
      ensures ReceivesGrowing(Stepper(DefaultLayout)(c, Bytes(ch)), c, d, |ch|)
    {
      StepGrowing(c, d, ch);
    }
  }

  /**
   * Feeding the rest of a frame, in non-empty chunks that each fit the room
   * offered as the buffer grows, to a cursor that holds the frame's first bytes
   * hands over exactly that frame, resets the cursors and leaves a buffer
   * large enough for the frame.
   */
  lemma {:induction false} FinishGrowing(step: (LoopState, ReadResult) -> Outcome, c: LoopState, d: Datagram, chunks: seq<seq<byte>>)
    requires GrowsFrame(step, d) && |d.data| <= IntMax
    requires 0 <= c.writePoint < |d.data| && c.buf[..c.writePoint] == d.data[..c.writePoint]
    requires chunks != [] && HeadLength <= c.writePoint + |chunks[0]|
    requires Concat(chunks) == d.data[c.writePoint..]
    requires forall i :: 0 <= i < |chunks| ==> |chunks[i]| > 0
    requires FitsGrowing(|c.buf|, c.writePoint, |d.data|, chunks)
    ensures var out := Loop(step, c, AsReads(chunks), false);
            && out.frames == [d] && out.failure.None?
            && out.last.writePoint == 0 && out.last.dataLen == 0
            && |c.buf| <= |out.last.buf| && |d.data| <= |out.last.buf|
    decreases |chunks|
  {
    ConcatSlices(chunks, d.data, c.writePoint);
    var ch := chunks[0];
    var w := c.writePoint + |ch|;
    assert ContinuesWith(c, d, ch);
    var o := step(c, Bytes(ch));
    assert ReceivesGrowing(o, c, d, |ch|);
    if w < |d.data| {
      var rest := chunks[1..];
      assert rest != [] && HeadLength <= o.next.writePoint == w;
      assert FitsGrowing(|o.next.buf|, w, |d.data|, rest);
      LoopPasses(step, c, chunks);
      FinishGrowing(step, o.next, d, rest);
    } else {
      assert chunks[1..] == [] by {
        ConcatLength(chunks[1..]);
      }
      LoopChunks(step, c, chunks);
    }
  }

  /** An iteration that neither fails nor hands over a frame leaves the rest of the loop to the next read. */
  lemma LoopPasses(step: (LoopState, ReadResult) -> Outcome, c: LoopState, chunks: seq<seq<byte>>)
    requires chunks != []
    requires var o := step(c, Bytes(chunks[0])); o.result.Pending? || o.result.Grew?
    ensures Loop(step, c, AsReads(chunks), false) == Loop(step, step(c, Bytes(chunks[0])).next, AsReads(chunks[1..]), false)
  {
    LoopChunks(step, c, chunks);
  }

  /**
   * Reassembly of a frame of any length up to `Integer.MAX_VALUE`: from a
   * cursor holding the frame's first bytes, the rest arriving in non-empty
   * chunks (the first of them completing the header) that each fit the room
   * offered as the buffer grows is handed over exactly once, intact; the
   * cursors end reset and the buffer ends large enough for the frame.
   */
  lemma ReassembleGrowing(c: LoopState, d: Datagram, chunks: seq<seq<byte>>)
    requires d.WellFormed() && |d.data| <= IntMax
    requires 0 <= c.writePoint < |d.data| && c.buf[..c.writePoint] == d.data[..c.writePoint]
    requires chunks != [] && HeadLength <= c.writePoint + |chunks[0]|
    requires Concat(chunks) == d.data[c.writePoint..]
    requires forall i :: 0 <= i < |chunks| ==> |chunks[i]| > 0
    requires FitsGrowing(|c.buf|, c.writePoint, |d.data|, chunks)
    ensures var out := Run(DefaultLayout, c, AsReads(chunks), false);
            && out.frames == [d] && out.failure.None?
            && out.last.writePoint == 0 && out.last.dataLen == 0
            && |c.buf| <= |out.last.buf| && |d.data| <= |out.last.buf|
  {
    StepperGrowsFrame(d);
    FinishGrowing(Stepper(DefaultLayout), c, d, chunks);
  }

  /**
   * As written, a read that leaves fewer than 16 bytes in a reset buffer never
   * waits: `dataLen` is still 0, so the frame branch decodes whatever the
   * buffer holds (or fails), and a handed-over frame resets the write cursor,
   * so the bytes just read are dropped.
   */
  lemma ShortReadNeverWaits(c: LoopState, ch: seq<byte>)
    requires c.dataLen == 0 && c.writePoint == 0
    requires 0 < |ch| < HeadLength <= |c.buf|
    ensures var o := Step(DefaultLayout, c, Bytes(ch));
            o.result.Frame? || o.result == Failed(Malformed)
    ensures var o := Step(DefaultLayout, c, Bytes(ch));
            o.result.Frame? ==> o.next.writePoint == 0 && |o.result.d.data| >= HeadLength > |ch|
  {
    var r := Received(DefaultLayout, c, Bytes(ch));
    assert r.writePoint == |ch| && r.dataLen == 0;
  }

  /** An MVC frame with an empty body, used by the counterexamples. */
  function EmptyMvcFrame(): (d: Datagram)
    ensures d.WellFormed() && |d.data| == HeadLength && d.kind == MvcType
  {
    Build([], MvcType, 1)
  }

  /** The length bytes of an empty frame are all zero, so its bytes 2 to 5 read as length 1. */
  lemma EmptyFrameBytes(d: Datagram)
    requires d.WellFormed() && d.size == 0 && d.kind == MvcType
    ensures d.data[1] == d.data[2] == d.data[3] == d.data[4] == 0 && d.data[5] == 1
  {
  }

  /** A first byte read into a reset, zero-filled 16-byte buffer is handed over at once, as a heartbeat. */
  lemma FirstByteFires(c: LoopState, v: byte)
    requires |c.buf| == HeadLength && c.dataLen == 0 && c.writePoint == 0
    requires forall i :: 1 <= i < HeadLength ==> c.buf[i] == 0
    ensures var o := Step(DefaultLayout, c, Bytes([v]));
            o.result.Frame? && o.result.d.IsHeartbeat() && o.next == Cursor([v] + c.buf[1..], 0, 0)
  {
    var r := Received(DefaultLayout, c, Bytes([v]));
    assert r.buf == [v] + c.buf[1..] && r.writePoint == 1 && r.dataLen == 0;
    assert LengthField(r.buf, LengthFieldOffset) == 0;
    assert r.buf[TypeOffset] == 0;
  }

  /** Fifteen bytes read into a reset 16-byte buffer whose length field then reads non-zero: a malformed frame. */
  lemma ShortFrameMalformed(c: LoopState, ch: seq<byte>)
    requires |c.buf| == HeadLength && c.dataLen == 0 && c.writePoint == 0 && |ch| == HeadLength - 1
    requires LengthField(ch, LengthFieldOffset) > 0
    ensures Step(DefaultLayout, c, Bytes(ch)).result == Failed(Malformed)
  {
    var r := Received(DefaultLayout, c, Bytes(ch));
    assert r.buf == ch + [c.buf[HeadLength - 1]] && r.writePoint == HeadLength - 1 && r.dataLen == 0;
    LengthFieldOfPrefix(ch, [c.buf[HeadLength - 1]], LengthFieldOffset);
  }

  /**
   * Counterexample: an empty MVC frame whose first read delivers one byte,
   * into a fresh 16-byte buffer. The loop hands over a heartbeat made of that
   * byte and fifteen zero bytes, then fails on the rest of the real frame.
   */
  lemma SplitHeaderLosesFrame()
    ensures var d := EmptyMvcFrame();
            var out := Run(DefaultLayout, Cursor(Zeros(HeadLength), 0, 0), [Bytes(d.data[..1]), Bytes(d.data[1..])], false);
            && |out.frames| == 1 && out.frames[0].IsHeartbeat() && out.frames[0] != d
            && out.failure == Some(Malformed)
  {
    var d := EmptyMvcFrame();
    var c: LoopState := Cursor(Zeros(HeadLength), 0, 0);
    var script := [Bytes(d.data[..1]), Bytes(d.data[1..])];
    assert d.data[..1] == [d.data[0]];
    FirstByteFires(c, d.data[0]);
    var o1 := Step(DefaultLayout, c, script[0]);
    EmptyFrameBytes(d);
    assert LengthField(d.data[1..], LengthFieldOffset) == 1;
    ShortFrameMalformed(o1.next, d.data[1..]);
    var o2 := Step(DefaultLayout, o1.next, script[1]);
    LoopUnfold(Stepper(DefaultLayout), o1.next, script[1..], o2);
    LoopUnfold(Stepper(DefaultLayout), c, script, o1);
  }

  /**
   * As written, handing over a frame resets the write cursor to 0 even when
   * the read went past the frame's end: the bytes after it stay in the buffer
   * but are overwritten by the next read.
   */
  lemma FrameDropsTrailingBytes(layout: FrameLayout, c: LoopState, r: ReadResult)
    requires Step(layout, c, r).result.Frame?
    ensures Fits(c, r) && !r.IoFailure?
    ensures var d := Received(layout, c, r);
            var o := Step(layout, c, r);
            0 <= d.dataLen <= d.writePoint && o.next.writePoint == 0
  {
    StepFrame(layout, c, r);
  }

  /**
   * Two copies of a frame read at once into a reset buffer of exactly their
   * size: the first is handed over and the write cursor reset, although the
   * buffer still holds the second.
   */
  lemma CoalescedStep(c: LoopState, d: Datagram)
    requires d.WellFormed() && c.writePoint == 0 && |c.buf| == 2 * |d.data|
    ensures Step(DefaultLayout, c, Bytes(d.data + d.data)) == Outcome(Cursor(d.data + d.data, 0, 0), Frame(d))
  {
    var dd := d.data + d.data;
    var r := Received(DefaultLayout, c, Bytes(dd));
    assert Step(DefaultLayout, c, Bytes(dd)) == Settle(r);
    assert r.buf == dd && r.writePoint == 2 * |d.data|;
    LengthFieldOfPrefix(d.data, d.data, LengthFieldOffset);
    assert r.dataLen == |d.data|;
    assert r.buf[..|d.data|] == d.data;
    SettleComplete(r, d);
    assert ShiftLeft(dd, |d.data|) == dd;
  }

  /**
   * Counterexample: two empty MVC frames arriving in one read into a fresh
   * 32-byte buffer. Only the first is handed over; the write cursor is reset,
   * so the second frame's bytes are lost.
   */
  lemma CoalescedFramesLoseSecond()
    ensures var d := EmptyMvcFrame();
            var out := Run(DefaultLayout, Cursor(Zeros(2 * HeadLength), 0, 0), [Bytes(d.data + d.data)], false);
            out.frames == [d] && out.failure.None? && out.last.writePoint == 0
  {
    var d := EmptyMvcFrame();
    var c: LoopState := Cursor(Zeros(2 * HeadLength), 0, 0);
    var script := [Bytes(d.data + d.data)];
    CoalescedStep(c, d);
    LoopUnfold(Stepper(DefaultLayout), c, script, Step(DefaultLayout, c, script[0]));
  }
}
