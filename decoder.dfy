/**
 * The reassembler as the source runs it: a byte array that is written,
 * shifted in place and replaced by a larger copy, with `dataLen` and
 * `writePoint` beside it. `FrameBuffer.Feed` is one iteration of the read loop
 * and is proved to do what `Reassembly.Step` says; `FrameDecoder.Read` runs the
 * loop over a script of reads and is proved to hand over what `Reassembly.Run`
 * says.
 */
module Decoding {
  import opened Common
  import opened Wire
  import opened Reassembly

  /** Writes `chunk` into `a` at index `at` (what `in.read` does with the array). */
  method WriteAt(a: array<byte>, at: nat, chunk: seq<byte>)
    requires at + |chunk| <= a.Length
    modifies a
    ensures a[..] == Fill(old(a[..]), at, chunk)
  {
    var i := 0;
    while i < |chunk|
      invariant 0 <= i <= |chunk|
      invariant a[..at] == old(a[..])[..at]
      invariant a[at..at + i] == chunk[..i]
      invariant a[at + i..] == old(a[..])[at + i..]
    {
      a[at + i] := chunk[i];
      i := i + 1;
      assert a[at..at + i] == a[at..at + i - 1] + [a[at + i - 1]];
    }
    assert a[..] == a[..at] + a[at..at + |chunk|] + a[at + |chunk|..];
  }

  /** `System.arraycopy(a, k, a, 0, a.length - k)`: an overlapping copy towards index 0. */
  method ShiftDown(a: array<byte>, k: nat)
    requires k <= a.Length
    modifies a
    ensures a[..] == ShiftLeft(old(a[..]), k)
  {
    var i := 0;
    while i < a.Length - k
      invariant 0 <= i <= a.Length - k
      invariant a[..i] == old(a[..])[k..k + i]
      invariant a[i..] == old(a[..])[i..]
    {
      a[i] := a[k + i];
      i := i + 1;
      assert a[..i] == a[..i - 1] + [a[i - 1]];
    }
    assert a[..] == a[..a.Length - k] + a[a.Length - k..];
  }

  /** `System.arraycopy(from, 0, to, 0, n)` into a different array. */
  method CopyPrefix(from: array<byte>, to: array<byte>, n: nat)
    requires n <= from.Length && n <= to.Length && from != to
    modifies to
    ensures to[..n] == from[..n] && to[n..] == old(to[n..])
  {
    var i := 0;
    while i < n
      invariant 0 <= i <= n
      invariant to[..i] == from[..i]
      invariant to[i..] == old(to[i..])
    {
      to[i] := from[i];
      i := i + 1;
      assert to[..i] == to[..i - 1] + [to[i - 1]];
    }
  }

  /** The bookkeeping of one loop iteration: the frames so far plus the loop on the rest of the script. */
  lemma RunAdvance(layout: FrameLayout, before: LoopState, script: seq<ReadResult>, i: nat, frames: seq<Datagram>,
                   whole: RunOut, after: LoopState, result: StepResult)
    requires i < |script| && Outcome(after, result) == Step(layout, before, script[i])
    requires var rest := Run(layout, before, script[i..], false);
             whole == RunOut(rest.last, frames + rest.frames, rest.failure, rest.ended)
    ensures result.Failed? ==> whole.frames == frames && whole.failure == Some(result.f)
    ensures !result.Failed? ==>
              var rest := Run(layout, after, script[i + 1..], false);
              whole == RunOut(rest.last, (frames + Emitted(result)) + rest.frames, rest.failure, rest.ended)
  {
    assert script[i..][1..] == script[i + 1..];
    LoopUnfold(Stepper(layout), before, script[i..], Outcome(after, result));
  }

  /** The read loop's local variables: the buffer and its two cursors. */
  class FrameBuffer {
    const layout: FrameLayout
    var buffer: array<byte>
    var dataLen: int
    var writePoint: int

    ghost predicate Valid()
      reads this, buffer
    {
      -1 <= writePoint <= buffer.Length <= IntMax
    }

    /** The local variables as a value. */
    ghost function State(): LoopState
      requires Valid()
      reads this, buffer
    {
      Cursor(buffer[..], dataLen, writePoint)
    }

    /** `new byte[capacity]`, `dataLen = 0`, `writePoint = 0`. */
    constructor (layout: FrameLayout, capacity: nat)
      requires capacity <= IntMax
      ensures Valid() && fresh(buffer)
      ensures this.layout == layout && State() == Cursor(Zeros(capacity), 0, 0)
    {
      this.layout := layout;
      buffer := new byte[capacity](_ => 0);
      dataLen := 0;
      writePoint := 0;
      new;
      assert buffer[..] == Zeros(capacity);
    }

    /** One iteration of the read loop. */
    method Feed(r: ReadResult) returns (result: StepResult)
      requires Valid()
      modifies this, buffer
      ensures Valid()
      ensures buffer == old(buffer) || fresh(buffer)
      ensures State() == Step(layout, old(State()), r).next
      ensures result == Step(layout, old(State()), r).result
    {
      if writePoint < 0 || (r.Bytes? && writePoint + |r.chunk| > buffer.Length) {
        return Failed(IndexOutOfBounds);
      }
      if r.IoFailure? {
        return Failed(IoError);
      }
      Receive(r);
      result := Settle();
    }

    /** The read into the free tail and the update of `dataLen` once the header is in. */
    method Receive(r: ReadResult)
      requires Valid() && Fits(State(), r) && !r.IoFailure?
      modifies this, buffer
      ensures Valid() && buffer == old(buffer)
      ensures State() == Received(layout, old(State()), r)
    {
      if r.Bytes? {
        WriteAt(buffer, writePoint, r.chunk);
        writePoint := writePoint + |r.chunk|;
      } else {
        writePoint := writePoint - 1;
      }
      if writePoint >= layout.headLength {
        dataLen := ToInt32(LengthField(buffer[..], layout.lengthFieldOffset) + layout.headLength);
      }
    }

    /** The rest of the iteration: hand over a frame, grow, or wait. */
    method Settle() returns (result: StepResult)
      requires Valid()
      modifies this, buffer
      ensures Valid()
      ensures buffer == old(buffer) || fresh(buffer)
      ensures State() == Reassembly.Settle(old(State())).next
      ensures result == Reassembly.Settle(old(State())).result
    {
      if writePoint >= dataLen {
        var decoded := Decode(buffer[..]);
        if decoded.None? {
          return Failed(Malformed);
        }
        if dataLen < 0 {
          return Failed(IndexOutOfBounds);
        }
        ShiftDown(buffer, dataLen);
        dataLen := 0;
        writePoint := 0;
        return Frame(decoded.value);
      } else if dataLen > buffer.Length {
        if buffer.Length >= IntMax {
          return Failed(OutOfMemory);
        }
        if writePoint < 0 {
          return Failed(IndexOutOfBounds);
        }
        var n := NewCapacity(buffer.Length);
        var grown := new byte[n](_ => 0);
        CopyPrefix(buffer, grown, writePoint);
        assert grown[..] == grown[..writePoint] + grown[writePoint..];
        assert grown[writePoint..] == Zeros(n - writePoint);
        buffer := grown;
        return Grew(n);
      } else {
        return Pending;
      }
    }
  }

  /** `LengthFieldBasedFrameDecoder`: the frame layout and the initial buffer size. */
  class FrameDecoder {
    const maxFrameLength: int
    const lengthFieldOffset: nat
    const lengthFieldLength: int
    const headLength: nat
    const bufferSize: int

    ghost predicate Valid()
    {
      lengthFieldOffset + LengthFieldLength <= headLength && bufferSize <= IntMax
    }

    function Layout(): FrameLayout
      requires Valid()
    {
      Reassembly.Layout(lengthFieldOffset, headLength)
    }

    /** The initial buffer holds `min(maxFrameLength, 2048)` bytes. */
    constructor (maxFrameLength: int, lengthFieldOffset: nat, lengthFieldLength: int, headLength: nat)
      requires maxFrameLength <= IntMax && lengthFieldOffset + LengthFieldLength <= headLength
      ensures Valid()
      ensures this.maxFrameLength == maxFrameLength && this.lengthFieldOffset == lengthFieldOffset
      ensures this.lengthFieldLength == lengthFieldLength && this.headLength == headLength
      ensures bufferSize == Min(maxFrameLength, 2048)
    {
      this.maxFrameLength := maxFrameLength;
      this.lengthFieldOffset := lengthFieldOffset;
      this.lengthFieldLength := lengthFieldLength;
      this.headLength := headLength;
      bufferSize := Min(maxFrameLength, 2048);
    }

    /** The default configuration: frames up to `Datagram.MAX_LENGTH`, length field at 1, 4 bytes wide, 16-byte header. */
    constructor Default()
      ensures Valid() && Layout() == DefaultLayout
      ensures maxFrameLength == MaxLength && lengthFieldLength == LengthFieldLength
      ensures bufferSize == 2048
    {
      maxFrameLength := MaxLength;
      lengthFieldOffset := LengthFieldOffset;
      lengthFieldLength := LengthFieldLength;
      headLength := HeadLength;
      bufferSize := 2048;
    }

    /**
     * `read(in, consumer)` over a finite script of reads: the frames handed to
     * the consumer, in order, and the exception the loop ended with, if any.
     * A negative buffer size fails at the allocation.
     */
    method Read(script: seq<ReadResult>) returns (frames: seq<Datagram>, failure: Option<Failure>)
      requires Valid()
      ensures bufferSize < 0 ==> frames == [] && failure == Some(NegativeArraySize)
      ensures bufferSize >= 0 ==>
                var out := Run(Layout(), Cursor(Zeros(bufferSize), 0, 0), script, false);
                frames == out.frames && failure == out.failure
    {
      if bufferSize < 0 {
        return [], Some(NegativeArraySize);
      }
      var fb := new FrameBuffer(Layout(), bufferSize);
      ghost var whole := Run(Layout(), fb.State(), script, false);
      frames, failure := [], None;
      var i := 0;
      while i < |script| && failure.None?
        invariant 0 <= i <= |script|
        invariant fresh(fb) && fresh(fb.buffer) && fb.Valid() && fb.layout == Layout()
        invariant failure.None? ==>
                    var rest := Run(Layout(), fb.State(), script[i..], false);
                    whole == RunOut(rest.last, frames + rest.frames, rest.failure, rest.ended)
        invariant failure.Some? ==> whole.frames == frames && whole.failure == failure
        decreases |script| - i
      {
        ghost var before := fb.State();
        var result := fb.Feed(script[i]);
        RunAdvance(Layout(), before, script, i, frames, whole, fb.State(), result);
        if result.Failed? {
          failure := Some(result.f);
        } else {
          frames := frames + Emitted(result);
        }
        i := i + 1;
      }
    }
  }
}
