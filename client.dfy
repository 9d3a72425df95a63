/**
 * The test client's workers: `Worker` (the shutdown flag and its callback),
 * `Reader` (a read loop over the socket that hands application frames to a
 * pool and ignores heartbeats) and `client/Client` (a send queue drained by a
 * writer loop, and a copy of the reassembler that hands every frame to a
 * consumer).
 *
 * The socket is a script of read results and of write outcomes; the reader's
 * pool, the serializer and the consumer are reduced to the payloads handed to
 * them, in order.
 */
module ClientSide {
  import opened Common
  import opened Wire
  import opened Reassembly
  import opened Decoding

  /** The reader's first buffer size. */
  const ReaderBufferSize: nat := 1024

  /** The state `Worker` and `Reader` keep about their lifecycle. */
  datatype WorkerState = WorkerState(shutdown: bool, interrupts: nat, callbacks: nat, executorStopped: bool)

  /** A new worker is shut down. */
  const NewWorker := WorkerState(true, 0, 0, false)

  /**
   * `Worker.shutdown`: on a running worker, set the flag, interrupt the
   * thread, run the callback and answer true; on a stopped one, answer false
   * and change nothing.
   */
  function WorkerShutdown(st: WorkerState): (r: (WorkerState, bool))
    ensures r.1 <==> !st.shutdown
    ensures r.0.shutdown && r.0.executorStopped == st.executorStopped
    ensures !r.1 ==> r.0 == st
    ensures r.0.callbacks == st.callbacks + (if r.1 then 1 else 0)
    ensures r.0.interrupts == st.interrupts + (if r.1 then 1 else 0)
  {
    if st.shutdown then (st, false)
    else (st.(shutdown := true, interrupts := st.interrupts + 1, callbacks := st.callbacks + 1), true)
  }

  /** `Reader.shutdown`: the worker's shutdown, and the pool stopped when that succeeded. */
  function ReaderShutdown(st: WorkerState): (r: (WorkerState, bool))
    ensures r.1 == WorkerShutdown(st).1
    ensures r.0 == WorkerShutdown(st).0.(executorStopped := st.executorStopped || r.1)
  {
    var (next, done) := WorkerShutdown(st);
    if done then (next.(executorStopped := true), true) else (next, false)
  }

  /** A second shutdown answers false and changes nothing, so the callback runs at most once. */
  lemma ShutdownOnce(st: WorkerState)
    ensures var once := ReaderShutdown(st);
            ReaderShutdown(once.0) == (once.0, false)
            && once.0.callbacks <= st.callbacks + 1
  {
  }

  /** `Reader.start`: refused on a running reader; otherwise the flag is cleared. */
  function ReaderStart(st: WorkerState): (r: (WorkerState, bool))
    ensures r.1 <==> !st.shutdown
    ensures !r.0.shutdown && (r.1 ==> r.0 == st)
    ensures !r.1 ==> r.0 == st.(shutdown := false)
  {
    if !st.shutdown then (st, true) else (st.(shutdown := false), false)
  }

  /** What the reader does with a completed frame: the bodies of application frames go to the pool, in order; heartbeats and other types are dropped. */
  function Dispatched(frames: seq<Datagram>): (bodies: seq<seq<byte>>)
    ensures |bodies| <= |frames|
  {
    if frames == [] then []
    else (if frames[0].kind == 1 then [frames[0].body] else []) + Dispatched(frames[1..])
  }

  /** Frames are dispatched in the order they complete: the dispatch of a concatenation is the concatenation of the dispatches. */
  lemma {:induction false} DispatchedConcat(a: seq<Datagram>, b: seq<Datagram>)
    ensures Dispatched(a + b) == Dispatched(a) + Dispatched(b)
  {
    if a == [] {
      assert a + b == b;
    } else {
      var head := if a[0].kind == 1 then [a[0].body] else [];
      assert (a + b)[0] == a[0] && (a + b)[1..] == a[1..] + b;
      assert Dispatched(a + b) == head + Dispatched(a[1..] + b);
      DispatchedConcat(a[1..], b);
      assert Dispatched(a) == head + Dispatched(a[1..]);
    }
  }

  /** A single frame: an application frame hands its body to the pool, any other type hands nothing. */
  lemma DispatchedOne(d: Datagram)
    ensures Dispatched([d]) == if d.IsMvc() then [d.body] else []
  {
  }

  /**
   * Each application frame's body is dispatched at its own place: between the
   * bodies of the frames before it and those of the frames after it.
   */
  lemma DispatchedAt(frames: seq<Datagram>, i: nat)
    requires i < |frames| && frames[i].IsMvc()
    ensures Dispatched(frames) == Dispatched(frames[..i]) + [frames[i].body] + Dispatched(frames[i + 1..])
  {
    assert frames == frames[..i] + ([frames[i]] + frames[i + 1..]);
    DispatchedConcat(frames[..i], [frames[i]] + frames[i + 1..]);
    DispatchedConcat([frames[i]], frames[i + 1..]);
    DispatchedOne(frames[i]);
  }

  /** A stream of application frames hands every body to the pool, in order. */
  lemma {:induction false} DispatchedAllMvc(frames: seq<Datagram>)
    requires forall i :: 0 <= i < |frames| ==> frames[i].IsMvc()
    ensures Dispatched(frames) == seq(|frames|, i requires 0 <= i < |frames| => frames[i].body)
  {
    if frames != [] {
      DispatchedAllMvc(frames[1..]);
    }
  }

  /** Every body dispatched is the body of an application frame. */
  lemma {:induction false} DispatchedAreMvc(frames: seq<Datagram>)
    ensures forall body :: body in Dispatched(frames) ==> exists d :: d in frames && d.IsMvc() && d.body == body
  {
    if frames != [] {
      DispatchedAreMvc(frames[1..]);
    }
  }

  /** A stream of heartbeats and frames of other types hands nothing to the pool. */
  lemma {:induction false} NothingButMvcDispatched(frames: seq<Datagram>)
    requires forall i :: 0 <= i < |frames| ==> !frames[i].IsMvc()
    ensures Dispatched(frames) == []
  {
    if frames != [] {
      NothingButMvcDispatched(frames[1..]);
    }
  }

  /** The reader's loop from where it starts: a 1024-byte buffer, stopping after the end of the stream. */
  function ReaderRun(script: seq<ReadResult>): (out: RunOut)
    ensures |out.frames| <= |script|
    ensures forall d :: d in out.frames ==> d.WellFormed()
    ensures out.ended ==> out.failure.None?
  {
    Run(DefaultLayout, Cursor(Zeros(ReaderBufferSize), 0, 0), script, true)
  }

  /**
   * One iteration of a read loop, as bookkeeping over the frames so far: the
   * loop from iteration `i` on is this iteration's outcome followed by the
   * loop from iteration `i + 1` on.
   */
  lemma LoopAdvance(step: (LoopState, ReadResult) -> Outcome, before: LoopState, script: seq<ReadResult>, i: nat,
                    frames: seq<Datagram>, whole: RunOut, after: LoopState, result: StepResult, stopAtEnd: bool)
    requires i < |script| && Outcome(after, result) == step(before, script[i])
    requires var rest := Loop(step, before, script[i..], stopAtEnd);
             whole == RunOut(rest.last, frames + rest.frames, rest.failure, rest.ended)
    ensures result.Failed? ==> whole.frames == frames && whole.failure == Some(result.f) && !whole.ended
    ensures !result.Failed? && stopAtEnd && script[i].EndOfStream? ==>
              whole.frames == frames + Emitted(result) && whole.failure.None? && whole.ended
    ensures !result.Failed? && !(stopAtEnd && script[i].EndOfStream?) ==>
              var rest := Loop(step, after, script[i + 1..], stopAtEnd);
              whole == RunOut(rest.last, (frames + Emitted(result)) + rest.frames, rest.failure, rest.ended)
  {
    assert script[i..][0] == script[i];
    assert script[i..][1..] == script[i + 1..];
    if !result.Failed? && stopAtEnd && script[i].EndOfStream? {
      assert whole.frames == frames + Emitted(result);
    }
  }

  /** One iteration of an inner decoder, seen through any step function that agrees with the reassembler's. */
  method FeedThrough(fb: FrameBuffer, r: ReadResult, ghost step: (LoopState, ReadResult) -> Outcome)
    returns (result: StepResult)
    requires fb.Valid() && fb.layout == DefaultLayout
    requires forall c, r {:trigger Step(DefaultLayout, c, r)} :: step(c, r) == Step(DefaultLayout, c, r)
    modifies fb, fb.buffer
    ensures fb.Valid() && (fb.buffer == old(fb.buffer) || fresh(fb.buffer))
    ensures Outcome(fb.State(), result) == step(old(fb.State()), r)
  {
    ghost var before := fb.State();
    result := fb.Feed(r);
    assert step(before, r) == Step(DefaultLayout, before, r);
  }

  /** The socket reader of the test client. */
  class Reader {
    var shutdown: bool
    var interrupts: nat
    var callbacks: nat
    var executorStopped: bool
    /** The application-frame bodies handed to the pool, in order. */
    var submitted: seq<seq<byte>>

    ghost function State(): WorkerState
      reads this
    {
      WorkerState(shutdown, interrupts, callbacks, executorStopped)
    }

    constructor ()
      ensures State() == NewWorker && submitted == []
    {
      shutdown := true;
      interrupts := 0;
      callbacks := 0;
      executorStopped := false;
      submitted := [];
    }

    method Start() returns (threw: bool)
      modifies this
      ensures (State(), threw) == ReaderStart(old(State())) && submitted == old(submitted)
    {
      if !shutdown {
        return true;
      }
      shutdown := false;
      threw := false;
    }

    method Shutdown() returns (done: bool)
      modifies this
      ensures (State(), done) == ReaderShutdown(old(State())) && submitted == old(submitted)
    {
      if shutdown {
        return false;
      }
      shutdown := true;
      interrupts := interrupts + 1;
      callbacks := callbacks + 1;
      executorStopped := true;
      return true;
    }

    /**
     * One pass of `read`'s loop body: an end-of-stream read shuts the reader
     * down, then the iteration completes; an application frame goes to the pool.
     */
    method Pass(fb: FrameBuffer, r: ReadResult, ghost step: (LoopState, ReadResult) -> Outcome) returns (result: StepResult)
      requires fb.Valid() && fb.layout == DefaultLayout && !shutdown
      requires forall c, r {:trigger Step(DefaultLayout, c, r)} :: step(c, r) == Step(DefaultLayout, c, r)
      modifies this, fb, fb.buffer
      ensures fb.Valid() && (fb.buffer == old(fb.buffer) || fresh(fb.buffer))
      ensures Outcome(fb.State(), result) == step(old(fb.State()), r)
      ensures shutdown == r.EndOfStream?
      ensures callbacks == old(callbacks) + (if r.EndOfStream? then 1 else 0)
      ensures executorStopped == (old(executorStopped) || r.EndOfStream?)
      ensures submitted == old(submitted) + Dispatched(Emitted(result))
    {
      if r.EndOfStream? {
        var _ := Shutdown();
      }
      result := FeedThrough(fb, r, step);
      if result.Frame? {
        DispatchedOne(result.d);
        if result.d.kind == 1 {
          submitted := submitted + [result.d.body];
        }
      }
    }

    /**
     * `read`'s loop, for any step function that agrees with the reassembler's:
     * it runs while the reader is not shut down and the reads neither fail nor
     * run out.
     */
    method Drive(fb: FrameBuffer, script: seq<ReadResult>, ghost step: (LoopState, ReadResult) -> Outcome)
      returns (failure: Option<Failure>)
      requires !shutdown && fb.Valid() && fb.layout == DefaultLayout
      requires forall c, r {:trigger Step(DefaultLayout, c, r)} :: step(c, r) == Step(DefaultLayout, c, r)
      modifies this, fb, fb.buffer
      ensures var out := Loop(step, old(fb.State()), script, true);
              && submitted == old(submitted) + Dispatched(out.frames)
              && failure == out.failure
              && (failure.None? ==> shutdown == out.ended)
              && callbacks == old(callbacks) + (if shutdown then 1 else 0)
              && executorStopped == (old(executorStopped) || shutdown)
    {
      ghost var whole := Loop(step, fb.State(), script, true);
      ghost var frames: seq<Datagram> := [];
      failure := None;
      var i := 0;
      while i < |script| && !shutdown && failure.None?
        invariant 0 <= i <= |script|
        invariant fb.Valid() && fb.layout == DefaultLayout && (fb.buffer == old(fb.buffer) || fresh(fb.buffer))
        invariant submitted == old(submitted) + Dispatched(frames)
        invariant executorStopped == (old(executorStopped) || shutdown)
        invariant callbacks == old(callbacks) + (if shutdown then 1 else 0)
        invariant failure.None? && !shutdown ==>
                    var rest := Loop(step, fb.State(), script[i..], true);
                    whole == RunOut(rest.last, frames + rest.frames, rest.failure, rest.ended)
        invariant failure.Some? ==> whole.frames == frames && whole.failure == failure
        invariant failure.None? && shutdown ==> whole.frames == frames && whole.ended && whole.failure.None?
        decreases |script| - i
      {
        ghost var before := fb.State();
        var result := Pass(fb, script[i], step);
        LoopAdvance(step, before, script, i, frames, whole, fb.State(), result, true);
        if result.Failed? {
          failure := Some(result.f);
        } else {
          DispatchedConcat(frames, Emitted(result));
          frames := frames + Emitted(result);
        }
        i := i + 1;
      }
      if failure.None? && !shutdown {
        assert script[i..] == [];
        assert whole.frames == frames + [] == frames;
      }
    }

    /**
     * The reader thread: `read` while not shut down, then, if it ended by an
     * exception, the `finally` shutdown. An end-of-stream read shuts the reader
     * down inside the loop, yet the iteration still adds -1 to the write cursor
     * and completes.
     */
    method ReadLoop(script: seq<ReadResult>)
      modifies this
      ensures old(shutdown) ==> State() == old(State()) && submitted == old(submitted)
      ensures !old(shutdown) ==>
                var out := ReaderRun(script);
                && submitted == old(submitted) + Dispatched(out.frames)
                && shutdown == (out.ended || out.failure.Some?)
                && callbacks == old(callbacks) + (if shutdown then 1 else 0)
                && executorStopped == (old(executorStopped) || shutdown)
    {
      if shutdown {
        return;
      }
      var fb := new FrameBuffer(DefaultLayout, ReaderBufferSize);
      var failure := Drive(fb, script, Stepper(DefaultLayout));
      if failure.Some? && !shutdown {
        var _ := Shutdown();
      }
    }
  }

  /** A message waiting in the client's send queue. */
  datatype Msg = Msg(invoke: string, data: seq<byte>)

  /** How one pass of the writer loop goes: the message is written, the `take` is interrupted, or the socket write fails. */
  datatype WriteOutcome = Wrote | TakeInterrupted | WriteFailed

  /**
   * The writer's view: the queue, the loop's `msg` variable, what reached the
   * socket, and the flags `isOpen` reads; `stopped` once the loop has thrown.
   */
  datatype Sender = Sender(queue: seq<Msg>, msg: Option<Msg>, sent: seq<Msg>, shutdown: bool, faild: bool, stopped: bool)
  {
    /** `isOpen`: not shut down and not failed. */
    predicate IsOpen() { !shutdown && !faild }
  }

  /** A message's body must fit a frame. */
  predicate Sendable(m: Msg)
  {
    |m.data| <= MaxLength - HeadLength
  }

  /** The bytes `write(out)` puts on the socket for a message, as written: the frame's body only. */
  function WireBytes(m: Msg): (bytes: seq<byte>)
    requires Sendable(m)
    ensures bytes == m.data
  {
    Build(m.data, 1, 1).body
  }

  /** As written, what reaches the socket never decodes to the frame that was built: the header is missing. */
  lemma BodyIsNotAFrame(m: Msg)
    requires Sendable(m)
    ensures Decode(WireBytes(m)) != Some(Build(m.data, 1, 1))
  {
    var d := Build(m.data, 1, 1);
    assert |d.data| == HeadLength + |m.data|;
  }

  /** As written, a short message is not even a header: the server sees no frame at all. */
  lemma ShortMessageNeverDecodes(m: Msg)
    requires Sendable(m) && |m.data| < HeadLength
    ensures Decode(WireBytes(m)) == None
  {
  }

  /** The bytes as intended: the whole frame, header included. */
  function FixedWireBytes(m: Msg): (bytes: seq<byte>)
    requires Sendable(m)
    ensures |bytes| == HeadLength + |m.data|
    ensures forall rest :: Decode(bytes + rest) == Some(Build(m.data, 1, 1))
  {
    var bytes := Build(m.data, 1, 1).data;
    forall rest ensures Decode(bytes + rest) == Some(Build(m.data, 1, 1)) {
      DecodeBuild(m.data, 1, 1, rest);
    }
    bytes
  }

  /**
   * One pass of the writer loop as written. `take` on an empty queue waits,
   * so only an interrupt ends it; a message taken is written, or put back at
   * the tail when the write fails. On an interrupt, whatever `msg` still holds
   * is put back too, even the message the previous pass wrote.
   */
  function SendStep(s: Sender, o: WriteOutcome): (r: Sender)
    requires !s.stopped && s.IsOpen()
    ensures o == TakeInterrupted ==>
              r == s.(queue := s.queue + (if s.msg.Some? then [s.msg.value] else []), stopped := true)
    ensures o != TakeInterrupted && s.queue == [] ==> r == s.(stopped := true)
    ensures o == Wrote && s.queue != [] ==>
              r == s.(queue := s.queue[1..], msg := Some(s.queue[0]), sent := s.sent + [s.queue[0]])
    ensures o == WriteFailed && s.queue != [] ==>
              r == s.(queue := s.queue[1..] + [s.queue[0]], msg := Some(s.queue[0]), faild := true, stopped := true)
  {
    if o == TakeInterrupted then s.(queue := s.queue + (if s.msg.Some? then [s.msg.value] else []), stopped := true)
    else if s.queue == [] then s.(stopped := true)
    else if o == Wrote then s.(queue := s.queue[1..], msg := Some(s.queue[0]), sent := s.sent + [s.queue[0]])
    else s.(queue := s.queue[1..] + [s.queue[0]], msg := Some(s.queue[0]), faild := true, stopped := true)
  }

  /** One pass as intended: `msg` is cleared once its message is on the socket. */
  function FixedSendStep(s: Sender, o: WriteOutcome): (r: Sender)
    requires !s.stopped && s.IsOpen()
    ensures o == Wrote && s.queue != [] ==> r.msg.None?
    ensures multiset(r.sent) + multiset(r.queue) == multiset(s.sent) + multiset(s.queue) + (if o == TakeInterrupted && s.msg.Some? then multiset{s.msg.value} else multiset{})
  {
    var r := SendStep(s, o);
    if o == Wrote && s.queue != [] then
      assert s.queue == [s.queue[0]] + s.queue[1..];
      r.(msg := None)
    else if o == WriteFailed && s.queue != [] then
      assert s.queue == [s.queue[0]] + s.queue[1..];
      r
    else r
  }

  /** The writer loop over a script of outcomes: it runs while the client is open and has not thrown. */
  function SendLoop(s: Sender, outcomes: seq<WriteOutcome>): (r: Sender)
    ensures !s.IsOpen() || s.stopped ==> r == s
    decreases |outcomes|
  {
    if outcomes == [] || s.stopped || !s.IsOpen() then s
    else SendLoop(SendStep(s, outcomes[0]), outcomes[1..])
  }

  function FixedSendLoop(s: Sender, outcomes: seq<WriteOutcome>): (r: Sender)
    ensures !s.IsOpen() || s.stopped ==> r == s
    decreases |outcomes|
  {
    if outcomes == [] || s.stopped || !s.IsOpen() then s
    else FixedSendLoop(FixedSendStep(s, outcomes[0]), outcomes[1..])
  }

  /** As written: a message that was written and then an interrupt in the next `take` leaves that message queued again, so it is sent twice. */
  lemma InterruptRequeuesSentMessage(m: Msg)
    ensures var r := SendLoop(Sender([m], None, [], false, false, false), [Wrote, TakeInterrupted]);
            r.sent == [m] && r.queue == [m]
  {
    var s1 := SendStep(Sender([m], None, [], false, false, false), Wrote);
    assert s1 == Sender([], Some(m), [m], false, false, false);
    var s2 := SendStep(s1, TakeInterrupted);
    assert s2 == Sender([m], Some(m), [m], false, false, true);
    assert [Wrote, TakeInterrupted][1..] == [TakeInterrupted];
    assert [TakeInterrupted][1..] == [];
  }

  /**
   * As intended, the writer neither loses nor duplicates a message: starting
   * with no message held, what was sent plus what is queued is always what
   * was sent plus what was queued before the loop.
   */
  lemma {:induction false} FixedSendConserves(s: Sender, outcomes: seq<WriteOutcome>)
    requires s.msg.None?
    ensures var r := FixedSendLoop(s, outcomes);
            multiset(r.sent) + multiset(r.queue) == multiset(s.sent) + multiset(s.queue)
    decreases |outcomes|
  {
    if outcomes != [] && !s.stopped && s.IsOpen() {
      var next := FixedSendStep(s, outcomes[0]);
      if !next.stopped {
        assert outcomes[0] == Wrote && s.queue != [];
      }
      if next.stopped {
        assert FixedSendLoop(next, outcomes[1..]) == next;
      } else {
        FixedSendConserves(next, outcomes[1..]);
      }
    }
  }

  /** `client/Client`: the flags, the send queue, what was written, and the frames its decoder handed to the consumer. */
  class Client {
    var shutdown: bool
    var faild: bool
    var queue: seq<Msg>
    /** The messages written to the socket, in order; `WireBytes` says which bytes each became. */
    var sent: seq<Msg>
    /** The frames handed to the consumer, in order. */
    var consumed: seq<Datagram>

    /** A new client is shut down, with an empty queue; `start` connects but changes neither flag. */
    constructor ()
      ensures shutdown && !faild && queue == [] && sent == [] && consumed == []
    {
      shutdown := true;
      faild := false;
      queue := [];
      sent := [];
      consumed := [];
    }

    /** `isOpen`. */
    predicate IsOpen()
      reads this
    {
      !shutdown && !faild
    }

    /** `write(invoke, data)`: queues the message at the tail and answers true; an interrupted `put` answers false. */
    method Write(invoke: string, data: seq<byte>, interrupted: bool) returns (queued: bool)
      modifies this
      ensures queued <==> !interrupted
      ensures queue == old(queue) + (if queued then [Msg(invoke, data)] else [])
      ensures shutdown == old(shutdown) && faild == old(faild) && sent == old(sent) && consumed == old(consumed)
    {
      if interrupted {
        return false;
      }
      queue := queue + [Msg(invoke, data)];
      return true;
    }

    /** `write(out)`: the writer loop as written, over a script of outcomes. */
    method WriteLoop(outcomes: seq<WriteOutcome>)
      modifies this
      ensures var r := SendLoop(Sender(old(queue), None, old(sent), old(shutdown), old(faild), false), outcomes);
              queue == r.queue && sent == r.sent && faild == r.faild && shutdown == old(shutdown)
      ensures consumed == old(consumed)
    {
      var msg: Option<Msg> := None;
      var stopped := false;
      var i := 0;
      ghost var start := Sender(queue, None, sent, shutdown, faild, false);
      ghost var whole := SendLoop(start, outcomes);
      while i < |outcomes| && !stopped && IsOpen()
        invariant 0 <= i <= |outcomes|
        invariant shutdown == old(shutdown)
        invariant consumed == old(consumed)
        invariant whole == SendLoop(Sender(queue, msg, sent, shutdown, faild, stopped), outcomes[i..])
        decreases |outcomes| - i
      {
        ghost var s := Sender(queue, msg, sent, shutdown, faild, stopped);
        assert outcomes[i..][0] == outcomes[i] && outcomes[i..][1..] == outcomes[i + 1..];
        if outcomes[i] == TakeInterrupted {
          if msg.Some? {
            queue := queue + [msg.value];
          }
          stopped := true;
        } else if queue == [] {
          stopped := true;
        } else {
          var m := queue[0];
          msg := Some(m);
          if outcomes[i] == Wrote {
            queue := queue[1..];
            sent := sent + [m];
          } else {
            queue := queue[1..] + [m];
            faild := true;
            stopped := true;
          }
        }
        assert Sender(queue, msg, sent, shutdown, faild, stopped) == SendStep(s, outcomes[i]);
        i := i + 1;
      }
      assert whole == Sender(queue, msg, sent, shutdown, faild, stopped);
    }

    /** The inner decoder's loop, for any step function that agrees with the reassembler's. */
    method Consume(fb: FrameBuffer, script: seq<ReadResult>, ghost step: (LoopState, ReadResult) -> Outcome)
      returns (failure: Option<Failure>)
      requires fb.Valid() && fb.layout == DefaultLayout
      requires forall c, r {:trigger Step(DefaultLayout, c, r)} :: step(c, r) == Step(DefaultLayout, c, r)
      modifies this, fb, fb.buffer
      ensures var out := Loop(step, old(fb.State()), script, false);
              consumed == old(consumed) + out.frames && failure == out.failure
      ensures shutdown == old(shutdown) && faild == old(faild) && queue == old(queue) && sent == old(sent)
    {
      ghost var whole := Loop(step, fb.State(), script, false);
      ghost var frames: seq<Datagram> := [];
      failure := None;
      var i := 0;
      while i < |script| && failure.None?
        invariant 0 <= i <= |script|
        invariant fb.Valid() && fb.layout == DefaultLayout && (fb.buffer == old(fb.buffer) || fresh(fb.buffer))
        invariant consumed == old(consumed) + frames
        invariant shutdown == old(shutdown) && faild == old(faild) && queue == old(queue) && sent == old(sent)
        invariant failure.None? ==>
                    var rest := Loop(step, fb.State(), script[i..], false);
                    whole == RunOut(rest.last, frames + rest.frames, rest.failure, rest.ended)
        invariant failure.Some? ==> whole.frames == frames && whole.failure == failure
        decreases |script| - i
      {
        ghost var before := fb.State();
        var result := FeedThrough(fb, script[i], step);
        LoopAdvance(step, before, script, i, frames, whole, fb.State(), result, false);
        if result.Failed? {
          failure := Some(result.f);
        } else {
          frames := frames + Emitted(result);
          if result.Frame? {
            consumed := consumed + [result.d];
          }
        }
        i := i + 1;
      }
      if failure.None? {
        assert script[i..] == [];
      }
    }

    /**
     * The inner decoder's `read`: the reassembler loop with a 2048-byte
     * buffer, running while the client is open; every frame goes to the
     * consumer, and an I/O failure marks the client failed.
     */
    method ReadLoop(script: seq<ReadResult>)
      modifies this
      ensures !old(IsOpen()) ==> consumed == old(consumed) && faild == old(faild)
      ensures old(IsOpen()) ==>
                var out := Run(DefaultLayout, Cursor(Zeros(2048), 0, 0), script, false);
                consumed == old(consumed) + out.frames && faild == (out.failure == Some(IoError))
      ensures shutdown == old(shutdown) && queue == old(queue) && sent == old(sent)
    {
      if !IsOpen() {
        return;
      }
      var fb := new FrameBuffer(DefaultLayout, Min(MaxLength, 2048));
      var failure := Consume(fb, script, Stepper(DefaultLayout));
      faild := failure == Some(IoError);
    }
  }

  /** As written, a new client's writer loop does nothing: `start` never clears `shutdown`, so `isOpen` is false. */
  lemma NewClientNeverSends(queue: seq<Msg>, outcomes: seq<WriteOutcome>)
    ensures var s := Sender(queue, None, [], true, false, false);
            SendLoop(s, outcomes) == s
  {
  }
}
