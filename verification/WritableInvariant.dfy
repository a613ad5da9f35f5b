/** The inductive invariant of the writable stream: what the sink and the callers' promises have
    seen, and how the slots agree with that. */
module WritableInvariant {
  import opened Wrappers
  import opened SizedQueue
  import opened WritableModel

  // ---- what the sink sees ------------------------------------------------------------

  /** Where a sink stands after a trace of calls and returns. `Ready(failed)` says whether
      its last operation failed; `Broken` is left by nothing. */
  datatype SinkState = Fresh | Ready(failed: bool) | Busy(op: SinkOp) | Finished | Broken

  /** Start first; then writes, one at a time, none after a failure; then at most one of
      close or abort, alone; nothing afterwards. */
  function After(st: SinkState, e: SinkEvent): SinkState {
    match e
    case Called(op) =>
      if op.StartOp? then (if st == Fresh then Busy(op) else Broken)
      else if op.AbortOp? then (if st.Ready? then Busy(op) else Broken)
      else (if st == Ready(false) then Busy(op) else Broken)
    case Returned(op, result) =>
      if st != Busy(op) then Broken
      else if op.StartOp? || op.WriteOp? then Ready(result.Fails?)
      else Finished
  }

  function Sink(trace: seq<SinkEvent>): SinkState {
    if trace == [] then Fresh else After(Sink(trace[..|trace| - 1]), trace[|trace| - 1])
  }

  /** The chunks handed to the sink, in order. */
  function Handed(trace: seq<SinkEvent>): seq<Chunk> {
    if trace == [] then [] else
      var e := trace[|trace| - 1];
      Handed(trace[..|trace| - 1]) + if e.Called? && e.op.WriteOp? then [e.op.chunk] else []
  }

  /** How many sink writes have succeeded. */
  function Completed(trace: seq<SinkEvent>): nat {
    if trace == [] then 0 else
      var e := trace[|trace| - 1];
      Completed(trace[..|trace| - 1]) + if e.Returned? && e.op.WriteOp? && e.result.Succeeds? then 1 else 0
  }

  // ---- what the callers' promises see ------------------------------------------------

  datatype Kind = Writes | Closes | Aborts

  function KindOf(p: Promise): Kind {
    match p
    case WriteDone(_) => Writes
    case CloseDone(_) => Closes
    case AbortDone(_) => Aborts
  }

  /** The settlements of one kind, in the order they happened. */
  function Settlements(kind: Kind, log: seq<Settlement>): seq<Settlement> {
    if log == [] then [] else
      var last := log[|log| - 1];
      Settlements(kind, log[..|log| - 1]) + if KindOf(last.promise) == kind then [last] else []
  }

  /** The i-th settlement of a kind is that of the i-th promise of the kind. */
  ghost predicate Numbered(of: seq<Settlement>) {
    forall i :: 0 <= i < |of| ==> of[i].promise.n == i && of[i].state != Pending
  }

  function Count(present: bool): nat { if present then 1 else 0 }

  // ---- the invariant -----------------------------------------------------------------

  ghost predicate AbortOutstanding(outstanding: seq<Continuation>) {
    |outstanding| == 1 && outstanding[0].OnAbort?
  }

  /** The slots agree with the state and with the continuations still to run. */
  ghost predicate Slots(s: Stream) {
    && (s.state == Writable || s.state == Closed ==> s.storedError == Undefined)
    && (s.pendingAbort.Some? ==> s.state == Writable || s.state == Erroring)
    && (s.pendingAbort.Some? && s.state == Erroring && !s.pendingAbort.value.wasAlreadyErroring ==>
          s.pendingAbort.value.reason == s.storedError)
    && (s.state == Errored || s.state == Closed ==>
          s.started && s.writeRequests == [] && s.queue == [] && !s.HasOperationInFlight())
    && (s.state == Closed ==> s.closeRequest.None?)
    && (s.state == Errored && s.closeRequest.Some? ==> AbortOutstanding(s.h.outstanding))
    && (AbortOutstanding(s.h.outstanding) ==> s.h.outstanding[0].request.reason == s.storedError)
    && (s.inFlightWrite.Some? ==> s.inFlightClose.None? && |s.queue| > 0 && s.inFlightWrite.value < |s.h.accepted|)
    && (s.inFlightClose.Some? ==> s.queue == [] && s.writeRequests == [] && s.closeRequest.None?)
    && (!s.started ==> !s.HasOperationInFlight() && s.h.outstanding == [OnStart])
    && (s.started ==>
          if s.inFlightWrite.Some? then s.h.outstanding == [OnWrite(s.h.accepted[s.inFlightWrite.value])]
          else if s.inFlightClose.Some? then s.h.outstanding == [OnClose]
          else s.h.outstanding == [] || (s.state == Errored && AbortOutstanding(s.h.outstanding)))
  }

  /** The attached writer's promises, in every state. */
  ghost predicate WriterInv(s: Stream) {
    s.writer.Some? ==>
      var w := s.writer.value;
      && w.readyArmed == (w.ready == Pending)
      && w.closedArmed == (w.closed == Pending)
      && match s.state
         case Writable =>
           w.closed == Pending && w.acquiredIn == Writable
         case Erroring =>
           w.ready == Rejected(s.storedError) && w.closed == Pending && w.acquiredIn != Errored
         case Errored =>
           && w.ready == Rejected(s.storedError)
           && var waits := AbortOutstanding(s.h.outstanding) && w.acquiredIn != Errored;
              w.closed == if waits then Pending else Rejected(s.storedError)
         case Closed => w.ready != Pending && w.closed == Fulfilled
  }

  // Per kind, promises are settled in the order they were given out, each once; those not
  // settled sit in exactly one slot.

  ghost predicate WriteLedger(settled: seq<Settlement>, accepted: nat, inFlight: Option<nat>, requests: seq<nat>) {
    && Numbered(settled)
    && accepted == |settled| + Count(inFlight.Some?) + |requests|
    && (inFlight.Some? ==> inFlight.value == |settled|)
    && (forall i :: 0 <= i < |requests| ==> requests[i] == accepted - |requests| + i)
  }

  ghost predicate CloseLedger(settled: seq<Settlement>, closes: nat, request: Option<nat>, inFlight: Option<nat>) {
    && Numbered(settled)
    && closes == |settled| + Count(request.Some?) + Count(inFlight.Some?)
    && (request.Some? ==> request.value == |settled|)
    && (inFlight.Some? ==> inFlight.value == |settled|)
  }

  ghost predicate AbortLedger(settled: seq<Settlement>, aborts: nat, pending: Option<AbortRequest>,
                              outstanding: seq<Continuation>)
  {
    && Numbered(settled)
    && aborts == |settled| + Count(pending.Some?) + Count(AbortOutstanding(outstanding))
    && (pending.Some? ==> pending.value.n == |settled|)
    && (AbortOutstanding(outstanding) ==> outstanding[0].request.n == |settled|)
  }

  ghost predicate PromiseInv(s: Stream) {
    && WriteLedger(Settlements(Writes, s.h.log), |s.h.accepted|, s.inFlightWrite, s.writeRequests)
    && CloseLedger(Settlements(Closes, s.h.log), s.h.closes, s.closeRequest, s.inFlightClose)
    && AbortLedger(Settlements(Aborts, s.h.log), s.h.aborts, s.pendingAbort, s.h.outstanding)
  }

  /** The sink is busy exactly with the operation whose continuation is outstanding. */
  ghost predicate SinkMatches(sink: SinkState, outstanding: seq<Continuation>, pendingAbort: Option<AbortRequest>) {
    && (outstanding != [] ==> sink == Busy(outstanding[0].Op()))
    && (outstanding == [] ==> sink.Ready? || (sink == Finished && pendingAbort.None?))
  }

  /** Writes reach the sink in the order accepted, and a write promise is fulfilled exactly
      when its sink write succeeded. */
  ghost predicate Delivered(settled: seq<Settlement>, completed: nat, handed: seq<Chunk>,
                            accepted: seq<Chunk>, queued: nat, errored: bool)
  {
    && (forall i :: 0 <= i < |settled| ==> (settled[i].state == Fulfilled <==> i < completed))
    && completed <= |settled|
    && (if errored then handed <= accepted
        else queued <= |accepted| && handed == accepted[..|accepted| - queued])
  }

  ghost predicate DeliveryInv(s: Stream) {
    Delivered(Settlements(Writes, s.h.log), Completed(s.h.trace), Handed(s.h.trace),
              s.h.accepted, |s.writeRequests|, s.state == Errored)
    && (s.inFlightWrite.Some? ==> Completed(s.h.trace) == |Settlements(Writes, s.h.log)|)
  }

  ghost predicate Base(s: Stream) {
    Slots(s) && Consistent(s.queue, s.total) && WriterInv(s) && PromiseInv(s)
    && SinkMatches(Sink(s.h.trace), s.h.outstanding, s.pendingAbort) && DeliveryInv(s)
  }

  /** While writable, the queue is the in-flight chunk, one entry per write request, and a
      trailing close record exactly when a close is requested. */
  ghost predicate Mirrors(queue: seq<Entry<Record>>, accepted: seq<Chunk>, writes: nat, closing: bool) {
    && writes <= |accepted|
    && |queue| == writes + Count(closing)
    && (forall i :: 0 <= i < writes ==> queue[i].value == ChunkRecord(accepted[|accepted| - writes + i]))
    && (closing ==> queue[writes].value == CloseRecord)
  }

  ghost predicate Shape(s: Stream) {
    s.state == Writable ==>
      Mirrors(s.queue, s.h.accepted, Count(s.inFlightWrite.Some?) + |s.writeRequests|, s.closeRequest.Some?)
  }

  /** While writable, the ready promise is pending exactly under backpressure, until a close
      is requested. */
  ghost predicate ReadyInv(s: Stream) {
    s.state == Writable && s.writer.Some? ==>
      s.writer.value.ready == if s.backpressure && !s.CloseQueuedOrInFlight() then Pending else Fulfilled
  }

  ghost predicate Healthy(s: Stream) {
    && (s.state == Writable ==> s.pendingAbort.None? && (s.h.outstanding == [] ==> Sink(s.h.trace) == Ready(false)))
    && (s.state == Writable ==> Completed(s.h.trace) == |Settlements(Writes, s.h.log)|)
    && (s.state == Closed ==> Sink(s.h.trace) == Finished)
  }

  ghost predicate BackpressureInv(s: Stream) {
    s.state == Writable && !s.CloseQueuedOrInFlight() ==> s.backpressure == s.WantsBackpressure()
  }

  /** No work is left lying while the sink is idle. */
  ghost predicate Progress(s: Stream) {
    && (s.state == Erroring && s.started ==> s.HasOperationInFlight())
    && (s.state == Writable && s.started && s.queue != [] ==> s.HasOperationInFlight())
  }

  ghost predicate Open(s: Stream) {
    Base(s) && Shape(s) && ReadyInv(s) && Healthy(s)
  }

  ghost predicate Inv(s: Stream) {
    Open(s) && BackpressureInv(s) && Progress(s)
  }

  // ---- histories grow at the end -----------------------------------------------------

  lemma SettlementsAppend(kind: Kind, log: seq<Settlement>, e: Settlement)
    ensures Settlements(kind, log + [e]) ==
            if KindOf(e.promise) == kind then Settlements(kind, log) + [e] else Settlements(kind, log)
  {
    assert (log + [e])[..|log|] == log;
  }

  lemma TraceAppend(trace: seq<SinkEvent>, e: SinkEvent)
    ensures Sink(trace + [e]) == After(Sink(trace), e)
    ensures Handed(trace + [e]) ==
            if e.Called? && e.op.WriteOp? then Handed(trace) + [e.op.chunk] else Handed(trace)
    ensures Completed(trace + [e]) ==
            Completed(trace) + if e.Returned? && e.op.WriteOp? && e.result.Succeeds? then 1 else 0
  {
    assert (trace + [e])[..|trace|] == trace;
  }

  /** Appending one settlement of kind `kind`. */
  lemma SettleOne(log: seq<Settlement>, e: Settlement)
    ensures forall kind :: Settlements(kind, log + [e]) ==
                           if KindOf(e.promise) == kind then Settlements(kind, log) + [e] else Settlements(kind, log)
  {
    forall kind { SettlementsAppend(kind, log, e); }
  }

  /** Appending the rejections of all queued writes. */
  lemma {:induction false} SettleMany(log: seq<Settlement>, requests: seq<nat>, error: Reason)
    ensures Settlements(Writes, log + RejectedWrites(requests, error)) ==
            Settlements(Writes, log) + RejectedWrites(requests, error)
    ensures Settlements(Closes, log + RejectedWrites(requests, error)) == Settlements(Closes, log)
    ensures Settlements(Aborts, log + RejectedWrites(requests, error)) == Settlements(Aborts, log)
  {
    hide Settlements;
    var added := RejectedWrites(requests, error);
    if requests == [] {
      assert log + added == log;
    } else {
      var n := |requests| - 1;
      SettleMany(log, requests[..n], error);
      assert added == RejectedWrites(requests[..n], error) + [added[n]];
      assert log + added == (log + RejectedWrites(requests[..n], error)) + [added[n]];
      SettleOne(log + RejectedWrites(requests[..n], error), added[n]);
    }
  }

  /** Rejecting all queued writes settles the rest of the accepted ones. */
  lemma RejectQueued(w: seq<Settlement>, accepted: seq<Chunk>, requests: seq<nat>, error: Reason,
                     completed: nat, handed: seq<Chunk>)
    requires WriteLedger(w, |accepted|, None, requests)
    requires Delivered(w, completed, handed, accepted, |requests|, false)
    ensures WriteLedger(w + RejectedWrites(requests, error), |accepted|, None, [])
    ensures Delivered(w + RejectedWrites(requests, error), completed, handed, accepted, 0, true)
  {}

  lemma AcceptInLedger(w: seq<Settlement>, accepted: seq<Chunk>, inFlight: Option<nat>, requests: seq<nat>,
                       completed: nat, handed: seq<Chunk>, chunk: Chunk)
    requires WriteLedger(w, |accepted|, inFlight, requests)
    requires Delivered(w, completed, handed, accepted, |requests|, false)
    ensures WriteLedger(w, |accepted + [chunk]|, inFlight, requests + [|accepted|])
    ensures Delivered(w, completed, handed, accepted + [chunk], |requests + [|accepted|]|, false)
  {
    assert (accepted + [chunk])[..|accepted| - |requests|] == accepted[..|accepted| - |requests|];
  }

  lemma MirrorWrite(queue: seq<Entry<Record>>, accepted: seq<Chunk>, writes: nat, chunk: Chunk, size: real)
    requires Mirrors(queue, accepted, writes, false)
    ensures Mirrors(queue + [Entry(ChunkRecord(chunk), size)], accepted + [chunk], writes + 1, false)
  {}

  lemma MirrorClose(queue: seq<Entry<Record>>, accepted: seq<Chunk>, writes: nat)
    requires Mirrors(queue, accepted, writes, false)
    ensures Mirrors(queue + [Entry(CloseRecord, 0.0)], accepted, writes, true)
  {}

  lemma MirrorDequeue(queue: seq<Entry<Record>>, accepted: seq<Chunk>, writes: nat, closing: bool)
    requires Mirrors(queue, accepted, writes, closing) && writes > 0
    ensures Mirrors(queue[1..], accepted, writes - 1, closing)
  {}

  /** The in-flight write settles. */
  lemma SettleInLedger(w: seq<Settlement>, accepted: seq<Chunk>, n: nat, requests: seq<nat>, state: PromiseState,
                       handed: seq<Chunk>)
    requires WriteLedger(w, |accepted|, Some(n), requests) && state != Pending
    requires Delivered(w, |w|, handed, accepted, |requests|, false)
    ensures WriteLedger(w + [Settlement(WriteDone(n), state)], |accepted|, None, requests)
    ensures Delivered(w + [Settlement(WriteDone(n), state)], |w| + Count(state == Fulfilled), handed,
                      accepted, |requests|, false)
  {}
}
