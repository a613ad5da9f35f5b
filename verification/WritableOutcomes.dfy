/** How the promises of the writable stream settle: in every run each outcome is determined by
    what the sink answered and by the stored error. */
module WritableOutcomes {
  import opened Wrappers
  import opened SizedQueue
  import opened WritableModel
  import opened WritableInvariant
  import opened WritableSafety
  import opened WritableRuns

  // ---- what the sink answered --------------------------------------------------------

  /** The error of a failed write, and the answers to close and abort, as far as there are. */
  datatype Answers = Answers(write: Option<Reason>, close: Option<SinkResult>, abort: Option<SinkResult>)

  function AnswersOf(trace: seq<SinkEvent>): Answers {
    if trace == [] then Answers(None, None, None)
    else
      var before, e := AnswersOf(trace[..|trace| - 1]), trace[|trace| - 1];
      if e.Called? then before
      else if e.op.WriteOp? && e.result.Fails? then before.(write := Some(e.result.error))
      else if e.op.CloseOp? then before.(close := Some(e.result))
      else if e.op.AbortOp? then before.(abort := Some(e.result))
      else before
  }

  lemma AnswersAppend(trace: seq<SinkEvent>, e: SinkEvent)
    ensures var before := AnswersOf(trace);
            AnswersOf(trace + [e]) ==
              if e.Called? then before
              else if e.op.WriteOp? && e.result.Fails? then before.(write := Some(e.result.error))
              else if e.op.CloseOp? then before.(close := Some(e.result))
              else if e.op.AbortOp? then before.(abort := Some(e.result))
              else before
  {
    assert (trace + [e])[..|trace|] == trace;
  }

  /** What the sink can have answered where it stands. */
  lemma {:induction false} AnswersMatchSink(trace: seq<SinkEvent>)
    requires Sink(trace) != Broken
    ensures Sink(trace) != Finished ==> AnswersOf(trace).close == None && AnswersOf(trace).abort == None
    ensures Sink(trace) in {Fresh, Ready(false), Busy(StartOp), Busy(CloseOp)}
            || (Sink(trace).Busy? && Sink(trace).op.WriteOp?) ==>
              AnswersOf(trace).write == None
  {
    if trace != [] {
      AnswersMatchSink(trace[..|trace| - 1]);
    }
  }

  // ---- the outcomes ------------------------------------------------------------------

  /** The i-th accepted write, once settled: fulfilled if the sink completed it; rejected with the
      sink's error if it failed there; with the stored error if it never got there. */
  function WriteOutcome(completed: nat, failure: Option<Reason>, storedError: Reason, i: nat): PromiseState {
    if i < completed then Fulfilled
    else if i == completed && failure.Some? then Rejected(failure.value)
    else Rejected(storedError)
  }

  /** The answer of the sink's close; without one, the stored error. */
  function CloseOutcome(answers: Answers, storedError: Reason): PromiseState {
    if answers.close.Some? then OutcomeOf(answers.close.value) else Rejected(storedError)
  }

  /** The answer of the sink's abort; without one, what the close in flight came to; without that,
      the stored error. */
  function AbortedOutcome(answers: Answers, storedError: Reason): PromiseState {
    if answers.abort.Some? then OutcomeOf(answers.abort.value) else CloseOutcome(answers, storedError)
  }

  ghost predicate WritesTold(settled: seq<Settlement>, completed: nat, failure: Option<Reason>, storedError: Reason) {
    && |settled| >= completed + Count(failure.Some?)
    && forall i :: 0 <= i < |settled| ==> settled[i].state == WriteOutcome(completed, failure, storedError, i)
  }

  ghost predicate AllTold(settled: seq<Settlement>, outcome: PromiseState) {
    forall i :: 0 <= i < |settled| ==> settled[i].state == outcome
  }

  predicate IsOpen(state: Phase) { state == Writable || state == Erroring }

  /** Every settlement so far has its outcome; while the stream is open, nothing is settled but what
      the sink has answered. */
  ghost predicate ToldOf(writes: seq<Settlement>, closes: seq<Settlement>, aborts: seq<Settlement>, completed: nat,
                         answers: Answers, storedError: Reason, open: bool, aborting: bool, closing: bool)
  {
    && WritesTold(writes, completed, answers.write, storedError)
    && AllTold(closes, CloseOutcome(answers, storedError))
    && AllTold(aborts, AbortedOutcome(answers, storedError))
    && (open ==> |writes| == completed + Count(answers.write.Some?))
    && (open && answers.close == None ==> closes == [] && aborts == [])
    && (aborting ==> aborts == [])
    && (closing ==> answers.close == None)
  }

  ghost predicate Told(s: Stream) {
    ToldOf(Settlements(Writes, s.h.log), Settlements(Closes, s.h.log), Settlements(Aborts, s.h.log),
           Completed(s.h.trace), AnswersOf(s.h.trace), s.storedError, IsOpen(s.state),
           AbortOutstanding(s.h.outstanding), s.closeRequest.Some?)
  }

  // ---- operations --------------------------------------------------------------------

  /** A change that settles nothing and to which the sink says nothing. */
  ghost predicate Quiet(s: Stream, t: Stream) {
    && t.h.log == s.h.log && t.storedError == s.storedError && t.state == s.state
    && Completed(t.h.trace) == Completed(s.h.trace) && AnswersOf(t.h.trace) == AnswersOf(s.h.trace)
    && (AbortOutstanding(t.h.outstanding) ==> AbortOutstanding(s.h.outstanding))
    && (t.closeRequest.Some? ==> s.closeRequest.Some?)
  }

  lemma QuietTells(s: Stream, t: Stream)
    requires Told(s) && Quiet(s, t)
    ensures Told(t)
  {}

  lemma TurnTells(s: Stream, reason: Reason)
    requires Told(s) && s.state == Writable && (AnswersOf(s.h.trace).close == None || s.closeRequest == None)
    ensures Told(s.Turn(reason))
  {}

  lemma RejectCloseTells(s: Stream)
    requires Told(s) && s.state == Errored && !AbortOutstanding(s.h.outstanding)
    ensures Told(s.RejectCloseAndClosedPromiseIfNeeded())
  {
    hide Settlements, Completed, AnswersOf;
    if s.closeRequest.Some? {
      SettleOne(s.h.log, Settlement(CloseDone(s.closeRequest.value), Rejected(s.storedError)));
    }
  }

  /** Dropping the queue rejects its writes with the stored error. */
  lemma EmptiedTells(s: Stream)
    requires Told(s) && s.state == Erroring && s.h.outstanding == []
    ensures Told(s.Emptied())
    ensures Settlements(Aborts, s.Emptied().h.log) == Settlements(Aborts, s.h.log)
  {
    hide Settlements, Completed, AnswersOf;
    SettleMany(s.h.log, s.writeRequests, s.storedError);
  }

  lemma RejectAbortTells(s: Stream, n: nat)
    requires Told(s) && AnswersOf(s.h.trace).close == None && AnswersOf(s.h.trace).abort == None
    requires !AbortOutstanding(s.h.outstanding) && s.state == Errored
    ensures Told(s.Settles(AbortDone(n), Rejected(s.storedError)))
  {
    hide Settlements, Completed, AnswersOf;
    SettleOne(s.h.log, Settlement(AbortDone(n), Rejected(s.storedError)));
  }

  lemma CallAbortTells(s: Stream, request: AbortRequest)
    requires Told(s) && s.state == Errored && s.h.outstanding == [] && Settlements(Aborts, s.h.log) == []
    ensures Told(s.Calls(AbortOp(request.reason), OnAbort(request)))
  {
    AnswersAppend(s.h.trace, Called(AbortOp(request.reason)));
    TraceAppend(s.h.trace, Called(AbortOp(request.reason)));
    hide Settlements, Completed, AnswersOf;
  }

  /** Where the sink stands when it owes no answer. */
  lemma IdleSink(s: Stream)
    requires SinkMatches(Sink(s.h.trace), s.h.outstanding, s.pendingAbort) && s.h.outstanding == []
             && s.pendingAbort.Some?
    ensures AnswersOf(s.h.trace).close == None && AnswersOf(s.h.trace).abort == None
  {
    AnswersMatchSink(s.h.trace);
  }

  lemma FinishErroringTells(s: Stream)
    requires Told(s) && s.state == Erroring && s.h.outstanding == []
    requires SinkMatches(Sink(s.h.trace), s.h.outstanding, s.pendingAbort)
    ensures Told(s.FinishErroring())
  {
    EmptiedTells(s);
    var t := s.Emptied();
    if s.pendingAbort == None {
      hide Told, Stream.RejectCloseAndClosedPromiseIfNeeded;
      RejectCloseTells(t);
    } else {
      var request := s.pendingAbort.value;
      IdleSink(s);
      assert Settlements(Aborts, s.h.log) == [];
      hide Told, Stream.RejectCloseAndClosedPromiseIfNeeded;
      if request.wasAlreadyErroring {
        RejectAbortTells(t, request.n);
        RejectCloseTells(t.Settles(AbortDone(request.n), Rejected(s.storedError)));
      } else {
        CallAbortTells(t, request);
      }
    }
  }

  lemma StartErroringTells(s: Stream, reason: Reason)
    requires Told(s) && Base(s) && s.state == Writable
    ensures Told(s.StartErroring(reason))
  {
    TurnTells(s, reason);
    if !s.HasOperationInFlight() && s.started {
      assert s.h.outstanding == [];
      hide Told, Base, Stream.FinishErroring;
      FinishErroringTells(s.Turn(reason));
    }
  }

  lemma AdvanceTells(s: Stream)
    requires Told(s) && Base(s) && (s.state == Erroring && s.started ==> s.inFlightClose == None)
    ensures Told(s.AdvanceQueueIfNeeded())
  {
    if s.started && s.inFlightWrite == None && s.state == Erroring {
      FinishErroringTells(s);
    } else if s.started && s.inFlightWrite == None && s.state == Writable && |s.queue| > 0 {
      CallTells(s);
    }
  }

  /** Calling the sink settles nothing. */
  lemma CallTells(s: Stream)
    requires Told(s) && Base(s) && s.state == Writable && s.queue != []
    ensures s.queue[0].value.ChunkRecord? ==> Told(s.ProcessWrite(s.queue[0].value.chunk))
    ensures s.queue[0].value.CloseRecord? ==> Told(s.ProcessClose())
  {
    if s.queue[0].value.ChunkRecord? {
      var op := WriteOp(s.queue[0].value.chunk);
      AnswersAppend(s.h.trace, Called(op));
      TraceAppend(s.h.trace, Called(op));
    } else {
      AnswersAppend(s.h.trace, Called(CloseOp));
      TraceAppend(s.h.trace, Called(CloseOp));
    }
    hide Told, Base, AnswersOf, Completed, Settlements;
    QuietTells(s, if s.queue[0].value.ChunkRecord? then s.ProcessWrite(s.queue[0].value.chunk) else s.ProcessClose());
  }

  // ---- public calls ------------------------------------------------------------------

  /** An open stream has had no answer to a close or an abort. */
  lemma OpenMeansUnanswered(s: Stream)
    requires Inv(s) && IsOpen(s.state)
    ensures AnswersOf(s.h.trace).close == None && AnswersOf(s.h.trace).abort == None
  {
    AnswersMatchSink(s.h.trace);
  }

  lemma AbortTells(s: Stream, reason: Reason)
    requires Inv(s) && Told(s)
    ensures Told(s.Abort(reason).0)
  {
    if (s.state == Writable || s.state == Erroring) && s.pendingAbort == None {
      var was := s.state == Erroring;
      var request := AbortRequest(s.h.aborts, if was then Undefined else reason, was);
      var t := s.(pendingAbort := Some(request), h := s.h.RequestsAbort());
      RequestAbort(s, request);
      QuietTells(s, t);
      hide Inv, Base, Told, Stream.StartErroring;
      if was {
        assert s.Abort(reason).0 == t;
      } else {
        StartErroringTells(t, reason);
        assert s.Abort(reason).0 == t.StartErroring(reason);
      }
    }
  }

  lemma ErrorIfNeededTells(s: Stream, error: Reason)
    requires Inv(s) && Told(s)
    ensures Told(s.ErrorIfNeeded(error))
  {
    if s.state == Writable {
      StartErroringTells(s, error);
    }
  }

  lemma BackpressureTells(s: Stream)
    requires Told(s) && Open(s)
    ensures Told(s.UpdateBackpressureIfOpen())
  {
    UpdateBackpressureKeeps(s);
    hide Open;
    QuietTells(s, s.UpdateBackpressureIfOpen());
  }

  /** A write accepted into a writable stream. */
  lemma AcceptTells(s: Stream, chunk: Chunk, size: Size)
    requires Inv(s) && Told(s) && s.state == Writable && !s.CloseQueuedOrInFlight()
    ensures Told(s.WithRequest(chunk).ControllerWrite(chunk, size))
  {
    var t := s.WithRequest(chunk);
    QuietTells(s, t);
    hide Inv, Told, Stream.StartErroring, Stream.UpdateBackpressureIfOpen, Stream.AdvanceQueueIfNeeded;
    if !IsFiniteNonNegative(size) {
      RequestWrite(s, chunk);
      StartErroringTells(t, InvalidSize);
    } else {
      var u := t.WithEntry(ChunkRecord(chunk), size.n);
      QuietTells(t, u);
      EnqueueWrite(s, chunk, size.n);
      BackpressureTells(u);
      UpdateBackpressureKeeps(u);
      AdvanceTells(u.UpdateBackpressureIfOpen());
    }
  }

  lemma WriteTells(s: Stream, chunk: Chunk, size: SizeResult)
    requires Inv(s) && Told(s) && s.writer.Some?
    ensures Told(s.Write(chunk, size).0)
  {
    hide Inv, Told, Stream.ErrorIfNeeded, Stream.ControllerWrite;
    var t := if size.Throws? then s.ErrorIfNeeded(size.error) else s;
    if size.Throws? {
      ErrorIfNeededKeeps(s, size.error);
      ErrorIfNeededTells(s, size.error);
    }
    if t.state == Writable && !t.CloseQueuedOrInFlight() {
      AcceptTells(t, chunk, if size.Throws? then Number(1.0) else size.size);
    }
  }

  lemma RequestCloseTells(s: Stream)
    requires Inv(s) && Told(s) && s.writer.Some? && IsOpen(s.state)
    ensures Told(s.WithCloseRequest())
  {
    OpenMeansUnanswered(s);
    hide Inv, AnswersOf, Completed, Settlements;
  }

  lemma CloseTells(s: Stream)
    requires Inv(s) && Told(s) && s.writer.Some?
    ensures Told(s.Close().0)
  {
    hide Inv, Told, Stream.AdvanceQueueIfNeeded;
    if IsOpen(s.state) && !s.CloseQueuedOrInFlight() {
      RequestCloseTells(s);
      RequestClose(s);
      AdvanceTells(s.WithCloseRequest());
    }
  }

  lemma AcquireTells(s: Stream)
    requires Told(s)
    ensures Told(s.Acquire().0)
  {
    QuietTells(s, s.Acquire().0);
  }

  // ---- answers of the sink -----------------------------------------------------------

  lemma StartSettledTells(s: Stream, result: SinkResult)
    requires Inv(s) && Told(s) && s.h.outstanding == [OnStart]
    ensures Told(Taken(s, result).StartSettled(result))
  {
    hide Inv, Told, Base, Open, BackpressureInv, Taken, IsOpen, Stream.AdvanceQueueIfNeeded, Stream.DealWithRejection;
    StartIsQuiet(s, result);
    var t := Taken(s, result).(started := true);
    match result
    case Succeeds => AdvanceTells(t);
    case Fails(error) => DealTells(t, error);
  }

  lemma StartIsQuiet(s: Stream, result: SinkResult)
    requires Inv(s) && Told(s) && s.h.outstanding == [OnStart]
    ensures var t := Taken(s, result).(started := true);
            && Told(t) && Base(t) && IsOpen(t.state) && t.h.outstanding == [] && t.inFlightClose == None
            && Taken(s, result).Check(IsOpen(t.state)).(started := true) == t
            && Taken(s, result).StartSettled(result)
               == if result.Succeeds? then t.AdvanceQueueIfNeeded() else t.DealWithRejection(result.error)
  {
    var t := Taken(s, result).(started := true);
    AnswersAppend(s.h.trace, Returned(StartOp, result));
    TraceAppend(s.h.trace, Returned(StartOp, result));
    StartReturns(s, result);
    hide Inv, Base, AnswersOf, Completed, Settlements, Stream.AdvanceQueueIfNeeded, Stream.DealWithRejection;
    QuietTells(s, t);
  }

  lemma DealTells(s: Stream, error: Reason)
    requires Told(s) && Base(s) && IsOpen(s.state) && (s.state == Erroring ==> s.h.outstanding == [])
    ensures Told(s.DealWithRejection(error))
  {
    if s.state == Writable {
      hide Base, Told;
      StartErroringTells(s, error);
    } else {
      FinishErroringTells(s);
    }
  }

  lemma ToldFrom(t: Stream, writes: seq<Settlement>, closes: seq<Settlement>, aborts: seq<Settlement>, completed: nat,
                 answers: Answers)
    requires ToldOf(writes, closes, aborts, completed, answers, t.storedError, IsOpen(t.state), false,
             t.closeRequest.Some?)
    requires Settlements(Writes, t.h.log) == writes && Settlements(Closes, t.h.log) == closes
    requires Settlements(Aborts, t.h.log) == aborts && Completed(t.h.trace) == completed
             && AnswersOf(t.h.trace) == answers
    requires t.h.outstanding == []
    ensures Told(t)
  {}

  lemma WriteAnswerTells(writes: seq<Settlement>, closes: seq<Settlement>, aborts: seq<Settlement>, answers: Answers,
                         storedError: Reason, result: SinkResult, n: nat, closing: bool)
    requires ToldOf(writes, closes, aborts, |writes|, answers, storedError, true, false, closing)
             && answers.write == None
    ensures ToldOf(writes + [Settlement(WriteDone(n), OutcomeOf(result))], closes, aborts,
                   |writes| + Count(result.Succeeds?),
                   answers.(write := if result.Fails? then Some(result.error) else None),
                   storedError, true, false, closing)
  {}

  lemma TakenWrite(s: Stream, result: SinkResult)
    requires |s.h.outstanding| == 1 && s.inFlightWrite.Some?
    ensures var t := Taken(s, result).FinishInFlightWrite(OutcomeOf(result));
            && t.h.trace == s.h.trace + [Returned(s.h.outstanding[0].Op(), result)] && t.h.outstanding == []
            && t.h.log == s.h.log + [Settlement(WriteDone(s.inFlightWrite.value), OutcomeOf(result))]
            && t.state == s.state && t.storedError == s.storedError && t.closeRequest == s.closeRequest
  {}

  lemma WriteIsNext(s: Stream)
    requires Inv(s) && |s.h.outstanding| == 1 && s.h.outstanding[0].OnWrite?
    ensures s.inFlightWrite.Some? && Completed(s.h.trace) == |Settlements(Writes, s.h.log)| && IsOpen(s.state)
    ensures Sink(s.h.trace) == Busy(s.h.outstanding[0].Op())
    ensures !AbortOutstanding(s.h.outstanding) && s.h.outstanding[0].Op().WriteOp?
  {}

  lemma WriteUnanswered(s: Stream)
    requires Told(s) && IsOpen(s.state) && !AbortOutstanding(s.h.outstanding)
    requires Sink(s.h.trace).Busy? && Sink(s.h.trace).op.WriteOp?
    ensures var writes, answers := Settlements(Writes, s.h.log), AnswersOf(s.h.trace);
            && answers.write == None && Completed(s.h.trace) == |writes|
            && ToldOf(writes, Settlements(Closes, s.h.log), Settlements(Aborts, s.h.log), |writes|, answers,
                      s.storedError, true, false, s.closeRequest.Some?)
  {
    AnswersMatchSink(s.h.trace);
    hide AnswersOf, Completed, Settlements, Sink;
  }

  /** The write in flight settles as the sink answered. */
  lemma FinishWriteTells(s: Stream, result: SinkResult)
    requires Inv(s) && Told(s) && |s.h.outstanding| == 1 && s.h.outstanding[0].OnWrite?
    ensures Told(Taken(s, result).FinishInFlightWrite(OutcomeOf(result)))
  {
    hide *;
    WriteIsNext(s);
    WriteUnanswered(s);
    TakenWrite(s, result);
    var t, op := Taken(s, result).FinishInFlightWrite(OutcomeOf(result)), s.h.outstanding[0].Op();
    var writes, answers, n := Settlements(Writes, s.h.log), AnswersOf(s.h.trace), s.inFlightWrite.value;
    var settled := Settlement(WriteDone(n), OutcomeOf(result));
    var after := answers.(write := if result.Fails? then Some(result.error) else None);
    AnswersAppend(s.h.trace, Returned(op, result));
    TraceAppend(s.h.trace, Returned(op, result));
    SettlementsOf(s.h.log, settled);
    CountOf(result);
    WriteAnswerTells(writes, Settlements(Closes, s.h.log), Settlements(Aborts, s.h.log), answers, s.storedError,
                     result, n, s.closeRequest.Some?);
    assert AnswersOf(t.h.trace) == after;
    assert IsOpen(t.state) == true;
    ToldFrom(t, writes + [settled], Settlements(Closes, s.h.log), Settlements(Aborts, s.h.log),
             |writes| + Count(result.Succeeds?), after);
  }

  lemma CountOf(result: SinkResult)
    ensures Count(result.Succeeds?) == if result.Succeeds? then 1 else 0
  {}

  /** Where a settlement of each kind goes. */
  lemma SettlementsOf(log: seq<Settlement>, e: Settlement)
    ensures Settlements(Writes, log + [e]) == Settlements(Writes, log) + if e.promise.WriteDone? then [e] else []
    ensures Settlements(Closes, log + [e]) == Settlements(Closes, log) + if e.promise.CloseDone? then [e] else []
    ensures Settlements(Aborts, log + [e]) == Settlements(Aborts, log) + if e.promise.AbortDone? then [e] else []
  {
    hide Settlements;
    SettleOne(log, e);
  }

  lemma WriteSettledTells(s: Stream, result: SinkResult)
    requires Inv(s) && Told(s) && |s.h.outstanding| == 1 && s.h.outstanding[0].OnWrite?
    ensures Told(Taken(s, result).WriteSettled(result))
  {
    FinishWriteTells(s, result);
    FinishWriteKeeps(s, result, OutcomeOf(result));
    var t := Taken(s, result).FinishInFlightWrite(OutcomeOf(result));
    CheckHolds(t);
    hide Inv, Base, Open, Told, Stream.AdvanceQueueIfNeeded, Stream.UpdateBackpressureIfOpen, Stream.StartErroring,
         Stream.FinishErroring, Stream.FinishInFlightWrite, Taken;
    match result
    case Succeeds =>
      DequeueKeeps(s);
      DequeueTells(t);
      BackpressureTells(t.Dequeue());
      UpdateBackpressureKeeps(t.Dequeue());
      AdvanceTells(t.Dequeue().UpdateBackpressureIfOpen());
    case Fails(error) =>
      NothingOutstanding(t);
      DealTells(t, error);
  }

  lemma CheckHolds(s: Stream)
    requires IsOpen(s.state)
    ensures s.Check(s.state == Writable || s.state == Erroring) == s
  {}

  lemma DequeueTells(s: Stream)
    requires Told(s)
    ensures Told(s.Dequeue())
  {
    QuietTells(s, s.Dequeue());
  }

  lemma NothingOutstanding(s: Stream)
    requires Base(s) && s.started && IsOpen(s.state) && Sink(s.h.trace).Ready?
    ensures s.h.outstanding == []
  {}

  /** What the answer to a close adds to the log. */
  lemma CloseLogs(s: Stream, outcome: PromiseState)
    requires s.inFlightClose.Some?
    ensures var log := s.CloseLogged(outcome).log;
            && Settlements(Writes, log) == Settlements(Writes, s.h.log)
            && Settlements(Closes, log) == Settlements(Closes, s.h.log)
               + [Settlement(CloseDone(s.inFlightClose.value), outcome)]
            && Settlements(Aborts, log) == Settlements(Aborts, s.h.log)
               + WaitingAbort(s, outcome)
  {
    hide Settlements;
    var e := Settlement(CloseDone(s.inFlightClose.value), outcome);
    SettleOne(s.h.log, e);
    if s.pendingAbort.Some? {
      SettleOne(s.h.log + [e], Settlement(AbortDone(s.pendingAbort.value.n), outcome));
    }
  }

  lemma CloseAnswerTells(writes: seq<Settlement>, answers: Answers, storedError: Reason, result: SinkResult, n: nat,
                         abort: seq<Settlement>, after: Reason, open: bool)
    requires ToldOf(writes, [], [], |writes|, answers, storedError, true, false, false)
    requires answers == Answers(None, None, None) && forall i :: 0 <= i < |abort| ==>
             abort[i].state == OutcomeOf(result)
    ensures ToldOf(writes, [] + [Settlement(CloseDone(n), OutcomeOf(result))], [] + abort, |writes|,
                   answers.(close := Some(result)), after, open, false, false)
  {}

  lemma TakenClose(s: Stream, result: SinkResult)
    requires s.h.outstanding == [OnClose]
    ensures var t := Taken(s, result);
            && t.h.trace == s.h.trace + [Returned(CloseOp, result)] && t.h.log == s.h.log
            && t.inFlightClose == s.inFlightClose && t.pendingAbort == s.pendingAbort
  {}

  function WaitingAbort(s: Stream, outcome: PromiseState): seq<Settlement> {
    if s.pendingAbort.Some? then [Settlement(AbortDone(s.pendingAbort.value.n), outcome)] else []
  }

  lemma OutcomesAlike(s: Stream, outcome: PromiseState)
    ensures forall i :: 0 <= i < |WaitingAbort(s, outcome)| ==> WaitingAbort(s, outcome)[i].state == outcome
  {}

  /** The close in flight settles as the sink answered, and an abort that waited for it alike. */
  lemma CloseLoggedTells(s: Stream, result: SinkResult, t: Stream)
    requires Inv(s) && Told(s) && s.h.outstanding == [OnClose]
    requires s.inFlightClose.Some? && t.h.log == Taken(s, result).CloseLogged(OutcomeOf(result)).log
    requires t.h.trace == Taken(s, result).h.trace && t.h.outstanding == [] && t.closeRequest == None
    ensures Told(t)
  {
    CloseFacts(s);
    hide *;
    var u, outcome, writes := Taken(s, result), OutcomeOf(result), Settlements(Writes, s.h.log);
    var answers, abort := AnswersOf(s.h.trace), WaitingAbort(u, outcome);
    NothingAnswered(s);
    TakenClose(s, result);
    AnswersAppend(s.h.trace, Returned(CloseOp, result));
    TraceAppend(s.h.trace, Returned(CloseOp, result));
    CloseLogs(u, outcome);
    OutcomesAlike(u, outcome);
    CloseAnswerTells(writes, answers, s.storedError, result, s.inFlightClose.value, abort, t.storedError,
      IsOpen(t.state));
    assert !t.closeRequest.Some?;
    ToldFrom(t, writes, [] + [Settlement(CloseDone(s.inFlightClose.value), outcome)], [] + abort, |writes|,
             answers.(close := Some(result)));
  }

  lemma NothingAnswered(s: Stream)
    requires Told(s) && IsOpen(s.state) && Sink(s.h.trace) == Busy(CloseOp)
    ensures AnswersOf(s.h.trace) == Answers(None, None, None)
    ensures Settlements(Closes, s.h.log) == [] && Settlements(Aborts, s.h.log) == []
    ensures Completed(s.h.trace) == |Settlements(Writes, s.h.log)|
    ensures ToldOf(Settlements(Writes, s.h.log), [], [], |Settlements(Writes, s.h.log)|, AnswersOf(s.h.trace),
                   s.storedError, true, false, false)
  {
    AnswersMatchSink(s.h.trace);
    hide AnswersOf, Completed, Settlements, Sink;
  }

  lemma CloseFacts(s: Stream)
    requires Inv(s) && s.h.outstanding == [OnClose]
    ensures IsOpen(s.state) && s.inFlightClose.Some? && s.closeRequest == None && Sink(s.h.trace) == Busy(CloseOp)
  {}

  lemma CloseSettledTells(s: Stream, result: SinkResult)
    requires Inv(s) && Told(s) && s.h.outstanding == [OnClose]
    ensures Told(Taken(s, result).CloseSettled(result))
  {
    CloseFacts(s);
    match result
    case Succeeds => CloseLoggedTells(s, result, Taken(s, result).FinishInFlightClose());
    case Fails(error) =>
      CloseFailsBase(s, error);
      var t := Taken(s, result)
               .(h := Taken(s, result).CloseLogged(Rejected(error)), inFlightClose := None, pendingAbort := None);
      CloseLoggedTells(s, result, t);
      CheckHolds(t);
      hide Inv, Base, Told, Stream.StartErroring, Stream.FinishErroring, Stream.CloseLogged;
      DealTells(t, error);
  }

  lemma AbortFacts(s: Stream)
    requires Inv(s) && Told(s) && |s.h.outstanding| == 1 && s.h.outstanding[0].OnAbort?
    ensures s.state == Errored && Settlements(Aborts, s.h.log) == []
    ensures var writes, closes, answers := Settlements(Writes, s.h.log), Settlements(Closes, s.h.log),
            AnswersOf(s.h.trace);
            && answers.close == None && answers.abort == None
            && ToldOf(writes, closes, [], Completed(s.h.trace), answers, s.storedError, false, true,
               s.closeRequest.Some?)
  {
    AnswersMatchSink(s.h.trace);
    hide AnswersOf, Completed, Settlements;
  }

  lemma AbortAnswerTells(writes: seq<Settlement>, closes: seq<Settlement>, completed: nat, answers: Answers,
                         storedError: Reason, result: SinkResult, n: nat, closing: bool)
    requires ToldOf(writes, closes, [], completed, answers, storedError, false, true, closing) && answers.close == None
    ensures ToldOf(writes, closes, [] + [Settlement(AbortDone(n), OutcomeOf(result))], completed,
                   answers.(abort := Some(result)), storedError, false, false, closing)
  {}

  lemma TakenAbort(s: Stream, result: SinkResult)
    requires |s.h.outstanding| == 1 && s.h.outstanding[0].OnAbort?
    ensures var request := s.h.outstanding[0].request;
            var t := Taken(s, result).Settles(AbortDone(request.n), OutcomeOf(result));
            && t.h.trace == s.h.trace + [Returned(AbortOp(request.reason), result)] && t.h.outstanding == []
            && t.h.log == s.h.log + [Settlement(AbortDone(request.n), OutcomeOf(result))]
            && t.state == s.state && t.storedError == s.storedError && t.closeRequest == s.closeRequest
  {}

  lemma AbortSettledIs(s: Stream, request: AbortRequest, result: SinkResult)
    ensures s.AbortSettled(request, result)
            == s.Settles(AbortDone(request.n), OutcomeOf(result)).RejectCloseAndClosedPromiseIfNeeded()
  {
    hide Stream.RejectCloseAndClosedPromiseIfNeeded;
  }

  lemma ErroredIsShut(outstanding: seq<Continuation>)
    requires outstanding == []
    ensures !IsOpen(Errored) && !AbortOutstanding(outstanding)
  {}

  lemma AbortSettledTells(s: Stream, result: SinkResult)
    requires Inv(s) && Told(s) && |s.h.outstanding| == 1 && s.h.outstanding[0].OnAbort?
    ensures Told(Taken(s, result).AbortSettled(s.h.outstanding[0].request, result))
  {
    hide *;
    var request := s.h.outstanding[0].request;
    var t := Taken(s, result).Settles(AbortDone(request.n), OutcomeOf(result));
    AbortFacts(s);
    AbortSettledIs(Taken(s, result), request, result);
    TakenAbort(s, result);
    AnswersAppend(s.h.trace, Returned(AbortOp(request.reason), result));
    TraceAppend(s.h.trace, Returned(AbortOp(request.reason), result));
    SettlementsOf(s.h.log, Settlement(AbortDone(request.n), OutcomeOf(result)));
    var answers := AnswersOf(s.h.trace);
    AbortAnswerTells(Settlements(Writes, s.h.log), Settlements(Closes, s.h.log), Completed(s.h.trace), answers,
                     s.storedError, result, request.n, s.closeRequest.Some?);
    ErroredIsShut(t.h.outstanding);
    ToldFrom(t, Settlements(Writes, s.h.log), Settlements(Closes, s.h.log),
             [] + [Settlement(AbortDone(request.n), OutcomeOf(result))], Completed(s.h.trace),
             answers.(abort := Some(result)));
    RejectCloseTells(t);
  }

  lemma ReactTells(s: Stream, result: SinkResult)
    requires Inv(s) && Told(s) && |s.h.outstanding| == 1
    ensures Told(Taken(s, result).React(s.h.outstanding[0], result))
  {
    hide Inv, Told, Taken, Stream.StartSettled, Stream.WriteSettled, Stream.CloseSettled, Stream.AbortSettled;
    match s.h.outstanding[0]
    case OnStart => StartSettledTells(s, result);
    case OnWrite(_) => WriteSettledTells(s, result);
    case OnClose => CloseSettledTells(s, result);
    case OnAbort(_) => AbortSettledTells(s, result);
  }

  // ---- runs --------------------------------------------------------------------------

  lemma StepTells(s: Stream, e: Event)
    requires Inv(s) && Told(s)
    ensures Told(s.Step(e).0)
  {
    hide Inv, Told, Taken, Stream.Acquire, Stream.Abort, Stream.Write, Stream.Close, Stream.ErrorIfNeeded, Stream.React;
    match e
    case GetWriter => AcquireTells(s);
    case StreamAbort(reason) => AbortTells(s, reason);
    case WriterAbort(reason) => AbortTells(s, reason);
    case WriterWrite(chunk, size) => if s.writer.Some? { WriteTells(s, chunk, size); }
    case WriterClose => if s.writer.Some? { CloseTells(s); }
    case WriterRelease => if s.writer.Some? { QuietTells(s, s.Release().0); }
    case ControllerError(error) => ErrorIfNeededTells(s, error);
    case Settle(k, result) =>
      if k < |s.h.outstanding| {
        SettledIsTaken(s, k, result);
        ReactTells(s, result);
      }
  }

  lemma InitTells(hwm: real)
    ensures Told(Init(hwm))
  {
    AnswersAppend([], Called(StartOp));
    assert [] + [Called(StartOp)] == [Called(StartOp)];
  }

  lemma {:induction false} RunTells(hwm: real, events: seq<Event>)
    ensures Told(Run(hwm, events))
  {
    hide Told, Inv, Stream.Step, Init;
    if events == [] {
      InitTells(hwm);
    } else {
      RunTells(hwm, events[..|events| - 1]);
      RunKeeps(hwm, events[..|events| - 1]);
      StepTells(Run(hwm, events[..|events| - 1]), events[|events| - 1]);
    }
  }

  /** In every run each accepted write that is settled is fulfilled if the sink completed it,
      rejected with the sink's error if it failed there, and rejected with the stored error if it
      was dropped. */
  lemma WritesSettleAsAnswered(hwm: real, events: seq<Event>)
    ensures var s := Run(hwm, events);
            var settled := Settlements(Writes, s.h.log);
            forall i :: 0 <= i < |settled| ==>
              settled[i] == Settlement(WriteDone(i), WriteOutcome(Completed(s.h.trace), AnswersOf(s.h.trace).write,
                                                                  s.storedError, i))
  {
    RunTells(hwm, events);
    RunKeeps(hwm, events);
    PromiseKinds(Run(hwm, events).h.log, Writes);
  }

  lemma {:induction false} PromiseKinds(log: seq<Settlement>, kind: Kind)
    ensures forall i :: 0 <= i < |Settlements(kind, log)| ==> KindOf(Settlements(kind, log)[i].promise) == kind
  {
    if log != [] { PromiseKinds(log[..|log| - 1], kind); }
  }

  lemma {:induction false} KindOfEntry(log: seq<Settlement>, i: nat)
    requires i < |log|
    ensures log[i] in Settlements(KindOf(log[i].promise), log)
  {
    PlaceInKind(log, i);
  }

  /** In every run a close that is settled comes to what the sink's close answered, and is rejected
      with the stored error if the sink was not asked; it is fulfilled exactly when the sink's close
      succeeded. */
  lemma CloseSettlesAsAnswered(hwm: real, events: seq<Event>, i: nat)
    requires i < |Run(hwm, events).h.log| && Run(hwm, events).h.log[i].promise.CloseDone?
    ensures var s := Run(hwm, events);
            && s.h.log[i].state == CloseOutcome(AnswersOf(s.h.trace), s.storedError)
            && (s.h.log[i].state == Fulfilled <==> Returned(CloseOp, Succeeds) in s.h.trace)
  {
    var s := Run(hwm, events);
    RunTells(hwm, events);
    RunKeeps(hwm, events);
    KindOfEntry(s.h.log, i);
    CloseAnswered(s.h.trace);
  }

  /** There is one answer to a close at most. */
  lemma {:induction false} CloseAnswered(trace: seq<SinkEvent>)
    requires Sink(trace) != Broken
    ensures AnswersOf(trace).close == Some(Succeeds) <==> Returned(CloseOp, Succeeds) in trace
  {
    if trace != [] {
      var before := trace[..|trace| - 1];
      CloseAnswered(before);
      AnswersMatchSink(before);
      assert trace == before + [trace[|trace| - 1]];
    }
  }

  lemma {:induction false} AbortAnswered(trace: seq<SinkEvent>)
    requires Sink(trace) != Broken
    ensures AnswersOf(trace).abort == Some(Succeeds) <==> exists reason :: Returned(AbortOp(reason), Succeeds) in trace
    ensures AnswersOf(trace).abort == None || AnswersOf(trace).close == None
  {
    if trace != [] {
      var before, e := trace[..|trace| - 1], trace[|trace| - 1];
      AbortAnswered(before);
      AnswersMatchSink(before);
      assert trace == before + [e];
      if e.Returned? && e.op.AbortOp? {
        assert e == Returned(AbortOp(e.op.reason), e.result);
      }
    }
  }

  /** In every run an abort that is settled comes to what the sink's abort answered; if the sink was
      not asked, to what its close answered; and if it was not asked for that either, it is rejected
      with the stored error. So it is fulfilled exactly when the sink's abort succeeded, or the close
      in flight did. */
  lemma AbortSettlesAsAnswered(hwm: real, events: seq<Event>, i: nat)
    requires i < |Run(hwm, events).h.log| && Run(hwm, events).h.log[i].promise.AbortDone?
    ensures var s := Run(hwm, events);
            && s.h.log[i].state == AbortedOutcome(AnswersOf(s.h.trace), s.storedError)
            && (s.h.log[i].state == Fulfilled <==>
                  || (exists reason :: Returned(AbortOp(reason), Succeeds) in s.h.trace)
                  || Returned(CloseOp, Succeeds) in s.h.trace)
  {
    var s := Run(hwm, events);
    RunTells(hwm, events);
    RunKeeps(hwm, events);
    KindOfEntry(s.h.log, i);
    CloseAnswered(s.h.trace);
    AbortAnswered(s.h.trace);
  }

  // ---- what single operations come to ------------------------------------------------

  /** The rejections that finishing an error adds for a waiting close. */
  function WaitingClose(s: Stream): seq<Settlement> {
    if s.closeRequest.Some? then [Settlement(CloseDone(s.closeRequest.value), Rejected(s.storedError))] else []
  }

  lemma RejectCloseSettles(s: Stream)
    ensures var t := s.RejectCloseAndClosedPromiseIfNeeded();
            && t.state == s.state && t.storedError == s.storedError && t.queue == s.queue
               && t.writeRequests == s.writeRequests
            && t.h.trace == s.h.trace && Settlements(Writes, t.h.log) == Settlements(Writes, s.h.log)
            && Settlements(Aborts, t.h.log) == Settlements(Aborts, s.h.log)
            && Settlements(Closes, t.h.log) == Settlements(Closes, s.h.log) + WaitingClose(s)
  {
    hide Settlements;
    if s.closeRequest.Some? {
      SettlementsOf(s.h.log, Settlement(CloseDone(s.closeRequest.value), Rejected(s.storedError)));
    }
  }

  /** Finishing an error drops the queue and rejects its writes with the stored error, in order. An
      abort that started the error is called at the sink, and it and a waiting close stay unsettled;
      otherwise both are rejected with the stored error. */
  lemma FinishErroringSettles(s: Stream)
    ensures var t := s.FinishErroring();
            var calls := s.pendingAbort.Some? && !s.pendingAbort.value.wasAlreadyErroring;
            && t.state == Errored && t.storedError == s.storedError && t.queue == [] && t.writeRequests == []
            && Settlements(Writes, t.h.log) == Settlements(Writes, s.h.log)
               + RejectedWrites(s.writeRequests, s.storedError)
            && t.h.trace == s.h.trace + (if calls then [Called(AbortOp(s.pendingAbort.value.reason))] else [])
            && Settlements(Closes, t.h.log) == Settlements(Closes, s.h.log) + (if calls then [] else WaitingClose(s))
            && Settlements(Aborts, t.h.log) == Settlements(Aborts, s.h.log)
               + if calls then [] else WaitingAbort(s, Rejected(s.storedError))
  {
    hide Settlements, Stream.RejectCloseAndClosedPromiseIfNeeded;
    SettleMany(s.h.log, s.writeRequests, s.storedError);
    var t := s.Emptied();
    if s.pendingAbort == None {
      RejectCloseSettles(t);
    } else if s.pendingAbort.value.wasAlreadyErroring {
      var e := Settlement(AbortDone(s.pendingAbort.value.n), Rejected(s.storedError));
      SettlementsOf(t.h.log, e);
      RejectCloseSettles(t.Settles(e.promise, e.state));
    }
  }

  /** Starting an error keeps its reason. With an operation in flight, or before start has settled,
      nothing else happens yet: no settlement, no call, and an abort goes on waiting. */
  lemma StartErroringTurns(s: Stream, reason: Reason)
    ensures var t := s.StartErroring(reason);
            && t.storedError == reason
            && if s.HasOperationInFlight() || !s.started then
                 t.state == Erroring && t.h.log == s.h.log && t.h.trace == s.h.trace && t.queue == s.queue
                 && t.pendingAbort == s.pendingAbort
               else t.state == Errored && t.queue == [] && t.writeRequests == []
  {
    hide Stream.FinishErroring;
    FinishErroringSettles(s.Turn(reason));
  }

  /** What goes to the sink when the queue advances: nothing while it is busy or the stream is idle;
      else the first chunk, with the first request in flight and its entry still queued; or the close,
      which leaves the queue. */
  lemma AdvanceHandsOver(s: Stream)
    requires Base(s) && Shape(s)
    ensures var t := s.AdvanceQueueIfNeeded();
            && (!s.started || s.inFlightWrite.Some? || s.state == Closed || s.state == Errored ==> t == s)
            && (s.state == Writable && s.started && !s.HasOperationInFlight() && s.queue != [] ==>
                  if s.queue[0].value.ChunkRecord? then
                    && t.h.trace == s.h.trace + [Called(WriteOp(s.queue[0].value.chunk))] && t.queue == s.queue
                    && s.writeRequests == [t.inFlightWrite.value] + t.writeRequests
                    && s.h.accepted[t.inFlightWrite.value] == s.queue[0].value.chunk
                  else t.h.trace == s.h.trace + [Called(CloseOp)] && t.queue == [] && t.inFlightClose == s.closeRequest)
  {
    hide Settlements, Sink, Handed, Completed, Consistent, CloseLedger, AbortLedger, Delivered, WriterInv,
         Stream.FinishErroring;
  }

  lemma RejectionErrors(s: Stream, error: Reason)
    requires IsOpen(s.state) && s.started && !s.HasOperationInFlight()
    ensures var t := s.DealWithRejection(error);
            t.state == Errored && t.queue == [] && t.storedError == if s.state == Writable then error else s.storedError
  {
    hide Stream.StartErroring, Stream.FinishErroring;
    StartErroringTurns(s, error);
    FinishErroringSettles(s.Check(s.state == Erroring));
  }

  /** A failed start or a failed write errors the stream at once, with that error unless another
      came before. */
  lemma FailureErrors(s: Stream, error: Reason)
    requires Inv(s) && |s.h.outstanding| == 1 && !s.h.outstanding[0].OnAbort?
    ensures var t := Taken(s, Fails(error)).React(s.h.outstanding[0], Fails(error));
            t.state == Errored && t.queue == [] && t.storedError == if s.state == Writable then error else s.storedError
  {
    FlightFacts(s);
    hide Inv, Stream.DealWithRejection;
    var u := Taken(s, Fails(error));
    match s.h.outstanding[0]
    case OnStart => RejectionErrors(u.Check(IsOpen(u.state)).(started := true), error);
    case OnWrite(_) => RejectionErrors(u.FinishInFlightWrite(Rejected(error)).Check(IsOpen(u.state)), error);
    case OnClose =>
      RejectionErrors(u.(h := u.CloseLogged(Rejected(error)).Check(IsOpen(u.state)),
                         inFlightClose := None, pendingAbort := None), error);
  }

  lemma FlightFacts(s: Stream)
    requires Inv(s) && |s.h.outstanding| == 1 && !s.h.outstanding[0].OnAbort?
    ensures IsOpen(s.state) && (s.started <==> !s.h.outstanding[0].OnStart?)
    ensures s.inFlightWrite.Some? <==> s.h.outstanding[0].OnWrite?
    ensures s.inFlightClose.Some? <==> s.h.outstanding[0].OnClose?
  {}

  /** The sink's answer to a close settles the close and an abort that waited for it alike, whichever
      it is. A success closes the stream, whatever error came meanwhile. */
  lemma CloseAnswerSettles(s: Stream, result: SinkResult)
    requires Inv(s) && s.h.outstanding == [OnClose] && s.inFlightClose.Some?
    ensures var t := Taken(s, result).CloseSettled(result);
            && t.state == (if result.Succeeds? then Closed else Errored)
            && t.pendingAbort == None && t.inFlightClose == None
            && Settlements(Closes, t.h.log) ==
                 Settlements(Closes, s.h.log) + [Settlement(CloseDone(s.inFlightClose.value), OutcomeOf(result))]
            && Settlements(Aborts, t.h.log) == Settlements(Aborts, s.h.log) + WaitingAbort(s, OutcomeOf(result))
  {
    var u := Taken(s, result);
    CloseFacts(s);
    CloseLogs(u, OutcomeOf(result));
    if result.Fails? {
      FailureErrors(s, result.error);
      CloseFailureLogs(u, result.error);
    }
    hide Inv, Settlements, Stream.DealWithRejection, Stream.CloseLogged;
  }

  lemma CloseFailureLogs(s: Stream, error: Reason)
    requires s.inFlightClose.Some? && IsOpen(s.state) && s.started && s.inFlightWrite == None && s.closeRequest == None
    requires s.writeRequests == []
    ensures var t := s.FinishInFlightCloseWithError(error);
            && t.pendingAbort == None && t.inFlightClose == None
            && Settlements(Closes, t.h.log) == Settlements(Closes, s.CloseLogged(Rejected(error)).log)
            && Settlements(Aborts, t.h.log) == Settlements(Aborts, s.CloseLogged(Rejected(error)).log)
  {
    hide Settlements, Stream.CloseLogged;
    var u := s.(h := s.CloseLogged(Rejected(error)).Check(s.state == Writable || s.state == Erroring),
                inFlightClose := None, pendingAbort := None);
    hide Stream.FinishErroring;
    if s.state == Writable {
      FinishErroringSettles(u.Turn(error));
    } else {
      FinishErroringSettles(u.Check(u.state == Erroring));
    }
  }

  /** The sink's answer to an abort settles the abort; a close that was waiting is rejected with the
      stored error. */
  lemma AbortAnswerSettles(s: Stream, result: SinkResult)
    requires Inv(s) && |s.h.outstanding| == 1 && s.h.outstanding[0].OnAbort?
    ensures var request := s.h.outstanding[0].request;
            var t := Taken(s, result).AbortSettled(request, result);
            && t.state == Errored && t.storedError == s.storedError && t.closeRequest == None
            && Settlements(Aborts, t.h.log) ==
                 Settlements(Aborts, s.h.log) + [Settlement(AbortDone(request.n), OutcomeOf(result))]
            && Settlements(Closes, t.h.log) == Settlements(Closes, s.h.log) + WaitingClose(s)
  {
    var request := s.h.outstanding[0].request;
    assert s.state == Errored;
    hide Inv, Settlements;
    var u := Taken(s, result).Settles(AbortDone(request.n), OutcomeOf(result));
    SettlementsOf(s.h.log, Settlement(AbortDone(request.n), OutcomeOf(result)));
    RejectCloseSettles(u);
  }
}
