/** What every run of the writable stream has, whatever the callers and the sink do. */
module WritableRuns {
  import opened Wrappers
  import opened SizedQueue
  import opened WritableModel
  import opened WritableInvariant
  import opened WritableSafety

  // ---- the invariant over runs -------------------------------------------------------

  /** The one situation in which an assert of the source is false: the sink's abort settles
      while the stream is held by a writer that was acquired after it had errored. */
  predicate AbortMeetsLateWriter(s: Stream, e: Event) {
    && e.Settle? && e.k < |s.h.outstanding| && s.h.outstanding[e.k].OnAbort?
    && s.writer.Some? && s.writer.value.acquiredIn == Errored
  }

  lemma SettledIsTaken(s: Stream, k: nat, result: SinkResult)
    requires Inv(s) && k < |s.h.outstanding|
    ensures k == 0 && |s.h.outstanding| == 1
    ensures s.(h := s.h.Returns(k, result)) == Taken(s, result)
  {}

  lemma ReactKeeps(s: Stream, result: SinkResult)
    requires Inv(s) && |s.h.outstanding| == 1
    ensures var t := Taken(s, result).React(s.h.outstanding[0], result);
            && Inv(t)
            && t.h.faulted == (s.h.faulted || AbortMeetsLateWriter(s, Settle(0, result)))
  {
    hide Inv, Stream.StartSettled, Stream.WriteSettled, Stream.FinishInFlightClose,
         Stream.FinishInFlightCloseWithError, Stream.AbortSettled;
    match s.h.outstanding[0]
    case OnStart => StartSettledKeeps(s, result);
    case OnWrite(_) => WriteSettledKeeps(s, result);
    case OnClose =>
      CloseInFlight(s);
      if result.Succeeds? { CloseSucceedsKeeps(s); } else { CloseFailsKeeps(s, result.error); }
    case OnAbort(_) => AbortSettledKeeps(s, result);
  }

  lemma SettleKeeps(s: Stream, k: nat, result: SinkResult)
    requires Inv(s) && k < |s.h.outstanding|
    ensures Inv(s.Settled(k, result))
    ensures s.Settled(k, result).h.faulted == (s.h.faulted || AbortMeetsLateWriter(s, Settle(k, result)))
  {
    hide Inv, Stream.React, AbortMeetsLateWriter, Taken;
    SettledIsTaken(s, k, result);
    ReactKeeps(s, result);
  }

  lemma CloseInFlight(s: Stream)
    requires Inv(s) && s.h.outstanding == [OnClose]
    ensures s.inFlightClose.Some?
  {}

  /** Every step keeps the invariant, and exactly that situation fails an assert. */
  lemma StepKeeps(s: Stream, e: Event)
    requires Inv(s)
    ensures Inv(s.Step(e).0)
    ensures s.Step(e).0.h.faulted == (s.h.faulted || AbortMeetsLateWriter(s, e))
  {
    hide Inv, Stream.Acquire, Stream.Abort, Stream.Write, Stream.Close, Stream.Release, Stream.ErrorIfNeeded,
         Stream.Settled;
    match e
    case GetWriter => AcquireKeeps(s);
    case StreamAbort(reason) => AbortKeeps(s, reason);
    case WriterAbort(reason) => AbortKeeps(s, reason);
    case WriterWrite(chunk, size) => if s.writer.Some? { WriteKeeps(s, chunk, size); }
    case WriterClose => if s.writer.Some? { CloseKeeps(s); }
    case WriterRelease => if s.writer.Some? { ReleaseKeeps(s); }
    case ControllerError(error) => ErrorIfNeededKeeps(s, error);
    case Settle(k, result) => if k < |s.h.outstanding| { SettleKeeps(s, k, result); }
  }

  lemma {:induction false} RunKeeps(hwm: real, events: seq<Event>)
    ensures Inv(Run(hwm, events))
  {
    if events == [] {
      InitKeeps(hwm);
    } else {
      RunKeeps(hwm, events[..|events| - 1]);
      StepKeeps(Run(hwm, events[..|events| - 1]), events[|events| - 1]);
    }
  }

  predicate FaultsAt(hwm: real, events: seq<Event>, i: nat)
    requires i < |events|
  {
    AbortMeetsLateWriter(Run(hwm, events[..i]), events[i])
  }

  lemma FaultsAtPrefix(hwm: real, events: seq<Event>, n: nat, i: nat)
    requires i < n <= |events|
    ensures FaultsAt(hwm, events[..n], i) == FaultsAt(hwm, events, i)
  {
    assert events[..n][..i] == events[..i];
  }

  /** An assert of the source fails in a run exactly when, at some step, the sink's abort
      settles under a writer acquired after the stream had errored. */
  lemma {:induction false} AssertsFailExactly(hwm: real, events: seq<Event>)
    ensures Run(hwm, events).h.faulted <==> exists i :: 0 <= i < |events| && FaultsAt(hwm, events, i)
  {
    hide Inv, Init, Stream.Step, AbortMeetsLateWriter;
    if events == [] {
      InitKeeps(hwm);
    } else {
      var n := |events| - 1;
      var before := events[..n];
      AssertsFailExactly(hwm, before);
      RunKeeps(hwm, before);
      StepKeeps(Run(hwm, before), events[n]);
      assert Run(hwm, events).h.faulted == (Run(hwm, before).h.faulted || FaultsAt(hwm, events, n));
      hide FaultsAt, Run;
      forall i | 0 <= i < n ensures FaultsAt(hwm, before, i) == FaultsAt(hwm, events, i) {
        FaultsAtPrefix(hwm, events, n, i);
      }
    }
  }

  /** Such a run: abort while held, let start settle, release, take a new writer, and let
      the sink's abort settle. */
  function LateWriterRun(reason: Reason): seq<Event> {
    [GetWriter, WriterAbort(reason), Settle(0, Succeeds), WriterRelease, GetWriter, Settle(0, Succeeds)]
  }

  /** A stream that is held and has not started. */
  predicate Unstarted(s: Stream) {
    s.h.outstanding == [OnStart] && !s.started && !s.HasOperationInFlight() && s.writer.Some?
  }

  lemma HeldEarly()
    ensures var s := Init(1.0).Step(GetWriter).0; Unstarted(s) && s.state == Writable && s.pendingAbort == None
  {}

  lemma AbortedEarly(s: Stream, reason: Reason)
    requires Unstarted(s) && s.state == Writable && s.pendingAbort == None
    ensures var t := s.Step(WriterAbort(reason)).0;
            Unstarted(t) && t.state == Erroring && t.pendingAbort == Some(AbortRequest(s.h.aborts, reason, false))
  {}

  lemma StartMeetsAbort(s: Stream)
    requires Unstarted(s) && s.state == Erroring && s.pendingAbort.Some? && !s.pendingAbort.value.wasAlreadyErroring
    ensures var t := s.Step(Settle(0, Succeeds)).0;
            t.h.outstanding == [OnAbort(s.pendingAbort.value)] && t.state == Errored && t.writer.Some?
  {}

  lemma TakenLate(s: Stream)
    requires |s.h.outstanding| == 1 && s.h.outstanding[0].OnAbort? && s.state == Errored && s.writer.Some?
    ensures AbortMeetsLateWriter(s.Step(WriterRelease).0.Step(GetWriter).0, Settle(0, Succeeds))
  {}

  lemma LateWriter(reason: Reason)
    ensures var s := Init(1.0).Step(GetWriter).0.Step(WriterAbort(reason)).0.Step(Settle(0, Succeeds)).0;
            AbortMeetsLateWriter(s.Step(WriterRelease).0.Step(GetWriter).0, Settle(0, Succeeds))
  {
    hide *;
    var held := Init(1.0).Step(GetWriter).0;
    HeldEarly();
    AbortedEarly(held, reason);
    StartMeetsAbort(held.Step(WriterAbort(reason)).0);
    TakenLate(held.Step(WriterAbort(reason)).0.Step(Settle(0, Succeeds)).0);
  }

  lemma RunStep(hwm: real, events: seq<Event>, n: nat)
    requires 0 < n <= |events|
    ensures Run(hwm, events[..n]) == Run(hwm, events[..n - 1]).Step(events[n - 1]).0
  {
    assert events[..n][..n - 1] == events[..n - 1];
  }

  lemma AnAssertCanFail(reason: Reason)
    ensures Run(1.0, LateWriterRun(reason)).h.faulted
  {
    var events := LateWriterRun(reason);
    LateWriter(reason);
    AssertsFailExactly(1.0, events);
    hide Stream.Step, Init, AbortMeetsLateWriter;
    RunStep(1.0, events, 1);
    RunStep(1.0, events, 2);
    RunStep(1.0, events, 3);
    RunStep(1.0, events, 4);
    RunStep(1.0, events, 5);
    assert events[..0] == [];
    assert FaultsAt(1.0, events, 5);
  }

  // ---- the sink ----------------------------------------------------------------------

  /** Each call is answered before anything else happens; start is first; a failed operation
      is followed by no call but abort; a close or abort call is the last call. */
  ghost predicate SinkDiscipline(trace: seq<SinkEvent>) {
    && (forall i :: 0 <= i < |trace| ==> (trace[i] == Called(StartOp) <==> i == 0))
    && (forall i :: 0 <= i < |trace| && trace[i].Returned? ==> i > 0 && trace[i - 1] == Called(trace[i].op))
    && (forall i :: 0 < i < |trace| && trace[i].Called? ==> trace[i - 1].Returned?)
    && (forall i, j :: 0 <= i < j < |trace| && trace[i].Returned? && trace[i].result.Fails? && trace[j].Called? ==>
          trace[j].op.AbortOp?)
    && (forall i, j :: 0 <= i < j < |trace| && trace[i].Called? && (trace[i].op.CloseOp? || trace[i].op.AbortOp?) ==>
          !trace[j].Called?)
  }

  /** What has been seen where the automaton stands. */
  lemma {:induction false} SinkHasSeen(trace: seq<SinkEvent>)
    requires Sink(trace) != Broken
    ensures Sink(trace) == Fresh <==> trace == []
    ensures Sink(trace).Busy? ==> trace[|trace| - 1] == Called(Sink(trace).op)
    ensures Sink(trace).Ready? || Sink(trace).Finished? ==> trace[|trace| - 1].Returned?
    ensures Sink(trace) == Ready(false) || (Sink(trace).Busy? && !Sink(trace).op.AbortOp?) ==>
              forall i :: 0 <= i < |trace| && trace[i].Returned? ==> trace[i].result.Succeeds?
    ensures Sink(trace).Ready? || (Sink(trace).Busy? && (Sink(trace).op.StartOp? || Sink(trace).op.WriteOp?)) ==>
              forall i :: 0 <= i < |trace| && trace[i].Called? ==> !trace[i].op.CloseOp? && !trace[i].op.AbortOp?
  {
    if trace != [] {
      var before := trace[..|trace| - 1];
      SinkHasSeen(before);
      assert trace == before + [trace[|trace| - 1]];
    }
  }

  /** What may come next. */
  lemma DisciplineGrows(before: seq<SinkEvent>, e: SinkEvent)
    requires SinkDiscipline(before)
    requires e == Called(StartOp) <==> before == []
    requires e.Returned? ==> before != [] && before[|before| - 1] == Called(e.op)
    requires e.Called? && before != [] ==> before[|before| - 1].Returned?
    requires e.Called? && !e.op.AbortOp? ==>
               forall i :: 0 <= i < |before| && before[i].Returned? ==> before[i].result.Succeeds?
    requires e.Called? ==>
               forall i :: 0 <= i < |before| && before[i].Called? ==> !before[i].op.CloseOp? && !before[i].op.AbortOp?
    ensures SinkDiscipline(before + [e])
  {}

  /** The automaton that judges traces means the discipline. */
  lemma {:induction false} SinkMeans(trace: seq<SinkEvent>)
    requires Sink(trace) != Broken
    ensures SinkDiscipline(trace)
  {
    if trace != [] {
      var before, e := trace[..|trace| - 1], trace[|trace| - 1];
      SinkHasSeen(before);
      SinkMeans(before);
      assert trace == before + [e];
      hide Sink;
      DisciplineGrows(before, e);
    }
  }

  lemma SinkSeesDiscipline(hwm: real, events: seq<Event>)
    ensures SinkDiscipline(Run(hwm, events).h.trace)
  {
    RunKeeps(hwm, events);
    SinkMeans(Run(hwm, events).h.trace);
  }

  /** The chunks handed to the sink are the accepted ones, in order, without gaps. */
  lemma WritesReachTheSinkInOrder(hwm: real, events: seq<Event>)
    ensures Handed(Run(hwm, events).h.trace) <= Run(hwm, events).h.accepted
  {
    RunKeeps(hwm, events);
  }

  // ---- promises ----------------------------------------------------------------------

  lemma {:induction false} PlaceInKind(log: seq<Settlement>, i: nat)
    requires i < |log|
    ensures var kind := KindOf(log[i].promise);
            var k := |Settlements(kind, log[..i])|;
            k < |Settlements(kind, log)| && Settlements(kind, log)[k] == log[i]
  {
    var kind := KindOf(log[i].promise);
    var n := |log| - 1;
    if i == n {
      assert log == log[..n] + [log[n]];
    } else {
      PlaceInKind(log[..n], i);
      assert log[..n][..i] == log[..i];
    }
  }

  lemma {:induction false} PlacesGrow(kind: Kind, log: seq<Settlement>, i: nat, j: nat)
    requires i < j <= |log| && KindOf(log[i].promise) == kind
    ensures |Settlements(kind, log[..i])| < |Settlements(kind, log[..j])|
  {
    assert log[..j][..j - 1] == log[..j - 1];
    if i < j - 1 {
      PlacesGrow(kind, log, i, j - 1);
    }
  }

  /** No write, close or abort promise is settled twice. */
  lemma PromisesSettleOnce(hwm: real, events: seq<Event>, i: nat, j: nat)
    requires i < j < |Run(hwm, events).h.log|
    ensures Run(hwm, events).h.log[i].promise != Run(hwm, events).h.log[j].promise
  {
    var s := Run(hwm, events);
    RunKeeps(hwm, events);
    var kind := KindOf(s.h.log[i].promise);
    assert Numbered(Settlements(kind, s.h.log));
    if KindOf(s.h.log[j].promise) == kind {
      PlaceInKind(s.h.log, i);
      PlaceInKind(s.h.log, j);
      PlacesGrow(kind, s.h.log, i, j);
    }
  }

  function WithState(fulfilled: bool, settled: seq<Settlement>): nat {
    if settled == [] then 0 else
      WithState(fulfilled, settled[..|settled| - 1])
      + Count((settled[|settled| - 1].state == Fulfilled) == fulfilled)
  }

  lemma {:induction false} CountOutcomes(settled: seq<Settlement>, completed: nat)
    requires completed <= |settled|
    requires forall i :: 0 <= i < |settled| ==> (settled[i].state == Fulfilled <==> i < completed)
    ensures WithState(true, settled) == completed && WithState(false, settled) == |settled| - completed
  {
    if settled != [] {
      var n := |settled| - 1;
      CountOutcomes(settled[..n], if completed > n then n else completed);
    }
  }

  /** Every accepted write is fulfilled, rejected, queued or in flight; as many are fulfilled
      as sink writes have succeeded. */
  lemma WritesAreConserved(hwm: real, events: seq<Event>)
    ensures var s := Run(hwm, events);
            var settled := Settlements(Writes, s.h.log);
            && |s.h.accepted| == WithState(true, settled) + WithState(false, settled)
                               + |s.writeRequests| + Count(s.inFlightWrite.Some?)
            && WithState(true, settled) == Completed(s.h.trace)
  {
    var s := Run(hwm, events);
    RunKeeps(hwm, events);
    CountOutcomes(Settlements(Writes, s.h.log), Completed(s.h.trace));
  }

  /** No write, close or abort promise given out is unsettled. */
  ghost predicate AllSettled(s: Stream) {
    && |Settlements(Writes, s.h.log)| == |s.h.accepted|
    && |Settlements(Closes, s.h.log)| == s.h.closes
    && |Settlements(Aborts, s.h.log)| == s.h.aborts
  }

  lemma RestMeansSettled(s: Stream)
    requires Inv(s) && s.h.outstanding == []
    ensures AllSettled(s)
  {}

  // ---- backpressure ------------------------------------------------------------------

  /** While writable with no close queued or in flight, the signal says whether the queue
      has reached the high-water mark, and the attached writer's ready promise is pending
      exactly then. */
  lemma BackpressureFollowsTheQueue(hwm: real, events: seq<Event>)
    ensures var s := Run(hwm, events);
            s.state == Writable && !s.CloseQueuedOrInFlight() ==>
              && (s.backpressure <==> s.hwm - Sum(s.queue) <= 0.0)
              && (s.writer.Some? ==> (s.writer.value.ready == Pending <==> s.hwm - Sum(s.queue) <= 0.0))
  {
    RunKeeps(hwm, events);
  }

  // ---- quiescence --------------------------------------------------------------------

  /** Bounds the sink settlements still to come. */
  function Remaining(s: Stream): nat {
    Count(!s.started) + |s.queue| + Count(s.inFlightClose.Some?)
    + Count(s.state == Writable || s.state == Erroring) + Count(|s.h.outstanding| == 1 && s.h.outstanding[0].OnAbort?)
  }

  /** The sink answers once per result, with nobody calling in. */
  function Answered(s: Stream, results: seq<SinkResult>): Stream
    decreases |results|
  {
    if results == [] then s else Answered(s.Step(Settle(0, results[0])).0, results[1..])
  }

  lemma RejectCloseRemaining(s: Stream)
    ensures Remaining(s.RejectCloseAndClosedPromiseIfNeeded()) == Remaining(s)
  {}

  lemma FinishErroringRemaining(s: Stream)
    requires s.h.outstanding == [] && (s.state == Writable || s.state == Erroring) && s.inFlightClose.None?
    ensures Remaining(s.FinishErroring()) <= Remaining(s) - |s.queue|
  {
    hide Stream.RejectCloseAndClosedPromiseIfNeeded;
    var t := s.Emptied();
    if s.pendingAbort.None? {
      RejectCloseRemaining(t);
    } else if s.pendingAbort.value.wasAlreadyErroring {
      RejectCloseRemaining(t.Settles(AbortDone(s.pendingAbort.value.n), Rejected(s.storedError)));
    }
  }

  lemma AdvanceRemaining(s: Stream)
    requires s.h.outstanding == [] && (s.state == Writable || s.state == Erroring) && s.inFlightClose.None?
    ensures Remaining(s.AdvanceQueueIfNeeded()) <= Remaining(s)
  {
    hide Stream.FinishErroring;
    if s.started && s.inFlightWrite.None? && s.state == Erroring {
      FinishErroringRemaining(s);
    }
  }

  /** What an outstanding continuation says about the slots. */
  lemma SlotsFacts(s: Stream)
    requires Inv(s) && |s.h.outstanding| == 1
    ensures s.state == Writable || s.state == Erroring || s.h.outstanding[0].OnAbort?
    ensures s.h.outstanding[0].OnAbort? ==> s.state == Errored && s.queue == [] && s.inFlightClose.None?
    ensures s.started <==> !s.h.outstanding[0].OnStart?
    ensures s.h.outstanding[0].OnClose? <==> s.inFlightClose.Some?
    ensures s.h.outstanding[0].OnWrite? ==> s.inFlightWrite.Some? && |s.queue| > 0
  {}

  lemma RejectionRemaining(s: Stream, error: Reason)
    requires s.h.outstanding == [] && (s.state == Writable || s.state == Erroring) && s.inFlightClose.None?
    ensures Remaining(s.DealWithRejection(error))
            <= Remaining(s) - if s.started && !s.HasOperationInFlight() then |s.queue| else 0
  {
    hide Stream.FinishErroring;
    if s.state == Writable {
      if !s.HasOperationInFlight() && s.started { FinishErroringRemaining(s.Turn(error)); }
    } else {
      FinishErroringRemaining(s.Check(s.state == Erroring));
    }
  }

  lemma WriteSettledRemaining(s: Stream, result: SinkResult)
    requires s.h.outstanding == [] && (s.state == Writable || s.state == Erroring) && s.inFlightClose.None?
    requires s.started && s.inFlightWrite.Some? && |s.queue| > 0
    ensures Remaining(s.WriteSettled(result)) < Remaining(s)
  {
    hide Stream.AdvanceQueueIfNeeded, Stream.DealWithRejection;
    match result
    case Succeeds =>
      AdvanceRemaining(s.FinishInFlightWrite(Fulfilled).Check(true).Dequeue().UpdateBackpressureIfOpen());
    case Fails(error) => RejectionRemaining(s.FinishInFlightWrite(Rejected(error)), error);
  }

  lemma ReactCountsDown(s: Stream, result: SinkResult)
    requires Inv(s) && |s.h.outstanding| == 1
    ensures Remaining(Taken(s, result).React(s.h.outstanding[0], result)) < Remaining(s)
  {
    hide Inv, Stream.StartSettled, Stream.WriteSettled, Stream.CloseSettled, Stream.AbortSettled;
    SlotsFacts(s);
    var t := Taken(s, result);
    match s.h.outstanding[0]
    case OnStart => StartSettledRemaining(t, result);
    case OnWrite(_) => WriteSettledRemaining(t, result);
    case OnClose => CloseSettledRemaining(t, result);
    case OnAbort(request) => AbortSettledRemaining(t, request, result);
  }

  /** Each answer of the sink brings the stream closer to rest. */
  lemma AnswerCountsDown(s: Stream, result: SinkResult)
    requires Inv(s) && s.h.outstanding != []
    ensures Remaining(s.Step(Settle(0, result)).0) < Remaining(s)
  {
    hide Inv, Stream.React, Taken, Remaining;
    SettledIsTaken(s, 0, result);
    ReactCountsDown(s, result);
  }

  lemma StartSettledRemaining(s: Stream, result: SinkResult)
    requires s.h.outstanding == [] && (s.state == Writable || s.state == Erroring) && s.inFlightClose.None?
             && !s.started
    ensures Remaining(s.StartSettled(result)) < Remaining(s)
  {
    hide Stream.AdvanceQueueIfNeeded, Stream.DealWithRejection;
    match result
    case Succeeds => AdvanceRemaining(s.(started := true));
    case Fails(error) => RejectionRemaining(s.(started := true), error);
  }

  lemma CloseSettledRemaining(s: Stream, result: SinkResult)
    requires s.h.outstanding == [] && (s.state == Writable || s.state == Erroring) && s.inFlightClose.Some?
    ensures Remaining(s.CloseSettled(result)) < Remaining(s)
  {
    hide Stream.DealWithRejection;
    if result.Fails? {
      RejectionRemaining(s.(h := s.CloseLogged(Rejected(result.error)), inFlightClose := None, pendingAbort := None),
                         result.error);
    }
  }

  lemma AbortSettledRemaining(s: Stream, request: AbortRequest, result: SinkResult)
    requires s.h.outstanding == []
    ensures Remaining(s.AbortSettled(request, result)) == Remaining(s)
  {
    hide Stream.RejectCloseAndClosedPromiseIfNeeded;
    RejectCloseRemaining(s.Settles(AbortDone(request.n), OutcomeOf(result)));
  }

  lemma {:induction false} AnswersRunOut(s: Stream, results: seq<SinkResult>)
    requires Inv(s) && |results| >= Remaining(s)
    ensures Inv(Answered(s, results)) && Answered(s, results).h.outstanding == []
    decreases |results|
  {
    hide Inv, Stream.Step;
    if s.h.outstanding == [] {
      AtRest(s, results);
    } else {
      AnswerCountsDown(s, Succeeds);
      AnswerCountsDown(s, results[0]);
      StepKeeps(s, Settle(0, results[0]));
      AnswersRunOut(s.Step(Settle(0, results[0])).0, results[1..]);
    }
  }

  lemma {:induction false} AtRest(s: Stream, results: seq<SinkResult>)
    requires s.h.outstanding == []
    ensures Answered(s, results) == s
    decreases |results|
  {
    if results != [] {
      AtRest(s, results[1..]);
    }
  }

  /** After any run, once the callers stop and however the sink answers, `Remaining` answers
      leave nothing outstanding and every promise given out settled. */
  lemma TheStreamComesToRest(hwm: real, events: seq<Event>, results: seq<SinkResult>)
    requires |results| >= Remaining(Run(hwm, events))
    ensures var s := Answered(Run(hwm, events), results);
            s.h.outstanding == [] && AllSettled(s)
  {
    RunKeeps(hwm, events);
    AnswersRunOut(Run(hwm, events), results);
    RestMeansSettled(Answered(Run(hwm, events), results));
  }
}
