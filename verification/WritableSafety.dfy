/** Every operation of the writable stream keeps the invariant, and which of them falsifies an
    assert of the source. */
module WritableSafety {
  import opened Wrappers
  import opened SizedQueue
  import opened WritableModel
  import opened WritableInvariant

  // ---- internal operations -----------------------------------------------------------

  /** An errored stream about to reject its close request and its writer's closed promise. */
  ghost predicate Failing(s: Stream) {
    FailedSlots(s) && PromiseInv(s) && SinkMatches(Sink(s.h.trace), s.h.outstanding, s.pendingAbort)
  }

  ghost predicate FailedSlots(s: Stream) {
    && s.state == Errored && s.started && s.h.outstanding == [] && s.pendingAbort.None?
    && s.queue == [] && s.total == 0.0 && s.writeRequests == [] && !s.HasOperationInFlight()
    && DeliveryInv(s)
    && (s.writer.Some? ==>
          var w := s.writer.value;
          && !w.readyArmed && w.ready == Rejected(s.storedError)
          && w.closedArmed == (w.closed == Pending)
          && w.closed == (if w.acquiredIn != Errored then Pending else Rejected(s.storedError)))
  }

  lemma RejectCloseKeeps(s: Stream)
    requires Failing(s)
    ensures Inv(s.RejectCloseAndClosedPromiseIfNeeded())
    ensures s.RejectCloseAndClosedPromiseIfNeeded().h.faulted ==
            (s.h.faulted || (s.writer.Some? && s.writer.value.acquiredIn == Errored))
  {
    hide WriteLedger, AbortLedger, Delivered, Settlements, Sink, Handed, Completed, Mirrors;
    if s.closeRequest.Some? {
      SettleOne(s.h.log, Settlement(CloseDone(s.closeRequest.value), Rejected(s.storedError)));
    }
  }

  /** Calling the sink's abort, with an abort request just taken from its slot. */
  lemma CallAbortKeeps(s: Stream, request: AbortRequest)
    requires FailedSlots(s) && Sink(s.h.trace).Ready? && request.reason == s.storedError
    requires WriteLedger(Settlements(Writes, s.h.log), |s.h.accepted|, s.inFlightWrite, s.writeRequests)
    requires CloseLedger(Settlements(Closes, s.h.log), s.h.closes, s.closeRequest, s.inFlightClose)
    requires AbortLedger(Settlements(Aborts, s.h.log), s.h.aborts, Some(request), [])
    ensures Inv(s.Calls(AbortOp(request.reason), OnAbort(request)))
  {
    TraceAppend(s.h.trace, Called(AbortOp(request.reason)));
  }

  lemma EmptiedIsFailing(s: Stream)
    requires Base(s) && s.state == Erroring && s.started && s.h.outstanding == []
    ensures var t := s.Emptied();
            && FailedSlots(t) && (s.pendingAbort.None? ==> Failing(t))
            && WriteLedger(Settlements(Writes, t.h.log), |t.h.accepted|, t.inFlightWrite, t.writeRequests)
            && CloseLedger(Settlements(Closes, t.h.log), t.h.closes, t.closeRequest, t.inFlightClose)
            && AbortLedger(Settlements(Aborts, t.h.log), t.h.aborts, s.pendingAbort, [])
            && (Sink(t.h.trace).Ready? || (Sink(t.h.trace) == Finished && s.pendingAbort.None?))
            && (s.pendingAbort.Some? && !s.pendingAbort.value.wasAlreadyErroring ==>
                  s.pendingAbort.value.reason == s.storedError)
            && !s.HasOperationInFlight()
  {
    hide Settlements, Sink, Handed, Completed, Consistent, Numbered;
    SettleMany(s.h.log, s.writeRequests, s.storedError);
    RejectQueued(Settlements(Writes, s.h.log), s.h.accepted, s.writeRequests, s.storedError,
                 Completed(s.h.trace), Handed(s.h.trace));
  }

  lemma RejectAbort(s: Stream, request: AbortRequest)
    requires FailedSlots(s)
    requires WriteLedger(Settlements(Writes, s.h.log), |s.h.accepted|, s.inFlightWrite, s.writeRequests)
    requires CloseLedger(Settlements(Closes, s.h.log), s.h.closes, s.closeRequest, s.inFlightClose)
    requires AbortLedger(Settlements(Aborts, s.h.log), s.h.aborts, Some(request), [])
    requires Sink(s.h.trace).Ready?
    ensures Failing(s.Settles(AbortDone(request.n), Rejected(s.storedError)))
  {
    hide Settlements, Sink, Handed, Completed, Delivered, WriteLedger, CloseLedger;
    SettleOne(s.h.log, Settlement(AbortDone(request.n), Rejected(s.storedError)));
  }

  lemma FinishErroringKeeps(s: Stream)
    requires Base(s)
    requires s.state == Erroring && s.started && s.h.outstanding == []
    ensures Inv(s.FinishErroring()) && s.FinishErroring().h.faulted == s.h.faulted
  {
    EmptiedIsFailing(s);
    var t := s.Emptied();
    if s.pendingAbort.None? {
      hide Inv, Base, Stream.RejectCloseAndClosedPromiseIfNeeded;
      NotLate(s);
      RejectCloseKeeps(t);
    } else {
      hide Inv, Base, Failing, FailedSlots, Stream.RejectCloseAndClosedPromiseIfNeeded;
      var request := s.pendingAbort.value;
      if request.wasAlreadyErroring {
        RejectAbort(t, request);
        NotLate(s);
        RejectCloseKeeps(t.Settles(AbortDone(request.n), Rejected(s.storedError)));
      } else {
        CallAbortKeeps(t, request);
      }
    }
  }

  lemma NotLate(s: Stream)
    requires WriterInv(s) && s.state == Erroring
    ensures s.writer.Some? ==> s.writer.value.acquiredIn != Errored
  {}

  lemma TurnedIsBase(s: Stream, reason: Reason)
    requires Base(s) && s.state == Writable
    requires s.pendingAbort.Some? ==>
               s.pendingAbort.value.reason == reason && !s.pendingAbort.value.wasAlreadyErroring
    ensures Base(s.Turn(reason)) && s.Turn(reason).h.faulted == s.h.faulted
    ensures s.storedError == Undefined
    ensures s.started && !s.HasOperationInFlight() ==> s.h.outstanding == []
  {}

  lemma TurnedIsDone(s: Stream, reason: Reason)
    requires Base(s.Turn(reason)) && (s.started ==> s.HasOperationInFlight())
    ensures Inv(s.Turn(reason))
  {}

  lemma StartErroringKeeps(s: Stream, reason: Reason)
    requires Base(s) && s.state == Writable
    requires s.pendingAbort.Some? ==>
               s.pendingAbort.value.reason == reason && !s.pendingAbort.value.wasAlreadyErroring
    ensures Inv(s.StartErroring(reason)) && s.StartErroring(reason).h.faulted == s.h.faulted
  {
    hide Inv, Base, Stream.FinishErroring;
    TurnedIsBase(s, reason);
    if !s.HasOperationInFlight() && s.started {
      FinishErroringKeeps(s.Turn(reason));
    } else {
      TurnedIsDone(s, reason);
    }
  }

  /** The signal and the writer's ready promise, and nothing else, follow the queue. */
  lemma UpdateBackpressureResult(s: Stream)
    requires WriterInv(s) && ReadyInv(s) && s.state == Writable && !s.CloseQueuedOrInFlight()
    ensures var t := s.UpdateBackpressureIfOpen();
            && t == s.(backpressure := s.WantsBackpressure(), writer := t.writer)
            && WriterInv(t) && ReadyInv(t)
  {}

  lemma UpdateBackpressureKeeps(s: Stream)
    requires Open(s)
    ensures Open(s.UpdateBackpressureIfOpen()) && BackpressureInv(s.UpdateBackpressureIfOpen())
    ensures s.UpdateBackpressureIfOpen() == s.(backpressure := s.UpdateBackpressureIfOpen().backpressure,
                                              writer := s.UpdateBackpressureIfOpen().writer)
  {
    if s.state == Writable && !s.CloseQueuedOrInFlight() {
      UpdateBackpressureResult(s);
    }
  }

  lemma ProcessWriteDelivers(s: Stream)
    requires Open(s) && s.state == Writable && s.started && !s.HasOperationInFlight()
    requires |s.queue| > 0 && s.queue[0].value.ChunkRecord?
    ensures var t := s.ProcessWrite(s.queue[0].value.chunk);
            PromiseInv(t) && DeliveryInv(t) && SinkMatches(Sink(t.h.trace), t.h.outstanding, t.pendingAbort)
  {
    hide Consistent, CloseLedger, Settlements, Sink, Handed, Completed, WriterInv;
    TraceAppend(s.h.trace, Called(WriteOp(s.queue[0].value.chunk)));
    assert |s.writeRequests| > 0;
    assert s.h.accepted[..|s.h.accepted| - |s.writeRequests|] + [s.queue[0].value.chunk]
        == s.h.accepted[..|s.h.accepted| - |s.writeRequests| + 1];
  }

  lemma ProcessWriteKeeps(s: Stream)
    requires Open(s) && BackpressureInv(s)
    requires s.state == Writable && s.started && !s.HasOperationInFlight()
    requires |s.queue| > 0 && s.queue[0].value.ChunkRecord?
    ensures Inv(s.ProcessWrite(s.queue[0].value.chunk))
    ensures s.ProcessWrite(s.queue[0].value.chunk).h.faulted == s.h.faulted
  {
    ProcessWriteDelivers(s);
    TraceAppend(s.h.trace, Called(WriteOp(s.queue[0].value.chunk)));
    assert |s.writeRequests| > 0;
    hide Consistent, CloseLedger, AbortLedger, Numbered, Settlements, Sink, Handed, Completed, Delivered, SinkMatches,
         PromiseInv, DeliveryInv;
  }

  lemma ProcessCloseKeeps(s: Stream)
    requires Open(s) && BackpressureInv(s)
    requires s.state == Writable && s.started && !s.HasOperationInFlight()
    requires |s.queue| > 0 && s.queue[0].value == CloseRecord
    ensures Inv(s.ProcessClose()) && s.ProcessClose().h.faulted == s.h.faulted
  {
    TraceAppend(s.h.trace, Called(CloseOp));
    DequeueKeepsTotal(s.queue, s.total);
  }

  lemma AdvanceKeeps(s: Stream)
    requires Open(s) && BackpressureInv(s)
    requires s.state == Erroring && s.started ==> s.inFlightClose.None?
    ensures Inv(s.AdvanceQueueIfNeeded()) && s.AdvanceQueueIfNeeded().h.faulted == s.h.faulted
  {
    if s.started && s.inFlightWrite.None? && s.state == Erroring {
      FinishErroringKeeps(s);
    } else if s.started && s.inFlightWrite.None? && s.state == Writable && |s.queue| > 0 {
      if s.queue[0].value == CloseRecord {
        ProcessCloseKeeps(s);
      } else {
        ProcessWriteKeeps(s);
      }
    }
  }

  // ---- public calls ------------------------------------------------------------------

  lemma InitKeeps(hwm: real)
    ensures Inv(Init(hwm)) && !Init(hwm).h.faulted
  {
    assert Init(hwm).h.trace == [Called(StartOp)];
    assert Init(hwm).h.accepted[..0] == [];
  }

  lemma AcquireKeeps(s: Stream)
    requires Inv(s)
    ensures Inv(s.Acquire().0) && s.Acquire().0.h.faulted == s.h.faulted
  {}

  lemma ReleaseKeeps(s: Stream)
    requires Inv(s) && s.writer.Some?
    ensures Inv(s.Release().0) && s.Release().0.h.faulted == s.h.faulted
  {}

  lemma RequestAbort(s: Stream, request: AbortRequest)
    requires Inv(s) && (s.state == Writable || s.state == Erroring) && s.pendingAbort.None?
    requires request.n == s.h.aborts && request.wasAlreadyErroring == (s.state == Erroring)
    ensures Base(s.(pendingAbort := Some(request), h := s.h.RequestsAbort()))
    ensures s.state == Erroring ==> Inv(s.(pendingAbort := Some(request), h := s.h.RequestsAbort()))
  {}

  lemma AbortKeeps(s: Stream, reason: Reason)
    requires Inv(s)
    ensures Inv(s.Abort(reason).0) && s.Abort(reason).0.h.faulted == s.h.faulted
  {
    hide Inv, Stream.StartErroring;
    if (s.state == Writable || s.state == Erroring) && s.pendingAbort.None? {
      var was := s.state == Erroring;
      var request := AbortRequest(s.h.aborts, if was then Undefined else reason, was);
      RequestAbort(s, request);
      var t := s.(pendingAbort := Some(request), h := s.h.RequestsAbort());
      if was {
        assert s.Abort(reason).0 == t;
      } else {
        StartErroringKeeps(t, reason);
        assert s.Abort(reason).0 == t.StartErroring(reason);
      }
    } else {
      assert s.Abort(reason).0 == s;
    }
  }

  lemma ErrorIfNeededKeeps(s: Stream, error: Reason)
    requires Inv(s)
    ensures Inv(s.ErrorIfNeeded(error)) && s.ErrorIfNeeded(error).h.faulted == s.h.faulted
  {
    if s.state == Writable {
      StartErroringKeeps(s, error);
    }
  }

  lemma RequestWrite(s: Stream, chunk: Chunk)
    requires Inv(s) && s.state == Writable && !s.CloseQueuedOrInFlight()
    ensures Base(s.WithRequest(chunk))
  {
    AcceptInLedger(Settlements(Writes, s.h.log), s.h.accepted, s.inFlightWrite, s.writeRequests,
                   Completed(s.h.trace), Handed(s.h.trace), chunk);
  }

  lemma EnqueueWrite(s: Stream, chunk: Chunk, size: real)
    requires Inv(s) && s.state == Writable && !s.CloseQueuedOrInFlight() && size >= 0.0
    ensures Open(s.WithRequest(chunk).WithEntry(ChunkRecord(chunk), size))
  {
    hide Settlements, Sink, Handed, Completed, Delivered, WriteLedger, CloseLedger, AbortLedger, Mirrors;
    RequestWrite(s, chunk);
    EnqueueKeepsTotal(s.queue, s.total, Entry(ChunkRecord(chunk), size));
    MirrorWrite(s.queue, s.h.accepted, Count(s.inFlightWrite.Some?) + |s.writeRequests|, chunk, size);
  }

  /** A write accepted into a writable stream. */
  lemma AcceptKeeps(s: Stream, chunk: Chunk, size: Size)
    requires Inv(s) && s.state == Writable && !s.CloseQueuedOrInFlight()
    ensures Inv(s.WithRequest(chunk).ControllerWrite(chunk, size))
    ensures s.WithRequest(chunk).ControllerWrite(chunk, size).h.faulted == s.h.faulted
  {
    hide Inv, Base, Open, BackpressureInv, Stream.StartErroring, Stream.UpdateBackpressureIfOpen,
         Stream.AdvanceQueueIfNeeded;
    var t := s.WithRequest(chunk);
    if !IsFiniteNonNegative(size) {
      RequestWrite(s, chunk);
      NoAbortWhileWritable(s);
      StartErroringKeeps(t, InvalidSize);
    } else {
      EnqueueWrite(s, chunk, size.n);
      var u := t.WithEntry(ChunkRecord(chunk), size.n);
      UpdateBackpressureKeeps(u);
      AdvanceKeeps(u.UpdateBackpressureIfOpen());
    }
  }

  lemma NoAbortWhileWritable(s: Stream)
    requires Inv(s) && s.state == Writable
    ensures s.pendingAbort.None?
  {}

  lemma WriteKeeps(s: Stream, chunk: Chunk, size: SizeResult)
    requires Inv(s) && s.writer.Some?
    ensures Inv(s.Write(chunk, size).0) && s.Write(chunk, size).0.h.faulted == s.h.faulted
  {
    hide Inv, Stream.ErrorIfNeeded, Stream.ControllerWrite;
    var t := if size.Throws? then s.ErrorIfNeeded(size.error) else s;
    if size.Throws? {
      ErrorIfNeededKeeps(s, size.error);
    }
    if t.state == Writable && !t.CloseQueuedOrInFlight() {
      AcceptKeeps(t, chunk, if size.Throws? then Number(1.0) else size.size);
    }
  }

  lemma RequestClose(s: Stream)
    requires Inv(s) && s.writer.Some? && (s.state == Writable || s.state == Erroring)
    requires !s.CloseQueuedOrInFlight()
    ensures var t := s.WithCloseRequest();
            Open(t) && BackpressureInv(t) && t.h.faulted == s.h.faulted
  {
    hide Consistent, Mirrors, WriteLedger, AbortLedger, Delivered, Settlements, Sink, Handed, Completed;
    EnqueueKeepsTotal(s.queue, s.total, Entry(CloseRecord, 0.0));
    if s.state == Writable {
      MirrorClose(s.queue, s.h.accepted, Count(s.inFlightWrite.Some?) + |s.writeRequests|);
    }
  }

  lemma CloseKeeps(s: Stream)
    requires Inv(s) && s.writer.Some?
    ensures Inv(s.Close().0) && s.Close().0.h.faulted == s.h.faulted
  {
    hide Inv, Open, BackpressureInv, Stream.AdvanceQueueIfNeeded;
    if (s.state == Writable || s.state == Erroring) && !s.CloseQueuedOrInFlight() {
      RequestClose(s);
      AdvanceKeeps(s.WithCloseRequest());
    }
  }

  // ---- reactions to the sink ---------------------------------------------------------

  /** The stream when its one continuation has left the list and the sink's return is recorded. */
  function Taken(s: Stream, result: SinkResult): Stream
    requires |s.h.outstanding| == 1
  {
    s.(h := s.h.Returns(0, result))
  }

  lemma StartReturns(s: Stream, result: SinkResult)
    requires Inv(s) && s.h.outstanding == [OnStart]
    ensures var t := Taken(s, result).(started := true);
            && Base(t) && BackpressureInv(t) && (t.state == Writable || t.state == Erroring)
            && (t.state == Writable ==> t.pendingAbort.None?)
            && (result.Succeeds? ==> Open(t)) && t.inFlightClose.None?
  {
    hide Consistent, Mirrors, WriteLedger, CloseLedger, Delivered, Settlements, Sink, Handed, Completed;
    TraceAppend(s.h.trace, Returned(StartOp, result));
  }

  lemma StartSettledKeeps(s: Stream, result: SinkResult)
    requires Inv(s) && s.h.outstanding == [OnStart]
    ensures Inv(Taken(s, result).StartSettled(result))
    ensures Taken(s, result).StartSettled(result).h.faulted == s.h.faulted
  {
    hide Inv, Open, Base, BackpressureInv, Stream.AdvanceQueueIfNeeded, Stream.StartErroring, Stream.FinishErroring;
    StartReturns(s, result);
    var t := Taken(s, result).(started := true);
    match result
    case Succeeds => AdvanceKeeps(t);
    case Fails(error) =>
      if t.state == Writable { StartErroringKeeps(t, error); } else { FinishErroringKeeps(t); }
  }

  /** The in-flight write's promise settles. */
  lemma FinishWriteKeeps(s: Stream, result: SinkResult, outcome: PromiseState)
    requires Inv(s) && |s.h.outstanding| == 1 && s.h.outstanding[0].OnWrite?
    requires outcome == if result.Succeeds? then Fulfilled else Rejected(result.error)
    ensures var t := Taken(s, result).FinishInFlightWrite(outcome);
            && Base(t) && t.h.faulted == s.h.faulted
            && (t.state == Writable || t.state == Erroring) && (t.state == Writable ==> t.pendingAbort.None?)
            && t.inFlightClose.None? && t.started
            && Completed(t.h.trace) + Count(result.Fails?) == |Settlements(Writes, t.h.log)|
            && Sink(t.h.trace) == Ready(result.Fails?)
  {
    hide Consistent, Mirrors, WriteLedger, CloseLedger, Delivered, Settlements, Sink, Handed, Completed;
    TraceAppend(s.h.trace, Returned(s.h.outstanding[0].Op(), result));
    SettleOne(s.h.log, Settlement(WriteDone(s.inFlightWrite.value), outcome));
    SettleInLedger(Settlements(Writes, s.h.log), s.h.accepted, s.inFlightWrite.value, s.writeRequests, outcome,
                   Handed(s.h.trace));
  }

  lemma DequeueKeeps(s: Stream)
    requires Inv(s) && |s.h.outstanding| == 1 && s.h.outstanding[0].OnWrite?
    ensures var t := Taken(s, Succeeds).FinishInFlightWrite(Fulfilled).Dequeue();
            && Open(t) && t.h.faulted == s.h.faulted && t.inFlightClose.None?
            && (t.state == Writable || t.state == Erroring)
  {
    hide Consistent, Mirrors, WriteLedger, CloseLedger, AbortLedger, Delivered, Settlements, Sink, Handed, Completed;
    FinishWriteKeeps(s, Succeeds, Fulfilled);
    DequeueKeepsTotal(s.queue, s.total);
    if s.state == Writable {
      MirrorDequeue(s.queue, s.h.accepted, 1 + |s.writeRequests|, s.closeRequest.Some?);
    }
  }

  lemma WriteSettledKeeps(s: Stream, result: SinkResult)
    requires Inv(s) && |s.h.outstanding| == 1 && s.h.outstanding[0].OnWrite?
    ensures Inv(Taken(s, result).WriteSettled(result))
    ensures Taken(s, result).WriteSettled(result).h.faulted == s.h.faulted
  {
    hide Inv, Open, Base, BackpressureInv, Stream.AdvanceQueueIfNeeded, Stream.UpdateBackpressureIfOpen,
         Stream.StartErroring, Stream.FinishErroring;
    match result
    case Succeeds =>
      DequeueKeeps(s);
      var u := Taken(s, result).FinishInFlightWrite(Fulfilled).Dequeue();
      UpdateBackpressureKeeps(u);
      AdvanceKeeps(u.UpdateBackpressureIfOpen());
    case Fails(error) =>
      FinishWriteKeeps(s, result, Rejected(error));
      var t := Taken(s, result).FinishInFlightWrite(Rejected(error));
      if t.state == Writable { StartErroringKeeps(t, error); } else { FinishErroringKeeps(t); }
  }

  lemma CloseIsLogged(s: Stream, outcome: PromiseState)
    requires Inv(s) && s.h.outstanding == [OnClose] && outcome != Pending
    ensures var log := s.CloseLogged(outcome).log;
            && Settlements(Writes, log) == Settlements(Writes, s.h.log)
            && CloseLedger(Settlements(Closes, log), s.h.closes, s.closeRequest, None)
            && AbortLedger(Settlements(Aborts, log), s.h.aborts, None, [])
  {
    hide Consistent, Mirrors, Delivered, WriteLedger, Settlements, Sink, Handed, Completed, WriterInv;
    var e := Settlement(CloseDone(s.inFlightClose.value), outcome);
    SettleOne(s.h.log, e);
    if s.pendingAbort.Some? {
      SettleOne(s.h.log + [e], Settlement(AbortDone(s.pendingAbort.value.n), outcome));
    }
  }

  lemma CloseSucceedsKeeps(s: Stream)
    requires Inv(s) && s.h.outstanding == [OnClose]
    ensures Inv(Taken(s, Succeeds).FinishInFlightClose())
    ensures Taken(s, Succeeds).FinishInFlightClose().h.faulted == s.h.faulted
  {
    hide Consistent, Mirrors, WriteLedger, CloseLedger, AbortLedger, Delivered, Settlements, Sink, Handed, Completed;
    TraceAppend(s.h.trace, Returned(CloseOp, Succeeds));
    CloseIsLogged(s, Fulfilled);
  }

  lemma CloseFailsBase(s: Stream, error: Reason)
    requires Inv(s) && s.h.outstanding == [OnClose] && s.inFlightClose.Some?
    ensures Base(Taken(s, Fails(error))
                 .(h := Taken(s, Fails(error)).CloseLogged(Rejected(error)),
                   inFlightClose := None, pendingAbort := None))
    ensures (s.state == Writable || s.state == Erroring) && s.started
    ensures s.state == Writable ==> s.pendingAbort.None?
  {
    hide Consistent, Mirrors, WriteLedger, CloseLedger, AbortLedger, Delivered, Settlements, Sink, Handed, Completed;
    TraceAppend(s.h.trace, Returned(CloseOp, Fails(error)));
    CloseIsLogged(s, Rejected(error));
  }

  lemma CloseFailsKeeps(s: Stream, error: Reason)
    requires Inv(s) && s.h.outstanding == [OnClose] && s.inFlightClose.Some?
    ensures Inv(Taken(s, Fails(error)).FinishInFlightCloseWithError(error))
    ensures Taken(s, Fails(error)).FinishInFlightCloseWithError(error).h.faulted == s.h.faulted
  {
    hide Inv, Base, Stream.StartErroring, Stream.FinishErroring;
    CloseFailsBase(s, error);
    var t := Taken(s, Fails(error))
             .(h := Taken(s, Fails(error)).CloseLogged(Rejected(error)), inFlightClose := None, pendingAbort := None);
    if t.state == Writable { StartErroringKeeps(t, error); } else { FinishErroringKeeps(t); }
    assert Taken(s, Fails(error)).FinishInFlightCloseWithError(error) == t.DealWithRejection(error);
  }

  lemma AbortReturns(s: Stream, result: SinkResult)
    requires Inv(s) && |s.h.outstanding| == 1 && s.h.outstanding[0].OnAbort?
    ensures var request := s.h.outstanding[0].request;
            Failing(Taken(s, result).Settles(AbortDone(request.n), OutcomeOf(result)))
  {
    hide Mirrors, WriteLedger, CloseLedger, Delivered, Settlements, Sink, Handed, Completed;
    var request := s.h.outstanding[0].request;
    TraceAppend(s.h.trace, Returned(AbortOp(request.reason), result));
    SettleOne(s.h.log, Settlement(AbortDone(request.n), OutcomeOf(result)));
  }

  lemma AbortSettledKeeps(s: Stream, result: SinkResult)
    requires Inv(s) && |s.h.outstanding| == 1 && s.h.outstanding[0].OnAbort?
    ensures var t := Taken(s, result).AbortSettled(s.h.outstanding[0].request, result);
            && Inv(t)
            && t.h.faulted == (s.h.faulted || (s.writer.Some? && s.writer.value.acquiredIn == Errored))
  {
    hide Inv, Failing, Stream.RejectCloseAndClosedPromiseIfNeeded;
    AbortReturns(s, result);
    RejectCloseKeeps(Taken(s, result).Settles(AbortDone(s.h.outstanding[0].request.n), OutcomeOf(result)));
  }
}
