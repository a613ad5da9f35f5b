/** What each public call on a writable stream does, case by case over its slots. */
module WritableCalls {
  import opened Wrappers
  import opened SizedQueue
  import opened WritableModel
  import opened WritableInvariant
  import opened WritableSafety
  import opened WritableOutcomes

  /** No write and no close is at the sink. */
  predicate Idle(s: Stream) { s.inFlightWrite == None && s.inFlightClose == None }

  predicate Closing(s: Stream) { s.closeRequest.Some? || s.inFlightClose.Some? }

  // ---- errors ------------------------------------------------------------------------

  /** The stream turned for `reason`: errored at once when nothing is at the sink and start has
      settled, and else on its way there. Nothing is accepted, and before it has errored nothing
      settles and nothing is called. */
  predicate Turned(s: Stream, t: Stream, reason: Reason) {
    && t.storedError == reason && t.h.accepted == s.h.accepted && t.h.closes == s.h.closes
    && t.started == s.started && t.hwm == s.hwm
    && if Idle(s) && s.started then t.state == Errored && t.queue == [] && t.writeRequests == []
       else
         && t.state == Erroring && t.h.log == s.h.log && t.h.trace == s.h.trace && t.queue == s.queue
         && t.writeRequests == s.writeRequests && t.pendingAbort == s.pendingAbort
  }

  lemma ErroringTurns(s: Stream, reason: Reason)
    requires s.state == Writable
    ensures Turned(s, s.StartErroring(reason), reason) && s.StartErroring(reason).h.aborts == s.h.aborts
  {
    hide Stream.RejectCloseAndClosedPromiseIfNeeded;
    RejectCloseCounts(s.Turn(reason));
  }

  lemma RejectCloseCounts(s: Stream)
    ensures var t := s.FinishErroring();
            && t.state == Errored && t.storedError == s.storedError && t.queue == [] && t.writeRequests == []
            && t.h.accepted == s.h.accepted && t.h.closes == s.h.closes && t.h.aborts == s.h.aborts
            && t.started == s.started && t.hwm == s.hwm
  {}

  /** The controller's error() turns a writable stream and does nothing to another. */
  lemma ErrorTurns(s: Stream, error: Reason)
    ensures var (t, reply) := s.Step(ControllerError(error));
            reply == Nothing && if s.state == Writable then Turned(s, t, error) else t == s
  {
    hide Stream.StartErroring;
    if s.state == Writable { ErroringTurns(s, error); }
  }

  // ---- write -------------------------------------------------------------------------

  /** A write to a writable stream is accepted: it gets the next promise, its chunk goes to the end
      of the queue with its size, and to an idle sink at once. */
  lemma WriteIsAccepted(s: Stream, chunk: Chunk, n: real)
    requires Inv(s) && s.writer.Some? && s.state == Writable && !Closing(s) && n >= 0.0
    ensures var (t, reply) := s.Step(WriterWrite(chunk, Returns(Number(n))));
            && reply == Given(WriteDone(|s.h.accepted|))
            && t.state == Writable && t.h.accepted == s.h.accepted + [chunk] && t.h.log == s.h.log
            && t.queue == s.queue + [Entry(ChunkRecord(chunk), n)]
            && if s.started && s.queue == [] then
                 && t.h.trace == s.h.trace + [Called(WriteOp(chunk))]
                 && t.inFlightWrite == Some(|s.h.accepted|) && t.writeRequests == []
               else
                 && t.h.trace == s.h.trace
                 && t.inFlightWrite == s.inFlightWrite && t.writeRequests == s.writeRequests + [|s.h.accepted|]
  {
    var u := s.WithRequest(chunk).WithEntry(ChunkRecord(chunk), n);
    EnqueueWrite(s, chunk, n);
    UpdateBackpressureKeeps(u);
    if s.started { IdleMeans(s); }
    hide Inv, Open, BackpressureInv, Stream.UpdateBackpressureIfOpen;
  }

  /** What an idle writable stream that has started looks like. */
  lemma IdleMeans(s: Stream)
    requires Inv(s) && s.state == Writable && !Closing(s) && s.started
    ensures Idle(s) <==> s.queue == []
    ensures Idle(s) ==> s.writeRequests == []
  {}

  /** A size that is not a finite non-negative number: the write has its promise and then the stream
      turns. */
  lemma BadSizeTurns(s: Stream, chunk: Chunk, size: Size)
    requires s.writer.Some? && s.state == Writable && !Closing(s) && !IsFiniteNonNegative(size)
    ensures var (t, reply) := s.Step(WriterWrite(chunk, Returns(size)));
            && reply == Given(WriteDone(|s.h.accepted|))
            && Turned(s.(h := s.h.(accepted := s.h.accepted + [chunk]),
                         writeRequests := s.writeRequests + [|s.h.accepted|]), t, InvalidSize)
  {
    hide Stream.StartErroring;
    ErroringTurns(s.WithRequest(chunk), InvalidSize);
  }

  /** A size function that throws turns a writable stream, and the write is rejected: with that error,
      unless a close is waiting. */
  lemma ThrowingSizeTurns(s: Stream, chunk: Chunk, error: Reason)
    requires Inv(s) && s.writer.Some? && s.state == Writable
    ensures var (t, reply) := s.Step(WriterWrite(chunk, Throws(error)));
            Turned(s, t, error) && reply == AlreadyRejected(if Closing(s) then NotWritable else error)
  {
    if Closing(s) && s.started { ClosingIsBusy(s); }
    hide Inv, Stream.FinishErroring;
    ErroringTurns(s, error);
    RejectCloseCounts(s.Turn(error));
  }

  lemma ClosingIsBusy(s: Stream)
    requires Inv(s) && s.state == Writable && Closing(s) && s.started
    ensures !Idle(s)
  {}

  /** Any other write is refused and leaves the stream alone. */
  lemma WriteIsRefused(s: Stream, chunk: Chunk, size: SizeResult)
    requires s.writer == None || s.state != Writable || (Closing(s) && size.Returns?)
    ensures s.Step(WriterWrite(chunk, size)) ==
            (s, AlreadyRejected(if s.writer == None then LockLost
                                else if s.state == Errored then s.storedError
                                else if Closing(s) || s.state == Closed then NotWritable
                                else s.storedError))
  {}

  // ---- close -------------------------------------------------------------------------

  /** A close is accepted while the stream is writable or erroring and none was before: it gets the
      next promise and resolves a pending ready promise; it goes to an idle sink at once, and else its
      marker goes to the end of the queue. */
  lemma CloseIsAccepted(s: Stream)
    requires Inv(s) && s.writer.Some? && IsOpen(s.state) && !Closing(s)
    ensures var (t, reply) := s.Step(WriterClose);
            && reply == Given(CloseDone(s.h.closes)) && t.h.closes == s.h.closes + 1
            && t.state == s.state && t.h.log == s.h.log && t.h.accepted == s.h.accepted && t.writer.Some?
            && t.writer.value.ready == (if s.state == Writable then Fulfilled else s.writer.value.ready)
            && if s.state == Writable && s.started && s.queue == [] then
                 && t.h.trace == s.h.trace + [Called(CloseOp)] && t.queue == []
                 && t.inFlightClose == Some(s.h.closes) && t.closeRequest == None
               else
                 && t.h.trace == s.h.trace && t.queue == s.queue + [Entry(CloseRecord, 0.0)]
                 && t.inFlightClose == None && t.closeRequest == Some(s.h.closes)
  {
    if s.state == Writable && s.started { IdleMeans(s); }
    CloseIsQuiet(s);
    hide Inv;
  }

  lemma CloseIsQuiet(s: Stream)
    requires Inv(s) && s.writer.Some? && IsOpen(s.state) && !Closing(s)
    ensures s.state == Erroring ==> !s.started || s.inFlightWrite.Some?
    ensures s.state == Writable ==> s.writer.value.ready == if s.backpressure then Pending else Fulfilled
  {}

  lemma CloseIsRefused(s: Stream)
    requires s.writer == None || Closing(s) || !IsOpen(s.state)
    ensures s.Step(WriterClose) == (s, AlreadyRejected(if s.writer == None then LockLost else NotWritable))
  {}

  // ---- abort -------------------------------------------------------------------------

  /** An abort, on the stream when nobody holds it or on the writer that does. */
  predicate MayAbort(s: Stream, e: Event) {
    (e.StreamAbort? && s.writer == None) || (e.WriterAbort? && s.writer.Some?)
  }

  /** The first abort of a writable stream turns it with its reason; the sink's abort is called at once
      when the sink is idle and has started, and else the abort waits. */
  lemma AbortTurns(s: Stream, e: Event)
    requires Inv(s) && MayAbort(s, e) && s.state == Writable
    ensures var (t, reply) := s.Step(e);
            var request := AbortRequest(s.h.aborts, e.reason, false);
            && reply == Given(AbortDone(s.h.aborts)) && t.h.aborts == s.h.aborts + 1 && t.storedError == e.reason
            && if Idle(s) && s.started then
                 && t.state == Errored && t.pendingAbort == None && t.h.outstanding == [OnAbort(request)]
                 && t.h.trace == s.h.trace + [Called(AbortOp(e.reason))]
               else
                 && t.state == Erroring && t.pendingAbort == Some(request) && t.h.outstanding == s.h.outstanding
                 && t.h.trace == s.h.trace && t.h.log == s.h.log && t.queue == s.queue
  {
    NoAbortWhileWritable(s);
    if Idle(s) && s.started { NothingAtIdleSink(s); }
    hide Inv, Stream.FinishErroring;
    var request := AbortRequest(s.h.aborts, e.reason, false);
    FinishCallsAbort(s.(pendingAbort := Some(request), h := s.h.RequestsAbort()).Turn(e.reason), request);
  }

  lemma FinishCallsAbort(s: Stream, request: AbortRequest)
    requires s.pendingAbort == Some(request) && !request.wasAlreadyErroring
    ensures var t := s.FinishErroring();
            && t.state == Errored && t.storedError == s.storedError && t.pendingAbort == None
            && t.h.aborts == s.h.aborts && t.h.outstanding == s.h.outstanding + [OnAbort(request)]
            && t.h.trace == s.h.trace + [Called(AbortOp(request.reason))]
  {}

  lemma NothingAtIdleSink(s: Stream)
    requires Inv(s) && s.state == Writable && Idle(s) && s.started
    ensures s.h.outstanding == []
  {}

  /** An abort that comes while the stream errors waits, and adds no reason of its own. */
  lemma AbortWaits(s: Stream, e: Event)
    requires MayAbort(s, e) && s.state == Erroring && s.pendingAbort == None
    ensures s.Step(e) == (s.(pendingAbort := Some(AbortRequest(s.h.aborts, Undefined, true)),
                             h := s.h.(aborts := s.h.aborts + 1)),
                          Given(AbortDone(s.h.aborts)))
  {}

  /** A further abort gets the promise of the one that waits; on a closed or errored stream it has
      nothing to do; and one on the wrong object is refused. None of them changes anything. */
  lemma AbortIsIdle(s: Stream, e: Event)
    requires e.StreamAbort? || e.WriterAbort?
    requires Inv(s) && (!MayAbort(s, e) || !IsOpen(s.state) || s.pendingAbort.Some?)
    ensures s.Step(e) == (s, if !MayAbort(s, e) then AlreadyRejected(LockLost)
                             else if !IsOpen(s.state) then AlreadyResolved
                             else Given(AbortDone(s.pendingAbort.value.n)))
  {
    hide Inv;
  }

  // ---- the writer --------------------------------------------------------------------

  /** getWriter() on a locked stream throws; else the writer gets its promises by the state, and
      nothing else changes. */
  lemma WriterIsGiven(s: Stream)
    ensures var (t, reply) := s.Step(GetWriter);
            if s.writer.Some? then t == s && reply == Thrown
            else
              && reply == Nothing && t.writer.Some? && t.(writer := None) == s
              && var w := t.writer.value;
                 && w.ready == (match s.state
                                case Writable => if s.backpressure && !Closing(s) then Pending else Fulfilled
                                case Closed => Fulfilled
                                case _ => Rejected(s.storedError))
                 && w.closed == (match s.state
                                 case Closed => Fulfilled
                                 case Errored => Rejected(s.storedError)
                                 case _ => Pending)
                 && w.acquiredIn == s.state
  {}

  /** releaseLock() takes the writer away and, while the invariant holds, changes nothing else. */
  lemma WriterIsReleased(s: Stream)
    requires Inv(s)
    ensures s.Step(WriterRelease) == (s.(writer := None), Nothing)
  {}
}
