/** The objects of lib/whatwg/streams/writable.js. A stream and its controller are made
    together and never re-bound, so one class holds the slots of both; the controller's queue
    slots are the container of SizedQueue. Every operation updates the slots in the order the
    source does, and is proved to do to the stream's value what WritableModel says. */
module WritableStreams {
  import opened Wrappers
  import opened SizedQueue
  import opened WritableModel
  import WritableInvariant
  import WritableSafety
  import WritableRuns

  class DefaultWriter {
    var owner: WritableStream?
    var ready: PromiseState
    var readyArmed: bool
    var closed: PromiseState
    var closedArmed: bool
    const acquiredIn: Phase

    constructor (stream: WritableStream, value: Writer)
      ensures owner == stream && Value() == value
    {
      owner := stream;
      ready, readyArmed := value.ready, value.readyArmed;
      closed, closedArmed := value.closed, value.closedArmed;
      acquiredIn := value.acquiredIn;
    }

    function Value(): Writer
      reads this
    {
      Writer(ready, readyArmed, closed, closedArmed, acquiredIn)
    }

    /** Returns whether the asserts held; so do the other promise helpers. */
    method ReadyResolve() returns (held: bool)
      modifies this
      ensures held == old(readyArmed) && owner == old(owner)
      ensures Value() == old(Value()).ReadyResolved()
    {
      held := readyArmed;
      readyArmed, ready := false, Fulfilled;
    }

    method ReadyReset() returns (held: bool)
      modifies this
      ensures held == !old(readyArmed) && owner == old(owner)
      ensures Value() == old(Value()).ReadyReset()
    {
      held := !readyArmed;
      readyArmed, ready := true, Pending;
    }

    method EnsureReadyRejected(error: Reason) returns (held: bool)
      modifies this
      ensures held == old(Value()).ReadyCoherent() && owner == old(owner)
      ensures Value() == old(Value()).ReadyRejected(error)
    {
      if ready == Pending {
        held := readyArmed;
      } else {
        held := !readyArmed;
      }
      ready, readyArmed := Rejected(error), false;
    }

    method ClosedResolve() returns (held: bool)
      modifies this
      ensures held == old(Value()).ClosedSettleable() && owner == old(owner)
      ensures Value() == if held then old(Value()).ClosedResolved() else old(Value())
    {
      held := closedArmed && closed == Pending;
      if held {
        closed, closedArmed := Fulfilled, false;
      }
    }

    method ClosedReject(error: Reason) returns (held: bool)
      modifies this
      ensures held == old(Value()).ClosedSettleable() && owner == old(owner)
      ensures Value() == if held then old(Value()).ClosedRejected(error) else old(Value())
    {
      held := closedArmed && closed == Pending;
      if held {
        closed, closedArmed := Rejected(error), false;
      }
    }

    method EnsureClosedRejected(error: Reason) returns (held: bool)
      modifies this
      ensures held == old(Value()).ClosedCoherent() && owner == old(owner)
      ensures Value() == old(Value()).ClosedRejected(error)
    {
      if closed == Pending {
        held := closedArmed;
      } else {
        held := !closedArmed;
      }
      closed, closedArmed := Rejected(error), false;
    }

    // The writer's public calls. A released writer has no owner, and its calls stop here.

    ghost predicate Attached()
      reads this, owner, if owner == null then {} else {owner.controller, owner.writer}
    {
      owner != null ==> owner.Valid() && owner.writer == this
    }

    method Write(chunk: Chunk, size: SizeResult) returns (r: Reply)
      requires Attached()
      modifies this, owner, if owner == null then {} else {owner.controller}
      ensures Attached() && owner == old(owner)
      ensures owner == null ==> r == AlreadyRejected(LockLost)
      ensures owner != null ==> (owner.View(), r) == old(owner.View()).Step(Event.WriterWrite(chunk, size))
    {
      hide WritableInvariant.Inv, Stream.Write;
      if owner == null {
        return AlreadyRejected(LockLost);
      }
      r := owner.Write(chunk, size);
    }

    method Close() returns (r: Reply)
      requires Attached()
      modifies this, owner, if owner == null then {} else {owner.controller}
      ensures Attached() && owner == old(owner)
      ensures owner == null ==> r == AlreadyRejected(LockLost)
      ensures owner != null ==> (owner.View(), r) == old(owner.View()).Step(Event.WriterClose)
    {
      hide WritableInvariant.Inv, Stream.Close;
      if owner == null {
        return AlreadyRejected(LockLost);
      }
      r := owner.Close();
    }

    method Abort(reason: Reason) returns (r: Reply)
      requires Attached()
      modifies this, owner, if owner == null then {} else {owner.controller}
      ensures Attached() && owner == old(owner)
      ensures owner == null ==> r == AlreadyRejected(LockLost)
      ensures owner != null ==> (owner.View(), r) == old(owner.View()).Step(Event.WriterAbort(reason))
    {
      hide WritableInvariant.Inv, Stream.Abort;
      if owner == null {
        return AlreadyRejected(LockLost);
      }
      r := owner.Abort(reason);
    }

    method ReleaseLock()
      requires Attached()
      modifies this, owner, if owner == null then {} else {owner.controller}
      ensures owner == null
      ensures var stream := old(owner);
              stream != null ==>
                stream.Valid() && stream.View() == old(stream.View()).Step(Event.WriterRelease).0
    {
      hide WritableInvariant.Inv, Stream.Release;
      if owner == null {
        return;
      }
      owner.Release();
    }
  }

  class WritableStream {
    var state: Phase
    var storedError: Reason
    var writer: DefaultWriter?
    var writeRequests: seq<nat>
    var inFlightWriteRequest: Option<nat>
    var closeRequest: Option<nat>
    var inFlightCloseRequest: Option<nat>
    var pendingAbortRequest: Option<AbortRequest>
    var backpressure: bool

    const controller: Container<Record>
    var started: bool
    const hwm: real

    /** The histories; an assert of the source is `h := h.Check(condition)`. */
    var h: History

    function View(): Stream
      reads this, controller, writer
    {
      Stream(state, storedError, if writer == null then None else Some(writer.Value()),
             writeRequests, inFlightWriteRequest, closeRequest, inFlightCloseRequest, pendingAbortRequest,
             backpressure, controller.queue, controller.total, started, hwm, h)
    }

    ghost predicate Linked()
      reads this, writer
    {
      writer != null ==> writer.owner == this
    }

    ghost predicate Valid()
      reads this, controller, writer
    {
      Linked() && WritableInvariant.Inv(View())
    }

    method UpdateBackpressure(wanted: bool)
      requires Linked()
      modifies this`h, this`backpressure, writer
      ensures Linked() && writer == old(writer) && View() == old(View()).UpdateBackpressure(wanted)
    {
      h := h.Check(state == Writable && !(closeRequest.Some? || inFlightCloseRequest.Some?));
      if writer == null || wanted == backpressure {
        backpressure := wanted;
        return;
      }
      var held: bool;
      if wanted {
        held := writer.ReadyReset();
      } else {
        held := writer.ReadyResolve();
      }
      h := h.Check(held);
      backpressure := wanted;
    }

    method StartErroring(reason: Reason)
      requires Linked()
      modifies this, controller, writer
      ensures Linked() && writer == old(writer) && View() == old(View()).StartErroring(reason)
    {
      hide Stream.FinishErroring;
      h := h.Check(storedError == Undefined && state == Writable);
      state := Erroring;
      storedError := reason;
      if writer != null {
        var held := writer.EnsureReadyRejected(reason);
        h := h.Check(held);
      }
      assert View() == old(View()).Turn(reason);
      if !View().HasOperationInFlight() && started {
        FinishErroring();
      }
    }

    method FinishErroring()
      requires Linked()
      modifies this, controller, writer
      ensures Linked() && writer == old(writer) && View() == old(View()).FinishErroring()
    {
      hide Stream.RejectCloseAndClosedPromiseIfNeeded, Stream.Emptied;
      var pending, error := pendingAbortRequest, storedError;
      Empty();
      if pending.None? {
        RejectCloseAndClosedPromiseIfNeeded();
        return;
      }
      var abortRequest := pending.value;
      if abortRequest.wasAlreadyErroring {
        h := h.Settles(AbortDone(abortRequest.n), Rejected(error));
        RejectCloseAndClosedPromiseIfNeeded();
        return;
      }
      h := h.Calls(AbortOp(abortRequest.reason), OnAbort(abortRequest));
    }

    /** The first half of FinishErroring. */
    method Empty()
      modifies this, controller
      ensures writer == old(writer) && View() == old(View()).Emptied()
    {
      h := h.Check(state == Erroring && !View().HasOperationInFlight());
      state := Errored;
      controller.ResetQueue();
      RejectWriteRequests();
      pendingAbortRequest := None;
    }

    method RejectWriteRequests()
      modifies this`h, this`writeRequests
      ensures h == old(h).SettlesAll(RejectedWrites(old(writeRequests), storedError)) && writeRequests == []
    {
      for i := 0 to |writeRequests|
        invariant writeRequests == old(writeRequests)
        invariant h == old(h).SettlesAll(RejectedWrites(writeRequests, storedError)[..i])
      {
        h := h.Settles(WriteDone(writeRequests[i]), Rejected(storedError));
      }
      writeRequests := [];
    }

    method RejectCloseAndClosedPromiseIfNeeded()
      requires Linked()
      modifies this`h, this`closeRequest, writer
      ensures Linked() && writer == old(writer)
      ensures View() == old(View()).RejectCloseAndClosedPromiseIfNeeded()
    {
      h := h.Check(state == Errored);
      if closeRequest.Some? {
        h := h.Check(inFlightCloseRequest.None?);
        h := h.Settles(CloseDone(closeRequest.value), Rejected(storedError));
        closeRequest := None;
      }
      if writer != null {
        var held := writer.ClosedReject(storedError);
        h := h.Check(held);
      }
    }

    method DealWithRejection(error: Reason)
      requires Linked()
      modifies this, controller, writer
      ensures Linked() && writer == old(writer) && View() == old(View()).DealWithRejection(error)
    {
      hide Stream.StartErroring, Stream.FinishErroring;
      if state == Writable {
        StartErroring(error);
        return;
      }
      h := h.Check(state == Erroring);
      FinishErroring();
    }

    method AdvanceQueueIfNeeded()
      requires Linked()
      modifies this, controller, writer
      ensures Linked() && writer == old(writer) && View() == old(View()).AdvanceQueueIfNeeded()
    {
      hide Stream.FinishErroring, Stream.ProcessClose, Stream.ProcessWrite;
      if !started || inFlightWriteRequest.Some? || state == Closed || state == Errored {
        return;
      }
      if state == Erroring {
        FinishErroring();
        return;
      }
      if |controller.queue| == 0 {
        return;
      }
      var record := controller.PeekQueueValue();
      match record
      case CloseRecord => ProcessClose();
      case ChunkRecord(chunk) => ProcessWrite(chunk);
    }

    method ProcessClose()
      modifies this, controller
      ensures writer == old(writer) && View() == old(View()).ProcessClose()
    {
      h := h.Check(inFlightCloseRequest.None? && closeRequest.Some? && |controller.queue| > 0);
      inFlightCloseRequest := closeRequest;
      closeRequest := None;
      if |controller.queue| > 0 {
        var _ := controller.DequeueValue();
      }
      h := h.Check(|controller.queue| == 0);
      h := h.Calls(CloseOp, OnClose);
    }

    method ProcessWrite(chunk: Chunk)
      modifies this
      ensures writer == old(writer) && View() == old(View()).ProcessWrite(chunk)
    {
      h := h.Check(inFlightWriteRequest.None?);
      h := h.Check(|writeRequests| != 0);
      if |writeRequests| == 0 {
        inFlightWriteRequest := None;
      } else {
        inFlightWriteRequest := Some(writeRequests[0]);
        writeRequests := writeRequests[1..];
      }
      h := h.Calls(WriteOp(chunk), OnWrite(chunk));
    }

    // ---- the constructor and the public calls ----------------------------------------

    constructor (hwm: real)
      ensures Valid() && View() == Init(hwm) && !h.faulted
    {
      state, storedError, writer := Writable, Undefined, null;
      writeRequests, inFlightWriteRequest := [], None;
      closeRequest, inFlightCloseRequest, pendingAbortRequest := None, None, None;
      backpressure := false;
      controller := new Container<Record>();
      started, this.hwm := false, hwm;
      h := History(false, [], [], [], [], 0, 0);
      new;
      hide WritableInvariant.Inv, Init;
      WritableSafety.InitKeeps(hwm);
      assert View() == Blank(hwm);
      SetUp();
    }

    /** The controller's set-up: the first backpressure signal, and the call to start. */
    method SetUp()
      requires View() == Blank(hwm)
      modifies this, controller, writer
      ensures writer == null && View() == Init(hwm)
    {
      hide Stream.UpdateBackpressure;
      UpdateBackpressure(hwm - controller.total <= 0.0);
      h := h.Calls(StartOp, OnStart);
    }

    /** getWriter(): a null result is the source's throw. */
    method GetWriter() returns (w: DefaultWriter?)
      requires Valid()
      modifies this
      ensures Valid() && View() == old(View()).Step(Event.GetWriter).0
      ensures w == null <==> old(View()).Step(Event.GetWriter).1 == Thrown
      ensures w != null ==> fresh(w) && writer == w
    {
      hide WritableInvariant.Inv;
      WritableSafety.AcquireKeeps(View());
      if writer != null {
        return null;
      }
      var value: Writer;
      match state {
        case Writable =>
          if !(closeRequest.Some? || inFlightCloseRequest.Some?) && backpressure {
            value := Writer(Pending, true, Pending, true, state);
          } else {
            value := Writer(Fulfilled, false, Pending, true, state);
          }
        case Erroring => value := Writer(Rejected(storedError), false, Pending, true, state);
        case Closed => value := Writer(Fulfilled, false, Fulfilled, false, state);
        case Errored => value := Writer(Rejected(storedError), false, Rejected(storedError), false, state);
      }
      w := new DefaultWriter(this, value);
      writer := w;
    }

    /** abort(reason) on the stream itself, refused while a writer holds it. */
    method StreamAbort(reason: Reason) returns (r: Reply)
      requires Valid()
      modifies this, controller, writer
      ensures Valid() && (View(), r) == old(View()).Step(Event.StreamAbort(reason)) && h.faulted == old(h.faulted)
    {
      hide WritableInvariant.Inv, Stream.Abort;
      if writer != null {
        return AlreadyRejected(LockLost);
      }
      r := Abort(reason);
    }

    /** abort(reason), once the caller is known to be entitled to it. */
    method Abort(reason: Reason) returns (r: Reply)
      requires Valid()
      modifies this, controller, writer
      ensures Valid() && writer == old(writer)
      ensures (View(), r) == old(View()).Abort(reason) && h.faulted == old(h.faulted)
    {
      hide WritableInvariant.Inv, Stream.StartErroring;
      WritableSafety.AbortKeeps(View(), reason);
      if state == Closed || state == Errored {
        return AlreadyResolved;
      }
      if pendingAbortRequest.Some? {
        return Given(AbortDone(pendingAbortRequest.value.n));
      }
      var wasAlreadyErroring := state == Erroring;
      var kept := reason;
      if wasAlreadyErroring {
        kept := Undefined;
      }
      r := Given(AbortDone(h.aborts));
      pendingAbortRequest := Some(AbortRequest(h.aborts, kept, wasAlreadyErroring));
      h := h.RequestsAbort();
      if !wasAlreadyErroring {
        StartErroring(reason);
      }
    }

    method ErrorIfNeeded(error: Reason)
      requires Linked()
      modifies this, controller, writer
      ensures Linked() && writer == old(writer) && View() == old(View()).ErrorIfNeeded(error)
    {
      hide Stream.StartErroring;
      if state == Writable {
        StartErroring(error);
      }
    }

    /** controller.error(e) */
    method ControllerError(error: Reason)
      requires Valid()
      modifies this, controller, writer
      ensures Valid() && writer == old(writer)
      ensures View() == old(View()).Step(Event.ControllerError(error)).0 && h.faulted == old(h.faulted)
    {
      hide WritableInvariant.Inv, Stream.StartErroring;
      WritableSafety.ErrorIfNeededKeeps(View(), error);
      if state != Writable {
        return;
      }
      StartErroring(error);
    }

    method UpdateBackpressureIfOpen()
      requires Linked()
      modifies this`h, this`backpressure, writer
      ensures Linked() && writer == old(writer) && View() == old(View()).UpdateBackpressureIfOpen()
    {
      if !(closeRequest.Some? || inFlightCloseRequest.Some?) && state == Writable {
        UpdateBackpressure(hwm - controller.total <= 0.0);
      }
    }

    method ControllerWrite(chunk: Chunk, size: Size)
      requires Linked()
      modifies this, controller, writer
      ensures Linked() && writer == old(writer) && View() == old(View()).ControllerWrite(chunk, size)
    {
      hide Stream.StartErroring, Stream.UpdateBackpressureIfOpen, Stream.AdvanceQueueIfNeeded;
      var ok := controller.EnqueueValueWithSize(ChunkRecord(chunk), size);
      if !ok {
        ErrorIfNeeded(InvalidSize);
        return;
      }
      UpdateBackpressureIfOpen();
      AdvanceQueueIfNeeded();
    }

    /** write(chunk) by the attached writer. */
    method Write(chunk: Chunk, size: SizeResult) returns (r: Reply)
      requires Valid() && writer != null
      modifies this, controller, writer
      ensures Valid() && writer == old(writer)
      ensures (View(), r) == old(View()).Write(chunk, size) && h.faulted == old(h.faulted)
    {
      hide WritableInvariant.Inv, Stream.ErrorIfNeeded, Stream.ControllerWrite;
      WritableSafety.WriteKeeps(View(), chunk, size);
      var chunkSize: Size;
      match size {
        case Returns(n) => chunkSize := n;
        case Throws(error) =>
          ErrorIfNeeded(error);
          chunkSize := Number(1.0);
      }
      if state == Errored {
        return AlreadyRejected(storedError);
      }
      if closeRequest.Some? || inFlightCloseRequest.Some? || state == Closed {
        return AlreadyRejected(NotWritable);
      }
      if state == Erroring {
        return AlreadyRejected(storedError);
      }
      r := Given(WriteDone(|h.accepted|));
      writeRequests := writeRequests + [|h.accepted|];
      h := h.Accepts(chunk);
      ControllerWrite(chunk, chunkSize);
    }

    /** close() by the attached writer. */
    method Close() returns (r: Reply)
      requires Valid() && writer != null
      modifies this, controller, writer
      ensures Valid() && writer == old(writer)
      ensures (View(), r) == old(View()).Close() && h.faulted == old(h.faulted)
    {
      hide WritableInvariant.Inv, Stream.AdvanceQueueIfNeeded;
      WritableSafety.CloseKeeps(View());
      if closeRequest.Some? || inFlightCloseRequest.Some? {
        return AlreadyRejected(NotWritable);
      }
      if state == Closed || state == Errored {
        return AlreadyRejected(NotWritable);
      }
      r := Given(CloseDone(h.closes));
      closeRequest := Some(h.closes);
      h := h.RequestsClose();
      if backpressure && state == Writable {
        var held := writer.ReadyResolve();
        h := h.Check(held);
      }
      var _ := controller.EnqueueValueWithSize(CloseRecord, Number(0.0));
      AdvanceQueueIfNeeded();
    }

    /** releaseLock() by the attached writer. */
    method Release()
      requires Valid() && writer != null
      modifies this, controller, writer
      ensures Valid() && writer == null && old(writer).owner == null
      ensures View() == old(View()).Release().0 && h.faulted == old(h.faulted)
      ensures old(writer).ready == old(writer).closed == Rejected(WriterReleased)
    {
      hide WritableInvariant.Inv;
      WritableSafety.ReleaseKeeps(View());
      var held := writer.EnsureReadyRejected(WriterReleased);
      var alsoHeld := writer.EnsureClosedRejected(WriterReleased);
      h := h.Check(held && alsoHeld);
      var w := writer;
      writer := null;
      w.owner := null;
    }

    // ---- reactions to the sink -------------------------------------------------------

    method FinishInFlightWrite(result: PromiseState)
      modifies this`h, this`inFlightWriteRequest
      ensures View() == old(View()).FinishInFlightWrite(result)
    {
      h := h.Check(inFlightWriteRequest.Some?);
      if inFlightWriteRequest.Some? {
        h := h.Settles(WriteDone(inFlightWriteRequest.value), result);
        inFlightWriteRequest := None;
      }
    }

    method StartSettled(result: SinkResult)
      requires Linked()
      modifies this, controller, writer
      ensures Linked() && writer == old(writer) && View() == old(View()).StartSettled(result)
    {
      hide Stream.AdvanceQueueIfNeeded, Stream.DealWithRejection;
      h := h.Check(state == Writable || state == Erroring);
      started := true;
      match result
      case Succeeds => AdvanceQueueIfNeeded();
      case Fails(error) => DealWithRejection(error);
    }

    method Dequeue()
      modifies this`h, controller
      ensures View() == old(View()).Dequeue()
    {
      h := h.Check(|controller.queue| > 0);
      if |controller.queue| > 0 {
        var _ := controller.DequeueValue();
      }
    }

    method WriteSettled(result: SinkResult)
      requires Linked()
      modifies this, controller, writer
      ensures Linked() && writer == old(writer) && View() == old(View()).WriteSettled(result)
    {
      hide Stream.AdvanceQueueIfNeeded, Stream.DealWithRejection, Stream.UpdateBackpressureIfOpen, Stream.Dequeue,
           Stream.FinishInFlightWrite;
      match result
      case Succeeds =>
        FinishInFlightWrite(Fulfilled);
        h := h.Check(state == Writable || state == Erroring);
        Dequeue();
        UpdateBackpressureIfOpen();
        AdvanceQueueIfNeeded();
      case Fails(error) =>
        FinishInFlightWrite(Rejected(error));
        h := h.Check(state == Writable || state == Erroring);
        DealWithRejection(error);
    }

    /** The in-flight close settles, and a pending abort with it. */
    method SettleClose(outcome: PromiseState)
      requires inFlightCloseRequest.Some?
      modifies this
      ensures writer == old(writer)
      ensures View() == old(View()).(h := old(View()).CloseLogged(outcome), inFlightClose := None, pendingAbort := None)
    {
      h := h.Settles(CloseDone(inFlightCloseRequest.value), outcome);
      inFlightCloseRequest := None;
      if pendingAbortRequest.Some? {
        h := h.Settles(AbortDone(pendingAbortRequest.value.n), outcome);
        pendingAbortRequest := None;
      }
    }

    /** The first half of FinishInFlightClose. */
    method EnterClosed()
      requires inFlightCloseRequest.Some?
      requires state == Erroring || (state == Writable && pendingAbortRequest.None? && storedError == Undefined)
      modifies this
      ensures writer == old(writer)
      ensures View() == old(View()).(state := Closed, storedError := Undefined, inFlightClose := None,
                                     h := old(View()).CloseLogged(Fulfilled), pendingAbort := None)
    {
      h := h.Settles(CloseDone(inFlightCloseRequest.value), Fulfilled);
      inFlightCloseRequest := None;
      h := h.Check(state == Writable || state == Erroring);
      if state == Erroring {
        storedError := Undefined;
        if pendingAbortRequest.Some? {
          h := h.Settles(AbortDone(pendingAbortRequest.value.n), Fulfilled);
          pendingAbortRequest := None;
        }
      }
      state := Closed;
    }

    method FinishInFlightClose()
      requires Linked() && inFlightCloseRequest.Some?
      requires state == Erroring || (state == Writable && pendingAbortRequest.None? && storedError == Undefined)
      modifies this, writer
      ensures Linked() && writer == old(writer) && View() == old(View()).FinishInFlightClose()
    {
      hide Stream.CloseLogged;
      EnterClosed();
      if writer != null {
        var held := writer.ClosedResolve();
        h := h.Check(held);
      }
      h := h.Check(pendingAbortRequest.None?);
      h := h.Check(storedError == Undefined);
    }

    method FinishInFlightCloseWithError(error: Reason)
      requires Linked() && inFlightCloseRequest.Some?
      modifies this, controller, writer
      ensures Linked() && writer == old(writer) && View() == old(View()).FinishInFlightCloseWithError(error)
    {
      hide Stream.DealWithRejection;
      SettleClose(Rejected(error));
      h := h.Check(state == Writable || state == Erroring);
      DealWithRejection(error);
    }

    method CloseSettled(result: SinkResult)
      requires Linked() && inFlightCloseRequest.Some?
      requires state == Erroring || (state == Writable && pendingAbortRequest.None? && storedError == Undefined)
      modifies this, controller, writer
      ensures Linked() && writer == old(writer) && View() == old(View()).CloseSettled(result)
    {
      hide Stream.FinishInFlightClose, Stream.FinishInFlightCloseWithError;
      match result
      case Succeeds => FinishInFlightClose();
      case Fails(error) => FinishInFlightCloseWithError(error);
    }

    method AbortSettled(request: AbortRequest, result: SinkResult)
      requires Linked()
      modifies this, writer
      ensures Linked() && writer == old(writer) && View() == old(View()).AbortSettled(request, result)
    {
      hide Stream.RejectCloseAndClosedPromiseIfNeeded;
      match result {
        case Succeeds => h := h.Settles(AbortDone(request.n), Fulfilled);
        case Fails(error) => h := h.Settles(AbortDone(request.n), Rejected(error));
      }
      RejectCloseAndClosedPromiseIfNeeded();
    }

    /** The k-th reaction still to run, runs. */
    method React(k: nat, result: SinkResult)
      requires Valid() && k < |h.outstanding|
      modifies this, controller, writer
      ensures Valid() && writer == old(writer)
      ensures View() == old(View()).Settled(k, result)
      ensures h.faulted == (old(h.faulted) || WritableRuns.AbortMeetsLateWriter(old(View()), Event.Settle(k, result)))
    {
      hide WritableInvariant.Inv, Stream.React, WritableRuns.AbortMeetsLateWriter;
      WritableRuns.SettleKeeps(View(), k, result);
      CloseFacts(k);
      var reaction := h.outstanding[k];
      h := h.Returns(k, result);
      Dispatch(reaction, result);
    }

    method Dispatch(reaction: Continuation, result: SinkResult)
      requires Linked()
      requires reaction.OnClose? ==>
                 && inFlightCloseRequest.Some?
                 && (state == Erroring || (state == Writable && pendingAbortRequest.None? && storedError == Undefined))
      modifies this, controller, writer
      ensures Linked() && writer == old(writer) && View() == old(View()).React(reaction, result)
    {
      hide Stream.StartSettled, Stream.WriteSettled, Stream.AbortSettled, Stream.CloseSettled;
      match reaction
      case OnStart => StartSettled(result);
      case OnWrite(_) => WriteSettled(result);
      case OnClose => CloseSettled(result);
      case OnAbort(request) => AbortSettled(request, result);
    }

    lemma CloseFacts(k: nat)
      requires Valid() && k < |h.outstanding|
      ensures h.outstanding[k].OnClose? ==>
                && inFlightCloseRequest.Some?
                && (state == Erroring || (state == Writable && pendingAbortRequest.None? && storedError == Undefined))
    {}
  }
}
