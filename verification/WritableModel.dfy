/** The writable stream of lib/whatwg/streams/writable.js as a state machine on values: the
    slots of the stream, its controller and the attached writer, and one function per
    operation. `faulted` records that an assert of the source was false.

    Three histories stand beside the slots: the calls made to the sink and their settlements
    (`trace`), the settlements of promises handed to callers (`log`), and the chunks of all
    accepted writes (`accepted`). `outstanding` holds the `.then` continuations not yet run. */
module WritableModel {
  import opened Wrappers
  import opened SizedQueue

  type Chunk = int

  datatype Phase = Writable | Erroring | Errored | Closed

  /** A rejection value; `Undefined` is also what an unset [[storedError]] holds. */
  datatype Reason = Undefined | Because(id: int) | InvalidSize | WriterReleased | NotWritable | LockLost

  datatype PromiseState = Pending | Fulfilled | Rejected(reason: Reason)

  /** Promises given to callers, numbered per kind in the order they were created. */
  datatype Promise = WriteDone(n: nat) | CloseDone(n: nat) | AbortDone(n: nat)

  datatype Settlement = Settlement(promise: Promise, state: PromiseState)

  datatype Record = ChunkRecord(chunk: Chunk) | CloseRecord

  datatype AbortRequest = AbortRequest(n: nat, reason: Reason, wasAlreadyErroring: bool)

  /** Call to the underlying sink. */
  datatype SinkOp = StartOp | WriteOp(chunk: Chunk) | CloseOp | AbortOp(reason: Reason)

  datatype SinkEvent = Called(op: SinkOp) | Returned(op: SinkOp, result: SinkResult)

  /** A reaction waiting on the promise a sink operation returned. */
  datatype Continuation = OnStart | OnWrite(chunk: Chunk) | OnClose | OnAbort(request: AbortRequest) {
    function Op(): SinkOp {
      match this
      case OnStart => StartOp
      case OnWrite(chunk) => WriteOp(chunk)
      case OnClose => CloseOp
      case OnAbort(request) => AbortOp(request.reason)
    }
  }

  /** The attached writer. `ready` and `closed` are its promise states; an `Armed` flag says
      that the promise's resolve and reject functions are still held; `acquiredIn` is the
      stream's state when the writer was constructed. */
  datatype Writer = Writer(ready: PromiseState, readyArmed: bool,
                           closed: PromiseState, closedArmed: bool,
                           acquiredIn: Phase)
  {
    function ReadyResolved(): Writer { this.(ready := Fulfilled, readyArmed := false) }

    function ReadyReset(): Writer { this.(ready := Pending, readyArmed := true) }

    function ReadyRejected(error: Reason): Writer { this.(ready := Rejected(error), readyArmed := false) }

    function ClosedRejected(error: Reason): Writer { this.(closed := Rejected(error), closedArmed := false) }

    function ClosedResolved(): Writer { this.(closed := Fulfilled, closedArmed := false) }

    /** What the source asserts before it resolves or rejects the closed promise. */
    predicate ClosedSettleable() { closedArmed && closed == Pending }

    /** What it asserts, over both branches, before it makes sure a promise is rejected. */
    predicate ReadyCoherent() { (ready == Pending) == readyArmed }

    predicate ClosedCoherent() { (closed == Pending) == closedArmed }
  }

  /** The result of the strategy's size function. */
  datatype SizeResult = Returns(size: Size) | Throws(error: Reason)

  datatype SinkResult = Succeeds | Fails(error: Reason)

  /** What a public call hands back. */
  datatype Reply = Nothing | Thrown | Given(promise: Promise) | AlreadyResolved | AlreadyRejected(reason: Reason)

  datatype Event =
    | GetWriter
    | StreamAbort(reason: Reason)
    | WriterAbort(reason: Reason)
    | WriterWrite(chunk: Chunk, size: SizeResult)
    | WriterClose
    | WriterRelease
    | ControllerError(error: Reason)
    | Settle(k: nat, result: SinkResult)

  /** What has happened: whether an assert of the source was false, the reactions still to
      run, the sink's trace, the settlements of promises, and the promises given out. */
  datatype History = History(
    faulted: bool,
    outstanding: seq<Continuation>,
    trace: seq<SinkEvent>,
    log: seq<Settlement>,
    accepted: seq<Chunk>,
    closes: nat,
    aborts: nat)
  {
    /** assert(condition) */
    function Check(condition: bool): History { this.(faulted := faulted || !condition) }

    function Settles(promise: Promise, result: PromiseState): History {
      this.(log := log + [Settlement(promise, result)])
    }

    function SettlesAll(settlements: seq<Settlement>): History { this.(log := log + settlements) }

    function Calls(op: SinkOp, reaction: Continuation): History {
      this.(trace := trace + [Called(op)], outstanding := outstanding + [reaction])
    }

    /** The k-th reaction leaves the list as the sink's return is recorded. */
    function Returns(k: nat, result: SinkResult): History
      requires k < |outstanding|
    {
      this.(outstanding := outstanding[..k] + outstanding[k + 1..],
            trace := trace + [Returned(outstanding[k].Op(), result)])
    }

    function Accepts(chunk: Chunk): History { this.(accepted := accepted + [chunk]) }

    function RequestsClose(): History { this.(closes := closes + 1) }

    function RequestsAbort(): History { this.(aborts := aborts + 1) }
  }

  datatype Stream = Stream(
    state: Phase,
    storedError: Reason,
    writer: Option<Writer>,
    writeRequests: seq<nat>,
    inFlightWrite: Option<nat>,
    closeRequest: Option<nat>,
    inFlightClose: Option<nat>,
    pendingAbort: Option<AbortRequest>,
    backpressure: bool,
    queue: seq<Entry<Record>>,
    total: real,
    started: bool,
    hwm: real,
    h: History)
  {
    function Check(condition: bool): Stream { this.(h := h.Check(condition)) }

    function Settles(promise: Promise, result: PromiseState): Stream { this.(h := h.Settles(promise, result)) }

    function Calls(op: SinkOp, reaction: Continuation): Stream { this.(h := h.Calls(op, reaction)) }

    predicate CloseQueuedOrInFlight() {
      closeRequest.Some? || inFlightClose.Some?
    }

    predicate HasOperationInFlight() {
      inFlightWrite.Some? || inFlightClose.Some?
    }

    function DesiredSize(): real {
      hwm - total
    }

    predicate WantsBackpressure() {
      DesiredSize() <= 0.0
    }

    // ---- stream ----------------------------------------------------------------------

    function UpdateBackpressure(wanted: bool): Stream {
      var changes := writer.Some? && wanted != backpressure;
      Check(state == Writable && !CloseQueuedOrInFlight() && (changes ==> writer.value.readyArmed == !wanted))
      .(writer := if !changes then writer
                  else Some(if wanted then writer.value.ReadyReset() else writer.value.ReadyResolved()),
        backpressure := wanted)
    }

    /** The first half of StartErroring: the state turns and the ready promise is rejected. */
    function Turn(reason: Reason): Stream {
      Check(storedError == Undefined && state == Writable && (writer.Some? ==> writer.value.ReadyCoherent()))
      .(state := Erroring, storedError := reason,
        writer := if writer.None? then None else Some(writer.value.ReadyRejected(reason)))
    }

    function StartErroring(reason: Reason): Stream {
      if !HasOperationInFlight() && started then Turn(reason).FinishErroring() else Turn(reason)
    }

    /** The first half of FinishErroring: the queue is dropped, the write requests are
        rejected in order, and a pending abort request leaves its slot. */
    function Emptied(): Stream {
      this.(state := Errored, queue := [], total := 0.0, writeRequests := [], pendingAbort := None,
        h := h.Check(state == Erroring && !HasOperationInFlight())
             .SettlesAll(RejectedWrites(writeRequests, storedError)))
    }

    function FinishErroring(): Stream {
      match pendingAbort
      case None => Emptied().RejectCloseAndClosedPromiseIfNeeded()
      case Some(request) =>
        if request.wasAlreadyErroring then
          Emptied().Settles(AbortDone(request.n), Rejected(storedError)).RejectCloseAndClosedPromiseIfNeeded()
        else
          Emptied().Calls(AbortOp(request.reason), OnAbort(request))
    }

    function RejectCloseAndClosedPromiseIfNeeded(): Stream {
      var settleable := writer.Some? ==> writer.value.ClosedSettleable();
      var checked := h.Check(state == Errored && (closeRequest.Some? ==> inFlightClose.None?) && settleable);
      this.(h := if closeRequest.None? then checked
                 else checked.Settles(CloseDone(closeRequest.value), Rejected(storedError)),
        closeRequest := None,
        writer := if writer.None? || !settleable then writer
                  else Some(writer.value.ClosedRejected(storedError)))
    }

    function DealWithRejection(error: Reason): Stream {
      if state == Writable then StartErroring(error) else Check(state == Erroring).FinishErroring()
    }

    function FinishInFlightWrite(result: PromiseState): Stream {
      if inFlightWrite.None? then Check(false)
      else Settles(WriteDone(inFlightWrite.value), result).(inFlightWrite := None)
    }

    /** The in-flight close, and a pending abort with it, settle as `outcome`. */
    function CloseLogged(outcome: PromiseState): History
      requires inFlightClose.Some?
    {
      var closed := h.Settles(CloseDone(inFlightClose.value), outcome);
      if pendingAbort.None? then closed else closed.Settles(AbortDone(pendingAbort.value.n), outcome)
    }

    /** An error that came while the close was in flight is forgotten, and so is the abort. */
    function FinishInFlightClose(): Stream {
      if inFlightClose.None? then Check(false) else
        var settleable := writer.Some? ==> writer.value.ClosedSettleable();
        this.(state := Closed, storedError := Undefined,
          h := CloseLogged(Fulfilled).Check(
            (state == Erroring || (state == Writable && pendingAbort.None? && storedError == Undefined)) && settleable),
          inFlightClose := None, pendingAbort := None,
          writer := if writer.None? || !settleable then writer else Some(writer.value.ClosedResolved()))
    }

    function FinishInFlightCloseWithError(error: Reason): Stream {
      if inFlightClose.None? then Check(false) else
        this.(h := CloseLogged(Rejected(error)).Check(state == Writable || state == Erroring),
              inFlightClose := None, pendingAbort := None)
        .DealWithRejection(error)
    }

    // ---- controller ------------------------------------------------------------------

    function Dequeue(): Stream {
      if |queue| == 0 then Check(false)
      else this.(queue := queue[1..], total := TotalAfterDequeue(queue, total))
    }

    function ProcessWrite(chunk: Chunk): Stream {
      Check(inFlightWrite.None? && |writeRequests| != 0)
      .(inFlightWrite := if |writeRequests| == 0 then None else Some(writeRequests[0]),
        writeRequests := if |writeRequests| == 0 then [] else writeRequests[1..])
      .Calls(WriteOp(chunk), OnWrite(chunk))
    }

    /** The close record leaves the queue, which is then empty, and the sink is closed. */
    function ProcessClose(): Stream {
      Check(inFlightClose.None? && closeRequest.Some? && |queue| == 1)
      .Dequeue().(inFlightClose := closeRequest, closeRequest := None).Calls(CloseOp, OnClose)
    }

    function AdvanceQueueIfNeeded(): Stream {
      if !started || inFlightWrite.Some? || state == Closed || state == Errored then this
      else if state == Erroring then FinishErroring()
      else if |queue| == 0 then this
      else match queue[0].value
        case CloseRecord => ProcessClose()
        case ChunkRecord(chunk) => ProcessWrite(chunk)
    }

    function ErrorIfNeeded(error: Reason): Stream {
      if state == Writable then StartErroring(error) else this
    }

    function UpdateBackpressureIfOpen(): Stream {
      if !CloseQueuedOrInFlight() && state == Writable then UpdateBackpressure(WantsBackpressure()) else this
    }

    /** The stream with one more write request, ... */
    function WithRequest(chunk: Chunk): Stream {
      this.(writeRequests := writeRequests + [|h.accepted|], h := h.Accepts(chunk))
    }

    /** ... or with one more entry in the queue. */
    function WithEntry(record: Record, size: real): Stream {
      this.(queue := queue + [Entry(record, size)], total := total + size)
    }

    function ControllerWrite(chunk: Chunk, size: Size): Stream {
      if !IsFiniteNonNegative(size) then ErrorIfNeeded(InvalidSize)
      else
        WithEntry(ChunkRecord(chunk), size.n).UpdateBackpressureIfOpen().AdvanceQueueIfNeeded()
    }

    // ---- public calls ----------------------------------------------------------------

    /** getWriter(): throws on a locked stream. */
    function Acquire(): (Stream, Reply) {
      if writer.Some? then (this, Thrown) else
        var w := match state
          case Writable =>
            if !CloseQueuedOrInFlight() && backpressure then Writer(Pending, true, Pending, true, state)
            else Writer(Fulfilled, false, Pending, true, state)
          case Erroring => Writer(Rejected(storedError), false, Pending, true, state)
          case Closed => Writer(Fulfilled, false, Fulfilled, false, state)
          case Errored => Writer(Rejected(storedError), false, Rejected(storedError), false, state);
        (this.(writer := Some(w)), Nothing)
    }

    function Abort(reason: Reason): (Stream, Reply) {
      if state == Closed || state == Errored then (this, AlreadyResolved)
      else if pendingAbort.Some? then (this, Given(AbortDone(pendingAbort.value.n)))
      else
        var was := state == Erroring;
        var kept := if was then Undefined else reason;
        var s := this.(pendingAbort := Some(AbortRequest(h.aborts, kept, was)), h := h.RequestsAbort());
        (if was then s else s.StartErroring(reason), Given(AbortDone(h.aborts)))
    }

    /** writer.write(chunk) on the attached writer, with what the size function does. */
    function Write(chunk: Chunk, size: SizeResult): (Stream, Reply)
      requires writer.Some?
    {
      var s := match size
        case Throws(error) => ErrorIfNeeded(error)
        case Returns(_) => this;
      var chunkSize := match size
        case Throws(_) => Number(1.0)
        case Returns(n) => n;
      if s.state == Errored then (s, AlreadyRejected(s.storedError))
      else if s.CloseQueuedOrInFlight() || s.state == Closed then (s, AlreadyRejected(NotWritable))
      else if s.state == Erroring then (s, AlreadyRejected(s.storedError))
      else (s.WithRequest(chunk).ControllerWrite(chunk, chunkSize), Given(WriteDone(|s.h.accepted|)))
    }

    /** The stream with a close request in its slot and a close record at the queue's end. */
    function WithCloseRequest(): Stream
      requires writer.Some?
    {
      var resolves := backpressure && state == Writable;
      this.(closeRequest := Some(h.closes), h := h.Check(resolves ==> writer.value.readyArmed).RequestsClose(),
        queue := queue + [Entry(CloseRecord, 0.0)], total := total + 0.0,
        writer := if resolves then Some(writer.value.ReadyResolved()) else writer)
    }

    /** writer.close() on the attached writer. */
    function Close(): (Stream, Reply)
      requires writer.Some?
    {
      if CloseQueuedOrInFlight() || state == Closed || state == Errored then (this, AlreadyRejected(NotWritable))
      else
        (WithCloseRequest().AdvanceQueueIfNeeded(), Given(CloseDone(h.closes)))
    }

    /** writer.releaseLock() on the attached writer. */
    function Release(): (Stream, Reply)
      requires writer.Some?
    {
      (Check(writer.value.ReadyCoherent() && writer.value.ClosedCoherent()).(writer := None), Nothing)
    }

    // ---- reactions to the sink -------------------------------------------------------

    function StartSettled(result: SinkResult): Stream {
      var s := Check(state == Writable || state == Erroring).(started := true);
      match result
      case Succeeds => s.AdvanceQueueIfNeeded()
      case Fails(error) => s.DealWithRejection(error)
    }

    function WriteSettled(result: SinkResult): Stream {
      match result
      case Succeeds =>
        FinishInFlightWrite(Fulfilled).Check(state == Writable || state == Erroring).Dequeue()
        .UpdateBackpressureIfOpen().AdvanceQueueIfNeeded()
      case Fails(error) =>
        FinishInFlightWrite(Rejected(error)).Check(state == Writable || state == Erroring).DealWithRejection(error)
    }

    function CloseSettled(result: SinkResult): Stream {
      match result
      case Succeeds => FinishInFlightClose()
      case Fails(error) => FinishInFlightCloseWithError(error)
    }

    function AbortSettled(request: AbortRequest, result: SinkResult): Stream {
      Settles(AbortDone(request.n), OutcomeOf(result)).RejectCloseAndClosedPromiseIfNeeded()
    }

    function React(reaction: Continuation, result: SinkResult): Stream {
      match reaction
      case OnStart => StartSettled(result)
      case OnWrite(_) => WriteSettled(result)
      case OnClose => CloseSettled(result)
      case OnAbort(request) => AbortSettled(request, result)
    }

    /** The k-th outstanding continuation runs. */
    function Settled(k: nat, result: SinkResult): Stream
      requires k < |h.outstanding|
    {
      this.(h := h.Returns(k, result)).React(h.outstanding[k], result)
    }

    /** One step. A call on a released writer leaves the stream alone, and so does a
        settlement that no sink operation is waiting for. */
    function Step(e: Event): (Stream, Reply) {
      match e
      case GetWriter => Acquire()
      case StreamAbort(reason) => if writer.Some? then (this, AlreadyRejected(LockLost)) else Abort(reason)
      case WriterAbort(reason) => if writer.None? then (this, AlreadyRejected(LockLost)) else Abort(reason)
      case WriterWrite(chunk, size) => if writer.None? then (this, AlreadyRejected(LockLost)) else Write(chunk, size)
      case WriterClose => if writer.None? then (this, AlreadyRejected(LockLost)) else Close()
      case WriterRelease => if writer.None? then (this, Nothing) else Release()
      case ControllerError(error) => (ErrorIfNeeded(error), Nothing)
      case Settle(k, result) => (if k < |h.outstanding| then Settled(k, result) else this, Nothing)
    }
  }

  function OutcomeOf(result: SinkResult): PromiseState {
    match result
    case Succeeds => Fulfilled
    case Fails(error) => Rejected(error)
  }

  /** Every write request rejected, in order. */
  function RejectedWrites(requests: seq<nat>, error: Reason): seq<Settlement> {
    seq(|requests|, i requires 0 <= i < |requests| => Settlement(WriteDone(requests[i]), Rejected(error)))
  }

  /** A new stream's slots. */
  function Blank(hwm: real): Stream {
    Stream(Writable, Undefined, None, [], None, None, None, None, false,
           [], 0.0, false, hwm, History(false, [], [], [], [], 0, 0))
  }

  /** Set up: the first backpressure signal, and the call to start. */
  function Init(hwm: real): Stream {
    Blank(hwm).UpdateBackpressure(hwm <= 0.0).Calls(StartOp, OnStart)
  }

  function Run(hwm: real, events: seq<Event>): Stream {
    if events == [] then Init(hwm)
    else Run(hwm, events[..|events| - 1]).Step(events[|events| - 1]).0
  }
}
