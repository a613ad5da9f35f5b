/** A readable stream with a default controller and reader, of lib/whatwg/streams/readable.js, as
    a value: its queue with sizes, its pending reads and its pull protocol. */
module ReadableModel {
  import opened SizedQueue

  type Chunk = nat

  datatype Phase = Readable | Closed | Errored

  /** What a read comes to. */
  datatype Outcome = Value(chunk: Chunk) | End | Failed

  datatype Settled = Settled(n: nat, outcome: Outcome)

  datatype Reply = Returned | Thrown | Promised(n: nat)

  /** What the strategy's size function does. */
  datatype SizeResult = Given(size: Size) | Throws

  /** Calls of the reader and the source, and settlements of the source's start and pull. */
  datatype Event =
    | GetReader
    | ReleaseLock
    | Read
    | Enqueue(chunk: Chunk, size: SizeResult)
    | Close
    | Error
    | Cancel
    | StartSettled(ok: bool)
    | PullSettled(ok: bool)

  /** `requests` are the unsettled reads; `received` every chunk accepted; `pulls` counts the
      calls of pull and `unsettledPulls` those not settled; `faulted` says that an assert of
      the source has failed. */
  datatype History = History(
    issued: nat,
    settled: seq<Settled>,
    received: seq<Chunk>,
    startPending: bool,
    pulls: nat,
    unsettledPulls: nat,
    cancelled: bool,
    faulted: bool)
  {
    function Check(condition: bool): History { this.(faulted := faulted || !condition) }

    function Settles(n: nat, outcome: Outcome): History { this.(settled := settled + [Settled(n, outcome)]) }
  }

  datatype Stream = Stream(
    state: Phase,
    locked: bool,
    closeRequested: bool,
    started: bool,
    pulling: bool,
    pullAgain: bool,
    hwm: real,
    queue: seq<Entry<Chunk>>,
    total: real,
    requests: seq<nat>,
    h: History)
  {
    predicate CanCloseOrEnqueue() { !closeRequested && state == Readable }

    /** ReadableStreamDefaultControllerShouldCallPull */
    predicate ShouldCallPull() {
      CanCloseOrEnqueue() && started && ((locked && requests != []) || hwm - total > 0.0)
    }

    function CallPullIfNeeded(): Stream {
      if !ShouldCallPull() then this
      else if pulling then this.(pullAgain := true)
      else
        this.(pulling := true,
              h := h.Check(!pullAgain).(pulls := h.pulls + 1, unsettledPulls := h.unsettledPulls + 1))
    }

    /** ReadableStreamClose: the pending reads are told that there is no more. */
    function Finish(): Stream {
      this.(state := Closed, requests := [],
            h := h.Check(state == Readable).(settled := h.settled + All(requests, End)))
    }

    /** ReadableStreamDefaultControllerError */
    function Fail(): Stream {
      if state != Readable then this
      else
        this.(state := Errored, queue := [], total := 0.0, requests := [],
              h := h.(settled := h.settled + All(requests, Failed)))
    }

    /** A read takes the first chunk of the queue. */
    function Dequeued(): Stream
      requires queue != []
    {
      this.(queue := queue[1..], total := TotalAfterDequeue(queue, total),
            h := h.Settles(h.issued, Value(queue[0].value)).(issued := h.issued + 1))
    }

    /** The read itself: PullSteps, on a readable stream. */
    function PullSteps(): Stream {
      var n := h.issued;
      if queue != [] then
        var s := Dequeued();
        if closeRequested && s.queue == [] then s.Finish() else s.CallPullIfNeeded()
      else
        this.(requests := requests + [n], h := h.Check(state == Readable).(issued := n + 1)).CallPullIfNeeded()
    }

    function ReadNow(): Stream {
      var n := h.issued;
      if state == Closed then this.(h := h.Settles(n, End).(issued := n + 1))
      else if state == Errored then this.(h := h.Settles(n, Failed).(issued := n + 1))
      else PullSteps()
    }

    /** The chunk goes to the first pending read, or to the queue if its size can be had. */
    function EnqueueChunk(chunk: Chunk, size: SizeResult): (Stream, Reply) {
      if locked && requests != [] then
        (this.(requests := requests[1..],
               h := h.Settles(requests[0], Value(chunk)).(received := h.received + [chunk])).CallPullIfNeeded(),
         Returned)
      else if size == Throws || !IsFiniteNonNegative(size.size) then (Fail(), Thrown)
      else
        (this.(queue := queue + [Entry(chunk, size.size.n)], total := total + size.size.n,
               h := h.(received := h.received + [chunk])).CallPullIfNeeded(),
         Returned)
    }

    function CloseBySource(): Stream {
      var s := this.(closeRequested := true);
      if queue == [] then s.Finish() else s
    }

    function CancelByReader(): Stream {
      if state != Readable then this
      else
        var s := Finish();
        s.(queue := [], total := 0.0, h := s.h.(cancelled := true))
    }

    function StartSettles(ok: bool): Stream {
      var s := this.(h := h.(startPending := false));
      if ok then
        s.(started := true, h := s.h.Check(!pulling).Check(!pullAgain)).CallPullIfNeeded()
      else s.Fail()
    }

    function PullSettles(ok: bool): Stream {
      var s := this.(h := h.(unsettledPulls := if h.unsettledPulls == 0 then 0 else h.unsettledPulls - 1));
      if !ok then s.Fail()
      else if pullAgain then s.(pulling := false, pullAgain := false).CallPullIfNeeded()
      else s.(pulling := false)
    }

    /** One step. A call that its object refuses throws; what is not pending does not settle. */
    function Step(e: Event): (Stream, Reply) {
      match e
      case GetReader => if locked then (this, Thrown) else (this.(locked := true), Returned)
      case ReleaseLock => if locked && requests != [] then (this, Thrown) else (this.(locked := false), Returned)
      case Read => if !locked then (this, Thrown) else (ReadNow(), Promised(h.issued))
      case Enqueue(chunk, size) => if !CanCloseOrEnqueue() then (this, Thrown) else EnqueueChunk(chunk, size)
      case Close => if !CanCloseOrEnqueue() then (this, Thrown) else (CloseBySource(), Returned)
      case Error => (Fail(), Returned)
      case Cancel => (CancelByReader(), Returned)
      case StartSettled(ok) => (if h.startPending then StartSettles(ok) else this, Returned)
      case PullSettled(ok) => (if h.unsettledPulls > 0 then PullSettles(ok) else this, Returned)
    }
  }

  /** All of the requests settle alike. */
  function All(requests: seq<nat>, outcome: Outcome): (r: seq<Settled>)
    ensures |r| == |requests| && forall i :: 0 <= i < |r| ==> r[i] == Settled(requests[i], outcome)
  {
    seq(|requests|, i requires 0 <= i < |requests| => Settled(requests[i], outcome))
  }

  function Init(hwm: real): Stream {
    Stream(Readable, false, false, false, false, false, hwm, [], 0.0, [],
           History(0, [], [], true, 0, 0, false, false))
  }

  function Run(hwm: real, events: seq<Event>): Stream {
    if events == [] then Init(hwm) else Run(hwm, events[..|events| - 1]).Step(events[|events| - 1]).0
  }
}
