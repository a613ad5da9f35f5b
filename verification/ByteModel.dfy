/** The BYOB path of the readable byte stream of lib/whatwg/streams/readable.js, on bytes: what
    is queued and what each pending read has been given are byte sequences, with no buffers,
    offsets or queue entries. ByteStreams refines it with those. */
module ByteModel {
  import Align

  type Byte = bv8

  /** What the language guarantees of a typed view. */
  predicate IsView(byteLength: nat, elementSize: nat) {
    elementSize > 0 && byteLength > 0 && byteLength % elementSize == 0
  }

  datatype Phase = Readable | Closed | Errored

  /** A pending pull-into: a view of `byteLength` bytes at `byteOffset`, wanted in whole
      elements, and the bytes it has so far. */
  datatype Want = Want(byteOffset: nat, byteLength: nat, elementSize: nat, filled: seq<Byte>) {
    ghost predicate Valid() {
      IsView(byteLength, elementSize) && |filled| <= byteLength
    }

    /** How many bytes to take when `available` are queued, and whether the read is then
        ready. Ready: the most whole elements that are there and fit. Not ready: all there is,
        which is less than one element. */
    function Take(available: nat): (taken: (nat, bool))
      requires elementSize > 0 && |filled| <= byteLength
      ensures taken.0 <= available && |filled| + taken.0 <= byteLength
      ensures !taken.1 ==> taken.0 == if available < byteLength - |filled| then available else byteLength - |filled|
    {
      var maxToCopy := if available < byteLength - |filled| then available else byteLength - |filled|;
      var currentAligned := Align.Down(|filled|, elementSize);
      var maxAligned := Align.Down(|filled| + maxToCopy, elementSize);
      if maxAligned > currentAligned then
        Align.WholeStep(|filled|, |filled| + maxToCopy, elementSize);
        (maxAligned - |filled|, true)
      else (maxToCopy, false)
    }
  }

  ghost predicate AllValid(wants: seq<Want>) {
    forall i {:trigger wants[i]} :: 0 <= i < |wants| ==> wants[i].Valid()
  }

  /** A settled read: the view with its bytes and the done flag, or a rejection. */
  datatype Outcome = Chunk(view: Want, done: bool) | Failed

  datatype Settled = Settled(n: nat, outcome: Outcome)

  datatype Reply = Returned | Thrown | Promised(n: nat)

  datatype Event =
    | GetReader
    | ReleaseLock
    | Read(byteOffset: nat, byteLength: nat, elementSize: nat)
    | Enqueue(bytes: seq<Byte>)
    | GetByobRequest
    | Respond(bytesWritten: nat, written: seq<Byte>)
    | RespondWithNewView(buffer: seq<Byte>, byteOffset: nat, byteLength: nat)
    | Close
    | Error
    | Cancel

  /** `requests` are the unsettled read(view) promises, `settled` the settled ones in order;
      `received` is every byte enqueued or responded with; `requestLive` says that the
      controller has a BYOB request handed out and not invalidated. */
  datatype Stream = Stream(
    state: Phase,
    locked: bool,
    closeRequested: bool,
    queued: seq<Byte>,
    pending: seq<Want>,
    requests: seq<nat>,
    requestLive: bool,
    cancelled: bool,
    issued: nat,
    settled: seq<Settled>,
    received: seq<Byte>,
    faulted: bool)
  {
    function Check(condition: bool): Stream { this.(faulted := faulted || !condition) }

    /** The first unsettled read settles. */
    function Fulfill(outcome: Outcome): Stream {
      if |requests| == 0 then Check(false)
      else this.(requests := requests[1..], settled := settled + [Settled(requests[0], outcome)])
    }

    /** CommitPullIntoDescriptor */
    function Commit(want: Want): (r: Stream)
      ensures r.pending == pending
    {
      Check(state != Errored)
      .Check(state == Closed ==> want.filled == [])
      .Check(|want.filled| <= want.byteLength && want.elementSize > 0 && |want.filled| % want.elementSize == 0)
      .Fulfill(Chunk(want, state == Closed))
    }

    /** FillPullIntoDescriptorFromQueue on the head of the pending list. */
    function FillHead(): Stream
      requires pending != [] && pending[0].Valid()
    {
      var want := pending[0];
      var (n, ready) := want.Take(|queued|);
      this.(queued := queued[n..], requestLive := if n > 0 then false else requestLive,
            pending := [want.(filled := want.filled + queued[..n])] + pending[1..])
    }

    function ShiftAndCommit(): Stream
      requires pending != []
    {
      this.(pending := pending[1..], requestLive := false).Commit(pending[0])
    }

    /** ProcessPullIntoDescriptorsUsingQueue, after its assert. */
    function Process(): Stream
      requires AllValid(pending)
      decreases |pending|
    {
      if pending == [] || queued == [] then this
      else if pending[0].Take(|queued|).1 then FillHead().ShiftAndCommit().Process()
      else FillHead()
    }

    /** ReadableByteStreamControllerError */
    function Fail(): Stream {
      if state != Readable then this
      else this.(state := Errored, pending := [], requestLive := false, queued := [],
                 settled := settled + Failures(requests), requests := [])
    }

    // ---- reads -----------------------------------------------------------------------

    /** A read settled as soon as it is made. */
    function Settles(outcome: Outcome): Stream {
      this.(issued := issued + 1, settled := settled + [Settled(issued, outcome)])
    }

    function AddRequest(want: Want): Stream {
      this.(pending := pending + [want], requests := requests + [issued], issued := issued + 1)
    }

    /** read(view), on an attached reader. */
    function PullInto(want: Want): Stream
      requires want.Valid() && want.filled == []
    {
      if state == Errored then Settles(Failed)
      else if |pending| > 0 then AddRequest(want)
      else if state == Closed then Settles(Chunk(want, true))
      else if queued == [] then AddRequest(want)
      else
        var (n, ready) := want.Take(|queued|);
        var taken := want.(filled := queued[..n]);
        var s := this.(queued := queued[n..], requestLive := false);
        if ready then
          s.(state := if |queued| == n && closeRequested then Closed else state)
          .Settles(Chunk(taken, false))
        else if closeRequested then s.Fail().Settles(Failed)
        else s.AddRequest(taken)
    }

    // ---- the source's side -----------------------------------------------------------

    function EnqueueBytes(bytes: seq<Byte>): Stream
      requires AllValid(pending)
    {
      var s := this.(queued := queued + bytes, received := received + bytes);
      if locked then s.Process() else s
    }

    /** respond(bytesWritten), the view then holding `written`. */
    function RespondReadable(bytesWritten: nat, written: seq<Byte>): Stream
      requires AllValid(pending) && pending != []
      requires bytesWritten <= |written| == pending[0].byteLength - |pending[0].filled|
    {
      var want := pending[0].(filled := pending[0].filled + written[..bytesWritten]);
      var s := this.(received := received + written[..bytesWritten], requestLive := false);
      if |want.filled| < want.elementSize then s.(pending := [want] + pending[1..])
      else s.CommitWhole(want).Check(!closeRequested).Process()
    }

    /** The head, as `want`, is committed without its last part element, which goes back to
        the queue. */
    function CommitWhole(want: Want): (r: Stream)
      requires pending != [] && want.elementSize > 0
      ensures r.pending == pending[1..] && r.closeRequested == closeRequested
    {
      var keep := Align.Down(|want.filled|, want.elementSize);
      this.(pending := pending[1..], queued := queued + want.filled[keep..])
      .Commit(want.(filled := want.filled[..keep]))
    }

    /** Every pending read is told that the stream is done. */
    function CommitAll(): Stream
      decreases |pending|
    {
      if requests == [] then this
      else if pending == [] then Check(false)
      else ShiftAndCommit().CommitAll()
    }

    /** RespondInternal; `written` is what the region respond() is about then holds. */
    function RespondInternal(bytesWritten: nat, written: seq<Byte>): (Stream, Reply)
      requires AllValid(pending) && pending != []
      requires state != Closed ==> |written| == pending[0].byteLength - |pending[0].filled|
    {
      if state == Closed then
        if bytesWritten != 0 then (this, Thrown)
        else (Check(pending[0].filled == []).CommitAll(), Returned)
      else if bytesWritten > |written| then (Check(state == Readable), Thrown)
      else (Check(state == Readable).RespondReadable(bytesWritten, written), Returned)
    }

    /** The head descriptor's buffer is replaced, and with it the bytes it already had. */
    function WithBuffer(buffer: seq<Byte>): Stream
      requires pending != [] && pending[0].byteOffset + |pending[0].filled| <= |buffer|
    {
      var want := pending[0];
      this.(pending := [want.(filled := buffer[want.byteOffset..want.byteOffset + |want.filled|])] + pending[1..])
    }

    /** A view of the head's unfilled region, and of the head's whole length. */
    predicate Matches(byteOffset: nat, byteLength: nat)
      requires pending != []
    {
      pending[0].byteOffset + |pending[0].filled| == byteOffset && pending[0].byteLength == byteLength
    }

    function RespondNewView(buffer: seq<Byte>, byteOffset: nat, byteLength: nat): (Stream, Reply)
      requires AllValid(pending) && pending != [] && byteOffset + byteLength <= |buffer|
    {
      if !Matches(byteOffset, byteLength) then (this, Thrown)
      else
        var s := WithBuffer(buffer);
        s.RespondInternal(byteLength, buffer[byteOffset..byteOffset + byteLength - |pending[0].filled|])
    }

    /** close() by the source. */
    function CloseBySource(): (Stream, Reply) {
      if closeRequested || state != Readable then (this, Thrown)
      else if queued != [] then (this.(closeRequested := true), Returned)
      else if pending != [] && pending[0].filled != [] then (Fail(), Thrown)
      else (this.(state := Closed), Returned)
    }

    /** cancel() */
    function CancelByReader(): Stream {
      if state != Readable then this
      else this.(state := Closed, cancelled := true, queued := [],
                 pending := if pending == [] then [] else [pending[0].(filled := [])] + pending[1..])
    }

    /** One step. A call that its object refuses throws; an ill-formed view is no step. */
    function Step(e: Event): (Stream, Reply)
      requires AllValid(pending)
    {
      match e
      case GetReader => if locked then (this, Thrown) else (this.(locked := true), Returned)
      case ReleaseLock =>
        if locked && requests != [] then (this, Thrown) else (this.(locked := false), Returned)
      case Read(byteOffset, byteLength, elementSize) =>
        var want := Want(byteOffset, byteLength, elementSize, []);
        if !locked || !IsView(byteLength, elementSize) then (this, Thrown)
        else (PullInto(want), Promised(issued))
      case Enqueue(bytes) =>
        if closeRequested || state != Readable then (this, Thrown) else (EnqueueBytes(bytes), Returned)
      case GetByobRequest => (this.(requestLive := requestLive || pending != []), Returned)
      case Respond(bytesWritten, written) =>
        if !requestLive then (this, Thrown)
        else if pending == [] then (Check(false), Thrown)
        else if state != Closed && |written| != pending[0].byteLength - |pending[0].filled| then (this, Thrown)
        else RespondInternal(bytesWritten, written)
      case RespondWithNewView(buffer, byteOffset, byteLength) =>
        if !requestLive || byteOffset + byteLength > |buffer| then (this, Thrown)
        else if pending == [] then (Check(false), Thrown)
        else RespondNewView(buffer, byteOffset, byteLength)
      case Close => CloseBySource()
      case Error => (Fail(), Returned)
      case Cancel => (CancelByReader(), Returned)
    }
  }

  function Failures(requests: seq<nat>): seq<Settled> {
    seq(|requests|, i requires 0 <= i < |requests| => Settled(requests[i], Failed))
  }

  const INITIAL := Stream(Readable, false, false, [], [], [], false, false, 0, [], [], false)
}
