/** What every run of a readable stream with a default controller keeps. */
module ReadableSafety {
  import opened SizedQueue
  import opened ReadableModel

  // ---- what has been delivered -----------------------------------------------------------

  function OutcomeChunks(o: Outcome): seq<Chunk> { if o.Value? then [o.chunk] else [] }

  /** The chunks of the settled reads, in order. */
  function Delivered(settled: seq<Settled>): seq<Chunk> {
    if settled == [] then [] else Delivered(settled[..|settled| - 1]) + OutcomeChunks(settled[|settled| - 1].outcome)
  }

  function Values(queue: seq<Entry<Chunk>>): (vs: seq<Chunk>)
    ensures |vs| == |queue| && forall i :: 0 <= i < |vs| ==> vs[i] == queue[i].value
  {
    seq(|queue|, i requires 0 <= i < |queue| => queue[i].value)
  }

  /** Delivered, then queued: every chunk accepted, once, in order. */
  ghost predicate Conserved(settled: seq<Settled>, queue: seq<Entry<Chunk>>, received: seq<Chunk>) {
    received == Delivered(settled) + Values(queue)
  }

  lemma DeliveredAppend(settled: seq<Settled>, x: Settled)
    ensures Delivered(settled + [x]) == Delivered(settled) + OutcomeChunks(x.outcome)
  {
    assert (settled + [x])[..|settled|] == settled;
  }

  lemma {:induction false} AllDeliverNothing(settled: seq<Settled>, requests: seq<nat>, outcome: Outcome)
    requires !outcome.Value?
    ensures Delivered(settled + All(requests, outcome)) == Delivered(settled)
  {
    hide Delivered;
    if requests == [] {
      assert settled + All(requests, outcome) == settled;
    } else {
      var n := |requests| - 1;
      var before := settled + All(requests[..n], outcome);
      AllDeliverNothing(settled, requests[..n], outcome);
      DeliveredAppend(before, Settled(requests[n], outcome));
      assert All(requests, outcome) == All(requests[..n], outcome) + [Settled(requests[n], outcome)];
      assert settled + All(requests, outcome) == before + [Settled(requests[n], outcome)];
    }
  }

  // ---- the invariant -----------------------------------------------------------------------

  /** Reads settle in the order they were made, each once. */
  ghost predicate Ordered(settled: seq<Settled>, requests: seq<nat>, issued: nat) {
    && issued == |settled| + |requests|
    && (forall i :: 0 <= i < |settled| ==> settled[i].n == i)
    && (forall i :: 0 <= i < |requests| ==> requests[i] == |settled| + i)
  }

  /** Reads wait only for an empty queue; a close waits only for a full one. */
  ghost predicate Shape(s: Stream) {
    && (s.state != Readable ==> s.queue == [] && s.requests == [])
    && (s.requests != [] ==> s.queue == [] && s.locked)
    && (s.closeRequested && s.state == Readable ==> s.queue != [])
    && Consistent(s.queue, s.total)
  }

  /** At most one pull is unsettled; it is one while the stream goes on. */
  ghost predicate Pulls(s: Stream) {
    && s.h.unsettledPulls <= 1
    && (s.h.unsettledPulls == 1 ==> s.pulling)
    && (s.pulling && s.h.unsettledPulls == 0 ==> s.state != Readable)
    && (s.pullAgain ==> s.pulling)
    && (s.started ==> !s.h.startPending)
    && (!s.started ==> !s.pulling)
  }

  ghost predicate Inv(s: Stream) {
    && !s.h.faulted && Ordered(s.h.settled, s.requests, s.h.issued) && Shape(s) && Pulls(s)
    && (s.h.cancelled ==> s.state == Closed)
  }

  /** Whether conservation is due: until an error or a cancel throws chunks away. */
  predicate Due(s: Stream) { s.state == Readable || (s.state == Closed && !s.h.cancelled) }

  ghost predicate Flows(s: Stream) { Conserved(s.h.settled, s.queue, s.h.received) }

  // ---- settlements -------------------------------------------------------------------------

  lemma SettlingKeepsOrder(settled: seq<Settled>, issued: nat, outcome: Outcome)
    requires Ordered(settled, [], issued)
    ensures Ordered(settled + [Settled(issued, outcome)], [], issued + 1)
  {}

  lemma FirstSettles(settled: seq<Settled>, requests: seq<nat>, issued: nat, outcome: Outcome)
    requires Ordered(settled, requests, issued) && requests != []
    ensures Ordered(settled + [Settled(requests[0], outcome)], requests[1..], issued)
  {}

  lemma AllSettle(settled: seq<Settled>, requests: seq<nat>, issued: nat, outcome: Outcome)
    requires Ordered(settled, requests, issued)
    ensures Ordered(settled + All(requests, outcome), [], issued)
  {}

  // ---- operations --------------------------------------------------------------------------

  lemma PullKeeps(s: Stream)
    requires Inv(s)
    ensures Inv(s.CallPullIfNeeded())
  {}

  lemma FailKeeps(s: Stream)
    requires Inv(s)
    ensures Inv(s.Fail()) && (Due(s.Fail()) ==> s.Fail() == s)
  {
    AllSettle(s.h.settled, s.requests, s.h.issued, Failed);
  }

  lemma FinishKeeps(s: Stream)
    requires !s.h.faulted && Ordered(s.h.settled, s.requests, s.h.issued) && Pulls(s) && !s.h.cancelled
    requires s.state == Readable && s.queue == [] && Consistent(s.queue, s.total)
    ensures Inv(s.Finish()) && (Flows(s) ==> Flows(s.Finish()))
  {
    AllSettle(s.h.settled, s.requests, s.h.issued, End);
    AllDeliverNothing(s.h.settled, s.requests, End);
  }

  lemma DequeueKeeps(s: Stream)
    requires Inv(s) && s.locked && s.queue != [] && s.state == Readable
    ensures Inv(s.PullSteps())
    ensures Flows(s) ==> Flows(s.PullSteps())
    ensures var t := s.PullSteps();
            && t.h.settled == s.h.settled + [Settled(s.h.issued, Value(s.queue[0].value))] && t.queue == s.queue[1..]
            && t.state == if s.closeRequested && |s.queue| == 1 then Closed else Readable
  {
    var t := s.Dequeued();
    DequeueKeepsTotal(s.queue, s.total);
    SettlingKeepsOrder(s.h.settled, s.h.issued, Value(s.queue[0].value));
    ChunkMoves(s);
    hide Ordered, Consistent, TotalAfterDequeue, Flows;
    if s.closeRequested && t.queue == [] {
      FinishKeeps(t);
    } else {
      PullKeeps(t);
      PullFlows(t);
    }
  }

  /** A chunk that leaves the queue for a read keeps its place. */
  lemma ChunkMoves(s: Stream)
    requires s.queue != []
    ensures Flows(s) ==> Flows(s.Dequeued())
  {
    var chunk := s.queue[0].value;
    DeliveredAppend(s.h.settled, Settled(s.h.issued, Value(chunk)));
    FirstValue(s.queue);
    hide Delivered, Values;
    Regroup(Delivered(s.h.settled), [chunk], Values(s.queue[1..]));
  }

  lemma FirstValue(queue: seq<Entry<Chunk>>)
    requires queue != []
    ensures Values(queue) == [queue[0].value] + Values(queue[1..])
  {}

  lemma Regroup(a: seq<Chunk>, b: seq<Chunk>, c: seq<Chunk>)
    ensures a + b + c == a + (b + c)
  {}

  lemma PullFlows(s: Stream)
    ensures Flows(s.CallPullIfNeeded()) <==> Flows(s)
  {}

  lemma WaitKeeps(s: Stream)
    requires Inv(s) && s.locked && s.queue == [] && s.state == Readable
    ensures Inv(s.PullSteps())
    ensures Flows(s) ==> Flows(s.PullSteps())
  {}

  lemma ReadKeeps(s: Stream)
    requires Inv(s) && s.locked
    ensures Inv(s.ReadNow())
    ensures Flows(s) ==> Flows(s.ReadNow())
  {
    hide Stream.PullSteps, Ordered, Consistent, Delivered;
    if s.state == Readable {
      if s.queue != [] { DequeueKeeps(s); } else { WaitKeeps(s); }
    } else {
      var outcome := if s.state == Closed then End else Failed;
      SettlingKeepsOrder(s.h.settled, s.h.issued, outcome);
      DeliveredAppend(s.h.settled, Settled(s.h.issued, outcome));
      assert Delivered(s.h.settled) + [] == Delivered(s.h.settled);
    }
  }

  lemma EnqueueToReader(s: Stream, chunk: Chunk)
    requires Inv(s) && s.CanCloseOrEnqueue() && s.locked && s.requests != []
    ensures var t := s.(requests := s.requests[1..],
                        h := s.h.Settles(s.requests[0], Value(chunk)).(received := s.h.received + [chunk]));
            Inv(t) && (Flows(s) ==> Flows(t))
  {
    FirstSettles(s.h.settled, s.requests, s.h.issued, Value(chunk));
    DeliveredAppend(s.h.settled, Settled(s.requests[0], Value(chunk)));
    hide Ordered, Consistent, Delivered;
    assert Values([]) == [];
    assert Delivered(s.h.settled) + [] == Delivered(s.h.settled);
    assert Delivered(s.h.settled) + [chunk] + [] == Delivered(s.h.settled) + [chunk];
  }

  lemma EnqueueToQueue(s: Stream, chunk: Chunk, size: real)
    requires Inv(s) && s.CanCloseOrEnqueue() && s.requests == [] && size >= 0.0
    ensures var t := s.(queue := s.queue + [Entry(chunk, size)], total := s.total + size,
                        h := s.h.(received := s.h.received + [chunk]));
            Inv(t) && (Flows(s) ==> Flows(t))
  {
    EnqueueKeepsTotal(s.queue, s.total, Entry(chunk, size));
    hide Ordered, Consistent, Delivered;
    assert Values(s.queue + [Entry(chunk, size)]) == Values(s.queue) + [chunk];
    assert Delivered(s.h.settled) + (Values(s.queue) + [chunk]) == Delivered(s.h.settled) + Values(s.queue) + [chunk];
  }

  /** Where a chunk goes. */
  lemma EnqueueGoes(s: Stream, chunk: Chunk, size: SizeResult)
    requires Inv(s) && s.CanCloseOrEnqueue()
    ensures EnqueueResult(s, chunk, size, s.EnqueueChunk(chunk, size).0, s.EnqueueChunk(chunk, size).1)
  {
    hide Ordered, Consistent, Stream.ShouldCallPull;
  }

  predicate EnqueueResult(s: Stream, chunk: Chunk, size: SizeResult, t: Stream, reply: Reply) {
    if s.requests != [] then
      && reply == Returned && t.state == Readable && t.queue == [] && t.requests == s.requests[1..]
      && t.h.settled == s.h.settled + [Settled(s.requests[0], Value(chunk))]
    else if size.Given? && IsFiniteNonNegative(size.size) then
      && reply == Returned && t.state == Readable && t.h.settled == s.h.settled
      && t.queue == s.queue + [Entry(chunk, size.size.n)]
    else reply == Thrown && t.state == Errored && t.queue == [] && t.h.received == s.h.received
  }

  lemma EnqueueKeeps(s: Stream, chunk: Chunk, size: SizeResult)
    requires Inv(s) && s.CanCloseOrEnqueue()
    ensures Inv(s.EnqueueChunk(chunk, size).0)
    ensures Flows(s) && Due(s.EnqueueChunk(chunk, size).0) ==> Flows(s.EnqueueChunk(chunk, size).0)
    ensures EnqueueResult(s, chunk, size, s.EnqueueChunk(chunk, size).0, s.EnqueueChunk(chunk, size).1)
  {
    EnqueueGoes(s, chunk, size);
    hide EnqueueResult;
    if s.locked && s.requests != [] {
      EnqueueToReader(s, chunk);
      var t := s.(requests := s.requests[1..],
                  h := s.h.Settles(s.requests[0], Value(chunk)).(received := s.h.received + [chunk]));
      hide Inv, Flows, Stream.CallPullIfNeeded;
      PullKeeps(t);
      PullFlows(t);
    } else if size == Throws || !IsFiniteNonNegative(size.size) {
      FailKeeps(s);
    } else {
      var n := size.size.n;
      EnqueueToQueue(s, chunk, n);
      var t := s.(queue := s.queue + [Entry(chunk, n)], total := s.total + n,
                  h := s.h.(received := s.h.received + [chunk]));
      hide Inv, Flows, Stream.CallPullIfNeeded;
      PullKeeps(t);
      PullFlows(t);
    }
  }

  lemma CloseKeeps(s: Stream)
    requires Inv(s) && s.CanCloseOrEnqueue()
    ensures Inv(s.CloseBySource())
    ensures Flows(s) ==> Flows(s.CloseBySource())
  {
    AllSettle(s.h.settled, s.requests, s.h.issued, End);
    AllDeliverNothing(s.h.settled, s.requests, End);
  }

  lemma CancelKeeps(s: Stream)
    requires Inv(s)
    ensures Inv(s.CancelByReader())
    ensures s.state == Readable ==> !Due(s.CancelByReader())
  {
    AllSettle(s.h.settled, s.requests, s.h.issued, End);
  }

  lemma StartKeeps(s: Stream, ok: bool)
    requires Inv(s) && s.h.startPending
    ensures Inv(s.StartSettles(ok))
    ensures Flows(s) && Due(s.StartSettles(ok)) ==> Flows(s.StartSettles(ok))
  {
    FailKeeps(s.(h := s.h.(startPending := false)));
  }

  lemma PullSettledKeeps(s: Stream, ok: bool)
    requires Inv(s) && s.h.unsettledPulls > 0
    ensures Inv(s.PullSettles(ok))
    ensures Flows(s) && Due(s.PullSettles(ok)) ==> Flows(s.PullSettles(ok))
  {
    AllSettle(s.h.settled, s.requests, s.h.issued, Failed);
  }

  lemma StepKeeps(s: Stream, e: Event)
    requires Inv(s)
    ensures Inv(s.Step(e).0)
    ensures (Due(s) ==> Flows(s)) ==> (Due(s.Step(e).0) ==> Flows(s.Step(e).0))
  {
    hide Ordered, Consistent, Conserved, Delivered;
    match e
    case Read => if s.locked { ReadKeeps(s); }
    case Enqueue(chunk, size) => if s.CanCloseOrEnqueue() { EnqueueKeeps(s, chunk, size); }
    case Close => if s.CanCloseOrEnqueue() { CloseKeeps(s); }
    case Error => FailKeeps(s);
    case Cancel => CancelKeeps(s);
    case StartSettled(ok) => if s.h.startPending { StartKeeps(s, ok); }
    case PullSettled(ok) => if s.h.unsettledPulls > 0 { PullSettledKeeps(s, ok); }
    case _ =>
  }

  lemma InitKeeps(hwm: real)
    ensures Inv(Init(hwm)) && Flows(Init(hwm))
  {}

  lemma {:induction false} RunKeeps(hwm: real, events: seq<Event>)
    ensures Inv(Run(hwm, events)) && (Due(Run(hwm, events)) ==> Flows(Run(hwm, events)))
  {
    InitKeeps(hwm);
    if events != [] {
      RunKeeps(hwm, events[..|events| - 1]);
      StepKeeps(Run(hwm, events[..|events| - 1]), events[|events| - 1]);
    }
  }

  // ---- what the readers get ----------------------------------------------------------------------

  /** Until an error or a cancel, the chunks of the fulfilled reads, in the order of the reads, then
      those in the queue, are all the chunks accepted, in order. */
  lemma ChunksAreConserved(hwm: real, events: seq<Event>)
    ensures var s := Run(hwm, events);
            Due(s) ==> s.h.received == Delivered(s.h.settled) + Values(s.queue)
  {
    RunKeeps(hwm, events);
  }

  /** No read settles, or all the waiting ones do as the stream ends. */
  predicate Ends(s: Stream, t: Stream) {
    && t.h.received == s.h.received
    && (|| (t.state == s.state && t.h.settled == s.h.settled)
        || (s.state == Readable && t.state == Closed && t.h.settled == s.h.settled + All(s.requests, End))
        || (s.state == Readable && t.state == Errored && t.h.settled == s.h.settled + All(s.requests, Failed)))
  }

  lemma PullEnds(s: Stream)
    ensures var t := s.CallPullIfNeeded();
            t.h.settled == s.h.settled && t.h.received == s.h.received && t.state == s.state
  {
    hide Stream.ShouldCallPull;
  }

  lemma CloseEnds(s: Stream)
    ensures s.state == Readable ==> Ends(s, s.CloseBySource())
    ensures Ends(s, s.CancelByReader()) && Ends(s, s.Fail())
  {}

  lemma StartEnds(s: Stream, ok: bool)
    ensures Ends(s, s.StartSettles(ok))
  {
    hide Stream.CallPullIfNeeded;
    PullEnds(s.(started := true, h := s.h.(startPending := false).Check(!s.pulling).Check(!s.pullAgain)));
  }

  lemma PullSettledEnds(s: Stream, ok: bool)
    ensures Ends(s, s.PullSettles(ok))
  {
    hide Stream.CallPullIfNeeded;
    var n := if s.h.unsettledPulls == 0 then 0 else s.h.unsettledPulls - 1;
    PullEnds(s.(pulling := false, pullAgain := false, h := s.h.(unsettledPulls := n)));
  }

  /** Only a read or an enqueue can give a read its chunk. */
  lemma OtherStepEnds(s: Stream, e: Event)
    requires !e.Read? && !e.Enqueue?
    ensures Ends(s, s.Step(e).0)
  {
    CloseEnds(s);
    assert Ends(s, s) && forall locked :: Ends(s, s.(locked := locked));
    hide Ends, Stream.CloseBySource, Stream.CancelByReader, Stream.Fail, Stream.StartSettles, Stream.PullSettles;
    match e
    case StartSettled(ok) => StartEnds(s, ok);
    case PullSettled(ok) => PullSettledEnds(s, ok);
    case _ =>
  }

  /** A step into, or within, the states that have thrown chunks away delivers nothing. */
  lemma LossDeliversNothing(s: Stream, e: Event)
    requires Inv(s) && !Due(s.Step(e).0)
    ensures var t := s.Step(e).0; Delivered(t.h.settled) == Delivered(s.h.settled) && t.h.received == s.h.received
  {
    AllDeliverNothing(s.h.settled, s.requests, End);
    AllDeliverNothing(s.h.settled, s.requests, Failed);
    hide Delivered;
    match e
    case Read => if s.locked { LosingRead(s); }
    case Enqueue(chunk, size) => if s.CanCloseOrEnqueue() { EnqueueKeeps(s, chunk, size); }
    case _ =>
      hide Stream.Step;
      OtherStepEnds(s, e);
  }

  lemma LosingRead(s: Stream)
    requires Inv(s) && !Due(s.ReadNow())
    ensures var t := s.ReadNow(); Delivered(t.h.settled) == Delivered(s.h.settled) && t.h.received == s.h.received
  {
    hide Ordered, Consistent, Delivered;
    if s.state != Readable {
      var outcome := if s.state == Closed then End else Failed;
      DeliveredAppend(s.h.settled, Settled(s.h.issued, outcome));
      assert Delivered(s.h.settled) + [] == Delivered(s.h.settled);
    }
  }

  /** Whatever happens, the chunks of the fulfilled reads are the first chunks accepted. */
  lemma {:induction false} DeliveredIsAPrefix(hwm: real, events: seq<Event>)
    ensures Delivered(Run(hwm, events).h.settled) <= Run(hwm, events).h.received
  {
    ChunksAreConserved(hwm, events);
    if events != [] && !Due(Run(hwm, events)) {
      var before := events[..|events| - 1];
      DeliveredIsAPrefix(hwm, before);
      RunKeeps(hwm, before);
      LossDeliversNothing(Run(hwm, before), events[|events| - 1]);
    }
  }

  /** Values first; then, for the reads that get none, the end if the stream has closed and a failure
      if it has errored. */
  ghost predicate EndsAs(settled: seq<Settled>, state: Phase) {
    && (forall i :: 0 <= i < |settled| && !settled[i].outcome.Value? ==>
          (state == Closed && settled[i].outcome == End) || (state == Errored && settled[i].outcome == Failed))
    && (forall i, j :: 0 <= i < j < |settled| && settled[j].outcome.Value? ==> settled[i].outcome.Value?)
  }

  lemma ValuesEndAs(settled: seq<Settled>, n: nat, chunk: Chunk)
    requires EndsAs(settled, Readable)
    ensures EndsAs(settled + [Settled(n, Value(chunk))], Readable)
  {}

  /** The waiting reads all end alike. */
  lemma AllEndAs(settled: seq<Settled>, requests: seq<nat>)
    requires EndsAs(settled, Readable)
    ensures EndsAs(settled + All(requests, End), Closed) && EndsAs(settled + All(requests, Failed), Errored)
    ensures EndsAs(settled, Closed)
  {}

  lemma LateReadEndsAs(settled: seq<Settled>, n: nat)
    ensures EndsAs(settled, Closed) ==> EndsAs(settled + [Settled(n, End)], Closed)
    ensures EndsAs(settled, Errored) ==> EndsAs(settled + [Settled(n, Failed)], Errored)
  {}

  lemma ReadEndsAs(s: Stream)
    requires Inv(s) && EndsAs(s.h.settled, s.state)
    ensures EndsAs(s.ReadNow().h.settled, s.ReadNow().state)
  {
    hide EndsAs, Ordered, Consistent;
    LateReadEndsAs(s.h.settled, s.h.issued);
    if s.state == Readable && s.queue != [] {
      var settled := s.h.settled + [Settled(s.h.issued, Value(s.queue[0].value))];
      ValuesEndAs(s.h.settled, s.h.issued, s.queue[0].value);
      AllEndAs(settled, []);
      assert settled + All([], End) == settled;
    }
  }

  lemma EnqueueEndsAs(s: Stream, chunk: Chunk, size: SizeResult)
    requires Inv(s) && EndsAs(s.h.settled, s.state) && s.CanCloseOrEnqueue()
    ensures EndsAs(s.EnqueueChunk(chunk, size).0.h.settled, s.EnqueueChunk(chunk, size).0.state)
  {
    hide EndsAs, Ordered, Consistent;
    AllEndAs(s.h.settled, s.requests);
    if s.requests != [] { ValuesEndAs(s.h.settled, s.requests[0], chunk); }
  }

  lemma StepEndsAs(s: Stream, e: Event)
    requires Inv(s) && EndsAs(s.h.settled, s.state)
    ensures EndsAs(s.Step(e).0.h.settled, s.Step(e).0.state)
  {
    hide EndsAs, Inv, Stream.ReadNow, Stream.EnqueueChunk;
    match e
    case Read => if s.locked { ReadEndsAs(s); }
    case Enqueue(chunk, size) => if s.CanCloseOrEnqueue() { EnqueueEndsAs(s, chunk, size); }
    case _ =>
      hide Stream.Step;
      OtherStepEnds(s, e);
      if s.state == Readable { AllEndAs(s.h.settled, s.requests); }
  }

  lemma {:induction false} RunEndsAs(hwm: real, events: seq<Event>)
    ensures EndsAs(Run(hwm, events).h.settled, Run(hwm, events).state)
  {
    if events != [] {
      var before := events[..|events| - 1];
      RunEndsAs(hwm, before);
      RunKeeps(hwm, before);
      hide EndsAs, Inv, Stream.Step;
      StepEndsAs(Run(hwm, before), events[|events| - 1]);
    }
  }

  /** Reads settle in the order they were made, each at most once. While the stream is readable every
      settled read has a value. When it has closed or errored no read is left; those that got no value
      come last, and all end with the end of a closed stream, or all with the failure of an errored
      one. */
  lemma ReadsSettleOnce(hwm: real, events: seq<Event>)
    ensures var s := Run(hwm, events);
            && (forall i :: 0 <= i < |s.h.settled| ==> s.h.settled[i].n == i)
            && s.h.issued == |s.h.settled| + |s.requests|
            && (s.state != Readable ==> |s.h.settled| == s.h.issued)
            && EndsAs(s.h.settled, s.state)
  {
    RunKeeps(hwm, events);
    RunEndsAs(hwm, events);
  }

  /** No assert of the source fails; a read waits only while the queue is empty, and a close only
      while it is not; the total is the sum of the sizes. */
  lemma StreamStaysCoherent(hwm: real, events: seq<Event>)
    ensures var s := Run(hwm, events);
            && !s.h.faulted
            && (s.requests != [] ==> s.queue == [] && s.state == Readable)
            && (s.closeRequested && s.state == Readable ==> s.queue != [])
            && s.total == Sum(s.queue)
  {
    RunKeeps(hwm, events);
  }

  // ---- the pull protocol ---------------------------------------------------------------------------

  /** At most one pull is outstanding, and another is remembered only during one. */
  lemma OnePullAtATime(hwm: real, events: seq<Event>)
    ensures var s := Run(hwm, events);
            && s.h.unsettledPulls <= 1
            && (s.state == Readable ==> (s.pulling <==> s.h.unsettledPulls == 1))
            && (s.pullAgain ==> s.pulling)
  {
    RunKeeps(hwm, events);
  }

  /** A read that has to wait asks for more: it starts a pull, or has one more made after the one
      under way. */
  lemma WaitingReadAsks(s: Stream)
    requires Inv(s) && s.state == Readable && s.locked && s.started && s.queue == []
    ensures var t := s.Step(Event.Read).0;
            t.pulling && (if s.pulling then t.pullAgain else t.h.pulls == s.h.pulls + 1)
  {}

  function From(s: Stream, events: seq<Event>): Stream
    decreases |events|
  {
    if events == [] then s else From(s.Step(events[0]).0, events[1..])
  }

  /** A demand seen during a pull is not forgotten before the pull fulfils. */
  lemma {:induction false} DemandIsRemembered(s: Stream, events: seq<Event>)
    requires Inv(s) && s.pullAgain && s.h.unsettledPulls == 1
    requires forall i :: 0 <= i < |events| ==> !events[i].PullSettled?
    ensures From(s, events).pullAgain && From(s, events).h.unsettledPulls == 1
    decreases |events|
  {
    if events != [] {
      StepKeeps(s, events[0]);
      StaysPulling(s, events[0]);
      hide Inv;
      forall i | 0 <= i < |events| - 1 ensures !events[1..][i].PullSettled? { assert events[1..][i] == events[i + 1]; }
      DemandIsRemembered(s.Step(events[0]).0, events[1..]);
    }
  }

  lemma StaysPulling(s: Stream, e: Event)
    requires Inv(s) && s.pullAgain && s.h.unsettledPulls == 1 && !e.PullSettled?
    ensures var t := s.Step(e).0; t.pullAgain && t.h.unsettledPulls == 1
  {
    hide Ordered, Consistent;
  }
}
