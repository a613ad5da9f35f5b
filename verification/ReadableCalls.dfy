/** What each call and settlement does to a readable stream with a default controller, case by case
    over its slots. */
module ReadableCalls {
  import opened SizedQueue
  import opened ReadableModel
  import opened ReadableSafety

  // ---- pulling -----------------------------------------------------------------------------------

  /** Whether the source is to be asked: a read waits, or the sizes queued stay below the high-water
      mark; never before start, nor after a close was requested. */
  ghost predicate WantsPull(s: Stream) {
    s.state == Readable && s.started && !s.closeRequested && (s.requests != [] || Sum(s.queue) < s.hwm)
  }

  /** From `s` to `t` the source was asked exactly if `t` wants it: at once, or once more after the
      pull under way. */
  ghost predicate Asked(s: Stream, t: Stream) {
    if !WantsPull(t) then t.h.pulls == s.h.pulls && t.pulling == s.pulling && t.pullAgain == s.pullAgain
    else if s.pulling then t.h.pulls == s.h.pulls && t.pulling && t.pullAgain
    else t.h.pulls == s.h.pulls + 1 && t.pulling && !t.pullAgain
  }

  lemma AskingIsRight(s: Stream)
    requires Inv(s)
    ensures Asked(s, s.CallPullIfNeeded())
    ensures var t := s.CallPullIfNeeded(); t == s.(pulling := t.pulling, pullAgain := t.pullAgain, h := t.h)
  {
    hide Ordered;
  }

  /** A new stream is readable, free and empty; it waits for start and asks for nothing before. */
  lemma BeginsEmpty(hwm: real)
    ensures var s := Init(hwm);
            && Inv(s) && s.state == Readable && s.hwm == hwm && s.queue == [] && s.requests == [] && s.h.received == []
            && s.h.startPending && !WantsPull(s) && s.h.pulls == 0
            && s.Step(Read).1 == Thrown && s.Step(GetReader).1 == Returned
  {}

  /** When start has fulfilled, the source is asked exactly if the stream wants it. */
  lemma StartAsks(s: Stream)
    requires Inv(s) && s.h.startPending
    ensures var t := s.Step(StartSettled(true)).0;
            t.started && t.state == s.state && t.queue == s.queue && t.requests == s.requests && Asked(s, t)
  {
    var u := s.(started := true, h := s.h.(startPending := false));
    assert Inv(u);
    hide Inv, Stream.CallPullIfNeeded;
    StartIs(s);
    AskingIsRight(u);
  }

  lemma StartIs(s: Stream)
    requires Inv(s) && s.h.startPending
    ensures s.Step(StartSettled(true)).0 == s.(started := true, h := s.h.(startPending := false)).CallPullIfNeeded()
  {
    hide Stream.CallPullIfNeeded, Ordered, Consistent;
  }

  /** A read that takes a chunk gets the first one, and the source is asked exactly if what is left
      wants it; the last chunk of a closing stream closes it. */
  lemma ReadTakes(s: Stream)
    requires Inv(s) && s.locked && s.queue != []
    ensures var (t, reply) := s.Step(Read);
            && reply == Promised(s.h.issued) && t.h.issued == s.h.issued + 1
            && t.h.settled == s.h.settled + [Settled(s.h.issued, Value(s.queue[0].value))] && t.queue == s.queue[1..]
            && t.requests == s.requests && t.closeRequested == s.closeRequested
            && t.state == (if s.closeRequested && |s.queue| == 1 then Closed else Readable)
            && Asked(s, t)
  {
    var u := s.Dequeued();
    DequeueKeepsTotal(s.queue, s.total);
    DequeuedKeeps(s);
    hide Stream.CallPullIfNeeded, Stream.Dequeued, TotalAfterDequeue, Consistent, Ordered;
    if !(s.closeRequested && u.queue == []) { AskingIsRight(u); }
    assert All([], End) == [];
  }

  lemma DequeuedKeeps(s: Stream)
    requires Inv(s) && s.locked && s.queue != [] && s.state == Readable
    ensures var u := s.Dequeued();
            && ((s.closeRequested && u.queue == []) || Inv(u)) && s.requests == []
            && u == s.(queue := s.queue[1..], total := u.total,
                       h := s.h.(settled := s.h.settled + [Settled(s.h.issued, Value(s.queue[0].value))],
                                 issued := s.h.issued + 1))
  {
    DequeueKeepsTotal(s.queue, s.total);
    SettlingKeepsOrder(s.h.settled, s.h.issued, Value(s.queue[0].value));
    hide Ordered, Consistent, TotalAfterDequeue;
  }

  /** A read that finds nothing on a readable stream waits, and the source is asked if it has started. */
  lemma ReadWaits(s: Stream)
    requires Inv(s) && s.locked && s.queue == [] && s.state == Readable
    ensures var (t, reply) := s.Step(Read);
            && reply == Promised(s.h.issued) && t.h.issued == s.h.issued + 1
            && t.requests == s.requests + [s.h.issued] && t.queue == [] && t.state == Readable
            && t.h.settled == s.h.settled && Asked(s, t)
  {
    var u := s.(requests := s.requests + [s.h.issued], h := s.h.(issued := s.h.issued + 1));
    assert Inv(u);
    hide Stream.CallPullIfNeeded, Ordered, Consistent;
    AskingIsRight(u);
  }

  /** On a closed stream a read is at its end, on an errored one it fails; without a reader it throws. */
  lemma ReadEnds(s: Stream)
    requires !s.locked || s.state != Readable
    ensures s.Step(Read) ==
            if !s.locked then (s, Thrown)
            else
              var outcome := if s.state == Closed then End else Failed;
              (s.(h := s.h.(settled := s.h.settled + [Settled(s.h.issued, outcome)], issued := s.h.issued + 1)),
               Promised(s.h.issued))
  {}

  // ---- the source --------------------------------------------------------------------------------

  /** A chunk is accepted while the stream is readable and no close was requested: by the first read
      that waits, or, with a proper size, by the end of the queue. Then the source is asked exactly if
      the stream still wants it. */
  lemma EnqueueAsks(s: Stream, chunk: Chunk, n: real)
    requires Inv(s) && s.state == Readable && !s.closeRequested && n >= 0.0
    ensures var (t, reply) := s.Step(Enqueue(chunk, Given(Number(n))));
            && reply == Returned && t.state == Readable && t.h.received == s.h.received + [chunk]
            && (if s.requests != [] then
                  && t.requests == s.requests[1..] && t.queue == []
                  && t.h.settled == s.h.settled + [Settled(s.requests[0], Value(chunk))]
                else t.queue == s.queue + [Entry(chunk, n)] && t.requests == [] && t.h.settled == s.h.settled)
            && Asked(s, t)
  {
    if s.requests != [] {
      EnqueueToReader(s, chunk);
      var t := s.(requests := s.requests[1..],
                  h := s.h.Settles(s.requests[0], Value(chunk)).(received := s.h.received + [chunk]));
      hide Stream.CallPullIfNeeded, Ordered, Consistent, Flows;
      AskingIsRight(t);
    } else {
      EnqueueToQueue(s, chunk, n);
      var received := s.h.(received := s.h.received + [chunk]);
      var t := s.(queue := s.queue + [Entry(chunk, n)], total := s.total + n, h := received);
      hide Stream.CallPullIfNeeded, Ordered, Consistent, Flows;
      AskingIsRight(t);
    }
  }

  /** A chunk whose size cannot be had errors the stream, unless a read waits for it; the call throws. */
  lemma BadSizeErrors(s: Stream, chunk: Chunk, size: SizeResult)
    requires Inv(s) && s.state == Readable && !s.closeRequested && s.requests == []
    requires size == Throws || !IsFiniteNonNegative(size.size)
    ensures s.Step(Enqueue(chunk, size)) == (AllFail(s), Thrown)
  {
    hide Ordered, Consistent;
  }

  lemma EnqueueIsRefused(s: Stream, chunk: Chunk, size: SizeResult)
    requires s.state != Readable || s.closeRequested
    ensures s.Step(Enqueue(chunk, size)) == (s, Thrown)
  {}

  /** The stream errored: nothing is queued and every waiting read fails. */
  function AllFail(s: Stream): Stream {
    s.(state := Errored, queue := [], total := 0.0, requests := [],
       h := s.h.(settled := s.h.settled + All(s.requests, Failed)))
  }

  /** The stream closed: every waiting read is at its end. */
  function AllEnd(s: Stream): Stream {
    s.(state := Closed, requests := [], h := s.h.(settled := s.h.settled + All(s.requests, End)))
  }

  /** close() closes an empty stream at once and lets a full one run out first; it throws on a stream
      that is not readable or has been told before. */
  lemma CloseDoes(s: Stream)
    ensures s.Step(Close) ==
            if s.state != Readable || s.closeRequested then (s, Thrown)
            else if s.queue == [] then (AllEnd(s.(closeRequested := true)), Returned)
            else (s.(closeRequested := true), Returned)
  {}

  /** error() errors a readable stream, cancel() closes it and throws its chunks away; neither touches
      another. A pull or a start that fails errors it too. */
  lemma ErrorDoes(s: Stream)
    ensures s.Step(Error) == (if s.state == Readable then AllFail(s) else s, Returned)
    ensures s.Step(Cancel) ==
            var ended := AllEnd(s);
            (if s.state == Readable then ended.(queue := [], total := 0.0, h := ended.h.(cancelled := true)) else s,
             Returned)
  {}

  lemma FailedCallErrors(s: Stream)
    requires s.state == Readable
    ensures s.h.startPending ==> s.Step(StartSettled(false)).0 == AllFail(s.(h := s.h.(startPending := false)))
    ensures s.h.unsettledPulls > 0 ==>
              s.Step(PullSettled(false)).0 == AllFail(s.(h := s.h.(unsettledPulls := s.h.unsettledPulls - 1)))
  {}

  /** A pull that fulfils is over; the one remembered follows exactly if the stream wants it. */
  lemma PullEndsOrGoesOn(s: Stream)
    requires Inv(s) && s.h.unsettledPulls > 0
    ensures var t := s.Step(PullSettled(true)).0;
            && t.state == s.state && t.queue == s.queue && t.requests == s.requests && !t.pullAgain
            && (if s.pullAgain && WantsPull(t) then t.pulling && t.h.pulls == s.h.pulls + 1
                else !t.pulling && t.h.pulls == s.h.pulls)
  {
    var u := s.(pulling := false, pullAgain := false, h := s.h.(unsettledPulls := s.h.unsettledPulls - 1));
    assert Inv(u);
    hide Stream.CallPullIfNeeded, Ordered, Consistent;
    if s.pullAgain { AskingIsRight(u); }
  }

  /** A demand seen during a pull is not forgotten: whatever happens before the pull fulfils, there is
      another pull then exactly if the stream still wants one. */
  lemma DemandIsAnswered(s: Stream, events: seq<Event>)
    requires Inv(s) && s.pullAgain && s.h.unsettledPulls == 1
    requires forall i :: 0 <= i < |events| ==> !events[i].PullSettled?
    ensures var t := From(s, events);
            var u := t.Step(PullSettled(true)).0;
            t.pullAgain && (WantsPull(u) <==> u.pulling) && u.h.pulls == t.h.pulls + if WantsPull(u) then 1 else 0
  {
    DemandIsRemembered(s, events);
    FromKeeps(s, events);
    PullEndsOrGoesOn(From(s, events));
  }

  lemma {:induction false} FromKeeps(s: Stream, events: seq<Event>)
    requires Inv(s)
    ensures Inv(From(s, events))
    decreases |events|
  {
    if events != [] {
      StepKeeps(s, events[0]);
      FromKeeps(s.Step(events[0]).0, events[1..]);
    }
  }

  // ---- the reader --------------------------------------------------------------------------------

  lemma LockDoes(s: Stream)
    ensures s.Step(GetReader) == if s.locked then (s, Thrown) else (s.(locked := true), Returned)
    ensures s.Step(ReleaseLock) == if s.locked && s.requests != [] then (s, Thrown) else (s.(locked := false), Returned)
  {}
}
