/** The invariant of the BYOB path and byte conservation over its runs. */
module ByteSafety {
  import Align
  import opened ByteModel

  // ---- what has been delivered -------------------------------------------------------

  function OutcomeBytes(o: Outcome): seq<Byte> {
    if o.Chunk? then o.view.filled else []
  }

  /** All bytes delivered by the settled reads, in order. */
  function Delivered(settled: seq<Settled>): seq<Byte> {
    if settled == [] then [] else
      Delivered(settled[..|settled| - 1]) + OutcomeBytes(settled[|settled| - 1].outcome)
  }

  function HeadBytes(pending: seq<Want>): seq<Byte> {
    if pending == [] then [] else pending[0].filled
  }

  function Flow(s: Stream): seq<Byte> {
    Delivered(s.settled) + HeadBytes(s.pending) + s.queued
  }

  /** Delivered, then in the head descriptor, then queued: every byte received, once, in order. */
  ghost predicate Conserved(s: Stream) {
    Flow(s) == s.received
  }

  lemma DeliveredAppend(settled: seq<Settled>, x: Settled)
    ensures Delivered(settled + [x]) == Delivered(settled) + OutcomeBytes(x.outcome)
  {
    assert (settled + [x])[..|settled|] == settled;
  }

  // ---- the invariant -----------------------------------------------------------------

  /** A delivered chunk is whole elements that fit the view: none exactly when done. */
  ghost predicate GoodOutcome(o: Outcome) {
    o.Chunk? ==>
      && o.view.Valid() && |o.view.filled| % o.view.elementSize == 0
      && (o.done <==> o.view.filled == [])
  }

  /** Reads settle in the order they were made, each once; the unsettled ones are the
      requests. */
  ghost predicate Ordered(settled: seq<Settled>, requests: seq<nat>, issued: nat) {
    && issued == |settled| + |requests|
    && (forall i :: 0 <= i < |settled| ==> settled[i].n == i && GoodOutcome(settled[i].outcome))
    && (forall i :: 0 <= i < |requests| ==> requests[i] == |settled| + i)
  }

  /** All but the head are untouched, and the head has less than one element. */
  ghost predicate Unfilled(pending: seq<Want>) {
    && AllValid(pending)
    && (pending != [] ==> |pending[0].filled| < pending[0].elementSize)
    && (forall i :: 0 < i < |pending| ==> pending[i].filled == [])
  }

  ghost predicate Core(s: Stream) {
    && !s.faulted && Unfilled(s.pending)
    && Ordered(s.settled, s.requests, s.issued) && |s.requests| == |s.pending|
    && (!s.locked ==> s.pending == [])
    && (s.state == Closed ==> s.queued == [] && HeadBytes(s.pending) == [])
    && (s.state == Errored ==> s.queued == [] && s.pending == [])
    && (s.requestLive ==> s.pending != [])
    && (s.closeRequested && s.state == Readable ==> s.pending == [])
    && (s.cancelled ==> s.state == Closed)
  }

  ghost predicate Inv(s: Stream) {
    && Core(s)
    && (s.state == Readable && s.pending != [] ==> s.queued == [])
    && (s.state == Readable && s.closeRequested ==> s.queued != [])
  }

  // ---- filling -----------------------------------------------------------------------

  /** Ready: the largest number of whole elements that is there and fits, at least one. Not
      ready: everything there is, still less than one element. */
  lemma TakeIsAligned(want: Want, available: nat)
    requires want.Valid() && |want.filled| < want.elementSize && available > 0
    ensures var (n, ready) := want.Take(available);
            var limit := if available < want.byteLength - |want.filled| then |want.filled| + available
                         else want.byteLength;
            && n > 0 && n <= available && |want.filled| + n <= limit
            && (ready ==> (|want.filled| + n) % want.elementSize == 0 && limit < |want.filled| + n + want.elementSize)
            && (!ready ==> n == available && |want.filled| + n < want.elementSize)
  {
    var size := want.elementSize;
    var (n, ready) := want.Take(available);
    Align.DivisionIsUnique(|want.filled|, size, 0, |want.filled|);
    Align.DownIsWhole(want.byteLength, size);
    var maxFilled := if available < want.byteLength - |want.filled| then |want.filled| + available else want.byteLength;
    Align.DownIsWhole(maxFilled, size);
    if !ready {
      Align.DownIsMonotone(|want.filled|, maxFilled, size);
    }
  }

  /** Committing the head, once it holds whole elements. */
  lemma CommitKeeps(s: Stream, want: Want, rest: seq<Want>)
    requires Core(s) && s.state == Readable && s.pending != [] && rest == s.pending[1..]
    requires want.Valid() && want.filled != [] && |want.filled| % want.elementSize == 0
    requires !s.closeRequested
    ensures var t := s.(pending := rest, requestLive := false).Commit(want);
            && Core(t) && t.state == Readable && t.pending == rest && t.queued == s.queued && t.received == s.received
            && t.closeRequested == s.closeRequested && t.locked == s.locked && t.cancelled == s.cancelled
            && Delivered(t.settled) == Delivered(s.settled) + want.filled
  {
    DeliveredAppend(s.settled, Settled(s.requests[0], Chunk(want, false)));
  }

  /** One round of the loop that makes the head ready. */
  lemma DeliverHead(s: Stream)
    requires Core(s) && s.state == Readable && !s.closeRequested && s.pending != [] && s.queued != []
    requires s.pending[0].Take(|s.queued|).1
    ensures var t := s.FillHead().ShiftAndCommit();
            && Core(t) && t.state == Readable && !t.closeRequested && t.pending == s.pending[1..]
            && t.received == s.received && Flow(t) == Flow(s)
  {
    var want := s.pending[0];
    TakeIsAligned(want, |s.queued|);
    var n := want.Take(|s.queued|).0;
    var taken := want.(filled := want.filled + s.queued[..n]);
    var t := s.(queued := s.queued[n..]);
    CommitKeeps(t, taken, s.pending[1..]);
    var u := t.(pending := s.pending[1..], requestLive := false).Commit(taken);
    assert s.FillHead().ShiftAndCommit() == u;
    MoveFromHead(Delivered(s.settled), want.filled, s.queued, n);
  }

  /** Bytes that leave the queue for the head, which is delivered, keep their place. */
  lemma MoveFromHead(delivered: seq<Byte>, filled: seq<Byte>, queued: seq<Byte>, n: nat)
    requires n <= |queued|
    ensures delivered + (filled + queued[..n]) + [] + queued[n..] == delivered + filled + queued
  {
    assert queued == queued[..n] + queued[n..];
  }

  /** The round that leaves the head short. */
  lemma DrainIntoHead(s: Stream)
    requires Core(s) && s.state == Readable && !s.closeRequested && s.pending != [] && s.queued != []
    requires !s.pending[0].Take(|s.queued|).1
    ensures Inv(s.FillHead()) && s.FillHead().received == s.received && Flow(s.FillHead()) == Flow(s)
  {
    TakeIsAligned(s.pending[0], |s.queued|);
    assert s.queued[..|s.queued|] == s.queued;
    assert Flow(s.FillHead()) == Flow(s);
  }

  lemma {:induction false} ProcessKeeps(s: Stream)
    requires Core(s) && s.state == Readable && !s.closeRequested
    ensures Inv(s.Process()) && s.Process().state == Readable
    ensures s.Process().received == s.received && Flow(s.Process()) == Flow(s)
    decreases |s.pending|
  {
    hide Flow, Stream.FillHead, Stream.ShiftAndCommit;
    if s.pending != [] && s.queued != [] {
      FillHeadState(s);
      if s.pending[0].Take(|s.queued|).1 {
        DeliverHead(s);
        ProcessKeeps(s.FillHead().ShiftAndCommit());
      } else {
        DrainIntoHead(s);
      }
    }
  }

  lemma FillHeadState(s: Stream)
    requires s.pending != [] && s.pending[0].Valid()
    ensures s.FillHead().state == s.state && s.FillHead().pending != []
  {}

  /** One round of the loop: it either delivers the head or leaves nothing to hand out. */
  lemma ProcessRound(s: Stream)
    requires Unfilled(s.pending) && s.pending != [] && s.queued != []
    ensures var t := s.FillHead();
            if s.pending[0].Take(|s.queued|).1 then
              Unfilled(t.ShiftAndCommit().pending) && s.Process() == t.ShiftAndCommit().Process()
            else
              Unfilled(t.pending) && s.Process() == t && t.Process() == t
  {
    hide Want.Take, Stream.Commit;
    TakeIsAligned(s.pending[0], |s.queued|);
  }

  // ---- steps -------------------------------------------------------------------------

  /** Whether conservation is due: until an error or a cancel throws bytes away. */
  predicate Due(s: Stream) {
    s.state == Readable || (s.state == Closed && !s.cancelled)
  }

  /** A read that finds whole elements in the queue. */
  lemma ReadDelivers(s: Stream, want: Want)
    requires Inv(s) && s.locked && want.Valid() && want.filled == []
    requires s.state == Readable && s.pending == [] && s.queued != [] && want.Take(|s.queued|).1
    ensures var t := s.PullInto(want);
            Inv(t) && t.received == s.received && Flow(t) == Flow(s)
  {
    hide Want.Take, GoodOutcome, Ordered;
    TakeIsAligned(want, |s.queued|);
    var n := want.Take(|s.queued|).0;
    var outcome := Chunk(want.(filled := s.queued[..n]), false);
    assert GoodOutcome(outcome) by { ReadyIsGood(want, s.queued[..n]); }
    SettlingKeepsOrder(s.settled, s.issued, outcome);
    DeliveredAppend(s.settled, Settled(s.issued, outcome));
    MoveAcross(Delivered(s.settled), s.queued, n);
  }

  lemma ReadyIsGood(want: Want, bytes: seq<Byte>)
    requires want.Valid() && 0 < |bytes| <= want.byteLength && |bytes| % want.elementSize == 0
    ensures GoodOutcome(Chunk(want.(filled := bytes), false))
  {}

  lemma SettlingKeepsOrder(settled: seq<Settled>, issued: nat, outcome: Outcome)
    requires Ordered(settled, [], issued) && GoodOutcome(outcome)
    ensures Ordered(settled + [Settled(issued, outcome)], [], issued + 1)
  {}

  /** Bytes that leave the queue for a settled read keep their place in the flow. */
  lemma MoveAcross(delivered: seq<Byte>, queued: seq<Byte>, n: nat)
    requires n <= |queued|
    ensures delivered + queued[..n] + [] + queued[n..] == delivered + [] + queued
  {
    assert queued == queued[..n] + queued[n..];
  }

  /** A read that takes the little there is in the queue, and waits. */
  lemma ReadWaits(s: Stream, want: Want)
    requires Inv(s) && s.locked && want.Valid() && want.filled == []
    requires s.state == Readable && s.pending == [] && s.queued != [] && !want.Take(|s.queued|).1
    ensures Inv(s.PullInto(want))
    ensures var t := s.PullInto(want); !s.closeRequested ==> t.received == s.received && Flow(t) == Flow(s)
    ensures s.closeRequested ==> s.PullInto(want).state == Errored
  {
    TakeIsAligned(want, |s.queued|);
    if !s.closeRequested {
      assert s.queued[..|s.queued|] == s.queued;
      assert Flow(s.PullInto(want)) == Flow(s);
    }
  }

  lemma ReadIsQueued(s: Stream, want: Want)
    requires Inv(s) && s.locked && want.Valid() && want.filled == []
    requires s.state != Errored && (s.pending == [] ==> s.state == Readable && s.queued == [])
    ensures Inv(s.AddRequest(want)) && Flow(s.AddRequest(want)) == Flow(s)
  {
    assert HeadBytes(s.AddRequest(want).pending) == HeadBytes(s.pending);
  }

  lemma ReadKeeps(s: Stream, want: Want)
    requires Inv(s) && s.locked && want.Valid() && want.filled == []
    ensures Inv(s.PullInto(want))
    ensures Due(s) && Due(s.PullInto(want)) ==>
              s.PullInto(want).received == s.received && Flow(s.PullInto(want)) == Flow(s)
    ensures !Due(s) ==> !Due(s.PullInto(want))
  {
    if s.state == Readable && s.pending == [] && s.queued != [] {
      if want.Take(|s.queued|).1 { ReadDelivers(s, want); } else { ReadWaits(s, want); }
    } else if s.state == Closed && s.pending == [] {
      SettlingKeepsOrder(s.settled, s.issued, Chunk(want, true));
      DeliveredAppend(s.settled, Settled(s.issued, Chunk(want, true)));
    } else if s.state == Errored {
      SettlingKeepsOrder(s.settled, s.issued, Failed);
    } else {
      ReadIsQueued(s, want);
    }
  }

  lemma EnqueueKeeps(s: Stream, bytes: seq<Byte>)
    requires Inv(s) && s.state == Readable && !s.closeRequested
    ensures Inv(s.EnqueueBytes(bytes)) && s.EnqueueBytes(bytes).state == Readable
    ensures s.EnqueueBytes(bytes).received == s.received + bytes && Flow(s.EnqueueBytes(bytes)) == Flow(s) + bytes
  {
    var t := s.(queued := s.queued + bytes, received := s.received + bytes);
    assert Flow(t) == Flow(s) + bytes;
    ProcessKeeps(t);
  }

  /** The descriptor responded to has whole elements, and perhaps a remainder: the remainder
      goes back to the queue, the rest is delivered. */
  lemma RespondDelivers(s: Stream, want: Want)
    requires Core(s) && s.state == Readable && !s.closeRequested && !s.requestLive && s.pending != [] && s.queued == []
    requires want.Valid() && |want.filled| >= want.elementSize
    ensures var t := s.CommitWhole(want);
            && Core(t) && t.state == Readable && !t.closeRequested
            && t.received == s.received && Flow(t) == Delivered(s.settled) + want.filled
  {
    hide Align.Down, Ordered, AllValid, Flow, Delivered, Stream.Commit;
    var keep := Align.Down(|want.filled|, want.elementSize);
    hide Want.Valid;
    WholePart(want);
    var t := s.(queued := s.queued + want.filled[keep..]);
    CommitKeeps(t, want.(filled := want.filled[..keep]), s.pending[1..]);
    HeadIsEmpty(s.pending);
    FlowSplits(s.CommitWhole(want), Delivered(s.settled), want.filled, keep);
  }

  lemma FlowSplits(t: Stream, delivered: seq<Byte>, filled: seq<Byte>, keep: nat)
    requires keep <= |filled| && Delivered(t.settled) == delivered + filled[..keep]
    requires HeadBytes(t.pending) == [] && t.queued == [] + filled[keep..]
    ensures Flow(t) == delivered + filled
  {
    assert filled == filled[..keep] + filled[keep..];
  }

  lemma HeadIsEmpty(pending: seq<Want>)
    requires Unfilled(pending) && pending != []
    ensures HeadBytes(pending[1..]) == []
  {}

  lemma WholePart(want: Want)
    requires want.Valid() && |want.filled| >= want.elementSize
    ensures var keep := Align.Down(|want.filled|, want.elementSize);
            0 < keep <= |want.filled| && keep % want.elementSize == 0 && want.(filled := want.filled[..keep]).Valid()
  {
    var size := want.elementSize;
    Align.DownIsWhole(|want.filled|, size);
    Align.DownIsWhole(size, size);
    Align.DivisionIsUnique(size, size, 1, 0);
    Align.DownIsMonotone(size, |want.filled|, size);
  }

  lemma RespondShort(s: Stream, want: Want)
    requires Inv(s) && s.state == Readable && s.pending != [] && want.Valid()
    requires s.pending[0].filled <= want.filled && |want.filled| < want.elementSize
    ensures var t := s.(pending := [want] + s.pending[1..]);
            Inv(t) && Flow(t) == Flow(s) + want.filled[|s.pending[0].filled|..]
  {}

  lemma RespondWhole(s: Stream, want: Want)
    requires Inv(s) && s.state == Readable && s.pending != [] && !s.requestLive && want.Valid()
    requires s.pending[0].filled <= want.filled && |want.filled| >= want.elementSize
    ensures var t := s.CommitWhole(want).Check(!s.closeRequested).Process();
            && Inv(t) && t.state == Readable && t.received == s.received
            && Flow(t) == Flow(s) + want.filled[|s.pending[0].filled|..]
  {
    RespondDelivers(s, want);
    HeadGrows(s, want.filled);
    hide *;
    var u := s.CommitWhole(want);
    CheckHolds(u, !s.closeRequested);
    ProcessKeeps(u);
  }

  lemma HeadGrows(s: Stream, filled: seq<Byte>)
    requires s.pending != [] && s.queued == [] && s.pending[0].filled <= filled
    ensures Delivered(s.settled) + filled == Flow(s) + filled[|s.pending[0].filled|..]
  {
    assert filled == s.pending[0].filled + filled[|s.pending[0].filled|..];
  }

  lemma CheckHolds(s: Stream, condition: bool)
    requires condition
    ensures s.Check(condition) == s
  {}

  lemma RespondKeeps(s: Stream, bytesWritten: nat, written: seq<Byte>)
    requires Inv(s) && s.state == Readable && s.pending != []
    requires bytesWritten <= |written| == s.pending[0].byteLength - |s.pending[0].filled|
    ensures var t := s.RespondReadable(bytesWritten, written);
            && Inv(t) && t.state == Readable && t.received == s.received + written[..bytesWritten]
            && Flow(t) == Flow(s) + written[..bytesWritten]
  {
    var added := written[..bytesWritten];
    var want := s.pending[0].(filled := s.pending[0].filled + added);
    var t := s.(received := s.received + added, requestLive := false);
    assert want.filled[|s.pending[0].filled|..] == added;
    assert Inv(t) && want.Valid() && Flow(t) == Flow(s);
    hide Inv, Flow, Want.Valid, Stream.Process, Stream.CommitWhole;
    if |want.filled| < want.elementSize {
      RespondShort(t, want);
    } else {
      RespondWhole(t, want);
    }
  }

  /** The reads of these requests, each told that the stream is done, with its own view. */
  function Dones(requests: seq<nat>, pending: seq<Want>): seq<Settled>
    requires |requests| == |pending|
  {
    seq(|requests|, i requires 0 <= i < |requests| => Settled(requests[i], Chunk(pending[i], true)))
  }

  /** Every pending read of a closed stream settles, in order, as done. */
  lemma {:induction false} CommitAllSettles(s: Stream)
    requires s.state == Closed && |s.requests| == |s.pending|
    ensures var t := s.CommitAll();
            t.requests == [] && t.pending == [] && t.settled == s.settled + Dones(s.requests, s.pending)
    decreases |s.pending|
  {
    if s.requests != [] {
      CommitAllSettles(s.ShiftAndCommit());
      var first := Settled(s.requests[0], Chunk(s.pending[0], true));
      assert Dones(s.requests, s.pending) == [first] + Dones(s.requests[1..], s.pending[1..]);
    }
  }

  /** One read of a closed stream is done. */
  lemma CommitOneConserves(s: Stream)
    requires Inv(s) && s.state == Closed && s.requests != []
    ensures var t := s.ShiftAndCommit();
            && s.pending != [] && Inv(t) && t.state == Closed && t.cancelled == s.cancelled && t.received == s.received
            && Flow(t) == Flow(s) && t.pending == s.pending[1..]
  {
    hide Delivered;
    DeliveredAppend(s.settled, Settled(s.requests[0], Chunk(s.pending[0], true)));
    assert Delivered(s.settled) + [] == Delivered(s.settled);
  }

  lemma {:induction false} CommitAllConserves(s: Stream)
    requires Inv(s) && s.state == Closed
    ensures var t := s.CommitAll();
            Inv(t) && t.state == Closed && t.cancelled == s.cancelled && t.received == s.received && Flow(t) == Flow(s)
    decreases |s.pending|
  {
    hide Inv, Flow, Stream.ShiftAndCommit;
    if s.requests != [] {
      CommitOneConserves(s);
      CommitAllConserves(s.ShiftAndCommit());
    }
  }

  lemma CommitAllKeeps(s: Stream)
    requires Inv(s) && s.state == Closed
    ensures var t := s.CommitAll();
            && Inv(t) && t.state == Closed && t.cancelled == s.cancelled && t.received == s.received
               && Flow(t) == Flow(s)
            && t.requests == [] && t.pending == [] && |s.requests| == |s.pending|
            && t.settled == s.settled + Dones(s.requests, s.pending)
  {
    assert |s.requests| == |s.pending|;
    hide *;
    CommitAllSettles(s);
    CommitAllConserves(s);
  }

  lemma FailuresAreOrdered(settled: seq<Settled>, requests: seq<nat>, issued: nat)
    requires Ordered(settled, requests, issued)
    ensures Ordered(settled + Failures(requests), [], issued)
  {}

  lemma {:induction false} FailuresDeliverNothing(settled: seq<Settled>, requests: seq<nat>)
    ensures Delivered(settled + Failures(requests)) == Delivered(settled)
  {
    hide Delivered;
    if requests == [] {
      assert settled + Failures(requests) == settled;
    } else {
      var n := |requests| - 1;
      var before := settled + Failures(requests[..n]);
      FailuresDeliverNothing(settled, requests[..n]);
      DeliveredAppend(before, Settled(requests[n], Failed));
      assert Failures(requests) == Failures(requests[..n]) + [Settled(requests[n], Failed)];
      assert settled + Failures(requests) == before + [Settled(requests[n], Failed)];
    }
  }

  lemma FailKeeps(s: Stream)
    requires Inv(s)
    ensures Inv(s.Fail())
    ensures s.state != Readable ==> s.Fail() == s
  {
    FailuresAreOrdered(s.settled, s.requests, s.issued);
  }

  lemma RespondInternalKeeps(s: Stream, bytesWritten: nat, written: seq<Byte>)
    requires Inv(s) && s.pending != []
    requires s.state != Closed ==> |written| == s.pending[0].byteLength - |s.pending[0].filled|
    ensures var t := s.RespondInternal(bytesWritten, written).0;
            && Inv(t) && t.state == s.state && t.cancelled == s.cancelled
            && (Conserved(s) <==> Conserved(t))
  {
    if s.state == Closed {
      if bytesWritten == 0 { CommitAllKeeps(s); }
    } else if bytesWritten <= |written| {
      RespondKeeps(s, bytesWritten, written);
      assert s.Check(s.state == Readable) == s;
      assert Flow(s) + written[..bytesWritten] == s.received + written[..bytesWritten] ==> Flow(s) == s.received by {
        if Flow(s) + written[..bytesWritten] == s.received + written[..bytesWritten] {
          assert |Flow(s)| == |s.received|;
          assert (Flow(s) + written[..bytesWritten])[..|Flow(s)|] == Flow(s);
          assert (s.received + written[..bytesWritten])[..|s.received|] == s.received;
        }
      }
    }
  }

  // ---- the one step that loses bytes ------------------------------------------------

  /** A new view is accepted for a head that already has bytes, in a buffer that holds other
      bytes where those were. */
  predicate Overwrites(s: Stream, e: Event) {
    && e.RespondWithNewView? && s.requestLive && s.state == Readable && s.pending != []
    && e.byteOffset + e.byteLength <= |e.buffer| && s.Matches(e.byteOffset, e.byteLength)
    && e.buffer[s.pending[0].byteOffset..s.pending[0].byteOffset + |s.pending[0].filled|] != s.pending[0].filled
  }

  /** Swapping the head's buffer keeps conservation just when the bytes it had are there. */
  lemma WithBufferKeeps(s: Stream, buffer: seq<Byte>)
    requires Inv(s) && s.pending != [] && s.pending[0].byteOffset + |s.pending[0].filled| <= |buffer|
    ensures var t := s.WithBuffer(buffer);
            var want := s.pending[0];
            && Inv(t) && t.state == s.state && t.cancelled == s.cancelled && t.received == s.received
            && t.pending != [] && |t.pending[0].filled| == |want.filled| && t.pending[0].byteLength == want.byteLength
            && (Conserved(s) ==>
                  (Conserved(t) <==> buffer[want.byteOffset..want.byteOffset + |want.filled|] == want.filled))
  {
    var want := s.pending[0];
    HeadDecides(Delivered(s.settled), buffer[want.byteOffset..want.byteOffset + |want.filled|], want.filled, s.queued);
  }

  lemma NewViewKeeps(s: Stream, e: Event)
    requires Inv(s) && e.RespondWithNewView? && s.requestLive && s.pending != []
    requires e.byteOffset + e.byteLength <= |e.buffer|
    ensures var t := s.RespondNewView(e.buffer, e.byteOffset, e.byteLength).0;
            && Inv(t) && t.state == s.state && t.cancelled == s.cancelled
            && (Conserved(s) ==> (Conserved(t) <==> !Overwrites(s, e)))
  {
    hide Conserved, Stream.RespondInternal;
    if s.Matches(e.byteOffset, e.byteLength) {
      var want := s.pending[0];
      WithBufferKeeps(s, e.buffer);
      ClosedHeadIsEmpty(s);
      RespondInternalKeeps(s.WithBuffer(e.buffer), e.byteLength,
                           e.buffer[e.byteOffset..e.byteOffset + e.byteLength - |want.filled|]);
    }
  }

  lemma ClosedHeadIsEmpty(s: Stream)
    requires Inv(s) && s.pending != []
    ensures s.state != Errored && (s.state == Closed ==> s.pending[0].filled == [])
  {}

  lemma HeadDecides(a: seq<Byte>, x: seq<Byte>, y: seq<Byte>, b: seq<Byte>)
    requires |x| == |y|
    ensures a + x + b == a + y + b <==> x == y
  {
    assert (a + x + b)[|a|..|a| + |x|] == x;
    assert (a + y + b)[|a|..|a| + |y|] == y;
  }

  // ---- every step --------------------------------------------------------------------

  lemma CloseKeeps(s: Stream)
    requires Inv(s)
    ensures var t := s.CloseBySource().0;
            Inv(t) && (Due(s) && Due(t) ==> Flow(t) == Flow(s) && t.received == s.received) && (!Due(s) ==> !Due(t))
  {
    FailKeeps(s);
    hide Ordered, Delivered, AllValid, Stream.Fail;
    FailThrowsAway(s);
  }

  lemma FailThrowsAway(s: Stream)
    ensures Due(s.Fail()) ==> s.Fail() == s
    ensures s.state == Readable ==> s.Fail().state == Errored
  {}

  lemma CancelKeeps(s: Stream)
    requires Inv(s)
    ensures Inv(s.CancelByReader()) && (Due(s.CancelByReader()) ==> s.CancelByReader() == s)
  {
    hide Ordered;
  }

  /** The steps that move no bytes, and those that throw them away. */
  lemma PlainStepKeeps(s: Stream, e: Event)
    requires Inv(s)
    requires e.GetReader? || e.ReleaseLock? || e.GetByobRequest? || e.Close? || e.Error? || e.Cancel?
    ensures var t := s.Step(e).0;
            && Inv(t) && (Due(s) && Due(t) ==> Flow(t) == Flow(s) && t.received == s.received) && (!Due(s) ==> !Due(t))
  {
    hide Ordered, Delivered, Unfilled, Stream.CloseBySource, Stream.Fail, Stream.CancelByReader;
    match e
    case Close => CloseKeeps(s);
    case Error =>
      FailKeeps(s);
      FailThrowsAway(s);
    case Cancel =>
      CancelKeeps(s);
    case _ =>
  }

  lemma StepKeeps(s: Stream, e: Event)
    requires Inv(s)
    ensures Inv(s.Step(e).0)
    ensures Due(s) && Conserved(s) && Due(s.Step(e).0) ==> (Conserved(s.Step(e).0) <==> !Overwrites(s, e))
    ensures !Due(s) ==> !Due(s.Step(e).0)
  {
    hide Flow, Stream.PullInto, Stream.EnqueueBytes, Stream.RespondInternal, Stream.RespondNewView, Ordered;
    match e
    case Read(byteOffset, byteLength, elementSize) =>
      if s.locked && IsView(byteLength, elementSize) {
        ReadKeeps(s, Want(byteOffset, byteLength, elementSize, []));
      }
    case Enqueue(bytes) =>
      if !s.closeRequested && s.state == Readable { EnqueueKeeps(s, bytes); }
    case Respond(bytesWritten, written) =>
      if s.requestLive && (s.state != Closed ==> |written| == s.pending[0].byteLength - |s.pending[0].filled|) {
        RespondInternalKeeps(s, bytesWritten, written);
      }
    case RespondWithNewView(buffer, byteOffset, byteLength) =>
      if s.requestLive && byteOffset + byteLength <= |buffer| { NewViewKeeps(s, e); }
    case _ => PlainStepKeeps(s, e);
  }

  // ---- runs --------------------------------------------------------------------------

  function Run(events: seq<Event>): Stream {
    if events == [] then INITIAL
    else
      var s := Run(events[..|events| - 1]);
      if ValidWants(s.pending) then s.Step(events[|events| - 1]).0 else s
  }

  predicate ValidWants(pending: seq<Want>)
    ensures ValidWants(pending) <==> AllValid(pending)
  {
    forall i :: 0 <= i < |pending| ==>
      IsView(pending[i].byteLength, pending[i].elementSize) && |pending[i].filled| <= pending[i].byteLength
  }

  lemma {:induction false} RunKeeps(events: seq<Event>)
    ensures Inv(Run(events))
  {
    if events != [] {
      RunKeeps(events[..|events| - 1]);
      StepKeeps(Run(events[..|events| - 1]), events[|events| - 1]);
    }
  }

  lemma RunAppend(events: seq<Event>, e: Event)
    ensures AllValid(Run(events).pending) && Run(events + [e]) == Run(events).Step(e).0
  {
    RunKeeps(events);
    assert (events + [e])[..|events|] == events;
  }

  /** In every run: no assert of the source fails; there is a descriptor for each pending read;
      while the stream is readable and a read is pending, nothing is queued; only the head has
      bytes, and less than an element; a close waits only for queued bytes, with no read pending;
      and after the close no descriptor has bytes. */
  lemma StreamStaysCoherent(events: seq<Event>)
    ensures var s := Run(events);
            && !s.faulted && |s.requests| == |s.pending|
            && (s.state == Readable && s.pending != [] ==> s.queued == [])
            && (s.pending != [] ==> |s.pending[0].filled| < s.pending[0].elementSize)
            && (forall i :: 0 < i < |s.pending| ==> s.pending[i].filled == [])
            && (s.closeRequested && s.state == Readable ==> s.pending == [] && s.queued != [])
            && (s.state == Closed ==> forall i :: 0 <= i < |s.pending| ==> s.pending[i].filled == [])
  {
    RunKeeps(events);
  }

  /** Reads settle in the order they were made, each at most once, and deliver whole elements that
      fit their views: none exactly when the stream is done. */
  lemma ReadsSettleWhole(events: seq<Event>)
    ensures var s := Run(events);
            && s.issued == |s.settled| + |s.requests|
            && (forall i :: 0 <= i < |s.settled| ==> s.settled[i].n == i && GoodOutcome(s.settled[i].outcome))
  {
    RunKeeps(events);
  }

  // ---- how reads end -----------------------------------------------------------------

  predicate Delivers(o: Outcome) { o.Chunk? && !o.done }

  /** Reads that deliver first; then, for those that get nothing, `done` if the stream has closed and
      a failure if it has errored. */
  ghost predicate EndsAs(settled: seq<Settled>, state: Phase) {
    && (forall i :: 0 <= i < |settled| && !Delivers(settled[i].outcome) ==>
          (state == Closed && settled[i].outcome.Chunk?) || (state == Errored && settled[i].outcome == Failed))
    && (forall i, j :: 0 <= i < j < |settled| && Delivers(settled[j].outcome) ==> Delivers(settled[i].outcome))
  }

  lemma DeliveryEndsAs(settled: seq<Settled>, x: Settled)
    requires EndsAs(settled, Readable) && Delivers(x.outcome)
    ensures EndsAs(settled + [x], Readable)
  {}

  /** The waiting reads all end alike. */
  lemma AllEndAs(settled: seq<Settled>, requests: seq<nat>)
    requires EndsAs(settled, Readable)
    ensures EndsAs(settled, Closed) && EndsAs(settled + Failures(requests), Errored)
  {}

  lemma DonesEndAs(settled: seq<Settled>, requests: seq<nat>, pending: seq<Want>)
    requires EndsAs(settled, Closed) && |requests| == |pending|
    ensures EndsAs(settled + Dones(requests, pending), Closed)
  {}

  lemma LateReadEndsAs(settled: seq<Settled>, n: nat, want: Want)
    ensures EndsAs(settled, Closed) ==> EndsAs(settled + [Settled(n, Chunk(want, true))], Closed)
    ensures EndsAs(settled, Errored) ==> EndsAs(settled + [Settled(n, Failed)], Errored)
  {}

  lemma {:induction false} ProcessEndsAs(s: Stream)
    requires Core(s) && s.state == Readable && !s.closeRequested && EndsAs(s.settled, Readable)
    ensures EndsAs(s.Process().settled, Readable) && s.Process().state == Readable
    decreases |s.pending|
  {
    hide EndsAs, Stream.ShiftAndCommit;
    ProcessKeeps(s);
    if s.pending != [] && s.queued != [] && s.pending[0].Take(|s.queued|).1 {
      DeliverHead(s);
      DeliverHeadEndsAs(s);
      ProcessEndsAs(s.FillHead().ShiftAndCommit());
    }
  }

  lemma DeliverHeadEndsAs(s: Stream)
    requires s.pending != [] && s.pending[0].Valid() && s.state == Readable && |s.requests| > 0
             && EndsAs(s.settled, Readable)
    ensures EndsAs(s.FillHead().ShiftAndCommit().settled, Readable)
  {
    hide EndsAs, Want.Take;
    var t := s.FillHead();
    DeliveryEndsAs(s.settled, Settled(s.requests[0], Chunk(t.pending[0], false)));
  }

  lemma ReadEndsAs(s: Stream, want: Want)
    requires Inv(s) && s.locked && want.Valid() && want.filled == [] && EndsAs(s.settled, s.state)
    ensures EndsAs(s.PullInto(want).settled, s.PullInto(want).state)
  {
    hide EndsAs, Want.Take, Ordered;
    LateReadEndsAs(s.settled, s.issued, want);
    if s.state == Readable && s.pending == [] && s.queued != [] {
      var (n, ready) := want.Take(|s.queued|);
      var taken := Settled(s.issued, Chunk(want.(filled := s.queued[..n]), false));
      if ready {
        DeliveryEndsAs(s.settled, taken);
        AllEndAs(s.settled + [taken], []);
      } else if s.closeRequested {
        AllEndAs(s.settled, s.requests);
        LateReadEndsAs(s.settled + Failures(s.requests), s.issued, want);
      }
    }
  }

  lemma RespondEndsAs(s: Stream, bytesWritten: nat, written: seq<Byte>)
    requires Inv(s) && s.pending != [] && EndsAs(s.settled, s.state)
    requires s.state != Closed ==> |written| == s.pending[0].byteLength - |s.pending[0].filled|
    ensures var t := s.RespondInternal(bytesWritten, written).0; EndsAs(t.settled, t.state)
  {
    RespondInternalKeeps(s, bytesWritten, written);
    hide EndsAs, Ordered;
    if s.state == Closed {
      if bytesWritten == 0 {
        CommitAllKeeps(s);
        DonesEndAs(s.settled, s.requests, s.pending);
      }
    } else if bytesWritten <= |written| {
      ReadableRespondEndsAs(s, bytesWritten, written);
    }
  }

  lemma ReadableRespondEndsAs(s: Stream, bytesWritten: nat, written: seq<Byte>)
    requires Inv(s) && s.state == Readable && s.pending != [] && EndsAs(s.settled, Readable)
    requires bytesWritten <= |written| == s.pending[0].byteLength - |s.pending[0].filled|
    ensures EndsAs(s.RespondReadable(bytesWritten, written).settled, Readable)
  {
    var want := s.pending[0].(filled := s.pending[0].filled + written[..bytesWritten]);
    var t := s.(received := s.received + written[..bytesWritten], requestLive := false);
    assert Inv(t) && want.Valid() && t.queued == [];
    hide EndsAs, Ordered, AllValid, Stream.Process;
    if |want.filled| >= want.elementSize {
      RespondDelivers(t, want);
      CommitWholeEndsAs(t, want);
      ProcessEndsAs(t.CommitWhole(want));
    }
  }

  lemma CommitWholeEndsAs(s: Stream, want: Want)
    requires s.state == Readable && |s.requests| > 0 && s.pending != [] && want.elementSize > 0
             && EndsAs(s.settled, Readable)
    ensures EndsAs(s.CommitWhole(want).settled, Readable)
  {
    hide EndsAs;
    var keep := Align.Down(|want.filled|, want.elementSize);
    DeliveryEndsAs(s.settled, Settled(s.requests[0], Chunk(want.(filled := want.filled[..keep]), false)));
  }

  /** The steps that settle no read but to end it. */
  lemma OtherStepEndsAs(s: Stream, e: Event)
    requires Inv(s) && EndsAs(s.settled, s.state)
    requires e.GetReader? || e.ReleaseLock? || e.GetByobRequest? || e.Close? || e.Error? || e.Cancel?
    ensures EndsAs(s.Step(e).0.settled, s.Step(e).0.state)
  {
    hide EndsAs, Inv;
    if s.state == Readable { AllEndAs(s.settled, s.requests); }
  }

  lemma StepEndsAs(s: Stream, e: Event)
    requires Inv(s) && EndsAs(s.settled, s.state)
    ensures EndsAs(s.Step(e).0.settled, s.Step(e).0.state)
  {
    hide EndsAs, Ordered, Stream.PullInto, Stream.RespondInternal, Stream.Process;
    match e
    case Read(byteOffset, byteLength, elementSize) =>
      if s.locked && IsView(byteLength, elementSize) {
        ReadEndsAs(s, Want(byteOffset, byteLength, elementSize, []));
      }
    case Enqueue(bytes) =>
      if !s.closeRequested && s.state == Readable {
        ProcessEndsAs(s.(queued := s.queued + bytes, received := s.received + bytes));
      }
    case Respond(bytesWritten, written) =>
      if s.requestLive && (s.state != Closed ==> |written| == s.pending[0].byteLength - |s.pending[0].filled|) {
        RespondEndsAs(s, bytesWritten, written);
      }
    case RespondWithNewView(buffer, byteOffset, byteLength) =>
      if s.requestLive && byteOffset + byteLength <= |buffer| && s.Matches(byteOffset, byteLength) {
        var written := buffer[byteOffset..byteOffset + byteLength - |s.pending[0].filled|];
        WithBufferKeeps(s, buffer);
        RespondEndsAs(s.WithBuffer(buffer), byteLength, written);
      }
    case _ => OtherStepEndsAs(s, e);
  }

  /** In every run, while the stream is readable every settled read has bytes. Those that got none come
      last: all of them done if the stream has closed, all of them failed if it has errored; and an
      errored stream leaves no read waiting. */
  lemma {:induction false} ReadsEndAsTheStream(events: seq<Event>)
    ensures EndsAs(Run(events).settled, Run(events).state)
    ensures Run(events).state == Errored ==> Run(events).requests == []
  {
    if events != [] {
      var before := events[..|events| - 1];
      ReadsEndAsTheStream(before);
      RunKeeps(before);
      RunKeeps(events);
      hide EndsAs, Stream.Step;
      StepEndsAs(Run(before), events[|events| - 1]);
    }
  }

  /** In every run that has closed, the source's respond(0) leaves no read: each of those pending is
      done. */
  lemma ClosedRespondSettlesAll(events: seq<Event>, written: seq<Byte>)
    requires Run(events).state == Closed && Run(events).requestLive
    ensures var s, t := Run(events), Run(events + [Respond(0, written)]);
            t.requests == [] && t.pending == [] && |s.requests| == |s.pending|
            && t.settled == s.settled + Dones(s.requests, s.pending)
  {
    var s := Run(events);
    RunKeeps(events);
    RunAppend(events, Respond(0, written));
    ClosedHeadIsEmpty(s);
    hide Run, Stream.CommitAll;
    CommitAllKeeps(s);
    CheckHolds(s, s.pending[0].filled == []);
  }

  predicate OverwritesAt(events: seq<Event>, i: nat)
    requires i < |events|
  {
    Overwrites(Run(events[..i]), events[i])
  }

  /** In every run with no overwriting response, until an error or a cancel, the bytes of the
      fulfilled reads, then those in the head descriptor, then those queued, are all the bytes
      received, in order. */
  lemma {:induction false} BytesAreConserved(events: seq<Event>)
    requires forall i :: 0 <= i < |events| ==> !OverwritesAt(events, i)
    ensures Due(Run(events)) ==> Conserved(Run(events))
  {
    if events != [] {
      var n := |events| - 1;
      var before := events[..n];
      forall i | 0 <= i < n ensures !OverwritesAt(before, i) {
        assert before[..i] == events[..i];
        assert !OverwritesAt(events, i);
      }
      BytesAreConserved(before);
      RunKeeps(before);
      assert !OverwritesAt(events, n);
      hide Inv, Conserved, Due, Overwrites, Stream.Step;
      StepKeeps(Run(before), events[n]);
    }
  }

  ghost predicate ConservedAt(events: seq<Event>, n: nat)
    requires n <= |events|
  {
    Due(Run(events[..n])) ==> Conserved(Run(events[..n]))
  }

  lemma OverwriteLoses(s: Stream, e: Event)
    requires Inv(s) && Overwrites(s, e) && Conserved(s)
    ensures Due(s) && Due(s.Step(e).0) && !Conserved(s.Step(e).0)
  {
    NewViewKeeps(s, e);
    hide Inv, Conserved, Stream.RespondNewView, Stream.Matches;
  }

  lemma OverwriteShows(events: seq<Event>, i: nat)
    requires i < |events| && OverwritesAt(events, i) && ConservedAt(events, i)
    ensures !ConservedAt(events, i + 1)
  {
    var s := Run(events[..i]);
    RunKeeps(events[..i]);
    RunAppend(events[..i], events[i]);
    assert events[..i] + [events[i]] == events[..i + 1];
    assert Due(s);
    hide Inv, Conserved, Stream.Step, Run, Overwrites;
    OverwriteLoses(s, events[i]);
  }

  /** In every run: the bytes are conserved at each moment up to an error or a cancel if and only if
      no response overwrites bytes. */
  lemma ConservedExactly(events: seq<Event>)
    ensures (forall n :: 0 <= n <= |events| ==> ConservedAt(events, n))
            <==> forall i :: 0 <= i < |events| ==> !OverwritesAt(events, i)
  {
    if forall n :: 0 <= n <= |events| ==> ConservedAt(events, n) {
      hide OverwritesAt, ConservedAt;
      forall i | 0 <= i < |events| ensures !OverwritesAt(events, i) {
        assert ConservedAt(events, i) && ConservedAt(events, i + 1);
        if OverwritesAt(events, i) { OverwriteShows(events, i); }
      }
    } else if forall i :: 0 <= i < |events| ==> !OverwritesAt(events, i) {
      forall n | 0 <= n <= |events| ensures ConservedAt(events, n) {
        forall i | 0 <= i < n ensures !OverwritesAt(events[..n], i) {
          assert events[..n][..i] == events[..i];
          assert !OverwritesAt(events, i);
        }
        BytesAreConserved(events[..n]);
      }
    }
  }

  // ---- after an error or a cancel ----------------------------------------------------

  /** Nothing is delivered, and nothing received. */
  predicate Kept(s: Stream, t: Stream) {
    Delivered(t.settled) == Delivered(s.settled) && t.received == s.received
  }

  lemma LosingRead(s: Stream, want: Want)
    requires Inv(s) && s.locked && want.Valid() && want.filled == [] && !Due(s.PullInto(want))
    ensures Kept(s, s.PullInto(want))
  {
    hide Ordered, Unfilled, Want.Take;
    if s.state == Errored {
      DeliveredAppend(s.settled, Settled(s.issued, Failed));
    } else if s.state == Closed {
      DeliveredAppend(s.settled, Settled(s.issued, Chunk(want, true)));
    } else if s.pending == [] && s.queued != [] {
      FailuresDeliverNothing(s.settled, s.requests);
      var u := s.(queued := s.queued[want.Take(|s.queued|).0..], requestLive := false).Fail();
      DeliveredAppend(u.settled, Settled(s.issued, Failed));
    }
  }

  lemma LosingRespond(s: Stream, bytesWritten: nat, written: seq<Byte>)
    requires Inv(s) && s.pending != [] && !Due(s)
    requires s.state != Closed ==> |written| == s.pending[0].byteLength - |s.pending[0].filled|
    ensures Kept(s, s.RespondInternal(bytesWritten, written).0)
  {
    CommitAllKeeps(s);
    ClosedFlow(s);
    ClosedFlow(s.CommitAll());
    ClosedHeadIsEmpty(s);
    CheckHolds(s, s.pending[0].filled == []);
    hide Inv, Flow, Delivered, Stream.CommitAll, Stream.RespondReadable;
  }

  /** A closed stream has nothing to deliver but what it has delivered. */
  lemma ClosedFlow(s: Stream)
    requires Inv(s) && s.state == Closed
    ensures Flow(s) == Delivered(s.settled)
  {}

  lemma LosingNewView(s: Stream, e: Event)
    requires Inv(s) && !Due(s) && e.RespondWithNewView? && s.requestLive && s.pending != []
    requires e.byteOffset + e.byteLength <= |e.buffer|
    ensures Kept(s, s.RespondNewView(e.buffer, e.byteOffset, e.byteLength).0)
  {
    if s.Matches(e.byteOffset, e.byteLength) {
      var u := s.WithBuffer(e.buffer);
      WithBufferKeeps(s, e.buffer);
      ClosedHeadIsEmpty(s);
      assert Kept(s, u) && u.state == s.state && u.cancelled == s.cancelled;
      hide Inv, Conserved, Delivered, Stream.RespondInternal;
      LosingRespond(u, e.byteLength, e.buffer[e.byteOffset..e.byteOffset + e.byteLength - |s.pending[0].filled|]);
    }
  }

  /** The other steps deliver nothing at all. */
  lemma LosingPlain(s: Stream, e: Event)
    requires AllValid(s.pending)
    requires e.GetReader? || e.ReleaseLock? || e.GetByobRequest? || e.Close? || e.Error? || e.Cancel?
    ensures Kept(s, s.Step(e).0)
  {
    FailuresDeliverNothing(s.settled, s.requests);
    hide Delivered;
  }

  /** A step into, or within, the states that have thrown bytes away delivers nothing. */
  lemma LossDeliversNothing(s: Stream, e: Event)
    requires Inv(s) && !Due(s.Step(e).0)
    ensures var t := s.Step(e).0; Delivered(t.settled) == Delivered(s.settled) && t.received == s.received
  {
    assert AllValid(s.pending) && (s.requestLive ==> s.pending != []);
    assert Kept(s, s.Step(e).0) by {
      hide Kept, Delivered, Inv, Stream.PullInto, Stream.EnqueueBytes, Stream.RespondInternal, Stream.RespondNewView;
      match e
      case Read(byteOffset, byteLength, elementSize) =>
        if s.locked && IsView(byteLength, elementSize) {
          LosingRead(s, Want(byteOffset, byteLength, elementSize, []));
        } else {
          SameIsKept(s);
        }
      case Enqueue(bytes) =>
        if !s.closeRequested && s.state == Readable { EnqueueKeeps(s, bytes); }
        SameIsKept(s);
      case Respond(bytesWritten, written) =>
        SameIsKept(s);
        if s.requestLive && (s.state != Closed ==> |written| == s.pending[0].byteLength - |s.pending[0].filled|) {
          RespondInternalKeeps(s, bytesWritten, written);
          LosingRespond(s, bytesWritten, written);
        }
      case RespondWithNewView(buffer, byteOffset, byteLength) =>
        SameIsKept(s);
        if s.requestLive && byteOffset + byteLength <= |buffer| {
          NewViewKeeps(s, e);
          LosingNewView(s, e);
        }
      case _ => LosingPlain(s, e);
    }
  }

  lemma SameIsKept(s: Stream)
    ensures Kept(s, s)
  {}

  lemma ConservedIsPrefix(s: Stream)
    requires Conserved(s)
    ensures Delivered(s.settled) <= s.received
  {
    assert s.received == Delivered(s.settled) + (HeadBytes(s.pending) + s.queued);
  }

  /** At every moment of every run with no overwriting response, errors and cancels included,
      the bytes of the fulfilled reads are a prefix of those received: none is invented,
      repeated, skipped or reordered. */
  lemma {:induction false} DeliveredIsAPrefix(events: seq<Event>)
    requires forall i :: 0 <= i < |events| ==> !OverwritesAt(events, i)
    ensures Delivered(Run(events).settled) <= Run(events).received
  {
    hide Inv, Conserved, Delivered, Stream.Step, Overwrites;
    BytesAreConserved(events);
    var t := Run(events);
    if Due(t) {
      ConservedIsPrefix(t);
    } else if events != [] {
      var n := |events| - 1;
      var before := events[..n];
      forall i | 0 <= i < n ensures !OverwritesAt(before, i) {
        assert before[..i] == events[..i];
        assert !OverwritesAt(events, i);
      }
      DeliveredIsAPrefix(before);
      RunKeeps(before);
      RunAppend(before, events[n]);
      assert events == before + [events[n]];
      LossDeliversNothing(Run(before), events[n]);
    }
  }

  // ---- losing bytes --------------------------------------------------------------------

  /** One read of a 4-byte element, which has got the 2 bytes the source enqueued. */
  lemma ShortRead(a: Byte, b: Byte)
    ensures var want := Want(0, 4, 4, []);
            Run([GetReader, Read(0, 4, 4), Enqueue([a, b])]) ==
              INITIAL.(locked := true, pending := [want.(filled := [a, b])], requests := [0], issued := 1,
                received := [a, b])
  {
    hide Run, Stream.Process;
    var want := Want(0, 4, 4, []);
    var s1 := INITIAL.(locked := true, pending := [want], requests := [0], issued := 1);
    assert Run([GetReader, Read(0, 4, 4)]) == s1 by { FirstRead(); }
    RunAppend([GetReader, Read(0, 4, 4)], Enqueue([a, b]));
    assert [GetReader, Read(0, 4, 4)] + [Enqueue([a, b])] == [GetReader, Read(0, 4, 4), Enqueue([a, b])];
    var s := s1.(queued := [a, b], received := [a, b]);
    assert s1.queued + [a, b] == [a, b] && s1.received + [a, b] == [a, b];
    assert s1.EnqueueBytes([a, b]) == s.Process();
    ShortFill(s, want);
  }

  /** Two bytes do not make a 4-byte element. */
  lemma ShortFill(s: Stream, want: Want)
    requires want == Want(0, 4, 4, []) && s.pending == [want] && |s.queued| == 2 && !s.requestLive
    ensures s.Process() == s.(queued := [], pending := [want.(filled := s.queued)])
  {
    assert want.Take(2) == (2, false);
    hide Want.Take;
    assert s.queued[2..] == [] && [] + s.queued[..2] == s.queued && s.pending[1..] == [];
  }

  lemma FirstRead()
    ensures Run([GetReader, Read(0, 4, 4)]) ==
              INITIAL.(locked := true, pending := [Want(0, 4, 4, [])], requests := [0], issued := 1)
  {
    hide Stream.Process;
    assert Run([GetReader]) == INITIAL.(locked := true) by {
      RunAppend([], GetReader);
      assert [] + [GetReader] == [GetReader];
    }
    RunAppend([GetReader], Read(0, 4, 4));
    assert [GetReader] + [Read(0, 4, 4)] == [GetReader, Read(0, 4, 4)];
  }

  /** A read of one 4-byte element gets 2 bytes from the queue; the source then answers the
      BYOB request with a view at offset 2 of another buffer, and the call throws. The read is
      left with the 2 bytes that other buffer starts with. */
  lemma BytesCanBeLost(a: Byte, b: Byte, other: seq<Byte>)
    requires |other| == 6 && other[..2] != [a, b]
    ensures var events := [GetReader, Read(0, 4, 4), Enqueue([a, b]), GetByobRequest, RespondWithNewView(other, 2, 4)];
            && Run(events).state == Readable && Run(events).received == [a, b]
            && Flow(Run(events)) == other[..2]
            && OverwritesAt(events, 4)
  {
    hide Run, Stream.Process;
    var view := RespondWithNewView(other, 2, 4);
    var e2 := [GetReader, Read(0, 4, 4), Enqueue([a, b])];
    var e3 := e2 + [GetByobRequest];
    var events := [GetReader, Read(0, 4, 4), Enqueue([a, b]), GetByobRequest, view];
    assert events == e3 + [view] && events[..4] == e3;
    ShortRead(a, b);
    RunAppend(e2, GetByobRequest);
    RunAppend(e3, view);
    var s3 := Run(e3);
    var want := s3.pending[0];
    assert s3.Matches(2, 4);
    assert s3.WithBuffer(other).RespondInternal(4, other[2..4]).0 == s3.WithBuffer(other);
    assert Run(events) == s3.WithBuffer(other);
  }
}
