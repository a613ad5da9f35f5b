/** How bytes are shared out: what each pending read is given of bytes that come in, by a queue or by a
    response, and what is left. */
module ByteShares {
  import Align
  import opened ByteModel
  import opened ByteSafety
  import opened ByteCalls

  /** The reads that are settled, and what stays for the others. */
  datatype Share = Share(given: seq<Settled>, pending: seq<Want>, requests: seq<nat>, queued: seq<Byte>)

  /** The first read is given all the whole elements that there are and that fit its view, after the
      bytes that it has; the next read what comes after them. A read that cannot be given an element
      keeps what there is and waits. */
  function Shared(pending: seq<Want>, requests: seq<nat>, bytes: seq<Byte>): Share
    requires |pending| == |requests| && AllValid(pending)
    decreases |pending|
  {
    if pending == [] || bytes == [] then Share([], pending, requests, bytes)
    else
      var head, all := pending[0], pending[0].filled + bytes;
      if |all| < head.elementSize then Share([], [head.(filled := all)] + pending[1..], requests, [])
      else
        var n := WholeIn(Least(|all|, head.byteLength), head.elementSize);
        var rest := Shared(pending[1..], requests[1..], all[n..]);
        rest.(given := [Given(requests[0], head, all[..n])] + rest.given)
  }

  /** As many bytes as make whole elements. */
  function WholeIn(n: nat, size: nat): (r: nat)
    requires size > 0
    ensures r <= n
  {
    n - n % size
  }

  function Given(n: nat, view: Want, bytes: seq<Byte>): Settled { Settled(n, Chunk(view.(filled := bytes), false)) }

  /** The stream when it has shared out its queue. */
  function AfterSharing(s: Stream, share: Share): Stream {
    s.(settled := s.settled + share.given, pending := share.pending, requests := share.requests, queued := share.queued)
  }

  lemma WholeIsUnique(n: nat, k: nat, size: nat)
    requires size > 0 && k % size == 0 && k <= n < k + size
    ensures k == WholeIn(n, size)
  {
    Align.DivisionIsUnique(n, size, k / size, n - k);
  }

  /** What one fill of a head takes. */
  lemma TakeIsWhole(want: Want, available: nat)
    requires want.Valid() && |want.filled| < want.elementSize && available > 0
    ensures var (n, ready) := want.Take(available);
            var all := |want.filled| + available;
            && (ready <==> all >= want.elementSize)
            && n == if ready then WholeIn(Least(all, want.byteLength), want.elementSize) - |want.filled| else available
  {
    TakeIsAligned(want, available);
    var (n, ready) := want.Take(available);
    var k, size := |want.filled| + n, want.elementSize;
    hide Want.Take;
    if ready {
      WholeIsUnique(Least(|want.filled| + available, want.byteLength), k, size);
      if k < size { Align.DivisionIsUnique(k, size, 0, k); }
    }
  }

  lemma HeadIsGiven(s: Stream)
    requires Core(s) && s.state == Readable && !s.closeRequested && s.pending != [] && s.queued != []
    requires |s.pending[0].filled + s.queued| >= s.pending[0].elementSize
    ensures var head, all := s.pending[0], s.pending[0].filled + s.queued;
            var n := WholeIn(Least(|all|, head.byteLength), head.elementSize);
            && s.pending[0].Take(|s.queued|).1
            && s.FillHead().ShiftAndCommit()
               == s.(settled := s.settled + [Given(s.requests[0], head, all[..n])], pending := s.pending[1..],
                     requests := s.requests[1..], queued := all[n..], requestLive := false)
  {
    var head, all := s.pending[0], s.pending[0].filled + s.queued;
    TakeIsWhole(head, |s.queued|);
    TakeIsAligned(head, |s.queued|);
    hide Want.Take, Ordered;
    var n := head.Take(|s.queued|).0;
    assert head.filled + s.queued[..n] == all[..|head.filled| + n] && s.queued[n..] == all[|head.filled| + n..];
  }

  lemma HeadStaysShort(s: Stream)
    requires Core(s) && s.pending != [] && s.queued != []
    requires |s.pending[0].filled + s.queued| < s.pending[0].elementSize
    ensures var head := s.pending[0];
            && !head.Take(|s.queued|).1
            && s.FillHead() == s.(pending := [head.(filled := head.filled + s.queued)] + s.pending[1..], queued := [],
                                  requestLive := false)
  {
    TakeIsWhole(s.pending[0], |s.queued|);
    hide Want.Take, Ordered;
    assert s.queued[..|s.queued|] == s.queued;
  }

  lemma {:induction false} ProcessShares(s: Stream)
    requires Core(s) && s.state == Readable && !s.closeRequested
    ensures var t := s.Process();
            t == AfterSharing(s, Shared(s.pending, s.requests, s.queued)).(requestLive := t.requestLive)
            && (t.requestLive <==> s.requestLive && (s.pending == [] || s.queued == []))
    decreases |s.pending|
  {
    hide Stream.FillHead, Stream.ShiftAndCommit, Ordered, Want.Take;
    if s.pending != [] && s.queued != [] {
      var head, all := s.pending[0], s.pending[0].filled + s.queued;
      FillHeadState(s);
      if |all| < head.elementSize {
        HeadStaysShort(s);
      } else {
        HeadIsGiven(s);
        DeliverHead(s);
        var t := s.FillHead().ShiftAndCommit();
        ProcessShares(t);
        Regroup(s.settled, t.settled[|s.settled|], Shared(t.pending, t.requests, t.queued).given);
      }
    }
  }

  lemma Regroup(a: seq<Settled>, x: Settled, b: seq<Settled>)
    ensures a + [x] + b == a + ([x] + b)
  {}

  /** Bytes enqueued are shared out behind those queued. */
  lemma EnqueueShares(s: Stream, bytes: seq<Byte>)
    requires Inv(s) && s.state == Readable && !s.closeRequested
    ensures var (t, reply) := s.Step(Enqueue(bytes));
            && reply == Returned
            && t == AfterSharing(s.(received := s.received + bytes), Shared(s.pending, s.requests, s.queued + bytes))
                    .(requestLive := s.requestLive && (s.pending == [] || bytes == []))
  {
    var u := s.(queued := s.queued + bytes, received := s.received + bytes);
    assert s.pending == [] || s.queued + bytes == bytes;
    hide Ordered, Stream.Process;
    if s.locked { ProcessShares(u); }
  }

  /** The head of a response that makes it whole is given its whole elements. */
  lemma CommitGives(s: Stream, want: Want)
    requires Core(s) && s.state == Readable && !s.closeRequested && s.pending != [] && s.queued == []
    requires want.Valid() && |want.filled| >= want.elementSize
    ensures var n := WholeIn(|want.filled|, want.elementSize);
            s.CommitWhole(want)
            == s.(settled := s.settled + [Given(s.requests[0], want, want.filled[..n])], pending := s.pending[1..],
                  requests := s.requests[1..], queued := want.filled[n..])
  {
    WholePart(want);
    hide Ordered;
    assert s.queued + want.filled[WholeIn(|want.filled|, want.elementSize)..]
           == want.filled[WholeIn(|want.filled|, want.elementSize)..];
  }

  /** The head is whole: it is given its elements, and the rest goes on to the other reads. */
  lemma WholeShares(s: Stream, bytes: seq<Byte>)
    requires Inv(s) && s.state == Readable && !s.closeRequested && s.pending != [] && !s.requestLive
    requires |s.pending[0].filled| + |bytes| <= s.pending[0].byteLength
    requires |s.pending[0].filled + bytes| >= s.pending[0].elementSize
    ensures var want := s.pending[0].(filled := s.pending[0].filled + bytes);
            var t := s.CommitWhole(want);
            Unfilled(t.pending) && t.Process() == AfterSharing(s, Shared(s.pending, s.requests, bytes))
  {
    var want := s.pending[0].(filled := s.pending[0].filled + bytes);
    CommitGives(s, want);
    RespondDelivers(s, want);
    hide Ordered, Stream.Process, Stream.CommitWhole;
    var t := s.CommitWhole(want);
    ProcessShares(t);
    Regroup(s.settled, t.settled[|s.settled|], Shared(t.pending, t.requests, t.queued).given);
  }

  lemma RespondShares(s: Stream, bytesWritten: nat, written: seq<Byte>)
    requires Inv(s) && s.state == Readable && s.requestLive
    requires bytesWritten <= |written| == s.pending[0].byteLength - |s.pending[0].filled|
    ensures var bytes := written[..bytesWritten];
            s.RespondReadable(bytesWritten, written)
            == AfterSharing(s.(received := s.received + bytes, requestLive := false),
                            Shared(s.pending, s.requests, bytes))
  {
    var bytes := written[..bytesWritten];
    var want := s.pending[0].(filled := s.pending[0].filled + bytes);
    var u := s.(received := s.received + bytes, requestLive := false);
    hide Ordered, Stream.Process, Stream.CommitWhole, Stream.Check, Shared;
    if |want.filled| < want.elementSize {
      ShortShares(u, bytes);
    } else {
      WholeShares(u, bytes);
      CheckHolds(u.CommitWhole(want), !s.closeRequested);
    }
  }

  /** Bytes of a response are shared out like those of an enqueue, and the request is over. */
  lemma ResponseShares(s: Stream, bytesWritten: nat, written: seq<Byte>)
    requires Inv(s) && s.state == Readable && s.requestLive
    requires bytesWritten <= |written| == s.pending[0].byteLength - |s.pending[0].filled|
    ensures var (t, reply) := s.Step(Respond(bytesWritten, written));
            var bytes := written[..bytesWritten];
            && reply == Returned
            && t == AfterSharing(s.(received := s.received + bytes, requestLive := false),
                                 Shared(s.pending, s.requests, bytes))
  {
    hide Stream.RespondReadable, AfterSharing, Shared, Ordered;
    RespondShares(s, bytesWritten, written);
    CheckHolds(s, s.state == Readable);
  }

  lemma ShortShares(s: Stream, bytes: seq<Byte>)
    requires Unfilled(s.pending) && s.pending != [] && |s.requests| == |s.pending| && s.queued == []
    requires |s.pending[0].filled + bytes| < s.pending[0].elementSize
    ensures AfterSharing(s, Shared(s.pending, s.requests, bytes))
            == s.(pending := [s.pending[0].(filled := s.pending[0].filled + bytes)] + s.pending[1..])
  {
    if bytes == [] { assert s.pending[0].filled + bytes == s.pending[0].filled; }
  }
}
