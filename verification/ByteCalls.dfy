/** What each call does to a readable byte stream, case by case over its slots. */
module ByteCalls {
  import Align
  import opened ByteModel
  import opened ByteSafety

  // ---- reads -------------------------------------------------------------------------

  lemma LockDoes(s: Stream)
    requires AllValid(s.pending)
    ensures s.Step(GetReader) == if s.locked then (s, Thrown) else (s.(locked := true), Returned)
    ensures s.Step(ReleaseLock) == if s.locked && s.requests != [] then (s, Thrown) else (s.(locked := false), Returned)
    ensures s.Step(GetByobRequest) == (s.(requestLive := s.requestLive || s.pending != []), Returned)
  {}

  lemma ReadIsRefused(s: Stream, byteOffset: nat, byteLength: nat, elementSize: nat)
    requires AllValid(s.pending) && (!s.locked || !IsView(byteLength, elementSize))
    ensures s.Step(Read(byteOffset, byteLength, elementSize)) == (s, Thrown)
  {}

  /** The smaller of two. */
  function Least(a: nat, b: nat): nat { if a < b then a else b }

  /** A read with nothing to take waits, ends or fails, as the stream is. */
  lemma ReadWithoutBytes(s: Stream, byteOffset: nat, byteLength: nat, elementSize: nat)
    requires Inv(s) && s.locked && IsView(byteLength, elementSize) && (s.queued == [] || s.pending != [])
    ensures var want := Want(byteOffset, byteLength, elementSize, []);
            s.Step(Read(byteOffset, byteLength, elementSize)) ==
            (if s.state == Errored then
               s.(issued := s.issued + 1, settled := s.settled + [Settled(s.issued, Failed)])
             else if s.state == Closed && s.pending == [] then
               s.(issued := s.issued + 1, settled := s.settled + [Settled(s.issued, Chunk(want, true))])
             else s.(issued := s.issued + 1, pending := s.pending + [want], requests := s.requests + [s.issued]),
             Promised(s.issued))
  {
    hide Ordered;
  }

  /** A read that finds an element takes all the whole elements that are there and fit; a close that was
      waiting for these bytes happens. */
  lemma ReadTakesElements(s: Stream, byteOffset: nat, byteLength: nat, elementSize: nat)
    requires Inv(s) && s.locked && IsView(byteLength, elementSize) && s.pending == [] && |s.queued| >= elementSize
    ensures var room := Least(|s.queued|, byteLength);
            var n := room - room % elementSize;
            0 < n <= |s.queued|
            && s.Step(Read(byteOffset, byteLength, elementSize)) ==
               (s.(issued := s.issued + 1, queued := s.queued[n..], requestLive := false,
                   state := if n == |s.queued| && s.closeRequested then Closed else s.state,
                   settled := s.settled
                     + [Settled(s.issued, Chunk(Want(byteOffset, byteLength, elementSize, s.queued[..n]), false))]),
                Promised(s.issued))
  {
    FreshTake(Want(byteOffset, byteLength, elementSize, []), |s.queued|);
    hide Want.Take, Ordered;
  }

  /** A view has room for an element. */
  lemma ViewHasRoom(byteLength: nat, elementSize: nat)
    requires IsView(byteLength, elementSize)
    ensures elementSize <= byteLength
  {
    if byteLength < elementSize { Align.DivisionIsUnique(byteLength, elementSize, 0, byteLength); }
  }

  /** What a read without bytes takes of what is there. */
  lemma FreshTake(want: Want, available: nat)
    requires IsView(want.byteLength, want.elementSize) && want.filled == []
    ensures var room := Least(available, want.byteLength);
            var n := room - room % want.elementSize;
            if available >= want.elementSize then 0 < n <= room && want.Take(available) == (n, true)
            else want.Take(available) == (available, false)
  {
    var room, size := Least(available, want.byteLength), want.elementSize;
    ViewHasRoom(want.byteLength, size);
    Align.DivisionIsUnique(0, size, 0, 0);
    if available >= size {
      Align.DownIsWhole(size, size);
      Align.DivisionIsUnique(size, size, 1, 0);
      Align.DownIsMonotone(size, room, size);
    } else {
      Align.DivisionIsUnique(room, size, 0, room);
    }
  }

  /** A read that finds less than an element takes it and waits; if a close was waiting for these bytes
      the stream errors instead, and the read fails. */
  lemma ReadTakesPart(s: Stream, byteOffset: nat, byteLength: nat, elementSize: nat)
    requires Inv(s) && s.locked && IsView(byteLength, elementSize) && s.pending == [] && 0 < |s.queued| < elementSize
    ensures var part := Want(byteOffset, byteLength, elementSize, s.queued);
            var t := s.(issued := s.issued + 1, queued := [], requestLive := false);
            s.Step(Read(byteOffset, byteLength, elementSize)) ==
            (if s.closeRequested then t.(state := Errored, settled := s.settled + [Settled(s.issued, Failed)])
             else t.(pending := [part], requests := [s.issued]),
             Promised(s.issued))
  {
    var want := Want(byteOffset, byteLength, elementSize, []);
    FreshTake(want, |s.queued|);
    assert s.requests == [] && s.state == Readable;
    assert s.queued[..|s.queued|] == s.queued && s.queued[|s.queued|..] == [];
    assert s.settled + Failures(s.requests) == s.settled;
    assert s.pending + [want.(filled := s.queued)] == [want.(filled := s.queued)];
    assert s.requests + [s.issued] == [s.issued];
    hide Want.Take, Ordered;
  }

  // ---- the source --------------------------------------------------------------------

  /** Bytes are accepted while the stream is readable and no close was requested: with no read waiting
      they go to the end of the queue. */
  lemma EnqueueAccepts(s: Stream, bytes: seq<Byte>)
    requires Inv(s) && s.state == Readable && !s.closeRequested
    ensures var (t, reply) := s.Step(Enqueue(bytes));
            && reply == Returned && t.state == Readable && t.received == s.received + bytes
            && Flow(t) == Flow(s) + bytes && (t.pending != [] ==> t.queued == [])
            && (s.pending == [] ==> t == s.(queued := s.queued + bytes, received := s.received + bytes))
  {
    EnqueueKeeps(s, bytes);
    hide Flow, Ordered;
  }

  lemma EnqueueIsRefused(s: Stream, bytes: seq<Byte>)
    requires AllValid(s.pending) && (s.state != Readable || s.closeRequested)
    ensures s.Step(Enqueue(bytes)) == (s, Thrown)
  {}

  /** A response is accepted for a live request, with no more bytes than its region holds: these count as
      received, and the request is over. */
  lemma ResponseAccepts(s: Stream, bytesWritten: nat, written: seq<Byte>)
    requires Inv(s) && s.state == Readable && s.requestLive
    requires bytesWritten <= |written| == s.pending[0].byteLength - |s.pending[0].filled|
    ensures var (t, reply) := s.Step(Respond(bytesWritten, written));
            && reply == Returned && t.state == Readable && t.received == s.received + written[..bytesWritten]
            && Flow(t) == Flow(s) + written[..bytesWritten] && (t.pending != [] ==> t.queued == []) && !t.requestLive
  {
    RespondKeeps(s, bytesWritten, written);
    ResponseEndsRequest(s, bytesWritten, written);
    CheckHolds(s, s.state == Readable);
    hide Flow, Ordered, Stream.RespondReadable;
  }

  lemma {:induction false} ProcessKeepsRequest(s: Stream)
    requires Core(s) && s.state == Readable && !s.closeRequested && !s.requestLive
    ensures !s.Process().requestLive
    decreases |s.pending|
  {
    hide Stream.FillHead, Stream.ShiftAndCommit, Ordered;
    if s.pending != [] && s.queued != [] {
      FillHeadState(s);
      RoundKeepsRequest(s);
      if s.pending[0].Take(|s.queued|).1 {
        DeliverHead(s);
        ProcessKeepsRequest(s.FillHead().ShiftAndCommit());
      }
    }
  }

  lemma RoundKeepsRequest(s: Stream)
    requires s.pending != [] && s.pending[0].Valid() && !s.requestLive
    ensures !s.FillHead().requestLive && s.FillHead().pending != [] && !s.FillHead().ShiftAndCommit().requestLive
  {
    hide Want.Take;
  }

  lemma ResponseEndsRequest(s: Stream, bytesWritten: nat, written: seq<Byte>)
    requires Inv(s) && s.state == Readable && s.pending != []
    requires bytesWritten <= |written| == s.pending[0].byteLength - |s.pending[0].filled|
    ensures !s.RespondReadable(bytesWritten, written).requestLive
  {
    var want := s.pending[0].(filled := s.pending[0].filled + written[..bytesWritten]);
    var t := s.(received := s.received + written[..bytesWritten], requestLive := false);
    assert Inv(t) && want.Valid() && t.queued == [];
    if |want.filled| >= want.elementSize {
      RespondDelivers(t, want);
      CommitEndsRequest(t, want);
      hide Ordered, Stream.Process, Stream.CommitWhole;
      ProcessKeepsRequest(t.CommitWhole(want));
    }
  }

  lemma CommitEndsRequest(s: Stream, want: Want)
    requires s.pending != [] && want.elementSize > 0 && !s.requestLive
    ensures !s.CommitWhole(want).requestLive
  {}

  /** A response throws, and changes nothing, without a live request; with more bytes than its region
      holds; and with any byte once the stream is closed. */
  lemma ResponseIsRefused(s: Stream, bytesWritten: nat, written: seq<Byte>)
    requires Inv(s)
    requires !s.requestLive || (s.state == Closed && bytesWritten > 0)
             || (s.state == Readable && |written| == s.pending[0].byteLength - |s.pending[0].filled| < bytesWritten)
    ensures s.Step(Respond(bytesWritten, written)) == (s, Thrown)
  {
    hide Ordered;
  }

  /** A new view throws, and changes nothing, without a live request, or unless it starts where the head
      has its bytes up to and is as long as the whole head. */
  lemma NewViewIsRefused(s: Stream, buffer: seq<Byte>, byteOffset: nat, byteLength: nat)
    requires Inv(s) && byteOffset + byteLength <= |buffer|
    requires !s.requestLive || byteOffset != s.pending[0].byteOffset + |s.pending[0].filled|
             || byteLength != s.pending[0].byteLength
    ensures s.Step(RespondWithNewView(buffer, byteOffset, byteLength)) == (s, Thrown)
  {
    hide Ordered;
  }

  /** A new view that fits a head without bytes is a response with all its bytes. */
  lemma NewViewResponds(s: Stream, buffer: seq<Byte>, byteOffset: nat, byteLength: nat)
    requires Inv(s) && s.state == Readable && s.requestLive && s.pending[0].filled == []
    requires byteOffset == s.pending[0].byteOffset && byteLength == s.pending[0].byteLength
    requires byteOffset + byteLength <= |buffer|
    ensures s.Step(RespondWithNewView(buffer, byteOffset, byteLength))
            == s.Step(Respond(byteLength, buffer[byteOffset..byteOffset + byteLength]))
  {
    assert buffer[byteOffset..byteOffset + 0] == [];
    assert s.WithBuffer(buffer) == s;
    hide Ordered, Stream.RespondInternal, Stream.WithBuffer;
  }

  // ---- ends --------------------------------------------------------------------------

  /** The stream errored: nothing is queued or pending, and every waiting read fails. */
  function AllFail(s: Stream): Stream {
    s.(state := Errored, pending := [], requestLive := false, queued := [], settled := s.settled + Failures(s.requests),
       requests := [])
  }

  /** close() waits for queued bytes, errors the stream if a read has part of an element, and closes it
      otherwise; it throws on a stream that is not readable or has been told before. */
  lemma CloseDoes(s: Stream)
    requires AllValid(s.pending)
    ensures s.Step(Close) ==
            if s.state != Readable || s.closeRequested then (s, Thrown)
            else if s.queued != [] then (s.(closeRequested := true), Returned)
            else if s.pending != [] && s.pending[0].filled != [] then (AllFail(s), Thrown)
            else (s.(state := Closed), Returned)
  {}

  /** error() errors a readable stream; cancel() closes it and throws its bytes away, also those of the
      head. Neither touches another. */
  lemma ErrorDoes(s: Stream)
    requires AllValid(s.pending)
    ensures s.Step(Error) == (if s.state == Readable then AllFail(s) else s, Returned)
    ensures s.Step(Cancel) ==
            (if s.state != Readable then s
             else if s.pending == [] then s.(state := Closed, cancelled := true, queued := [])
             else s.(state := Closed, cancelled := true, queued := [],
                     pending := s.pending[0 := s.pending[0].(filled := [])]),
             Returned)
  {
    if s.pending != [] {
      assert [s.pending[0].(filled := [])] + s.pending[1..] == s.pending[0 := s.pending[0].(filled := [])];
    }
  }
}
