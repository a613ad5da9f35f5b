/** The objects of the BYOB path of lib/whatwg/streams/readable.js: a byte stream with its
    controller and reader, whose queue holds pieces of buffers and whose pending reads are
    descriptors, filled in place. Every operation is proved to do to the stream's value what
    ByteModel says. */
module ByteStreams {
  import opened ByteModel
  import ByteSafety
  import Align

  // ---- the queue -----------------------------------------------------------------------

  /** A piece of a transferred buffer. It may be empty. */
  datatype Piece = Piece(buffer: seq<Byte>, byteOffset: nat, byteLength: nat) {
    predicate InBounds() { byteOffset + byteLength <= |buffer| }

    function Bytes(): seq<Byte>
      requires InBounds()
    {
      buffer[byteOffset..byteOffset + byteLength]
    }
  }

  type Entry = p: Piece | p.InBounds() witness Piece([], 0, 0)

  function QueueBytes(queue: seq<Entry>): (bytes: seq<Byte>)
    ensures queue == [] ==> bytes == []
  {
    if queue == [] then [] else queue[0].Bytes() + QueueBytes(queue[1..])
  }

  lemma {:induction false} QueueBytesAppend(queue: seq<Entry>, e: Entry)
    ensures QueueBytes(queue + [e]) == QueueBytes(queue) + e.Bytes()
  {
    if queue == [] {
      assert queue + [e] == [e];
    } else {
      QueueBytesAppend(queue[1..], e);
      assert (queue + [e])[1..] == queue[1..] + [e];
      assert queue[0].Bytes() + (QueueBytes(queue[1..]) + e.Bytes()) == QueueBytes(queue) + e.Bytes();
    }
  }

  /** What is left of a piece when its first `n` bytes are gone. */
  function Rest(e: Entry, n: nat): Entry
    requires n <= e.byteLength
  {
    Piece(e.buffer, e.byteOffset + n, e.byteLength - n)
  }

  lemma PieceSplits(e: Entry, n: nat)
    requires n <= e.byteLength
    ensures e.Bytes()[..n] == e.buffer[e.byteOffset..e.byteOffset + n]
    ensures e.Bytes()[n..] == Rest(e, n).Bytes() && |e.Bytes()| == e.byteLength
  {}

  /** Taking the first `n` bytes of the head entry takes the first `n` bytes of the queue. */
  lemma QueueBytesShorten(queue: seq<Entry>, n: nat)
    requires queue != [] && n <= queue[0].byteLength
    ensures n <= |QueueBytes(queue)|
    ensures QueueBytes(queue)[..n] == queue[0].buffer[queue[0].byteOffset..queue[0].byteOffset + n]
    ensures n == queue[0].byteLength ==> QueueBytes(queue[1..]) == QueueBytes(queue)[n..]
    ensures QueueBytes([Rest(queue[0], n)] + queue[1..]) == QueueBytes(queue)[n..]
  {
    var head, tail := queue[0], QueueBytes(queue[1..]);
    PieceSplits(head, n);
    assert ([Rest(head, n)] + queue[1..])[1..] == queue[1..];
    assert QueueBytes(queue) == head.Bytes() + tail;
    assert QueueBytes([Rest(head, n)] + queue[1..]) == Rest(head, n).Bytes() + tail;
    hide QueueBytes, Piece.Bytes, Rest;
    CutFront(head.Bytes(), tail, n);
  }

  lemma CutFront(a: seq<Byte>, b: seq<Byte>, n: nat)
    requires n <= |a|
    ensures (a + b)[..n] == a[..n] && (a + b)[n..] == a[n..] + b
    ensures n == |a| ==> (a + b)[n..] == b
  {}

  /** ArrayBufferCopy */
  function Copied(dest: seq<Byte>, destStart: nat, src: seq<Byte>, srcStart: nat, n: nat): (r: seq<Byte>)
    requires destStart + n <= |dest| && srcStart + n <= |src|
    ensures |r| == |dest|
  {
    dest[..destStart] + src[srcStart..srcStart + n] + dest[destStart + n..]
  }

  // ---- pull-into descriptors -------------------------------------------------------------

  class PullIntoDescriptor {
    var buffer: seq<Byte>
    const byteOffset: nat
    const byteLength: nat
    const elementSize: nat
    var bytesFilled: nat

    constructor (buffer: seq<Byte>, byteOffset: nat, byteLength: nat, elementSize: nat)
      requires IsView(byteLength, elementSize) && byteOffset + byteLength <= |buffer|
      ensures Valid() && Value() == Want(byteOffset, byteLength, elementSize, [])
      ensures this.byteOffset == byteOffset && this.byteLength == byteLength && this.elementSize == elementSize
    {
      this.buffer, this.byteOffset, this.byteLength, this.elementSize := buffer, byteOffset, byteLength, elementSize;
      bytesFilled := 0;
    }

    ghost predicate Valid()
      reads this
    {
      IsView(byteLength, elementSize) && bytesFilled <= byteLength && byteOffset + byteLength <= |buffer|
    }

    function Value(): (w: Want)
      reads this
      requires byteOffset + bytesFilled <= |buffer|
      ensures |w.filled| == bytesFilled && w.byteOffset == byteOffset
      ensures w.byteLength == byteLength && w.elementSize == elementSize
    {
      Want(byteOffset, byteLength, elementSize, buffer[byteOffset..byteOffset + bytesFilled])
    }

    /** What the part not yet filled holds. */
    function Region(): (r: seq<Byte>)
      reads this
      requires bytesFilled <= byteLength && byteOffset + byteLength <= |buffer|
      ensures |r| == byteLength - bytesFilled
    {
      buffer[byteOffset + bytesFilled..byteOffset + byteLength]
    }

    /** What the source writes through the view of a BYOB request. */
    method Write(bytes: seq<Byte>)
      requires Valid() && |bytes| == byteLength - bytesFilled
      modifies this`buffer
      ensures Valid() && Value() == old(Value()) && Region() == bytes
    {
      buffer := Copied(buffer, byteOffset + bytesFilled, bytes, 0, |bytes|);
    }

    /** Swaps the buffer, and the bytes in it. */
    method Replace(newBuffer: seq<Byte>)
      requires Valid() && byteOffset + byteLength <= |newBuffer|
      modifies this`buffer
      ensures Valid() && Region() == newBuffer[byteOffset + bytesFilled..byteOffset + byteLength]
      ensures Value() == old(Value()).(filled := newBuffer[byteOffset..byteOffset + bytesFilled])
    {
      buffer := newBuffer;
    }

    /** Counts `n` more bytes of the region as filled. */
    method Extend(n: nat)
      requires Valid() && bytesFilled + n <= byteLength
      modifies this`bytesFilled
      ensures Valid() && bytesFilled == old(bytesFilled) + n
      ensures Value() == old(Value()).(filled := old(Value()).filled + old(Region())[..n])
    {
      assert buffer[byteOffset..byteOffset + bytesFilled + n] == Value().filled + Region()[..n];
      bytesFilled := bytesFilled + n;
    }

    /** Copies into the region not yet filled. */
    method Receive(src: seq<Byte>, srcStart: nat, n: nat)
      requires Valid() && bytesFilled + n <= byteLength && srcStart + n <= |src|
      modifies this
      ensures Valid() && Value() == old(Value()).(filled := old(Value()).filled + src[srcStart..srcStart + n])
    {
      buffer := Copied(buffer, byteOffset + bytesFilled, src, srcStart, n);
      bytesFilled := bytesFilled + n;
    }
  }

  ghost predicate AllDescriptors(ds: seq<PullIntoDescriptor>)
    reads ds
  {
    && (forall i :: 0 <= i < |ds| ==> ds[i].Valid())
    && (forall i, j :: 0 <= i < j < |ds| ==> ds[i] != ds[j])
  }

  function Wants(ds: seq<PullIntoDescriptor>): (ws: seq<Want>)
    reads ds
    requires AllDescriptors(ds)
    ensures |ws| == |ds| && AllValid(ws)
    ensures forall i :: 0 <= i < |ds| ==> ws[i] == ds[i].Value()
  {
    if ds == [] then [] else [ds[0].Value()] + Wants(ds[1..])
  }

  lemma WantsAppend(ds: seq<PullIntoDescriptor>, d: PullIntoDescriptor)
    requires AllDescriptors(ds) && d.Valid() && d !in ds
    ensures AllDescriptors(ds + [d]) && Wants(ds + [d]) == Wants(ds) + [d.Value()]
  {}

  lemma NoWants()
    ensures AllDescriptors([]) && Wants([]) == []
  {}

  // ---- the stream --------------------------------------------------------------------------

  class ReadableByteStream {
    var state: Phase
    var locked: bool
    var closeRequested: bool
    var queue: seq<Entry>
    var queueTotalSize: int
    var pendingPullIntos: seq<PullIntoDescriptor>
    var readIntoRequests: seq<nat>
    var byobRequest: bool

    /** Histories, as in ByteModel. */
    var cancelled: bool
    var issued: nat
    var settled: seq<Settled>
    var received: seq<Byte>
    var faulted: bool

    ghost predicate Shape()
      reads this, pendingPullIntos
    {
      AllDescriptors(pendingPullIntos) && queueTotalSize == |QueueBytes(queue)|
    }

    function View(): Stream
      reads this, pendingPullIntos
      requires AllDescriptors(pendingPullIntos)
    {
      Stream(state, locked, closeRequested, QueueBytes(queue), Wants(pendingPullIntos), readIntoRequests, byobRequest,
             cancelled, issued, settled, received, faulted)
    }

    ghost predicate Valid()
      reads this, pendingPullIntos
    {
      Shape() && ByteSafety.Inv(View())
    }

    constructor ()
      ensures Valid() && View() == INITIAL
    {
      state, locked, closeRequested := Readable, false, false;
      queue, queueTotalSize, pendingPullIntos, readIntoRequests, byobRequest := [], 0, [], [], false;
      cancelled, issued, settled, received, faulted := false, 0, [], [], false;
    }

    method FulfillReadIntoRequest(outcome: Outcome)
      requires Shape()
      modifies this`faulted, this`readIntoRequests, this`settled
      ensures Shape() && View() == old(View()).Fulfill(outcome)
    {
      hide Wants, QueueBytes, AllDescriptors;
      if |readIntoRequests| == 0 {
        faulted := true;
        return;
      }
      settled := settled + [Settled(readIntoRequests[0], outcome)];
      readIntoRequests := readIntoRequests[1..];
    }

    method CommitPullIntoDescriptor(d: PullIntoDescriptor)
      requires Shape() && d.Valid()
      modifies this`faulted, this`readIntoRequests, this`settled
      ensures Shape() && View() == old(View()).Commit(d.Value())
    {
      hide Wants, QueueBytes, PullIntoDescriptor.Value, Stream.Fulfill;
      var done := state == Closed;
      faulted := faulted || state == Errored || (done && d.bytesFilled != 0)
                 || d.bytesFilled > d.byteLength || d.bytesFilled % d.elementSize != 0;
      FulfillReadIntoRequest(Chunk(d.Value(), done));
    }

    method EnqueueChunkToQueue(buffer: seq<Byte>, byteOffset: nat, byteLength: nat)
      requires Shape() && byteOffset + byteLength <= |buffer|
      modifies this`queue, this`queueTotalSize
      ensures Shape() && QueueBytes(queue) == old(QueueBytes(queue)) + buffer[byteOffset..byteOffset + byteLength]
    {
      QueueBytesAppend(queue, Piece(buffer, byteOffset, byteLength));
      queue := queue + [Piece(buffer, byteOffset, byteLength)];
      queueTotalSize := queueTotalSize + byteLength;
    }

    method ResetQueue()
      requires Shape()
      modifies this`queue, this`queueTotalSize
      ensures Shape() && QueueBytes(queue) == []
    {
      queue, queueTotalSize := [], 0;
    }

    method ShiftPendingPullInto() returns (d: PullIntoDescriptor)
      requires Shape() && pendingPullIntos != []
      modifies this`pendingPullIntos, this`byobRequest
      ensures d == old(pendingPullIntos)[0] && pendingPullIntos == old(pendingPullIntos)[1..]
      ensures Shape() && View() == old(View()).(pending := old(View()).pending[1..], requestLive := false)
    {
      d := pendingPullIntos[0];
      pendingPullIntos := pendingPullIntos[1..];
      byobRequest := false;
    }

    /** One round of the copy loop: up to `remaining` bytes of the head entry move. */
    method CopyFromHead(d: PullIntoDescriptor, remaining: nat) returns (bytesToCopy: nat)
      requires Shape() && d.Valid() && queue != [] && 0 < remaining <= d.byteLength - d.bytesFilled
      requires pendingPullIntos == [] || pendingPullIntos[0] == d
      modifies this`queue, this`queueTotalSize, this`byobRequest, d
      ensures Shape() && d.Valid() && !byobRequest
      ensures bytesToCopy <= remaining && bytesToCopy <= |old(QueueBytes(queue))|
      ensures |queue| < |old(queue)| + bytesToCopy
      ensures d.Value() == old(d.Value()).(filled := old(d.Value()).filled + old(QueueBytes(queue))[..bytesToCopy])
      ensures QueueBytes(queue) == old(QueueBytes(queue))[bytesToCopy..]
    {
      var head: Entry := queue[0];
      bytesToCopy := if remaining < head.byteLength then remaining else head.byteLength;
      QueueBytesShorten(queue, bytesToCopy);
      if head.byteLength == bytesToCopy {
        queue := queue[1..];
      } else {
        queue := [Rest(head, bytesToCopy)] + queue[1..];
      }
      queueTotalSize := queueTotalSize - bytesToCopy;
      assert pendingPullIntos == [] || pendingPullIntos[0] == d;
      byobRequest := false;
      d.Receive(head.buffer, head.byteOffset, bytesToCopy);
    }

    /** How much of the queue is to go into the descriptor. */
    method CountToCopy(d: PullIntoDescriptor) returns (n: nat, ready: bool)
      requires Shape() && d.Valid()
      ensures (n, ready) == d.Value().Take(|QueueBytes(queue)|)
    {
      hide Align.Down, QueueBytes, AllDescriptors;
      var currentAligned := Align.Down(d.bytesFilled, d.elementSize);
      var room := d.byteLength - d.bytesFilled;
      var maxToCopy := if queueTotalSize < room then queueTotalSize else room;
      var maxAligned := Align.Down(d.bytesFilled + maxToCopy, d.elementSize);
      n, ready := maxToCopy, false;
      if maxAligned > currentAligned {
        Align.WholeStep(d.bytesFilled, d.bytesFilled + maxToCopy, d.elementSize);
        n, ready := maxAligned - d.bytesFilled, true;
      }
    }

    /** A prefix of the queued bytes moves into the descriptor, as much of it as Take says.
        Empty entries in the queue are skipped. */
    method FillPullIntoDescriptorFromQueue(d: PullIntoDescriptor) returns (ready: bool)
      requires Shape() && d.Valid() && queueTotalSize > 0 && d.bytesFilled < d.elementSize
      requires pendingPullIntos == [] || pendingPullIntos[0] == d
      modifies this`queue, this`queueTotalSize, this`byobRequest, d
      ensures Shape() && d.Valid()
      ensures var (n, isReady) := old(d.Value()).Take(|old(QueueBytes(queue))|);
              && ready == isReady && n > 0 && !byobRequest
              && d.Value() == old(d.Value()).(filled := old(d.Value()).filled + old(QueueBytes(queue))[..n])
              && QueueBytes(queue) == old(QueueBytes(queue))[n..]
              && (!ready ==> queueTotalSize == 0)
    {
      hide Want.Take, QueueBytes, PullIntoDescriptor.Value, AllDescriptors, IsView;
      ghost var want, bytes := d.Value(), QueueBytes(queue);
      ByteSafety.TakeIsAligned(want, |bytes|);
      var remaining: int;
      remaining, ready := CountToCopy(d);
      ghost var n := remaining;
      while remaining > 0
        invariant 0 <= remaining <= n <= |bytes| && Shape() && d.Valid() && d.bytesFilled + remaining <= d.byteLength
        invariant QueueBytes(queue) == bytes[n - remaining..]
        invariant d.Value() == want.(filled := want.filled + bytes[..n - remaining])
        invariant remaining < n ==> !byobRequest
        decreases remaining + |queue|
      {
        ghost var copied := n - remaining;
        var bytesToCopy := CopyFromHead(d, remaining);
        NextBytes(want.filled, bytes, copied, bytesToCopy);
        remaining := remaining - bytesToCopy;
      }
      if !ready {
        assert queueTotalSize == 0;
        assert 0 < d.bytesFilled < d.elementSize by { assert |d.Value().filled| == |want.filled| + n; }
      }
    }

    static lemma NextBytes(filled: seq<Byte>, bytes: seq<Byte>, copied: nat, n: nat)
      requires copied + n <= |bytes|
      ensures bytes[copied..][n..] == bytes[copied + n..]
      ensures filled + bytes[..copied] + bytes[copied..][..n] == filled + bytes[..copied + n]
    {}

    /** The loop's fill, of the head descriptor. */
    method FillHead() returns (ready: bool)
      requires Shape() && pendingPullIntos != [] && queueTotalSize > 0
      requires pendingPullIntos[0].bytesFilled < pendingPullIntos[0].elementSize
      modifies this`queue, this`queueTotalSize, this`byobRequest, pendingPullIntos[0]
      ensures Shape() && View() == old(View()).FillHead()
      ensures ready == old(View()).pending[0].Take(|old(View()).queued|).1
      ensures !ready ==> queueTotalSize == 0
    {
      hide Want.Take, QueueBytes, PullIntoDescriptor.Value;
      ghost var rest := Wants(pendingPullIntos[1..]);
      ready := FillPullIntoDescriptorFromQueue(pendingPullIntos[0]);
      assert Wants(pendingPullIntos[1..]) == rest;
    }

    method ShiftAndCommit()
      requires Shape() && pendingPullIntos != []
      modifies this`pendingPullIntos, this`byobRequest, this`faulted, this`readIntoRequests, this`settled
      ensures pendingPullIntos == old(pendingPullIntos)[1..]
      ensures Shape() && View() == old(View()).ShiftAndCommit()
    {
      hide QueueBytes, PullIntoDescriptor.Value, Stream.Commit;
      var d := ShiftPendingPullInto();
      CommitPullIntoDescriptor(d);
    }

    method ProcessPullIntoDescriptorsUsingQueue()
      requires Shape() && ByteSafety.Unfilled(View().pending)
      modifies this, pendingPullIntos
      ensures Shape() && View() == old(View()).Process()
    {
      hide Stream.Process, Stream.FillHead, Stream.ShiftAndCommit, QueueBytes, Want.Take, PullIntoDescriptor.Value,
           AllDescriptors, IsView, ByteSafety.Unfilled;
      ProcessedAlready(View());
      while |pendingPullIntos| > 0
        invariant forall d :: d in pendingPullIntos ==> d in old(pendingPullIntos)
        invariant Shape() && ByteSafety.Unfilled(View().pending)
        invariant View().Process() == old(View()).Process()
        invariant pendingPullIntos == [] || queueTotalSize == 0 ==> View().Process() == View()
        decreases |pendingPullIntos|, queueTotalSize
      {
        if queueTotalSize == 0 {
          return;
        }
        ByteSafety.ProcessRound(View());
        HeadIsUnfilled();
        assert pendingPullIntos[0] in pendingPullIntos;
        var ready := FillHead();
        if ready {
          ShiftAndCommit();
          ProcessedAlready(View());
        }
      }
    }

    static lemma ProcessedAlready(s: Stream)
      requires AllValid(s.pending)
      ensures s.pending == [] || s.queued == [] ==> s.Process() == s
    {}

    lemma HeadIsUnfilled()
      requires Shape() && pendingPullIntos != [] && ByteSafety.Unfilled(View().pending)
      ensures pendingPullIntos[0].bytesFilled < pendingPullIntos[0].elementSize
    {
      assert View().pending[0] == pendingPullIntos[0].Value();
    }

    // ---- errors and reads ------------------------------------------------------------------

    method RejectReadIntoRequests()
      modifies this`settled, this`readIntoRequests
      ensures settled == old(settled) + Failures(old(readIntoRequests)) && readIntoRequests == []
    {
      for i := 0 to |readIntoRequests|
        invariant readIntoRequests == old(readIntoRequests)
        invariant settled == old(settled) + Failures(readIntoRequests)[..i]
      {
        settled := settled + [Settled(readIntoRequests[i], Failed)];
      }
      readIntoRequests := [];
    }

    method ControllerError()
      requires Shape()
      modifies this
      ensures Shape() && View() == old(View()).Fail()
      ensures forall d :: d in pendingPullIntos ==> d in old(pendingPullIntos)
    {
      hide Wants, AllDescriptors, QueueBytes;
      if state != Readable {
        return;
      }
      NoWants();
      byobRequest, pendingPullIntos := false, [];
      ResetQueue();
      state := Errored;
      RejectReadIntoRequests();
    }

    method Settles(outcome: Outcome)
      requires Shape()
      modifies this`issued, this`settled
      ensures Shape() && View() == old(View()).Settles(outcome)
      ensures issued == old(issued) + 1 && settled == old(settled) + [Settled(old(issued), outcome)]
    {
      settled := settled + [Settled(issued, outcome)];
      issued := issued + 1;
    }

    method AddReadIntoRequest(d: PullIntoDescriptor)
      requires Shape() && d.Valid() && d !in pendingPullIntos
      modifies this`pendingPullIntos, this`readIntoRequests, this`issued
      ensures Shape() && View() == old(View()).AddRequest(d.Value())
      ensures pendingPullIntos == old(pendingPullIntos) + [d]
    {
      hide Wants, AllDescriptors, QueueBytes, PullIntoDescriptor.Value;
      WantsAppend(pendingPullIntos, d);
      pendingPullIntos := pendingPullIntos + [d];
      readIntoRequests := readIntoRequests + [issued];
      issued := issued + 1;
    }

    /** read(view), up to the point where the queue has something for it. */
    method PullInto(buffer: seq<Byte>, byteOffset: nat, byteLength: nat, elementSize: nat)
      requires Shape() && IsView(byteLength, elementSize) && byteOffset + byteLength <= |buffer|
      modifies this
      ensures Shape() && View() == old(View()).PullInto(Want(byteOffset, byteLength, elementSize, []))
    {
      hide Want.Take, QueueBytes, Stream.Fail;
      if state == Errored {
        Settles(Failed);
        return;
      }
      var d := new PullIntoDescriptor(buffer, byteOffset, byteLength, elementSize);
      if |pendingPullIntos| > 0 {
        AddReadIntoRequest(d);
      } else if state == Closed {
        Settles(Chunk(d.Value(), true));
      } else if queueTotalSize > 0 {
        PullFromQueue(d);
      } else {
        AddReadIntoRequest(d);
      }
    }

    method PullFromQueue(d: PullIntoDescriptor)
      requires Shape() && d.Valid() && d.bytesFilled == 0
      requires state == Readable && pendingPullIntos == [] && queueTotalSize > 0
      modifies this, d
      ensures Shape() && View() == old(View()).PullInto(old(d.Value()))
    {
      hide Want.Take, QueueBytes, Stream.Fail, PullIntoDescriptor.Value, Wants, AllDescriptors;
      ghost var before, want := View(), d.Value();
      ghost var n := want.Take(|before.queued|).0;
      ghost var s := before.(queued := before.queued[n..], requestLive := false);
      ghost var taken := want.(filled := before.queued[..n]);
      var ready := FillPullIntoDescriptorFromQueue(d);
      assert View() == s && d.Value() == taken;
      PullCases(before, want, n, ready);
      hide Stream.PullInto, Stream.Settles, Stream.AddRequest;
      if ready {
        if queueTotalSize == 0 && closeRequested {
          state := Closed;
        }
        assert View() == s.(state := if s.queued == [] && before.closeRequested then Closed else before.state);
        Settles(Chunk(d.Value(), false));
      } else if closeRequested {
        ControllerError();
        assert View() == s.Fail();
        Settles(Failed);
      } else {
        AddReadIntoRequest(d);
      }
    }

    static lemma PullCases(s: Stream, want: Want, n: nat, ready: bool)
      requires want.Valid() && want.filled == [] && (n, ready) == want.Take(|s.queued|)
      requires s.state == Readable && s.pending == [] && s.queued != []
      ensures var t := s.(queued := s.queued[n..], requestLive := false);
              var taken := want.(filled := s.queued[..n]);
              s.PullInto(want) ==
                if ready then
                  t.(state := if t.queued == [] && s.closeRequested then Closed else s.state)
                  .Settles(Chunk(taken, false))
                else if s.closeRequested then t.Fail().Settles(Failed)
                else t.AddRequest(taken)
    {}

    // ---- responses -------------------------------------------------------------------------

    method RespondInClosedState()
      requires Shape() && pendingPullIntos != [] && (!locked ==> readIntoRequests == [])
      modifies this
      ensures Shape() && View() == old(View()).Check(old(View()).pending[0].filled == []).CommitAll()
    {
      hide QueueBytes, PullIntoDescriptor.Value, Stream.ShiftAndCommit;
      faulted := faulted || pendingPullIntos[0].bytesFilled != 0;
      assert old(View()).pending[0] == old(pendingPullIntos[0].Value());
      ghost var start := View();
      if locked {
        while |readIntoRequests| > 0
          invariant Shape() && View().CommitAll() == start.CommitAll()
          decreases |pendingPullIntos|
        {
          if |pendingPullIntos| == 0 {
            faulted := true;
            return;
          }
          ShiftAndCommit();
        }
      }
    }

    /** Bytes past the last whole element go back to the queue, in a buffer of their own. */
    method ReturnRemainder(d: PullIntoDescriptor)
      requires Shape() && d.Valid() && d !in pendingPullIntos
      modifies this`queue, this`queueTotalSize, d
      ensures Shape() && d.Valid()
      ensures var want := old(d.Value());
              var keep := Align.Down(|want.filled|, want.elementSize);
              && d.Value() == want.(filled := want.filled[..keep])
              && QueueBytes(queue) == old(QueueBytes(queue)) + want.filled[keep..]
    {
      hide QueueBytes;
      ghost var want := d.Value();
      var remainderSize := d.bytesFilled % d.elementSize;
      ghost var keep := d.bytesFilled - remainderSize;
      assert keep == Align.Down(d.bytesFilled, d.elementSize);
      hide Align.Down;
      if remainderSize > 0 {
        var end := d.byteOffset + d.bytesFilled;
        var remainder := d.buffer[end - remainderSize..end];
        assert remainder == want.filled[keep..] && remainder[0..|remainder|] == remainder;
        EnqueueChunkToQueue(remainder, 0, |remainder|);
      } else {
        assert QueueBytes(queue) + want.filled[keep..] == QueueBytes(queue);
      }
      d.bytesFilled := d.bytesFilled - remainderSize;
      assert d.Value().filled == want.filled[..keep];
    }

    method CommitHead()
      requires Shape() && pendingPullIntos != [] && !byobRequest
      modifies this, pendingPullIntos
      ensures Shape() && View() == old(View()).CommitWhole(old(View()).pending[0])
      ensures pendingPullIntos == old(pendingPullIntos)[1..]
    {
      hide QueueBytes, PullIntoDescriptor.Value, Stream.Commit, Align.Down;
      ghost var before := View();
      var d := ShiftPendingPullInto();
      assert d.Value() == before.pending[0];
      assert View() == before.(pending := before.pending[1..]);
      ReturnRemainder(d);
      CommitPullIntoDescriptor(d);
    }

    /** Whether the call throws; if not, the bytes written are those the head's region holds. */
    method RespondInReadableState(bytesWritten: nat) returns (thrown: bool)
      requires Shape() && pendingPullIntos != [] && ByteSafety.Unfilled(View().pending)
      modifies this, pendingPullIntos
      ensures Shape() && thrown == (bytesWritten > old(|pendingPullIntos[0].Region()|))
      ensures View() == if thrown then old(View())
                        else old(View()).RespondReadable(bytesWritten, old(pendingPullIntos[0].Region()))
    {
      hide Stream.Process, Stream.CommitWhole, QueueBytes, PullIntoDescriptor.Value, PullIntoDescriptor.Region;
      var d := pendingPullIntos[0];
      if d.bytesFilled + bytesWritten > d.byteLength {
        return true;
      }
      thrown := false;
      ghost var before, written := View(), d.Region()[..bytesWritten];
      ghost var want := before.pending[0].(filled := before.pending[0].filled + written);
      FillHeadByResponse(d, bytesWritten);
      ghost var s := before.(received := before.received + written, requestLive := false);
      assert View() == s.(pending := [want] + s.pending[1..]);
      if d.bytesFilled < d.elementSize {
        return;
      }
      RestIsUnfilled(before);
      SameTail(s, View(), want);
      CommitAndProcess();
    }

    method CommitAndProcess()
      requires Shape() && pendingPullIntos != [] && !byobRequest && ByteSafety.Unfilled(View().pending[1..])
      modifies this, pendingPullIntos
      ensures Shape()
      ensures View() == old(View()).CommitWhole(old(View()).pending[0]).Check(!old(closeRequested)).Process()
    {
      hide Stream.Process, Stream.CommitWhole, ByteSafety.Unfilled, QueueBytes, AllDescriptors,
           PullIntoDescriptor.Value;
      CommitHead();
      faulted := faulted || closeRequested;
      ProcessPullIntoDescriptorsUsingQueue();
    }

    static lemma SameTail(s: Stream, t: Stream, want: Want)
      requires s.pending != [] && want.elementSize > 0 && t == s.(pending := [want] + s.pending[1..])
      ensures t.CommitWhole(want) == s.CommitWhole(want)
    {
      assert t.pending[1..] == s.pending[1..];
    }

    static lemma RestIsUnfilled(s: Stream)
      requires ByteSafety.Unfilled(s.pending) && s.pending != []
      ensures ByteSafety.Unfilled(s.pending[1..])
    {}

    method FillHeadByResponse(d: PullIntoDescriptor, bytesWritten: nat)
      requires Shape() && pendingPullIntos != [] && pendingPullIntos[0] == d
               && d.bytesFilled + bytesWritten <= d.byteLength
      modifies this`byobRequest, this`received, d
      ensures Shape()
      ensures var s, written := old(View()), old(d.Region())[..bytesWritten];
              View() == s.(pending := [s.pending[0].(filled := s.pending[0].filled + written)] + s.pending[1..],
                           received := s.received + written, requestLive := false)
    {
      hide QueueBytes, PullIntoDescriptor.Value, PullIntoDescriptor.Region;
      ghost var rest := Wants(pendingPullIntos[1..]);
      received := received + d.Region()[..bytesWritten];
      byobRequest := false;
      d.Extend(bytesWritten);
      assert Wants(pendingPullIntos[1..]) == rest;
    }

    method RespondInternal(bytesWritten: nat) returns (r: Reply)
      requires Shape() && pendingPullIntos != [] && ByteSafety.Unfilled(View().pending)
      requires !locked ==> readIntoRequests == []
      modifies this, pendingPullIntos
      ensures Shape() && (View(), r) == old(View()).RespondInternal(bytesWritten, old(pendingPullIntos[0].Region()))
    {
      hide Stream.CommitAll, Stream.RespondReadable, QueueBytes, PullIntoDescriptor.Value, PullIntoDescriptor.Region;
      if state == Closed {
        if bytesWritten != 0 {
          return Thrown;
        }
        RespondInClosedState();
        return Returned;
      }
      faulted := faulted || state != Readable;
      var thrown := RespondInReadableState(bytesWritten);
      r := if thrown then Thrown else Returned;
    }

    /** The view's buffer becomes the head's. */
    method ReplaceBuffer(buffer: seq<Byte>)
      requires Shape() && pendingPullIntos != []
      requires pendingPullIntos[0].byteOffset + pendingPullIntos[0].byteLength <= |buffer|
      modifies pendingPullIntos[0]
      ensures Shape() && View() == old(View()).WithBuffer(buffer)
      ensures var d := pendingPullIntos[0];
              && d.bytesFilled == old(pendingPullIntos[0].bytesFilled)
              && d.Region() == buffer[d.byteOffset + d.bytesFilled..d.byteOffset + d.byteLength]
    {
      hide QueueBytes, IsView, PullIntoDescriptor.Value, PullIntoDescriptor.Region;
      ghost var rest := Wants(pendingPullIntos[1..]);
      pendingPullIntos[0].Replace(buffer);
      assert Wants(pendingPullIntos[1..]) == rest;
    }

    method ClearHead()
      requires Shape() && pendingPullIntos != []
      modifies pendingPullIntos[0]
      ensures Shape()
      ensures var s := old(View()); View() == s.(pending := [s.pending[0].(filled := [])] + s.pending[1..])
    {
      hide QueueBytes;
      ghost var rest := Wants(pendingPullIntos[1..]);
      pendingPullIntos[0].bytesFilled := 0;
      assert Wants(pendingPullIntos[1..]) == rest;
    }

    // ---- public calls ----------------------------------------------------------------------

    method GetReader() returns (r: Reply)
      requires Valid()
      modifies this`locked
      ensures Valid() && (View(), r) == old(View()).Step(Event.GetReader)
    {
      hide ByteSafety.Inv, QueueBytes, Wants;
      ByteSafety.StepKeeps(View(), Event.GetReader);
      if locked {
        return Thrown;
      }
      locked := true;
      r := Returned;
    }

    method ReleaseLock() returns (r: Reply)
      requires Valid()
      modifies this`locked
      ensures Valid() && (View(), r) == old(View()).Step(Event.ReleaseLock)
    {
      hide ByteSafety.Inv, QueueBytes, Wants;
      ByteSafety.StepKeeps(View(), Event.ReleaseLock);
      if locked && |readIntoRequests| > 0 {
        return Thrown;
      }
      locked := false;
      r := Returned;
    }

    /** read(view) */
    method Read(buffer: seq<Byte>, byteOffset: nat, byteLength: nat, elementSize: nat) returns (r: Reply)
      requires Valid() && elementSize > 0 && byteLength % elementSize == 0 && byteOffset + byteLength <= |buffer|
      modifies this
      ensures Valid() && (View(), r) == old(View()).Step(Event.Read(byteOffset, byteLength, elementSize))
    {
      hide ByteSafety.Inv, QueueBytes, Wants, Stream.PullInto;
      ByteSafety.StepKeeps(View(), Event.Read(byteOffset, byteLength, elementSize));
      if !locked || byteLength == 0 {
        return Thrown;
      }
      r := Promised(issued);
      PullInto(buffer, byteOffset, byteLength, elementSize);
    }

    method Enqueue(buffer: seq<Byte>, byteOffset: nat, byteLength: nat) returns (r: Reply)
      requires Valid() && byteOffset + byteLength <= |buffer|
      modifies this, pendingPullIntos
      ensures Valid()
      ensures (View(), r) == old(View()).Step(Event.Enqueue(buffer[byteOffset..byteOffset + byteLength]))
    {
      hide ByteSafety.Inv, QueueBytes, Wants, Stream.Process;
      var bytes := buffer[byteOffset..byteOffset + byteLength];
      ByteSafety.StepKeeps(View(), Event.Enqueue(bytes));
      ValidMeans();
      if closeRequested || state != Readable {
        return Thrown;
      }
      r := Returned;
      received := received + bytes;
      EnqueueChunkToQueue(buffer, byteOffset, byteLength);
      if locked {
        ProcessPullIntoDescriptorsUsingQueue();
      }
    }

    method GetByobRequest() returns (r: Reply)
      requires Valid()
      modifies this`byobRequest
      ensures Valid() && (View(), r) == old(View()).Step(Event.GetByobRequest)
    {
      hide ByteSafety.Inv, QueueBytes, Wants;
      ByteSafety.StepKeeps(View(), Event.GetByobRequest);
      if |pendingPullIntos| > 0 {
        byobRequest := true;
      }
      r := Returned;
    }

    /** respond(bytesWritten), after the source has written `written` through the view. */
    method Respond(bytesWritten: nat, written: seq<Byte>) returns (r: Reply)
      requires Valid()
      requires byobRequest ==> |written| == pendingPullIntos[0].byteLength - pendingPullIntos[0].bytesFilled
      modifies this, pendingPullIntos
      ensures Valid() && (View(), r) == old(View()).Step(Event.Respond(bytesWritten, written))
    {
      hide ByteSafety.Inv, QueueBytes, Stream.RespondInternal;
      ByteSafety.StepKeeps(View(), Event.Respond(bytesWritten, written));
      ValidMeans();
      if !byobRequest {
        return Thrown;
      }
      ghost var before := View();
      pendingPullIntos[0].Write(written);
      assert View() == before;
      r := RespondInternal(bytesWritten);
    }

    method RespondWithNewView(buffer: seq<Byte>, byteOffset: nat, byteLength: nat) returns (r: Reply)
      requires Valid() && byteOffset + byteLength <= |buffer|
      modifies this, pendingPullIntos
      ensures Valid() && (View(), r) == old(View()).Step(Event.RespondWithNewView(buffer, byteOffset, byteLength))
    {
      hide ByteSafety.Inv, QueueBytes, Stream.RespondInternal, Stream.WithBuffer, PullIntoDescriptor.Value,
           PullIntoDescriptor.Region;
      ByteSafety.StepKeeps(View(), Event.RespondWithNewView(buffer, byteOffset, byteLength));
      ValidMeans();
      if !byobRequest {
        return Thrown;
      }
      var d := pendingPullIntos[0];
      if d.byteOffset + d.bytesFilled != byteOffset || d.byteLength != byteLength {
        return Thrown;
      }
      ByteSafety.WithBufferKeeps(View(), buffer);
      ReplaceBuffer(buffer);
      ValidMeans();
      r := RespondInternal(byteLength);
    }

    method Close() returns (r: Reply)
      requires Valid()
      modifies this
      ensures Valid() && (View(), r) == old(View()).Step(Event.Close)
    {
      hide ByteSafety.Inv, QueueBytes;
      ByteSafety.StepKeeps(View(), Event.Close);
      if closeRequested || state != Readable {
        return Thrown;
      }
      if queueTotalSize > 0 {
        closeRequested := true;
        return Returned;
      }
      if |pendingPullIntos| > 0 && pendingPullIntos[0].bytesFilled > 0 {
        ControllerError();
        return Thrown;
      }
      state := Closed;
      r := Returned;
    }

    method Error() returns (r: Reply)
      requires Valid()
      modifies this
      ensures Valid() && (View(), r) == old(View()).Step(Event.Error)
    {
      hide ByteSafety.Inv, QueueBytes, Wants, Stream.Fail;
      ByteSafety.StepKeeps(View(), Event.Error);
      ControllerError();
      r := Returned;
    }

    method ReadableStreamCancel()
      requires Shape()
      modifies this, pendingPullIntos
      ensures Shape() && View() == old(View()).CancelByReader()
    {
      hide QueueBytes, PullIntoDescriptor.Value, Wants, AllDescriptors;
      if state != Readable {
        return;
      }
      if |pendingPullIntos| > 0 {
        ClearHead();
      }
      ResetQueue();
      state, cancelled := Closed, true;
    }

    method Cancel() returns (r: Reply)
      requires Valid()
      modifies this, pendingPullIntos
      ensures Valid() && (View(), r) == old(View()).Step(Event.Cancel)
    {
      hide ByteSafety.Inv, Stream.CancelByReader, QueueBytes, Wants;
      ByteSafety.StepKeeps(View(), Event.Cancel);
      ReadableStreamCancel();
      r := Returned;
    }

    lemma ValidMeans()
      requires Valid()
      ensures ByteSafety.Unfilled(View().pending) && (!locked ==> readIntoRequests == [])
      ensures byobRequest ==> pendingPullIntos != []
    {}
  }
}
