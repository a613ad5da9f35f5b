/** The objects of a readable stream with a default controller, of
    lib/whatwg/streams/readable.js: stream, controller and reader as one object with the
    controller's queue container. Every operation updates the slots in the order the source does,
    and is proved to do to the stream's value what ReadableModel says. */
module ReadableStreams {
  import opened SizedQueue
  import opened ReadableModel
  import ReadableSafety

  class ReadableStream {
    var state: Phase
    var locked: bool
    var closeRequested: bool
    var started: bool
    var pulling: bool
    var pullAgain: bool
    const hwm: real
    const controller: Container<Chunk>
    var readRequests: seq<nat>
    var h: History

    function View(): Stream
      reads this, controller
    {
      Stream(state, locked, closeRequested, started, pulling, pullAgain, hwm, controller.queue, controller.total,
             readRequests, h)
    }

    ghost predicate Valid()
      reads this, controller
    {
      ReadableSafety.Inv(View())
    }

    constructor (hwm: real)
      ensures Valid() && fresh(controller) && View() == Init(hwm)
    {
      state, locked, closeRequested, started, pulling, pullAgain := Readable, false, false, false, false, false;
      this.hwm := hwm;
      controller := new Container<Chunk>();
      readRequests := [];
      h := History(0, [], [], true, 0, 0, false, false);
      new;
      ReadableSafety.InitKeeps(hwm);
    }

    method CanCloseOrEnqueue() returns (can: bool)
      ensures can == View().CanCloseOrEnqueue()
    {
      can := !closeRequested && state == Readable;
    }

    method ShouldCallPull() returns (should: bool)
      ensures should == View().ShouldCallPull()
    {
      var can := CanCloseOrEnqueue();
      if !can {
        return false;
      }
      if !started {
        return false;
      }
      if locked && |readRequests| > 0 {
        return true;
      }
      return hwm - controller.total > 0.0;
    }

    method CallPullIfNeeded()
      modifies this`pullAgain, this`pulling, this`h
      ensures View() == old(View()).CallPullIfNeeded()
    {
      var should := ShouldCallPull();
      if !should {
        return;
      }
      if pulling {
        pullAgain := true;
        return;
      }
      h := h.Check(!pullAgain);
      pulling := true;
      h := h.(pulls := h.pulls + 1, unsettledPulls := h.unsettledPulls + 1);
    }

    /** Settles the pending reads alike. */
    method SettleRequests(outcome: Outcome)
      modifies this`h, this`readRequests
      ensures readRequests == [] && h == old(h).(settled := old(h).settled + All(old(readRequests), outcome))
    {
      for i := 0 to |readRequests|
        invariant readRequests == old(readRequests)
        invariant h == old(h).(settled := old(h).settled + All(readRequests, outcome)[..i])
      {
        h := h.Settles(readRequests[i], outcome);
      }
      readRequests := [];
    }

    method ReadableStreamClose()
      modifies this`state, this`h, this`readRequests
      ensures View() == old(View()).Finish()
    {
      h := h.Check(state == Readable);
      state := Closed;
      SettleRequests(End);
    }

    method ControllerError()
      modifies this, controller
      ensures View() == old(View()).Fail()
    {
      if state != Readable {
        return;
      }
      controller.ResetQueue();
      state := Errored;
      SettleRequests(Failed);
    }

    method FulfillReadRequest(chunk: Chunk)
      requires readRequests != []
      modifies this`h, this`readRequests
      ensures readRequests == old(readRequests)[1..] && h == old(h).Settles(old(readRequests)[0], Value(chunk))
    {
      var readRequest := readRequests[0];
      readRequests := readRequests[1..];
      h := h.Settles(readRequest, Value(chunk));
    }

    method Dequeue()
      requires controller.queue != []
      modifies this`h, controller
      ensures View() == old(View()).Dequeued()
    {
      var chunk := controller.DequeueValue();
      h := h.Settles(h.issued, Value(chunk));
      h := h.(issued := h.issued + 1);
    }

    method PullSteps()
      modifies this, controller
      ensures View() == old(View()).PullSteps()
    {
      hide Stream.CallPullIfNeeded, Stream.Finish;
      if |controller.queue| > 0 {
        Dequeue();
        if closeRequested && |controller.queue| == 0 {
          ReadableStreamClose();
        } else {
          CallPullIfNeeded();
        }
        return;
      }
      h := h.Check(state == Readable);
      readRequests := readRequests + [h.issued];
      h := h.(issued := h.issued + 1);
      CallPullIfNeeded();
    }

    method ControllerEnqueue(chunk: Chunk, size: SizeResult) returns (r: Reply)
      modifies this, controller
      ensures (View(), r) == old(View()).EnqueueChunk(chunk, size)
    {
      hide Stream.CallPullIfNeeded, Stream.Fail;
      if locked && |readRequests| > 0 {
        FulfillReadRequest(chunk);
      } else {
        if size == Throws {
          ControllerError();
          return Thrown;
        }
        var ok := controller.EnqueueValueWithSize(chunk, size.size);
        if !ok {
          ControllerError();
          return Thrown;
        }
      }
      h := h.(received := h.received + [chunk]);
      CallPullIfNeeded();
      r := Returned;
    }

    // ---- public calls ----------------------------------------------------------------------

    method GetReader() returns (r: Reply)
      requires Valid()
      modifies this`locked
      ensures Valid() && (View(), r) == old(View()).Step(Event.GetReader)
    {
      hide ReadableSafety.Inv;
      ReadableSafety.StepKeeps(View(), Event.GetReader);
      if locked {
        return Thrown;
      }
      locked := true;
      r := Returned;
    }

    method ReleaseLock() returns (r: Reply)
      requires Valid()
      modifies this`locked
      ensures Valid() && (View(), r) == old(View()).Step(Event.ReleaseLock)
    {
      hide ReadableSafety.Inv;
      ReadableSafety.StepKeeps(View(), Event.ReleaseLock);
      if locked && |readRequests| > 0 {
        return Thrown;
      }
      locked := false;
      r := Returned;
    }

    method Read() returns (r: Reply)
      requires Valid()
      modifies this, controller
      ensures Valid() && (View(), r) == old(View()).Step(Event.Read)
    {
      hide ReadableSafety.Inv, Stream.PullSteps;
      ReadableSafety.StepKeeps(View(), Event.Read);
      if !locked {
        return Thrown;
      }
      r := Promised(h.issued);
      if state == Closed {
        h := h.Settles(h.issued, End).(issued := h.issued + 1);
      } else if state == Errored {
        h := h.Settles(h.issued, Failed).(issued := h.issued + 1);
      } else {
        PullSteps();
      }
    }

    method Enqueue(chunk: Chunk, size: SizeResult) returns (r: Reply)
      requires Valid()
      modifies this, controller
      ensures Valid() && (View(), r) == old(View()).Step(Event.Enqueue(chunk, size))
    {
      hide ReadableSafety.Inv, Stream.EnqueueChunk;
      ReadableSafety.StepKeeps(View(), Event.Enqueue(chunk, size));
      var can := CanCloseOrEnqueue();
      if !can {
        return Thrown;
      }
      r := ControllerEnqueue(chunk, size);
    }

    method Close() returns (r: Reply)
      requires Valid()
      modifies this
      ensures Valid() && (View(), r) == old(View()).Step(Event.Close)
    {
      hide ReadableSafety.Inv, Stream.Finish;
      ReadableSafety.StepKeeps(View(), Event.Close);
      var can := CanCloseOrEnqueue();
      if !can {
        return Thrown;
      }
      closeRequested := true;
      if |controller.queue| == 0 {
        ReadableStreamClose();
      }
      r := Returned;
    }

    method Error() returns (r: Reply)
      requires Valid()
      modifies this, controller
      ensures Valid() && (View(), r) == old(View()).Step(Event.Error)
    {
      hide ReadableSafety.Inv, Stream.Fail;
      ReadableSafety.StepKeeps(View(), Event.Error);
      ControllerError();
      r := Returned;
    }

    method Cancel() returns (r: Reply)
      requires Valid()
      modifies this, controller
      ensures Valid() && (View(), r) == old(View()).Step(Event.Cancel)
    {
      hide ReadableSafety.Inv;
      ReadableSafety.StepKeeps(View(), Event.Cancel);
      r := Returned;
      if state != Readable {
        return;
      }
      ReadableStreamClose();
      controller.ResetQueue();
      h := h.(cancelled := true);
    }

    // ---- the source's promises -----------------------------------------------------------------

    method StartSettled(ok: bool)
      requires Valid()
      modifies this, controller
      ensures Valid() && View() == old(View()).Step(Event.StartSettled(ok)).0
    {
      hide ReadableSafety.Inv, Stream.Fail, Stream.CallPullIfNeeded;
      ReadableSafety.StepKeeps(View(), Event.StartSettled(ok));
      if !h.startPending {
        return;
      }
      h := h.(startPending := false);
      if !ok {
        ControllerError();
        return;
      }
      started := true;
      h := h.Check(!pulling).Check(!pullAgain);
      CallPullIfNeeded();
    }

    method PullSettled(ok: bool)
      requires Valid()
      modifies this, controller
      ensures Valid() && View() == old(View()).Step(Event.PullSettled(ok)).0
    {
      hide ReadableSafety.Inv, Stream.Fail, Stream.CallPullIfNeeded;
      ReadableSafety.StepKeeps(View(), Event.PullSettled(ok));
      if h.unsettledPulls == 0 {
        return;
      }
      h := h.(unsettledPulls := h.unsettledPulls - 1);
      if !ok {
        ControllerError();
        return;
      }
      pulling := false;
      if pullAgain {
        pullAgain := false;
        CallPullIfNeeded();
      }
    }
  }
}
