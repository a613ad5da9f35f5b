/** What every run of the platform keeps: no wake-up is lost, a drain that returns leaves
    nothing behind, and a shutdown is not held up by a sleeping worker. */
module PlatformSafety {
  import opened TaskQueues
  import opened Platform

  // ---- counting --------------------------------------------------------------------------

  function Sum(workers: seq<Worker>, weight: Worker -> nat): nat {
    if workers == [] then 0 else Sum(workers[..|workers| - 1], weight) + weight(workers[|workers| - 1])
  }

  function IsRunning(w: Worker): nat { if w.Running? then 1 else 0 }

  function IsSignalled(w: Worker): nat { if w.Signalled? then 1 else 0 }

  lemma {:induction false} SumUpdate(workers: seq<Worker>, i: nat, w: Worker, weight: Worker -> nat)
    requires i < |workers|
    ensures Sum(workers[i := w], weight) == Sum(workers, weight) - weight(workers[i]) + weight(w)
  {
    var n := |workers| - 1;
    if i < n {
      SumUpdate(workers[..n], i, w, weight);
      assert workers[i := w][..n] == workers[..n][i := w];
    } else {
      assert workers[i := w][..n] == workers[..n];
    }
  }

  lemma {:induction false} SumAtLeast(workers: seq<Worker>, i: nat, weight: Worker -> nat)
    requires i < |workers|
    ensures Sum(workers, weight) >= weight(workers[i])
  {
    if i < |workers| - 1 { SumAtLeast(workers[..|workers| - 1], i, weight); }
  }

  /** A sum is 0 when every weight is. */
  lemma {:induction false} SumIsZero(workers: seq<Worker>, weight: Worker -> nat)
    requires forall i :: 0 <= i < |workers| ==> weight(workers[i]) == 0
    ensures Sum(workers, weight) == 0
  {
    if workers != [] { SumIsZero(workers[..|workers| - 1], weight); }
  }

  lemma {:induction false} SumWakeAll(workers: seq<Worker>)
    ensures Sum(WakeAll(workers), IsRunning) == Sum(workers, IsRunning)
  {
    if workers != [] {
      var n := |workers| - 1;
      SumWakeAll(workers[..n]);
      assert WakeAll(workers)[..n] == WakeAll(workers[..n]);
    }
  }

  // ---- the invariant -----------------------------------------------------------------------

  /** The counter counts the tasks queued and the tasks running. */
  ghost predicate Counted(queue: Queue, workers: seq<Worker>) {
    queue.outstanding == |queue.tasks| + Sum(workers, IsRunning)
  }

  /** While a worker sleeps, each queued task has a worker that was signalled and has yet to
      resume. */
  ghost predicate NoLostWakeup(tasks: seq<Task>, workers: seq<Worker>) {
    (exists i :: 0 <= i < |workers| && workers[i].Waiting?) ==> |tasks| <= Sum(workers, IsSignalled)
  }

  /** After Stop no worker sleeps; before it none has ended. */
  ghost predicate StopSeen(stopped: bool, workers: seq<Worker>) {
    && (stopped ==> forall i :: 0 <= i < |workers| ==> !workers[i].Waiting?)
    && (!stopped ==> forall i :: 0 <= i < |workers| ==> !workers[i].Done?)
  }

  ghost predicate MainInv(s: System) {
    && (s.queue.stopped <==> s.main.Joining? || s.main.Terminated?)
    && match s.main
       case Asleep => s.queue.outstanding > 0
       case PoppingDelayed(didWork) => !didWork ==> s.queue.outstanding == 0
       case PoppingAll(didWork) => !didWork ==> s.queue.outstanding == 0 && s.delayed == []
       case Batch(_, didWork) => !didWork ==> s.queue.outstanding == 0 && s.delayed == [] && s.foreground == []
       case DrainReturned => s.queue.outstanding == 0 && s.delayed == [] && s.foreground == []
       case Joining(joined) =>
         joined <= |s.workers| && forall i :: 0 <= i < joined ==> s.workers[i].Done?
       case Terminated => forall i :: 0 <= i < |s.workers| ==> s.workers[i].Done?
       case _ => true
  }

  ghost predicate Inv(s: System) {
    && Counted(s.queue, s.workers) && NoLostWakeup(s.queue.tasks, s.workers)
    && StopSeen(s.queue.stopped, s.workers) && MainInv(s)
    && s.posted == s.started + s.queue.tasks
    && s.sent == s.ran + Taken(s.main) + s.foreground
  }

  // ---- steps -------------------------------------------------------------------------------

  lemma PostKeeps(s: System, e: Event)
    requires Inv(s) && s.Enabled(e) && e.PostWorker?
    ensures Inv(s.Step(e))
  {
    PosterRuns(s, e.poster);
    if e.woken.Some? {
      SumUpdate(s.workers, e.woken.value, Signalled, IsRunning);
      SumUpdate(s.workers, e.woken.value, Signalled, IsSignalled);
    }
    assert s.posted + [e.task] == s.started + (s.queue.tasks + [e.task]);
  }

  /** Whoever posts holds back the drain: a running task is counted, and a running foreground
      task has done work. */
  lemma PosterRuns(s: System, poster: Poster)
    requires Inv(s) && s.CanPost(poster)
    ensures poster.ByWorker? ==> s.queue.outstanding > 0
  {
    if poster.ByWorker? { SumAtLeast(s.workers, poster.i, IsRunning); }
  }

  lemma PostForegroundKeeps(s: System, e: Event)
    requires Inv(s) && s.Enabled(e) && (e.PostForeground? || e.PostDelayed?)
    ensures Inv(s.Step(e))
  {
    PosterRuns(s, e.poster);
    if e.PostForeground? {
      assert s.ran + Taken(s.main) + (s.foreground + [e.task]) == s.ran + Taken(s.main) + s.foreground + [e.task];
    }
  }

  lemma MainKeeps(s: System)
    requires Inv(s) && s.Enabled(MainStep)
    ensures Inv(s.AdvanceMain())
  {
    hide NoLostWakeup, StopSeen;
    ForegroundStays(s);
    hide Taken;
  }

  lemma ForegroundStays(s: System)
    requires s.Enabled(MainStep)
    ensures var t := s.AdvanceMain();
            t.ran + Taken(t.main) + t.foreground == s.ran + Taken(s.main) + s.foreground && t.sent == s.sent
  {
    if s.main.Batch? && s.main.tasks != [] {
      assert s.main.tasks == [s.main.tasks[0]] + s.main.tasks[1..];
      assert s.ran + [s.main.tasks[0]] + s.main.tasks[1..] == s.ran + s.main.tasks;
    } else if s.main.PoppingAll? {
      assert s.ran + [] + s.foreground == s.ran + s.foreground + [];
    }
  }

  /** A worker that finds nothing waits, and one that sees the stop ends. */
  lemma IdleAttemptKeeps(s: System, i: nat, w: Worker)
    requires Inv(s) && s.Enabled(WorkerAttempt(i))
    requires if w.Waiting? then s.queue.tasks == [] && !s.queue.stopped else w.Done? && s.queue.stopped
    ensures Inv(s.(workers := s.workers[i := w]))
  {
    SumUpdate(s.workers, i, w, IsRunning);
    SumUpdate(s.workers, i, w, IsSignalled);
    hide Sum, Taken;
  }

  lemma TaskIsTaken(s: System, i: nat)
    requires Inv(s) && s.Enabled(WorkerAttempt(i)) && s.queue.tasks != [] && !s.queue.stopped
    ensures Inv(s.Attempt(i))
  {
    SumUpdate(s.workers, i, Running(s.queue.tasks[0]), IsRunning);
    SumUpdate(s.workers, i, Running(s.queue.tasks[0]), IsSignalled);
    assert s.queue.tasks == [s.queue.tasks[0]] + s.queue.tasks[1..];
    hide Sum, Taken;
  }

  lemma AttemptKeeps(s: System, i: nat)
    requires Inv(s) && s.Enabled(WorkerAttempt(i))
    ensures Inv(s.Attempt(i))
  {
    hide Inv;
    if s.queue.stopped {
      IdleAttemptKeeps(s, i, Done);
    } else if s.queue.tasks == [] {
      IdleAttemptKeeps(s, i, Waiting);
    } else {
      TaskIsTaken(s, i);
    }
  }

  lemma CompletesKeeps(s: System, i: nat)
    requires Inv(s) && s.Enabled(WorkerCompletes(i))
    ensures Inv(s.Completes(i))
  {
    SumUpdate(s.workers, i, Ready, IsRunning);
    SumUpdate(s.workers, i, Ready, IsSignalled);
    SumAtLeast(s.workers, i, IsRunning);
  }

  lemma SpuriousKeeps(s: System, i: nat)
    requires Inv(s) && s.Enabled(SpuriousWake(i))
    ensures Inv(s.Step(SpuriousWake(i)))
  {
    SumUpdate(s.workers, i, Signalled, IsRunning);
    SumUpdate(s.workers, i, Signalled, IsSignalled);
  }

  lemma StepKeeps(s: System, e: Event)
    requires Inv(s)
    ensures Inv(s.Step(e))
  {
    if s.Enabled(e) {
      match e
      case PostWorker(_, _, _) => PostKeeps(s, e);
      case PostForeground(_, _) => PostForegroundKeeps(s, e);
      case PostDelayed(_, _) => PostForegroundKeeps(s, e);
      case WorkerAttempt(i) => AttemptKeeps(s, i);
      case WorkerCompletes(i) => CompletesKeeps(s, i);
      case SpuriousWake(i) => SpuriousKeeps(s, i);
      case MainStep => MainKeeps(s);
      case Shutdown => SumWakeAll(s.workers);
      case _ =>
    }
  }

  lemma InitKeeps(n: nat)
    ensures Inv(Init(n))
  {
    SumIsZero(Init(n).workers, IsRunning);
  }

  lemma {:induction false} RunKeeps(n: nat, events: seq<Event>)
    ensures Inv(Run(n, events))
  {
    InitKeeps(n);
    if events != [] {
      RunKeeps(n, events[..|events| - 1]);
      StepKeeps(Run(n, events[..|events| - 1]), events[|events| - 1]);
    }
  }

  // ---- what holds at every moment of every run -------------------------------------------------

  /** When DrainTasks returns, no worker task is queued or running and both foreground queues are
      empty. */
  lemma DrainIsQuiescent(n: nat, events: seq<Event>)
    requires Run(n, events).main.DrainReturned?
    ensures var s := Run(n, events);
            && s.queue.tasks == [] && s.foreground == [] && s.delayed == []
            && (forall i :: 0 <= i < n ==> !s.workers[i].Running?)
            && s.posted == s.started && s.sent == s.ran
  {
    RunKeeps(n, events);
    var s := Run(n, events);
    forall i | 0 <= i < n ensures !s.workers[i].Running? { SumAtLeast(s.workers, i, IsRunning); }
    assert s.started + [] == s.started && s.ran + [] + [] == s.ran;
  }

  /** No wake-up is lost: while a worker sleeps, the queued tasks are no more than the workers
      signalled and yet to resume; and a sleeping drainer has tasks to wait for. */
  lemma NoWakeupIsLost(n: nat, events: seq<Event>)
    ensures var s := Run(n, events);
            && ((exists i :: 0 <= i < n && s.workers[i].Waiting?) ==> |s.queue.tasks| <= Sum(s.workers, IsSignalled))
            && (s.main.Asleep? ==> s.queue.outstanding > 0)
            && (s.queue.stopped ==> forall i :: 0 <= i < n ==> !s.workers[i].Waiting?)
  {
    RunKeeps(n, events);
  }

  /** Worker tasks are taken, and foreground tasks run, in the order they were posted, each once;
      none is lost. */
  lemma TasksAreTakenInOrder(n: nat, events: seq<Event>)
    ensures var s := Run(n, events);
            s.posted == s.started + s.queue.tasks && s.sent == s.ran + Taken(s.main) + s.foreground
  {
    RunKeeps(n, events);
  }

  /** A worker that can take a step. */
  ghost predicate CanMove(s: System, i: nat) {
    s.Enabled(WorkerAttempt(i)) || s.Enabled(WorkerCompletes(i))
  }

  /** While a task is outstanding and nothing was stopped, some worker can take a step: with one
      worker or more, waiting for the tasks is never a deadlock. */
  lemma OutstandingTasksCanMove(n: nat, events: seq<Event>)
    requires n > 0 && Run(n, events).queue.outstanding > 0 && !Run(n, events).queue.stopped
    ensures exists i :: 0 <= i < n && CanMove(Run(n, events), i)
  {
    RunKeeps(n, events);
    var s := Run(n, events);
    WhenAllSleep(s);
    var i :| 0 <= i < n && !s.workers[i].Waiting?;
    assert CanMove(s, i);
  }

  lemma WhenAllSleep(s: System)
    requires Inv(s) && |s.workers| > 0
    ensures (forall i :: 0 <= i < |s.workers| ==> s.workers[i].Waiting?) ==> s.queue.outstanding == 0
  {
    if forall i :: 0 <= i < |s.workers| ==> s.workers[i].Waiting? {
      SumIsZero(s.workers, IsRunning);
      SumIsZero(s.workers, IsSignalled);
      assert s.workers[0].Waiting?;
    }
  }

  // ---- the tasks end -----------------------------------------------------------------------------

  function Weight(w: Worker): nat {
    match w
    case Running(_) => 2
    case Ready => 1
    case Signalled => 1
    case _ => 0
  }

  /** How many steps the workers can still take when nothing is posted and no wake-up is
      spurious. */
  function Remaining(s: System): nat { 3 * |s.queue.tasks| + Sum(s.workers, Weight) }

  predicate IsWorkerStep(e: Event) { e.WorkerAttempt? || e.WorkerCompletes? }

  lemma WorkerStepCountsDown(s: System, e: Event)
    requires IsWorkerStep(e) && s.Enabled(e)
    ensures Remaining(s.Step(e)) < Remaining(s)
  {
    SumUpdate(s.workers, e.i, s.Step(e).workers[e.i], Weight);
  }

  /** Runs of enabled worker steps from `s`. */
  predicate WorkerRun(s: System, events: seq<Event>)
    decreases |events|
  {
    events == [] || (IsWorkerStep(events[0]) && s.Enabled(events[0]) && WorkerRun(s.Step(events[0]), events[1..]))
  }

  function After(s: System, events: seq<Event>): System
    decreases |events|
  {
    if events == [] then s else After(s.Step(events[0]), events[1..])
  }

  /** However the workers are scheduled, their steps run out. */
  lemma {:induction false} WorkerStepsRunOut(s: System, events: seq<Event>)
    requires WorkerRun(s, events)
    ensures |events| + Remaining(After(s, events)) <= Remaining(s)
    decreases |events|
  {
    if events != [] {
      WorkerStepCountsDown(s, events[0]);
      WorkerStepsRunOut(s.Step(events[0]), events[1..]);
    }
  }

  lemma {:induction false} AfterKeeps(s: System, events: seq<Event>)
    requires Inv(s)
    ensures Inv(After(s, events)) && |After(s, events).workers| == |s.workers|
    decreases |events|
  {
    if events != [] {
      StepKeeps(s, events[0]);
      AfterKeeps(s.Step(events[0]), events[1..]);
    }
  }

  /** When they have run out before any stop, every posted task has run, and the drainer is
      awake. */
  lemma RestedWorkersAreDone(s: System)
    requires Inv(s) && |s.workers| > 0 && !s.queue.stopped
    requires forall i :: 0 <= i < |s.workers| ==> !CanMove(s, i)
    ensures s.queue.outstanding == 0 && s.posted == s.started && !s.main.Asleep?
  {
    forall i | 0 <= i < |s.workers| ensures s.workers[i].Waiting? { assert !CanMove(s, i); }
    WhenAllSleep(s);
    assert s.started + [] == s.started;
  }

  // ---- the drain ends --------------------------------------------------------------------------------

  predicate InDrain(main: Main) {
    !main.Idle? && !main.Joining? && !main.Terminated?
  }

  predicate IsPost(e: Event) { e.PostWorker? || e.PostForeground? || e.PostDelayed? }

  /** What puts the return of a drain off: posts and spurious wake-ups. */
  predicate Disturbs(e: Event) { IsPost(e) || e.SpuriousWake? || e.MainSpuriousWake? }

  /** Steps of workers and of the drain, and disturbances. */
  predicate IsDrainStep(e: Event) { IsWorkerStep(e) || e.MainStep? || Disturbs(e) }

  /** How far the loop is from its return if nothing more turns up. Work that was done costs another
      round. */
  function Distance(main: Main, outstanding: int): nat {
    match main
    case Draining => if outstanding > 0 then 6 else 4
    case Woken => if outstanding > 0 then 6 else 4
    case Asleep => 5
    case PoppingDelayed(didWork) => if didWork then 10 else 3
    case PoppingAll(didWork) => if didWork then 9 else 2
    case Batch(_, didWork) => if didWork then 8 else 1
    case RunningForeground(_, _) => 9
    case _ => 0
  }

  function DrainRemaining(s: System): nat {
    Remaining(s) + Distance(s.main, s.queue.outstanding) + 8 * |s.delayed| + 9 * |s.foreground| + 9 * |Taken(s.main)|
  }

  lemma MainStepCountsDown(s: System)
    requires InDrain(s.main) && !s.main.DrainReturned? && s.Enabled(MainStep)
    ensures InDrain(s.Step(MainStep).main) && DrainRemaining(s.Step(MainStep)) < DrainRemaining(s)
  {
    hide Sum;
  }

  lemma WorkerCountsDown(s: System, e: Event)
    requires Inv(s) && InDrain(s.main) && !s.main.DrainReturned? && IsWorkerStep(e) && s.Enabled(e)
    ensures InDrain(s.Step(e).main) && DrainRemaining(s.Step(e)) < DrainRemaining(s)
  {
    WorkerStepCountsDown(s, e);
    if e.WorkerCompletes? { SumAtLeast(s.workers, e.i, IsRunning); }
    hide Sum;
  }

  /** A disturbance puts the return off by a bounded number of steps. */
  lemma DisturbanceCosts(s: System, e: Event)
    requires InDrain(s.main) && Disturbs(e) && s.Enabled(e)
    ensures InDrain(s.Step(e).main) && DrainRemaining(s.Step(e)) <= DrainRemaining(s) + 9
  {
    if e.PostWorker? && e.woken.Some? { SumUpdate(s.workers, e.woken.value, Signalled, Weight); }
    if e.SpuriousWake? { SumUpdate(s.workers, e.i, Signalled, Weight); }
    hide Sum;
  }

  /** Runs of enabled steps from `s` that do not go past the return. */
  predicate DrainRun(s: System, events: seq<Event>)
    decreases |events|
  {
    events == []
    || (!s.main.DrainReturned? && IsDrainStep(events[0]) && s.Enabled(events[0])
       && DrainRun(s.Step(events[0]), events[1..]))
  }

  function Disturbances(events: seq<Event>): nat {
    if events == [] then 0 else (if Disturbs(events[0]) then 1 else 0) + Disturbances(events[1..])
  }

  /** However workers and drain are scheduled, a drain during which finitely many tasks are posted and
      finitely many wake-ups are spurious takes a bounded number of steps. */
  lemma {:induction false} DrainStepsRunOut(s: System, events: seq<Event>)
    requires Inv(s) && InDrain(s.main) && DrainRun(s, events)
    ensures |events| + DrainRemaining(After(s, events)) <= DrainRemaining(s) + 10 * Disturbances(events)
    ensures InDrain(After(s, events).main)
    decreases |events|
  {
    hide Inv, DrainRemaining, InDrain, System.Enabled, System.Step;
    if events != [] {
      var e := events[0];
      StepKeeps(s, e);
      if Disturbs(e) { DisturbanceCosts(s, e); }
      else if IsWorkerStep(e) { WorkerCountsDown(s, e); }
      else { MainStepCountsDown(s); }
      DrainStepsRunOut(s.Step(e), events[1..]);
    }
  }

  /** Until it returns it is never stuck: the drain or a worker can take a step. So when nothing can,
      it has returned. */
  lemma DrainCanMove(s: System)
    requires Inv(s) && |s.workers| > 0 && InDrain(s.main) && !s.main.DrainReturned?
    ensures s.Enabled(MainStep) || exists i :: 0 <= i < |s.workers| && CanMove(s, i)
  {
    if s.main.Asleep? {
      WhenAllSleep(s);
      var i :| 0 <= i < |s.workers| && !s.workers[i].Waiting?;
      assert CanMove(s, i);
    }
  }

  /** A call of DrainTasks, after any run of a pool with workers, returns, also with tasks posted by
      running tasks and with spurious wake-ups: any run of steps from it that cannot be continued ends
      with the return, with nothing left behind, and none is longer than its bound. */
  lemma DrainReturns(n: nat, events: seq<Event>, steps: seq<Event>)
    requires n > 0 && Run(n, events).main.Idle? && DrainRun(Run(n, events).Step(DrainTasks), steps)
    ensures var s := Run(n, events).Step(DrainTasks);
            var t := After(s, steps);
            && |steps| <= DrainRemaining(s) + 10 * Disturbances(steps)
            && (!t.Enabled(MainStep) && (forall i :: 0 <= i < n ==> !CanMove(t, i)) ==> t.main.DrainReturned?)
            && (t.main.DrainReturned? ==> t.queue.outstanding == 0 && t.foreground == [] && t.delayed == [])
  {
    var s := Run(n, events).Step(DrainTasks);
    RunKeeps(n, events);
    StepKeeps(Run(n, events), DrainTasks);
    DrainStepsRunOut(s, steps);
    AfterKeeps(s, steps);
    var t := After(s, steps);
    hide DrainRemaining, DrainRun, After, Run, System.Enabled, CanMove;
    if !t.main.DrainReturned? { DrainCanMove(t); }
  }

  /** When they have run out after a stop, every worker has ended: Shutdown joins them all. */
  lemma StoppedWorkersEnd(s: System)
    requires Inv(s) && s.queue.stopped
    requires forall i :: 0 <= i < |s.workers| ==> !CanMove(s, i)
    ensures forall i :: 0 <= i < |s.workers| ==> s.workers[i].Done?
    ensures !s.main.Terminated? ==> s.Enabled(MainStep)
  {
    forall i | 0 <= i < |s.workers| ensures s.workers[i].Done? { assert !CanMove(s, i); }
  }

  /** A shutdown waits for no sleeping worker: while it joins one that has not ended, that one
      can take a step. */
  lemma JoinedWorkerCanMove(n: nat, events: seq<Event>)
    requires Run(n, events).main.Joining? && Run(n, events).main.joined < n
    requires !Run(n, events).workers[Run(n, events).main.joined].Done?
    ensures CanMove(Run(n, events), Run(n, events).main.joined)
  {
    RunKeeps(n, events);
  }
}
