/** What each step of the platform does, case by case, and what follows for a stop. */
module PlatformSteps {
  import opened Wrappers
  import opened TaskQueues
  import opened Platform
  import opened PlatformSafety

  // ---- posting ---------------------------------------------------------------------------

  /** A worker task goes to the end of the queue and counts as outstanding; one waiting worker is
      signalled, if there is one. */
  lemma PostedTaskQueues(s: System, poster: Poster, task: Task, woken: Option<nat>)
    requires s.Enabled(PostWorker(poster, task, woken))
    ensures var t := s.Step(PostWorker(poster, task, woken));
            && t.queue == Queue(s.queue.tasks + [task], s.queue.outstanding + 1, s.queue.stopped)
            && t.posted == s.posted + [task] && t.started == s.started && t.main == s.main
            && t.foreground == s.foreground && t.delayed == s.delayed && t.sent == s.sent && t.ran == s.ran
            && t.workers == match woken
                            case None => s.workers
                            case Some(i) => s.workers[i := Signalled]
    ensures woken == None <==> forall i :: 0 <= i < |s.workers| ==> !s.workers[i].Waiting?
    ensures woken.Some? ==> woken.value < |s.workers| && s.workers[woken.value].Waiting?
  {}

  lemma ForegroundPostQueues(s: System, poster: Poster, task: Task)
    requires s.CanPost(poster)
    ensures s.Step(PostForeground(poster, task)) == s.(foreground := s.foreground + [task], sent := s.sent + [task])
    ensures s.Step(PostDelayed(poster, task)) == s.(delayed := s.delayed + [task])
  {}

  /** Who may post: a worker that runs a task, and the main thread unless it drains or shuts down, but
      then from a foreground task that it runs. */
  lemma PostersAre(s: System, poster: Poster)
    ensures s.CanPost(poster) <==>
              match poster
              case ByWorker(i) => i < |s.workers| && s.workers[i].Running?
              case ByMain => s.main.Idle? || s.main.RunningForeground?
  {}

  // ---- workers ---------------------------------------------------------------------------

  /** A worker that arrives or was woken: after a stop it ends, whatever is queued; with nothing queued
      it sleeps; and else it runs the task at the front. */
  lemma WorkerAttempts(s: System, i: nat)
    requires i < |s.workers| && (s.workers[i].Ready? || s.workers[i].Signalled?)
    ensures s.Step(WorkerAttempt(i)) ==
            if s.queue.stopped then s.(workers := s.workers[i := Done])
            else if s.queue.tasks == [] then s.(workers := s.workers[i := Waiting])
            else s.(queue := s.queue.(tasks := s.queue.tasks[1..]), started := s.started + [s.queue.tasks[0]],
                    workers := s.workers[i := Running(s.queue.tasks[0])])
  {}

  /** A worker that has run its task counts it down and comes back; at zero it wakes a sleeping drain. */
  lemma WorkerComes(s: System, i: nat)
    requires i < |s.workers| && s.workers[i].Running?
    ensures s.Step(WorkerCompletes(i)) ==
            s.(queue := s.queue.(outstanding := s.queue.outstanding - 1), workers := s.workers[i := Ready],
               main := if s.queue.outstanding == 1 && s.main.Asleep? then Woken else s.main)
  {}

  /** No task starts after the stop. */
  lemma StoppedStartsNothing(s: System, e: Event)
    requires s.queue.stopped
    ensures s.Step(e).started == s.started && s.Step(e).queue.stopped
  {}

  /** In every run from a stop on no task starts, and the tasks queued then stay queued. */
  lemma {:induction false} NothingStartsAfterStop(s: System, events: seq<Event>)
    requires s.queue.stopped
    ensures After(s, events).started == s.started && After(s, events).queue.stopped
    ensures s.queue.tasks <= After(s, events).queue.tasks
    decreases |events|
  {
    if events != [] {
      StoppedStartsNothing(s, events[0]);
      StoppedKeepsTasks(s, events[0]);
      NothingStartsAfterStop(s.Step(events[0]), events[1..]);
    }
  }

  lemma StoppedKeepsTasks(s: System, e: Event)
    requires s.queue.stopped
    ensures s.queue.tasks <= s.Step(e).queue.tasks
  {}

  // ---- the main thread -------------------------------------------------------------------

  /** One look at the counter, from the start of the drain or when woken. */
  lemma DrainLooks(s: System)
    requires s.main.Draining? || s.main.Woken?
    ensures s.Step(MainStep) == s.(main := if s.queue.outstanding > 0 then Asleep else PoppingDelayed(false))
  {}

  /** The delayed tasks are taken one by one, then the foreground tasks all at once, and run in order;
      work of either kind makes another round. */
  lemma FlushGoesOn(s: System)
    ensures s.main.PoppingDelayed? ==>
              s.Step(MainStep) == if s.delayed == [] then s.(main := PoppingAll(s.main.didWork))
                                  else s.(delayed := s.delayed[1..], main := PoppingDelayed(true))
    ensures s.main.PoppingAll? ==>
              s.Step(MainStep) == s.(foreground := [], main := Batch(s.foreground, s.main.didWork))
    ensures s.main.Batch? ==>
              s.Step(MainStep) == if s.main.tasks != [] then
                                    s.(main := RunningForeground(s.main.tasks[0], s.main.tasks[1..]),
                                       ran := s.ran + [s.main.tasks[0]])
                                  else s.(main := if s.main.didWork then Draining else DrainReturned)
    ensures s.main.RunningForeground? ==> s.Step(MainStep) == s.(main := Batch(s.main.rest, true))
    ensures s.main.DrainReturned? ==> s.Step(MainStep) == s.(main := Idle)
  {}

  /** Shutdown stops the queue, wakes every sleeping worker, and joins the workers one by one: each once
      it has ended. */
  lemma ShutdownJoins(s: System)
    ensures s.main.Idle? ==>
              var t := s.Step(Shutdown);
              && t.queue == s.queue.(stopped := true) && t.main == Joining(0) && |t.workers| == |s.workers|
              && (forall i :: 0 <= i < |s.workers| ==>
                    t.workers[i] == if s.workers[i].Waiting? then Signalled else s.workers[i])
              && t == s.(queue := t.queue, main := t.main, workers := t.workers)
    ensures s.main.Joining? ==>
              s.Step(MainStep) == if s.main.joined >= |s.workers| then s.(main := Terminated)
                                  else if s.workers[s.main.joined].Done? then s.(main := Joining(s.main.joined + 1))
                                  else s
    ensures s.main.Idle? ==> s.Step(DrainTasks) == s.(main := Draining)
    ensures !s.main.Idle? ==> s.Step(DrainTasks) == s && s.Step(Shutdown) == s
  {}
}
