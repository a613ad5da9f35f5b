/** The worker threads and the drain loop of src/zero_platform.cc as a transition system over any
    number of workers: each step is what one thread does while it holds the lock, or between two
    such sections. */
module Platform {
  import opened Wrappers
  import opened TaskQueues

  /** Ready and Signalled workers are about to attempt BlockingPop: the former come to it, the
      latter have been woken in it. */
  datatype Worker = Ready | Waiting | Signalled | Running(task: Task) | Done

  /** Where the main thread is. Idle is outside of the platform; Draining and Woken attempt
      BlockingDrain; the others are FlushForegroundTasksInternal and Shutdown. */
  datatype Main =
    | Idle
    | Draining
    | Asleep
    | Woken
    | PoppingDelayed(didWork: bool)
    | PoppingAll(didWork: bool)
    | Batch(tasks: seq<Task>, didWork: bool)
    | RunningForeground(task: Task, rest: seq<Task>)
    | DrainReturned
    | Joining(joined: nat)
    | Terminated

  datatype Poster = ByWorker(i: nat) | ByMain

  datatype Event =
    | PostWorker(poster: Poster, task: Task, woken: Option<nat>)
    | PostForeground(poster: Poster, task: Task)
    | PostDelayed(poster: Poster, task: Task)
    | WorkerAttempt(i: nat)
    | WorkerCompletes(i: nat)
    | SpuriousWake(i: nat)
    | DrainTasks
    | MainStep
    | MainSpuriousWake
    | Shutdown

  /** `foreground` and `delayed` are the queues of the isolate; `posted` and `started` are the
      worker tasks ever posted and ever taken, in order, and `sent` and `ran` the foreground
      tasks ever posted and ever run. */
  datatype System = System(
    queue: Queue,
    workers: seq<Worker>,
    main: Main,
    foreground: seq<Task>,
    delayed: seq<Task>,
    posted: seq<Task>,
    started: seq<Task>,
    sent: seq<Task>,
    ran: seq<Task>)
  {
    /** Tasks are posted by tasks that run, or from outside while nothing drains or shuts down. */
    predicate CanPost(poster: Poster) {
      match poster
      case ByWorker(i) => i < |workers| && workers[i].Running?
      case ByMain => main.Idle? || main.RunningForeground?
    }

    /** Signal wakes one waiting worker, any one, if there is one. */
    predicate Signals(woken: Option<nat>) {
      match woken
      case None => forall i :: 0 <= i < |workers| ==> !workers[i].Waiting?
      case Some(i) => i < |workers| && workers[i].Waiting?
    }

    predicate Enabled(e: Event) {
      match e
      case PostWorker(poster, _, woken) => CanPost(poster) && Signals(woken)
      case PostForeground(poster, _) => CanPost(poster)
      case PostDelayed(poster, _) => CanPost(poster)
      case WorkerAttempt(i) => i < |workers| && (workers[i].Ready? || workers[i].Signalled?)
      case WorkerCompletes(i) => i < |workers| && workers[i].Running?
      case SpuriousWake(i) => i < |workers| && workers[i].Waiting?
      case DrainTasks => main.Idle?
      case MainStep =>
        !main.Idle? && !main.Asleep? && !main.Terminated?
        && (main.Joining? && main.joined < |workers| ==> workers[main.joined].Done?)
      case MainSpuriousWake => main.Asleep?
      case Shutdown => main.Idle?
    }

    function Attempt(i: nat): System
      requires i < |workers|
    {
      var (q, result) := queue.Attempt();
      match result
      case MustWait => this.(workers := workers[i := Waiting])
      case Stopped => this.(workers := workers[i := Done])
      case Got(task) => this.(queue := q, workers := workers[i := Running(task)], started := started + [task])
    }

    function Completes(i: nat): System
      requires i < |workers|
    {
      var q := queue.Completed();
      this.(queue := q, workers := workers[i := Ready],
            main := if q.outstanding == 0 && main.Asleep? then Woken else main)
    }

    function AdvanceMain(): System {
      match main
      case Draining => this.(main := if queue.MustDrain() then Asleep else PoppingDelayed(false))
      case Woken => this.(main := if queue.MustDrain() then Asleep else PoppingDelayed(false))
      case PoppingDelayed(didWork) =>
        if delayed == [] then this.(main := PoppingAll(didWork))
        else this.(delayed := delayed[1..], main := PoppingDelayed(true))
      case PoppingAll(didWork) => this.(foreground := [], main := Batch(foreground, didWork))
      case Batch(tasks, didWork) =>
        if tasks != [] then this.(main := RunningForeground(tasks[0], tasks[1..]), ran := ran + [tasks[0]])
        else this.(main := if didWork then Draining else DrainReturned)
      case RunningForeground(_, rest) => this.(main := Batch(rest, true))
      case DrainReturned => this.(main := Idle)
      case Joining(joined) => this.(main := if joined < |workers| then Joining(joined + 1) else Terminated)
      case _ => this
    }

    /** A step; one that is not enabled does nothing. */
    function Step(e: Event): (r: System)
      ensures |r.workers| == |workers|
    {
      if !Enabled(e) then this
      else
        match e
        case PostWorker(_, task, woken) =>
          this.(queue := queue.Push(task), posted := posted + [task],
                workers := if woken.Some? then workers[woken.value := Signalled] else workers)
        case PostForeground(_, task) => this.(foreground := foreground + [task], sent := sent + [task])
        case PostDelayed(_, task) => this.(delayed := delayed + [task])
        case WorkerAttempt(i) => Attempt(i)
        case WorkerCompletes(i) => Completes(i)
        case SpuriousWake(i) => this.(workers := workers[i := Signalled])
        case DrainTasks => this.(main := Draining)
        case MainStep => AdvanceMain()
        case MainSpuriousWake => this.(main := Woken)
        case Shutdown => this.(queue := queue.Stop(), workers := WakeAll(workers), main := Joining(0))
    }
  }

  /** Foreground tasks taken from their queue and still to be run. */
  function Taken(main: Main): seq<Task> {
    match main
    case Batch(tasks, _) => tasks
    case RunningForeground(_, rest) => rest
    case _ => []
  }

  function WakeAll(workers: seq<Worker>): (r: seq<Worker>)
    ensures |r| == |workers|
    ensures forall i :: 0 <= i < |r| ==> r[i] == if workers[i].Waiting? then Signalled else workers[i]
  {
    seq(|workers|, i requires 0 <= i < |workers| => if workers[i].Waiting? then Signalled else workers[i])
  }

  /** A pool of `n` workers. */
  function Init(n: nat): System {
    System(Queue([], 0, false), seq(n, _ => Ready), Idle, [], [], [], [], [], [])
  }

  function Run(n: nat, events: seq<Event>): (s: System)
    ensures |s.workers| == n
  {
    if events == [] then Init(n) else Run(n, events[..|events| - 1]).Step(events[|events| - 1])
  }
}
