/** TaskQueue of src/zero_platform.cc. A method holds the lock from start to end, save where it
    waits: a blocking call is one attempt, which says whether the caller has to wait. */
module TaskQueues {
  type Task = nat

  /** What one attempt of BlockingPop comes to. */
  datatype Outcome = MustWait | Stopped | Got(task: Task)

  datatype Queue = Queue(tasks: seq<Task>, outstanding: int, stopped: bool) {
    function Push(task: Task): Queue { this.(tasks := tasks + [task], outstanding := outstanding + 1) }

    /** One attempt of BlockingPop. */
    function Attempt(): (Queue, Outcome) {
      if stopped then (this, Outcome.Stopped)
      else if tasks == [] then (this, MustWait)
      else (this.(tasks := tasks[1..]), Got(tasks[0]))
    }

    function Completed(): Queue { this.(outstanding := outstanding - 1) }

    /** Whether one attempt of BlockingDrain has to wait. */
    predicate MustDrain() { outstanding > 0 }

    function Stop(): Queue { this.(stopped := true) }
  }

  class TaskQueue {
    var tasks: seq<Task>
    var outstandingTasks: int
    var stopped: bool

    function View(): Queue
      reads this
    {
      Queue(tasks, outstandingTasks, stopped)
    }

    constructor ()
      ensures View() == Queue([], 0, false)
    {
      tasks, outstandingTasks, stopped := [], 0, false;
    }

    /** One waiting worker is signalled. */
    method Push(task: Task)
      modifies this
      ensures View() == old(View()).Push(task)
      ensures tasks == old(tasks) + [task] && outstandingTasks == old(outstandingTasks) + 1 && stopped == old(stopped)
    {
      outstandingTasks := outstandingTasks + 1;
      tasks := tasks + [task];
    }

    /** The task at the front, if there is one; a stopped queue still hands it out. */
    method Pop() returns (result: Outcome)
      modifies this`tasks
      ensures old(tasks) == [] ==> result == MustWait && tasks == []
      ensures old(tasks) != [] ==> result.Got? && [result.task] + tasks == old(tasks)
    {
      if |tasks| == 0 {
        return MustWait;
      }
      result := Got(tasks[0]);
      tasks := tasks[1..];
    }

    /** BlockingPop, from taking the lock or from being woken to waiting or returning. */
    method AttemptPop() returns (result: Outcome)
      modifies this`tasks
      ensures (View(), result) == old(View()).Attempt()
      ensures if stopped then result == Outcome.Stopped && tasks == old(tasks)
              else if old(tasks) == [] then result == MustWait && tasks == []
              else result == Got(old(tasks)[0]) && tasks == old(tasks)[1..]
    {
      if |tasks| == 0 && !stopped {
        return MustWait;
      }
      if stopped {
        return Outcome.Stopped;
      }
      result := Got(tasks[0]);
      tasks := tasks[1..];
    }

    /** Whether waiting drainers are all woken. */
    method NotifyOfCompletion() returns (broadcast: bool)
      modifies this`outstandingTasks
      ensures View() == old(View()).Completed()
      ensures outstandingTasks == old(outstandingTasks) - 1 && broadcast == (outstandingTasks == 0)
    {
      outstandingTasks := outstandingTasks - 1;
      broadcast := outstandingTasks == 0;
    }

    /** BlockingDrain, from taking the lock or from being woken: whether it has to wait. */
    method AttemptDrain() returns (mustWait: bool)
      ensures mustWait == View().MustDrain() && (mustWait <==> outstandingTasks > 0)
    {
      mustWait := outstandingTasks > 0;
    }

    /** All waiting workers are woken. */
    method Stop()
      modifies this`stopped
      ensures View() == old(View()).Stop()
      ensures stopped
    {
      stopped := true;
    }

    method PopAll() returns (result: seq<Task>)
      modifies this`tasks
      ensures result == old(tasks) && tasks == []
    {
      result := tasks;
      tasks := [];
    }
  }
}
