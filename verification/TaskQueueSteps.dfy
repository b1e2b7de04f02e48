/** The queue object and its semaphore do what the state machine of the thread pool says, in every run. */
module TaskQueueSteps {
  import opened ThreadPool
  import Objects = TaskQueue

  ghost predicate Represents<T>(q: Objects.TaskQueue<T>, s: Pool<T>)
    reads q, q.queue, q.queue.nodes, q.sem
  {
    q.Valid() && q.queue.Contents() == s.queue && q.sem.count == s.count
  }

  predicate IsWorkerAction<T>(a: Action<T>) {
    a.EnterWait? || a.WakeUp? || a.Recheck? || a.Take? || a.Finish?
  }

  /** The critical section of `a` on the objects; what it returns decides how a worker goes on and whom a post notifies. */
  method Perform<T>(q: Objects.TaskQueue<T>, ghost s: Pool<T>, a: Action<T>, threads: nat) returns (next: Worker<T>, one: bool)
    requires Represents(q, s) && Enabled(s, a) && threads == |s.workers|
    modifies q.queue, q.Nodes(), q.sem
    ensures Represents(q, Do(s, a)) && fresh(q.Nodes() - old(q.Nodes()))
    ensures IsWorkerAction(a) ==> Do(s, a).workers == s.workers[a.worker := next]
    ensures a.Post? || a.Shutdown? ==> Do(s, a).workers == if one then Notified(s.workers, a.woken) else AllWoken(s.workers)
  {
    next, one := Idle, false;
    if a.Push? || a.PushFirst? || a.Take? {
      hide Notified, AllWoken, Represents, Do;
      next := OnQueue(q, s, a);
    } else if a.Post? {
      hide Notified, AllWoken;
      one := q.sem.Post(1);
    } else if a.Shutdown? {
      hide Notified, AllWoken;
      one := q.PushExit(threads);
    } else if a.EnterWait? || a.Recheck? {
      next := Wait(q);
    } else if a.WakeUp? {
      next := Woken;
    }
  }

  method OnQueue<T>(q: Objects.TaskQueue<T>, ghost s: Pool<T>, a: Action<T>) returns (next: Worker<T>)
    requires Represents(q, s) && Enabled(s, a) && (a.Push? || a.PushFirst? || a.Take?)
    modifies q.queue, q.Nodes()
    ensures Represents(q, Do(s, a)) && fresh(q.Nodes() - old(q.Nodes()))
    ensures a.Take? ==> Do(s, a).workers == s.workers[a.worker := next]
  {
    next := Idle;
    if a.Push? {
      q.Push(a.task);
    } else if a.PushFirst? {
      q.PushFirst(a.task);
    } else {
      next := TakeOrExit(q);
    }
  }

  method Wait<T>(q: Objects.TaskQueue<T>) returns (next: Worker<T>)
    modifies q.sem
    ensures next == if old(q.sem.count) > 0 then Passed else Sleeping
    ensures q.sem.count == old(q.sem.count) - if old(q.sem.count) > 0 then 1 else 0
  {
    var passed := q.sem.TryPass();
    next := if passed then Passed else Sleeping;
  }

  method TakeOrExit<T>(q: Objects.TaskQueue<T>) returns (next: Worker<T>)
    requires q.Valid()
    modifies q.queue
    ensures q.Valid() && fresh(q.Nodes() - old(q.Nodes()))
    ensures var was := old(q.queue.Contents());
      if was == [] then next == Exited && q.queue.Contents() == [] else next == Running(was[0]) && q.queue.Contents() == was[1..]
  {
    var task := q.Take();
    next := if |task| == 0 then Exited else Running(task[0]);
  }

  /** Whatever run the threads make, the objects are in the state that the state machine reaches. */
  method PerformAll<T>(q: Objects.TaskQueue<T>, ghost s: Pool<T>, actions: seq<Action<T>>, ghost s': Pool<T>, threads: nat)
    requires Represents(q, s) && Run(s, actions, s') && threads == |s.workers|
    modifies q.queue, q.Nodes(), q.sem
    ensures Represents(q, s')
    decreases |actions|
  {
    if |actions| > 0 {
      hide Do, Enabled, Represents;
      var _, _ := Perform(q, s, actions[0], threads);
      SameThreads(s, actions[0]);
      PerformAll(q, Do(s, actions[0]), actions[1..], s', threads);
    }
  }

  lemma SameThreads<T>(s: Pool<T>, a: Action<T>)
    requires Enabled(s, a)
    ensures |Do(s, a).workers| == |s.workers|
  {
    hide Notified, AllWoken, MayNotify, Tally, TasksOf;
    if a.Post? || a.Shutdown? {
      Notifying(s.workers, a.woken);
      NotifyingAll(s.workers);
    }
  }
}
