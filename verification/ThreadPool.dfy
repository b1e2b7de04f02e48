/**
  The protocol of include/Thread/ThreadPool.h over TaskQueue.h and semaphore.h, as a state machine.
  An action is one critical section: pushing and posting are two, and so are passing the semaphore and
  taking from the queue, and anything can happen in between. A condition variable may wake for no reason.
 */
module ThreadPool {
  datatype Worker<T> =
    | Idle            // about to lock the semaphore
    | Sleeping        // in the condition variable
    | Woken           // notified, about to lock the semaphore again
    | Passed          // past wait, about to lock the queue
    | Running(task: T)
    | Exited

  datatype Pool<T> = Pool(
    queue: seq<T>,
    count: nat,                // of the semaphore
    unposted: nat,             // pushers that have not posted yet
    workers: seq<Worker<T>>,
    shut: bool,                // shutdown has posted its tokens
    ahead: bool,               // something was pushed to the front
    pushed: seq<T>,
    popped: seq<T>,
    finished: seq<T>)

  datatype Action<T> =
    | Push(task: T)
    | PushFirst(task: T)
    | Post(woken: nat)
    | Shutdown(woken: nat)
    | EnterWait(worker: nat)
    | WakeUp(worker: nat)
    | Recheck(worker: nat)
    | Take(worker: nat)
    | Finish(worker: nat)

  ghost predicate IsInitial<T>(s: Pool<T>) {
    && (forall w :: 0 <= w < |s.workers| ==> s.workers[w] == Idle)
    && s == Pool([], 0, 0, s.workers, false, false, [], [], [])
  }

  /** `notify_one` wakes a sleeper, any one, if there is one. */
  predicate MayNotify<T>(ws: seq<Worker<T>>, w: nat) {
    if w < |ws| then ws[w] == Sleeping else Tally(ws, Sleeping) == 0
  }

  predicate Enabled<T>(s: Pool<T>, a: Action<T>) {
    match a
    case Push(_) => true
    case PushFirst(_) => true
    case Post(w) => s.unposted > 0 && MayNotify(s.workers, w)
    case Shutdown(w) => !s.shut && MayNotify(s.workers, w)
    case EnterWait(w) => w < |s.workers| && s.workers[w] == Idle
    case WakeUp(w) => w < |s.workers| && s.workers[w] == Sleeping
    case Recheck(w) => w < |s.workers| && s.workers[w] == Woken
    case Take(w) => w < |s.workers| && s.workers[w] == Passed
    case Finish(w) => w < |s.workers| && s.workers[w].Running?
  }

  function Notified<T>(ws: seq<Worker<T>>, w: nat): seq<Worker<T>> {
    if w < |ws| then ws[w := Woken] else ws
  }

  function AllWoken<T>(ws: seq<Worker<T>>): seq<Worker<T>> {
    if ws == [] then []
    else AllWoken(ws[..|ws| - 1]) + [if ws[|ws| - 1] == Sleeping then Woken else ws[|ws| - 1]]
  }

  /** The body of the loop in `wait`, with the semaphore locked. */
  function Waited<T>(s: Pool<T>, w: nat): Pool<T>
    requires w < |s.workers|
  {
    if s.count == 0 then s.(workers := s.workers[w := Sleeping])
    else s.(workers := s.workers[w := Passed], count := s.count - 1)
  }

  function Do<T>(s: Pool<T>, a: Action<T>): Pool<T>
    requires Enabled(s, a)
  {
    match a
    case Push(t) =>
      s.(queue := s.queue + [t], unposted := s.unposted + 1, pushed := s.pushed + [t])
    case PushFirst(t) =>
      s.(queue := [t] + s.queue, unposted := s.unposted + 1, pushed := s.pushed + [t], ahead := true)
    case Post(w) => s.(unposted := s.unposted - 1, count := s.count + 1, workers := Notified(s.workers, w))
    case Shutdown(w) =>
      // Only a post of exactly one notifies one.
      s.(shut := true, count := s.count + |s.workers|,
         workers := if |s.workers| == 1 then Notified(s.workers, w) else AllWoken(s.workers))
    case EnterWait(w) => Waited(s, w)
    case WakeUp(w) => s.(workers := s.workers[w := Woken])
    case Recheck(w) => Waited(s, w)
    case Take(w) =>
      if s.queue == [] then s.(workers := s.workers[w := Exited])
      else
        s.(workers := s.workers[w := Running(s.queue[0])], queue := s.queue[1..], popped := s.popped + [s.queue[0]])
    case Finish(w) => s.(workers := s.workers[w := Idle], finished := s.finished + [s.workers[w].task])
  }

  // Counting workers.

  function Kind<T>(w: Worker<T>): Worker<()> {
    match w
    case Idle => Idle
    case Sleeping => Sleeping
    case Woken => Woken
    case Passed => Passed
    case Running(_) => Running(())
    case Exited => Exited
  }

  function Tally<T>(ws: seq<Worker<T>>, k: Worker<()>): (n: nat)
    ensures n <= |ws|
  {
    if ws == [] then 0
    else Tally(ws[..|ws| - 1], k) + if Kind(ws[|ws| - 1]) == k then 1 else 0
  }

  function One(b: bool): int { if b then 1 else 0 }

  lemma {:induction false} TallyUpdate<T>(ws: seq<Worker<T>>, w: nat, v: Worker<T>, k: Worker<()>)
    requires w < |ws|
    ensures Tally(ws[w := v], k) == Tally(ws, k) - One(Kind(ws[w]) == k) + One(Kind(v) == k)
    decreases |ws|
  {
    var n := |ws| - 1;
    if w == n {
      assert ws[w := v][..n] == ws[..n];
    } else {
      assert ws[w := v][..n] == ws[..n][w := v];
      TallyUpdate(ws[..n], w, v, k);
    }
  }

  lemma {:induction false} TallyAllWoken<T>(ws: seq<Worker<T>>, k: Worker<()>)
    ensures |AllWoken(ws)| == |ws|
    ensures Tally(AllWoken(ws), k) ==
      if k == Sleeping then 0 else if k == Woken then Tally(ws, k) + Tally(ws, Sleeping) else Tally(ws, k)
    decreases |ws|
  {
    if ws != [] {
      var n := |ws| - 1;
      TallyAllWoken(ws[..n], k);
      assert AllWoken(ws)[..n] == AllWoken(ws[..n]);
    }
  }

  lemma {:induction false} TallySome<T>(ws: seq<Worker<T>>, k: Worker<()>) returns (w: nat)
    requires Tally(ws, k) > 0
    ensures w < |ws| && Kind(ws[w]) == k
    decreases |ws|
  {
    var n := |ws| - 1;
    if Kind(ws[n]) == k { w := n; } else { w := TallySome(ws[..n], k); }
  }

  lemma {:induction false} TallyPartition<T>(ws: seq<Worker<T>>)
    ensures Tally(ws, Idle) + Tally(ws, Sleeping) + Tally(ws, Woken) + Tally(ws, Passed)
      + Tally(ws, Running(())) + Tally(ws, Exited) == |ws|
    decreases |ws|
  {
    if ws != [] { TallyPartition(ws[..|ws| - 1]); }
  }

  /** The tasks that are being run. */
  function TasksOf<T>(ws: seq<Worker<T>>): multiset<T> {
    if ws == [] then multiset{}
    else TasksOf(ws[..|ws| - 1]) + TaskOf(ws[|ws| - 1])
  }

  function TaskOf<T>(w: Worker<T>): multiset<T> {
    if w.Running? then multiset{w.task} else multiset{}
  }

  lemma AddBoth<T>(a: multiset<T>, x: multiset<T>, b: multiset<T>, y: multiset<T>, c: multiset<T>)
    requires a + x == b + y
    ensures (a + c) + x == (b + c) + y
  {
    assert (a + c) + x == (a + x) + c && (b + c) + y == (b + y) + c;
  }

  lemma SwapLast<T>(a: multiset<T>, x: multiset<T>, y: multiset<T>)
    ensures (a + x) + y == (a + y) + x
  {}

  lemma {:induction false} TasksUpdate<T>(ws: seq<Worker<T>>, w: nat, v: Worker<T>)
    requires w < |ws|
    ensures TasksOf(ws[w := v]) + TaskOf(ws[w]) == TasksOf(ws) + TaskOf(v)
    decreases |ws|
  {
    hide TaskOf;
    var n := |ws| - 1;
    var init := ws[..n];
    if w == n {
      assert ws[w := v][..n] == init;
      SwapLast(TasksOf(init), TaskOf(v), TaskOf(ws[n]));
    } else {
      assert ws[w := v][..n] == init[w := v];
      TasksUpdate(init, w, v);
      AddBoth(TasksOf(init[w := v]), TaskOf(ws[w]), TasksOf(init), TaskOf(v), TaskOf(ws[n]));
    }
  }

  lemma {:induction false} TasksAllWoken<T>(ws: seq<Worker<T>>)
    ensures |AllWoken(ws)| == |ws| && TasksOf(AllWoken(ws)) == TasksOf(ws)
    decreases |ws|
  {
    if ws != [] {
      TasksAllWoken(ws[..|ws| - 1]);
      assert AllWoken(ws)[..|ws| - 1] == AllWoken(ws[..|ws| - 1]);
    }
  }

  // What every reachable state satisfies.

  function Tokens<T>(s: Pool<T>): nat { if s.shut then |s.workers| else 0 }

  /** Passes given out and not used up are the tasks in the queue and the unused exit tokens. */
  ghost predicate Balanced<T>(s: Pool<T>) {
    s.count + Tally(s.workers, Passed) + s.unposted == |s.queue| + (Tokens(s) - Tally(s.workers, Exited))
  }

  /** Nobody sleeps through a pass: for each there is a worker that was woken for it. */
  ghost predicate NoLostWakeup<T>(s: Pool<T>) {
    Tally(s.workers, Sleeping) > 0 ==> s.count <= Tally(s.workers, Woken)
  }

  /** No task is lost or run twice, and without pushing to the front they are taken in order. */
  ghost predicate Conserved<T>(s: Pool<T>) {
    && multiset(s.pushed) == multiset(s.queue) + TasksOf(s.workers) + multiset(s.finished)
    && multiset(s.pushed) == multiset(s.queue) + multiset(s.popped)
    && (!s.ahead ==> s.pushed == s.popped + s.queue)
  }

  /** A worker only exits on a token. */
  ghost predicate Counted<T>(s: Pool<T>) {
    && Balanced(s) && NoLostWakeup(s)
    && Tally(s.workers, Exited) <= Tokens(s)
  }

  ghost predicate Inv<T>(s: Pool<T>) {
    Counted(s) && Conserved(s)
  }

  lemma InitialInv<T>(s: Pool<T>)
    requires IsInitial(s)
    ensures Inv(s)
  {
    AllIdle(s.workers);
  }

  lemma {:induction false} AllIdle<T>(ws: seq<Worker<T>>)
    requires forall w :: 0 <= w < |ws| ==> ws[w] == Idle
    ensures Tally(ws, Sleeping) == Tally(ws, Woken) == Tally(ws, Passed) == Tally(ws, Exited) == 0
    ensures TasksOf(ws) == multiset{}
    decreases |ws|
  {
    if ws != [] { AllIdle(ws[..|ws| - 1]); }
  }

  /** What changing worker `w` to `v` does to the counts. */
  lemma Move<T>(ws: seq<Worker<T>>, w: nat, v: Worker<T>)
    requires w < |ws|
    ensures var ws' := ws[w := v];
      && Tally(ws', Sleeping) == Tally(ws, Sleeping) - One(ws[w].Sleeping?) + One(v.Sleeping?)
      && Tally(ws', Woken) == Tally(ws, Woken) - One(ws[w].Woken?) + One(v.Woken?)
      && Tally(ws', Passed) == Tally(ws, Passed) - One(ws[w].Passed?) + One(v.Passed?)
      && Tally(ws', Exited) == Tally(ws, Exited) - One(ws[w].Exited?) + One(v.Exited?)
  {
    TallyUpdate(ws, w, v, Sleeping);
    TallyUpdate(ws, w, v, Woken);
    TallyUpdate(ws, w, v, Passed);
    TallyUpdate(ws, w, v, Exited);
  }

  lemma TasksSame<T>(ws: seq<Worker<T>>, w: nat, v: Worker<T>)
    requires w < |ws| && !ws[w].Running? && !v.Running?
    ensures TasksOf(ws[w := v]) == TasksOf(ws)
  {
    TasksUpdate(ws, w, v);
    assert TasksOf(ws[w := v]) + multiset{} == TasksOf(ws[w := v]) && TasksOf(ws) + multiset{} == TasksOf(ws);
  }

  lemma TasksStart<T>(ws: seq<Worker<T>>, w: nat, t: T)
    requires w < |ws| && !ws[w].Running?
    ensures TasksOf(ws[w := Running(t)]) == TasksOf(ws) + multiset{t}
  {
    TasksUpdate(ws, w, Running(t));
    assert TasksOf(ws[w := Running(t)]) + multiset{} == TasksOf(ws[w := Running(t)]);
  }

  lemma TasksEnd<T>(ws: seq<Worker<T>>, w: nat)
    requires w < |ws| && ws[w].Running?
    ensures TasksOf(ws[w := Idle]) + multiset{ws[w].task} == TasksOf(ws)
  {
    TasksUpdate(ws, w, Idle);
    assert TasksOf(ws) + multiset{} == TasksOf(ws);
  }

  lemma Notifying<T>(ws: seq<Worker<T>>, w: nat)
    requires MayNotify(ws, w)
    ensures var ws' := Notified(ws, w);
      && (Tally(ws', Sleeping) > 0 ==> Tally(ws', Woken) == Tally(ws, Woken) + 1)
      && Tally(ws', Sleeping) <= Tally(ws, Sleeping)
      && Tally(ws', Passed) == Tally(ws, Passed) && Tally(ws', Exited) == Tally(ws, Exited)
      && TasksOf(ws') == TasksOf(ws) && |ws'| == |ws|
  {
    hide Tally, TasksOf;
    if w < |ws| {
      Move(ws, w, Woken);
      TasksSame(ws, w, Woken);
    }
  }

  lemma NotifyingAll<T>(ws: seq<Worker<T>>)
    ensures var ws' := AllWoken(ws);
      && Tally(ws', Sleeping) == 0
      && Tally(ws', Passed) == Tally(ws, Passed) && Tally(ws', Exited) == Tally(ws, Exited)
      && TasksOf(ws') == TasksOf(ws) && |ws'| == |ws|
  {
    hide Tally, TasksOf;
    TallyAllWoken(ws, Sleeping);
    TallyAllWoken(ws, Passed);
    TallyAllWoken(ws, Exited);
    TasksAllWoken(ws);
  }

  // Each action keeps the tasks.

  lemma StepConserves<T>(s: Pool<T>, a: Action<T>)
    requires Conserved(s) && Enabled(s, a)
    ensures Conserved(Do(s, a))
  {
    hide Tally, TasksOf, Notified, AllWoken, Conserved, MayNotify;
    match a
    case Push(t) => PushConserves(s, t);
    case PushFirst(t) => PushFirstConserves(s, t);
    case Post(w) =>
      Notifying(s.workers, w);
      SameTasks(s, Do(s, a));
    case Shutdown(w) =>
      Notifying(s.workers, w);
      NotifyingAll(s.workers);
      SameTasks(s, Do(s, a));
    case EnterWait(w) =>
      TasksSame(s.workers, w, Sleeping);
      TasksSame(s.workers, w, Passed);
      SameTasks(s, Do(s, a));
    case WakeUp(w) =>
      TasksSame(s.workers, w, Woken);
      SameTasks(s, Do(s, a));
    case Recheck(w) =>
      TasksSame(s.workers, w, Sleeping);
      TasksSame(s.workers, w, Passed);
      SameTasks(s, Do(s, a));
    case Take(w) =>
      if s.queue == [] {
        TasksSame(s.workers, w, Exited);
        SameTasks(s, Do(s, a));
      } else {
        TakeConserves(s, w);
      }
    case Finish(w) => FinishConserves(s, w);
  }

  lemma SameTasks<T>(s: Pool<T>, s': Pool<T>)
    requires Conserved(s) && TasksOf(s'.workers) == TasksOf(s.workers)
    requires s'.pushed == s.pushed && s'.queue == s.queue && s'.popped == s.popped && s'.finished == s.finished && s'.ahead == s.ahead
    ensures Conserved(s')
  {
    hide TasksOf;
  }

  lemma PushConserves<T>(s: Pool<T>, t: T)
    requires Conserved(s)
    ensures Conserved(Do(s, Push(t)))
  {
    hide TasksOf;
    assert s.popped + (s.queue + [t]) == s.popped + s.queue + [t];
    assert multiset(s.queue + [t]) == multiset(s.queue) + multiset{t};
    assert multiset(s.pushed + [t]) == multiset(s.pushed) + multiset{t};
  }

  lemma PushFirstConserves<T>(s: Pool<T>, t: T)
    requires Conserved(s)
    ensures Conserved(Do(s, PushFirst(t)))
  {
    hide TasksOf;
    assert multiset([t] + s.queue) == multiset(s.queue) + multiset{t};
    assert multiset(s.pushed + [t]) == multiset(s.pushed) + multiset{t};
  }

  lemma TakeConserves<T>(s: Pool<T>, w: nat)
    requires Conserved(s) && Enabled(s, Take(w)) && s.queue != []
    ensures Conserved(Do(s, Take(w)))
  {
    hide TasksOf;
    TasksStart(s.workers, w, s.queue[0]);
    HeadMoves(s.popped, s.queue);
  }

  lemma HeadMoves<T>(p: seq<T>, q: seq<T>)
    requires q != []
    ensures p + q == p + [q[0]] + q[1..]
    ensures multiset(q) == multiset{q[0]} + multiset(q[1..])
    ensures multiset(p + [q[0]]) == multiset(p) + multiset{q[0]}
  {
    assert q == [q[0]] + q[1..];
  }

  lemma FinishConserves<T>(s: Pool<T>, w: nat)
    requires Conserved(s) && Enabled(s, Finish(w))
    ensures Conserved(Do(s, Finish(w)))
  {
    hide TasksOf;
    TasksEnd(s.workers, w);
    var t := s.workers[w].task;
    assert multiset(s.finished + [t]) == multiset(s.finished) + multiset{t};
  }

  // Each action keeps the balance and the wakeups.

  lemma StepCounts<T>(s: Pool<T>, a: Action<T>)
    requires Counted(s) && Enabled(s, a)
    ensures Counted(Do(s, a))
  {
    hide Tally, TasksOf, Notified, AllWoken, MayNotify, Waited;
    match a
    case Push(_) =>
    case PushFirst(_) =>
    case Post(w) => Notifying(s.workers, w);
    case Shutdown(w) => ShutdownCounts(s, w);
    case EnterWait(w) => WaitCounts(s, w);
    case WakeUp(w) => Move(s.workers, w, Woken);
    case Recheck(w) => WaitCounts(s, w);
    case Take(w) => TakeCounts(s, w);
    case Finish(w) => Move(s.workers, w, Idle);
  }

  lemma ShutdownCounts<T>(s: Pool<T>, w: nat)
    requires Counted(s) && Enabled(s, Shutdown(w))
    ensures Counted(Do(s, Shutdown(w)))
  {
    hide Tally, TasksOf, Notified, AllWoken, MayNotify;
    if |s.workers| == 1 { Notifying(s.workers, w); } else { NotifyingAll(s.workers); }
  }

  lemma WaitCounts<T>(s: Pool<T>, w: nat)
    requires Counted(s) && w < |s.workers| && (s.workers[w] == Idle || s.workers[w] == Woken)
    ensures Counted(Waited(s, w))
  {
    hide Tally, TasksOf;
    if s.count == 0 { Move(s.workers, w, Sleeping); } else { Move(s.workers, w, Passed); }
  }

  lemma TakeCounts<T>(s: Pool<T>, w: nat)
    requires Counted(s) && Enabled(s, Take(w))
    ensures Counted(Do(s, Take(w)))
  {
    hide Tally, TasksOf;
    if s.queue == [] { Move(s.workers, w, Exited); } else { Move(s.workers, w, Running(s.queue[0])); }
  }

  lemma StepKeepsInv<T>(s: Pool<T>, a: Action<T>)
    requires Inv(s) && Enabled(s, a)
    ensures Inv(Do(s, a))
  {
    hide Do, Enabled, Conserved, Counted;
    StepConserves(s, a);
    StepCounts(s, a);
  }

  // Every run.

  ghost predicate Run<T>(s: Pool<T>, actions: seq<Action<T>>, s': Pool<T>)
    decreases |actions|
  {
    if actions == [] then s == s'
    else Enabled(s, actions[0]) && Run(Do(s, actions[0]), actions[1..], s')
  }

  /** A run of enabled actions from the beginning; what holds of `s` then holds of every reachable state. */
  ghost predicate Reaches<T>(s0: Pool<T>, actions: seq<Action<T>>, s: Pool<T>) {
    IsInitial(s0) && Run(s0, actions, s)
  }

  lemma {:induction false} RunKeepsInv<T>(s: Pool<T>, actions: seq<Action<T>>, s': Pool<T>)
    requires Inv(s) && Run(s, actions, s')
    ensures Inv(s')
    decreases |actions|
  {
    if actions != [] {
      hide Inv, Do, Enabled;
      StepKeepsInv(s, actions[0]);
      RunKeepsInv(Do(s, actions[0]), actions[1..], s');
    }
  }

  lemma ReachableInv<T>(s0: Pool<T>, actions: seq<Action<T>>, s: Pool<T>)
    requires Reaches(s0, actions, s)
    ensures Inv(s)
  {
    InitialInv(s0);
    hide Inv, IsInitial;
    RunKeepsInv(s0, actions, s);
  }

  /** In every interleaving: the balance of the semaphore, no lost wakeup, and no exit without a token. */
  lemma PassesAreBalanced<T>(s0: Pool<T>, actions: seq<Action<T>>, s: Pool<T>)
    requires Reaches(s0, actions, s)
    ensures s.count + Tally(s.workers, Passed) + s.unposted + Tally(s.workers, Exited) == |s.queue| + Tokens(s)
    ensures Tally(s.workers, Sleeping) > 0 ==> s.count <= Tally(s.workers, Woken)
    ensures Tally(s.workers, Exited) <= Tokens(s)
  {
    hide Tally;
    ReachableInv(s0, actions, s);
  }

  ghost predicate Joined<T>(s: Pool<T>) {
    Tally(s.workers, Exited) == |s.workers|
  }

  /** The last worker to exit leaves nothing: every task pushed up to then has been run, exactly once and in order. */
  lemma LastExit<T>(s: Pool<T>, a: Action<T>)
    requires Inv(s) && Enabled(s, a) && !Joined(s) && Joined(Do(s, a))
    ensures a.Take? && s.shut
    ensures var s' := Do(s, a);
      && s'.queue == [] && s'.count == 0 && s'.unposted == 0
      && multiset(s'.finished) == multiset(s'.popped) == multiset(s'.pushed)
      && (!s'.ahead ==> s'.popped == s'.pushed)
  {
    OnlyTakeExits(s, a);
    StepKeepsInv(s, a);
    var s' := Do(s, a);
    TallyPartition(s'.workers);
    NothingRuns(s'.workers);
    hide Tally, TasksOf, Do;
    assert s'.popped + [] == s'.popped;
    SameSum(multiset(s'.pushed), multiset(s'.queue), multiset(s'.finished));
    SameSum(multiset(s'.pushed), multiset(s'.queue), multiset(s'.popped));
  }

  lemma OnlyTakeExits<T>(s: Pool<T>, a: Action<T>)
    requires Enabled(s, a) && !Joined(s) && Joined(Do(s, a))
    ensures a.Take? && s.queue == [] && s.workers != []
  {
    hide Tally, Notified, AllWoken, MayNotify, TasksOf;
    match a
    case Push(_) =>
    case PushFirst(_) =>
    case Post(w) => Notifying(s.workers, w);
    case Shutdown(w) =>
      if |s.workers| == 1 { Notifying(s.workers, w); } else { NotifyingAll(s.workers); }
    case EnterWait(w) => if s.count == 0 { Move(s.workers, w, Sleeping); } else { Move(s.workers, w, Passed); }
    case WakeUp(w) => Move(s.workers, w, Woken);
    case Recheck(w) => if s.count == 0 { Move(s.workers, w, Sleeping); } else { Move(s.workers, w, Passed); }
    case Take(w) => if s.queue != [] { Move(s.workers, w, Running(s.queue[0])); }
    case Finish(w) => Move(s.workers, w, Idle);
  }

  lemma {:induction false} NothingRuns<T>(ws: seq<Worker<T>>)
    requires Tally(ws, Exited) == |ws|
    ensures TasksOf(ws) == multiset{}
    decreases |ws|
  {
    if ws != [] { NothingRuns(ws[..|ws| - 1]); }
  }

  predicate IsPush<T>(a: Action<T>) {
    a.Push? || a.PushFirst?
  }

  /** The queue `q` once the pushes among `actions` have been made. */
  function Queued<T>(q: seq<T>, actions: seq<Action<T>>): seq<T>
    decreases |actions|
  {
    if actions == [] then q
    else Queued(if actions[0].Push? then q + [actions[0].task] else if actions[0].PushFirst? then [actions[0].task] + q else q,
                actions[1..])
  }

  lemma {:induction false} QueuedGrows<T>(q: seq<T>, actions: seq<Action<T>>)
    ensures multiset(q) <= multiset(Queued(q, actions))
    ensures |Queued(q, actions)| == |q| <==> forall i :: 0 <= i < |actions| ==> !IsPush(actions[i])
    ensures |Queued(q, actions)| >= |q|
    decreases |actions|
  {
    if actions != [] {
      var a, rest := actions[0], actions[1..];
      assert forall i :: 0 < i < |actions| ==> actions[i] == rest[i - 1];
      if a.Push? {
        assert multiset(q + [a.task]) == multiset(q) + multiset{a.task};
        QueuedGrows(q + [a.task], rest);
      } else if a.PushFirst? {
        assert multiset([a.task] + q) == multiset(q) + multiset{a.task};
        QueuedGrows([a.task] + q, rest);
      } else {
        QueuedGrows(q, rest);
      }
    }
  }

  lemma JoinedStep<T>(s: Pool<T>, a: Action<T>)
    requires Joined(s) && Enabled(s, a)
    ensures var s' := Do(s, a);
      && Joined(s') && s'.finished == s.finished && s'.popped == s.popped
      && s'.queue == Queued(s.queue, [a])
  {
    AllExited(s.workers);
    hide Tally, Notified, AllWoken, MayNotify, TasksOf;
    if a.Post? {
      Notifying(s.workers, a.woken);
    } else if a.Shutdown? {
      if |s.workers| == 1 { Notifying(s.workers, a.woken); } else { NotifyingAll(s.workers); }
    }
  }

  lemma {:induction false} AllExited<T>(ws: seq<Worker<T>>)
    requires Tally(ws, Exited) == |ws|
    ensures forall w :: 0 <= w < |ws| ==> ws[w] == Exited
    decreases |ws|
  {
    if ws != [] { AllExited(ws[..|ws| - 1]); }
  }

  /** After the last exit nothing is taken and nothing is run: what is pushed then stays in the queue. */
  lemma {:induction false} NothingRunsAfterJoin<T>(s: Pool<T>, actions: seq<Action<T>>, s': Pool<T>)
    requires Joined(s) && Run(s, actions, s')
    ensures Joined(s') && s'.finished == s.finished && s'.popped == s.popped
    ensures s'.queue == Queued(s.queue, actions)
    decreases |actions|
  {
    if actions != [] {
      hide Joined, Do, Enabled;
      JoinedStep(s, actions[0]);
      NothingRunsAfterJoin(Do(s, actions[0]), actions[1..], s');
    }
  }

  /** Where in a run the joins complete: the index of the last exit, and the state it is taken in. */
  lemma {:induction false} FindLastExit<T>(s: Pool<T>, actions: seq<Action<T>>, s': Pool<T>) returns (exit: nat, m: Pool<T>)
    requires Inv(s) && Run(s, actions, s') && !Joined(s) && Joined(s')
    ensures exit < |actions| && Run(s, actions[..exit], m)
    ensures Inv(m) && Enabled(m, actions[exit]) && !Joined(m) && Joined(Do(m, actions[exit]))
    ensures Run(Do(m, actions[exit]), actions[exit + 1..], s')
    decreases |actions|
  {
    hide Joined, Do, Enabled, Inv;
    assert actions != [];
    var next := Do(s, actions[0]);
    if Joined(next) {
      exit, m := 0, s;
    } else {
      StepKeepsInv(s, actions[0]);
      exit, m := FindLastExit(next, actions[1..], s');
      assert actions[..exit + 1][1..] == actions[1..][..exit];
      assert actions[exit + 2..] == actions[1..][exit + 1..];
      exit := exit + 1;
    }
  }

  /**
    A joined pool has run every task that was pushed before the last worker exited, also those pushed
    after the shutdown, exactly once and in order; the queue holds what was pushed after that.
    So it has run everything if and only if nothing was pushed after the last exit.
   */
  lemma JoinedPoolRanEverything<T>(s0: Pool<T>, actions: seq<Action<T>>, s: Pool<T>) returns (exit: nat, m: Pool<T>)
    requires Reaches(s0, actions, s) && s0.workers != [] && Joined(s)
    ensures exit < |actions| && Run(s0, actions[..exit], m)
    ensures m.shut && Enabled(m, actions[exit]) && !Joined(m) && Joined(Do(m, actions[exit]))
    ensures multiset(s.finished) == multiset(s.popped) == multiset(m.pushed) && (!m.ahead ==> s.popped == m.pushed)
    ensures s.queue == Queued([], actions[exit + 1..])
    ensures multiset(s.finished) == multiset(s.pushed) <==> forall i :: exit < i < |actions| ==> !IsPush(actions[i])
  {
    InitialInv(s0);
    AllIdle(s0.workers);
    assert !Joined(s0);
    exit, m := FindLastExit(s0, actions, s);
    var a, after := actions[exit], actions[exit + 1..];
    assert forall i :: exit < i < |actions| ==> actions[i] == after[i - exit - 1];
    assert forall i :: 0 <= i < |after| ==> after[i] == actions[exit + 1 + i];
    LastExit(m, a);
    NothingRunsAfterJoin(Do(m, a), after, s);
    QueuedGrows([], after);
    ReachableInv(s0, actions, s);
    NothingRuns(s.workers);
    SameSum(multiset(s.pushed), multiset(s.queue), multiset(s.finished));
    hide Tally, TasksOf, Queued, Run;
  }

  lemma SameSum<T>(p: multiset<T>, q: multiset<T>, f: multiset<T>)
    requires p == q + f || p == q + multiset{} + f
    ensures p == q + f && (f == p <==> |q| == 0)
  {
    assert |p| == |q| + |f|;
  }

  // Shutting down comes to an end.

  /** What a worker or a pusher does next, as opposed to new work and to waking up for no reason. */
  predicate IsProgress<T>(a: Action<T>) {
    a.Post? || a.EnterWait? || a.Recheck? || a.Take? || a.Finish?
  }

  function Measure<T>(s: Pool<T>): nat {
    3 * s.unposted + 3 * |s.queue| + Tally(s.workers, Passed)
      + 2 * Tally(s.workers, Idle) + 2 * Tally(s.workers, Woken) + 3 * Tally(s.workers, Running(()))
  }

  lemma MoveRest<T>(ws: seq<Worker<T>>, w: nat, v: Worker<T>)
    requires w < |ws|
    ensures var ws' := ws[w := v];
      && Tally(ws', Idle) == Tally(ws, Idle) - One(ws[w].Idle?) + One(v.Idle?)
      && Tally(ws', Running(())) == Tally(ws, Running(())) - One(ws[w].Running?) + One(v.Running?)
  {
    TallyUpdate(ws, w, v, Idle);
    TallyUpdate(ws, w, v, Running(()));
  }

  lemma MoveTo<T>(ws: seq<Worker<T>>, w: nat, v: Worker<T>)
    requires w < |ws|
    ensures var ws' := ws[w := v];
      && Tally(ws', Sleeping) == Tally(ws, Sleeping) - One(ws[w].Sleeping?) + One(v.Sleeping?)
      && Tally(ws', Woken) == Tally(ws, Woken) - One(ws[w].Woken?) + One(v.Woken?)
      && Tally(ws', Passed) == Tally(ws, Passed) - One(ws[w].Passed?) + One(v.Passed?)
      && Tally(ws', Idle) == Tally(ws, Idle) - One(ws[w].Idle?) + One(v.Idle?)
      && Tally(ws', Running(())) == Tally(ws, Running(())) - One(ws[w].Running?) + One(v.Running?)
  {
    hide Tally;
    Move(ws, w, v);
    MoveRest(ws, w, v);
  }

  lemma WaitShrinks<T>(s: Pool<T>, w: nat)
    requires w < |s.workers| && (s.workers[w] == Idle || s.workers[w] == Woken)
    ensures Measure(Waited(s, w)) < Measure(s)
  {
    hide Tally;
    if s.count == 0 { MoveTo(s.workers, w, Sleeping); } else { MoveTo(s.workers, w, Passed); }
  }

  lemma TakeShrinks<T>(s: Pool<T>, w: nat)
    requires Enabled(s, Take(w))
    ensures Measure(Do(s, Take(w))) < Measure(s)
  {
    hide Tally;
    if s.queue == [] { MoveTo(s.workers, w, Exited); } else { MoveTo(s.workers, w, Running(s.queue[0])); }
  }

  lemma PostShrinks<T>(s: Pool<T>, w: nat)
    requires Enabled(s, Post(w))
    ensures Measure(Do(s, Post(w))) < Measure(s)
  {
    hide Tally;
    if w < |s.workers| { MoveTo(s.workers, w, Woken); }
  }

  lemma FinishShrinks<T>(s: Pool<T>, w: nat)
    requires Enabled(s, Finish(w))
    ensures Measure(Do(s, Finish(w))) < Measure(s)
  {
    hide Tally;
    MoveTo(s.workers, w, Idle);
  }

  /** Nothing goes on for ever but new work and waking up for no reason. */
  lemma ProgressShrinks<T>(s: Pool<T>, a: Action<T>)
    requires Enabled(s, a) && IsProgress(a)
    ensures Measure(Do(s, a)) < Measure(s)
  {
    hide Tally, Waited, Measure;
    if a.Post? {
      PostShrinks(s, a.woken);
    } else if a.Take? {
      TakeShrinks(s, a.worker);
    } else if a.Finish? {
      FinishShrinks(s, a.worker);
    } else {
      WaitShrinks(s, a.worker);
    }
  }

  /** Until the joins complete there is always something to do other than waking up for no reason. */
  lemma ShutdownNeverStalls<T>(s: Pool<T>) returns (a: Action<T>)
    requires Inv(s) && s.shut && !Joined(s)
    ensures Enabled(s, a) && IsProgress(a)
  {
    TallyPartition(s.workers);
    if Tally(s.workers, Idle) > 0 {
      var w := TallySome(s.workers, Idle);
      a := EnterWait(w);
    } else if Tally(s.workers, Woken) > 0 {
      var w := TallySome(s.workers, Woken);
      a := Recheck(w);
    } else if Tally(s.workers, Passed) > 0 {
      var w := TallySome(s.workers, Passed);
      a := Take(w);
    } else if Tally(s.workers, Running(())) > 0 {
      var w := TallySome(s.workers, Running(()));
      a := Finish(w);
    } else {
      hide Tally;
      assert Tally(s.workers, Sleeping) > 0 && s.count == 0;
      assert s.unposted > 0;
      var w := TallySome(s.workers, Sleeping);
      a := Post(w);
    }
  }

  /** From wherever the shutdown finds the pool, going on without new work ends with the joins. */
  lemma {:induction false} ShutdownCompletes<T>(s: Pool<T>) returns (actions: seq<Action<T>>, s': Pool<T>)
    requires Inv(s) && s.shut
    ensures Run(s, actions, s') && Joined(s') && s'.shut && s'.pushed == s.pushed
    ensures forall i :: 0 <= i < |actions| ==> IsProgress(actions[i])
    decreases Measure(s)
  {
    hide Inv, Measure, Joined, Enabled, Tally;
    if Joined(s) {
      actions, s' := [], s;
    } else {
      var a := ShutdownNeverStalls(s);
      StepKeepsInv(s, a);
      ProgressShrinks(s, a);
      var rest, end := ShutdownCompletes(Do(s, a));
      actions, s' := [a] + rest, end;
      assert actions[1..] == rest;
    }
  }

  lemma {:induction false} RunJoins<T>(s: Pool<T>, a: seq<Action<T>>, m: Pool<T>, b: seq<Action<T>>, s': Pool<T>)
    requires Run(s, a, m) && Run(m, b, s')
    ensures Run(s, a + b, s')
    decreases |a|
  {
    if a == [] {
      assert a + b == b;
    } else {
      hide Do, Enabled;
      RunJoins(Do(s, a[0]), a[1..], m, b, s');
      assert (a + b)[1..] == a[1..] + b;
    }
  }

  lemma SomeNotified<T>(ws: seq<Worker<T>>) returns (w: nat)
    ensures MayNotify(ws, w)
  {
    if Tally(ws, Sleeping) > 0 { w := TallySome(ws, Sleeping); } else { w := |ws|; }
  }

  /**
    From any reachable state a pool with workers can be shut down until all have exited, without new work.
    A task pushed then stays in the queue.
   */
  lemma LatePushIsLost<T>(s: Pool<T>, t: T) returns (actions: seq<Action<T>>, j: Pool<T>, s': Pool<T>)
    requires Inv(s) && s.workers != []
    ensures forall i :: 0 <= i < |actions| ==> IsProgress(actions[i]) || (actions[i].Shutdown? && !s.shut)
    ensures Run(s, actions, j) && Joined(j) && j.pushed == s.pushed
    ensures Run(s, actions + [Push(t)], s') && Joined(s') && s'.queue == j.queue + [t]
  {
    hide Inv, Joined, IsProgress;
    if s.shut {
      actions, j := ShutdownCompletes(s);
    } else {
      var w := SomeNotified(s.workers);
      StepKeepsInv(s, Shutdown(w));
      var rest, end := ShutdownCompletes(Do(s, Shutdown(w)));
      actions, j := [Shutdown(w)] + rest, end;
      assert actions[1..] == rest;
    }
    s' := Do(j, Push(t));
    assert Run(s', [], s');
    assert Run(j, [Push(t)], s');
    RunJoins(s, actions, j, [Push(t)], s');
    JoinedStep(j, Push(t));
  }

  /** What is left in the queue of a joined pool is never run, whatever happens next. */
  lemma LeftTasksStay<T>(s: Pool<T>, actions: seq<Action<T>>, s': Pool<T>)
    requires Joined(s) && Run(s, actions, s')
    ensures multiset(s.queue) <= multiset(s'.queue) && s'.finished == s.finished
  {
    NothingRunsAfterJoin(s, actions, s');
    QueuedGrows(s.queue, actions);
  }
}
