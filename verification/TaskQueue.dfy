/** `semaphore` and `TaskQueue` of include/Thread as objects, one method for each critical section. */
module TaskQueue {
  import opened LinkedList

  /** The branch of the semaphore that is compiled: a count under a mutex and a condition variable. */
  class Semaphore {
    var count: nat

    constructor ()
      ensures count == 0
    {
      count := 0;
    }

    /** Says whom to notify: one waiter, or all of them. */
    method Post(n: nat) returns (one: bool)
      modifies this
      ensures count == old(count) + n && (one <==> n == 1)
    {
      count := count + n;
      one := n == 1;
    }

    /** One round of the loop in `wait`; a caller that does not get past goes to sleep until it is notified. */
    method TryPass() returns (passed: bool)
      modifies this
      ensures passed <==> old(count) > 0
      ensures count == old(count) - if passed then 1 else 0
    {
      passed := count != 0;
      if passed {
        count := count - 1;
      }
    }
  }

  class TaskQueue<T> {
    const queue: List<T>
    const sem: Semaphore

    ghost predicate Valid()
      reads this, queue, queue.nodes
    {
      queue.Valid()
    }

    ghost function Nodes(): set<ListNode<T>>
      reads queue
    {
      set n | n in queue.nodes
    }

    constructor ()
      ensures Valid() && fresh(queue) && fresh(sem) && queue.Contents() == [] && sem.count == 0
    {
      queue := new List();
      sem := new Semaphore();
    }

    /** `push_task`, up to where the lock is released; the post comes later. */
    method Push(task: T)
      requires Valid()
      modifies queue, queue.Ends()`next
      ensures Valid() && queue.Contents() == old(queue.Contents()) + [task]
      ensures fresh(Nodes() - old(Nodes()))
    {
      queue.EmplaceBack(task);
    }

    /** `push_task_first`, likewise. */
    method PushFirst(task: T)
      requires Valid()
      modifies queue
      ensures Valid() && queue.Contents() == [task] + old(queue.Contents())
      ensures fresh(Nodes() - old(Nodes()))
    {
      queue.EmplaceFront(task);
    }

    method PushExit(n: nat) returns (one: bool)
      modifies sem
      ensures sem.count == old(sem.count) + n && (one <==> n == 1)
    {
      one := sem.Post(n);
    }

    /** `get_task`, once the caller is past the semaphore. */
    method Take() returns (task: seq<T>)
      requires Valid()
      modifies queue
      ensures Valid() && task + queue.Contents() == old(queue.Contents())
      ensures if old(queue.Contents()) == [] then task == [] else |task| == 1
      ensures fresh(Nodes() - old(Nodes()))
    {
      if queue.size == 0 {
        return [];
      }
      var front := queue.Front();
      queue.PopFront();
      task := [front];
    }
  }
}
