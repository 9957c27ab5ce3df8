/**
  The class thread_pool as its callers see it between two critical sections: create, submit and the
  part of thread_routine that takes a task, on the fields they update in place. Each is proved
  against the functions of TaskRing, which are also the steps of PoolMachine.
 */
module ThreadPool {
  import opened Basics
  import opened TaskRing

  class ThreadPool {
    var workQueue: array<Task>
    var queueSize: int
    var curr: int
    var tail: int
    var workCount: int
    var shutdown: bool
    var shutdownMode: ShutdownMode
    var startedNum: int
    var threadCount: int
    var threads: seq<bool>  // threads_: whether each thread has been created

    ghost function View(): Ring
      reads this, workQueue
    {
      Ring(workQueue[..], queueSize, curr, tail, workCount)
    }

    ghost predicate Ok()
      reads this, workQueue
    {
      TaskRing.Valid(View())
    }

    /** The queued tasks, oldest first. */
    ghost function Queued(): seq<Task>
      reads this, workQueue
      requires Ok()
    {
      Contents(View())
    }

    constructor ()
      ensures Ok() && View() == NO_RING && Queued() == []
      ensures fresh(workQueue) && !shutdown && shutdownMode == Graceful
      ensures startedNum == 0 && threadCount == 0 && threads == []
    {
      workQueue := new Task[0];
      queueSize, curr, tail, workCount := 0, 0, 0, 0;
      shutdown, shutdownMode, startedNum, threadCount, threads := false, Graceful, 0, 0, [];
      new;
      assert workQueue[..] == [];
    }

    /**
      create, where creates[i] says whether the call of pthread_create for thread i succeeds. The
      queue is empty, of the coerced size; threads are created up to the first failure.
     */
    method Create(cores: int, threadTotal: int, queueTotal: int, creates: seq<bool>) returns (err: int)
      requires 1 <= cores <= MAX_THREADS && |creates| == MAX_THREADS
      modifies this
      ensures fresh(workQueue) && Ok() && Queued() == [] && Nearest(queueSize, queueTotal, 1024, 65535)
      ensures queueSize == NewRing(queueTotal).size
      ensures shutdown == old(shutdown) && startedNum == 0 && threadCount == 0
      ensures Nearest(|threads|, threadTotal, cores, 1024)
      ensures forall i :: 0 <= i < |threads| ==> (threads[i] <==> forall j :: 0 <= j <= i ==> creates[j])
      ensures err == 0 <==> forall i :: 0 <= i < |threads| ==> creates[i]
      ensures err == 0 || err == -1
    {
      var count := CoerceIn(threadTotal, cores, MAX_THREADS);
      queueSize := CoerceIn(queueTotal, MIN_QUEUE, MAX_QUEUE);
      threadCount := 0;
      threads := seq(count, _ => false);
      workQueue := new Task[queueSize](_ => NULL_TASK);
      curr, tail, workCount := 0, 0, 0;
      startedNum := 0;
      NewRingIsEmpty(queueTotal);
      CoerceInIsClamp(threadTotal, cores, MAX_THREADS);
      assert View() == NewRing(queueTotal);
      var i := 0;
      while i < count
        invariant 0 <= i <= count == |threads| && fresh(workQueue)
        invariant View() == NewRing(queueTotal) && shutdown == old(shutdown) && startedNum == 0 && threadCount == 0
        invariant forall j :: 0 <= j < count ==> threads[j] == (j < i)
        invariant forall j :: 0 <= j < i ==> creates[j]
      {
        if !creates[i] {
          return -1;
        }
        threads := threads[i := true];
        i := i + 1;
      }
      return 0;
    }

    /**
      submit: the task is appended, or the pool is left as it was. The answer is full exactly if as many
      tasks are queued as there are slots, and shutdown exactly if that is not so and the flag is up.
     */
    method Submit(args: Option<int>, func: Option<Fun>) returns (err: int)
      requires Ok()
      modifies this`tail, this`workCount, workQueue
      ensures Ok()
      ensures err == THREADPOOL_QUEUE_FULL <==> |old(Queued())| == queueSize
      ensures err == THREADPOOL_SHUTDOWN <==> |old(Queued())| != queueSize && shutdown
      ensures err == THREADPOOL_OK <==> |old(Queued())| != queueSize && !shutdown
      ensures View() == if err == THREADPOOL_OK then Enqueue(old(View()), Task(func, args)) else old(View())
      ensures Queued() == if err == THREADPOOL_OK then old(Queued()) + [Task(func, args)] else old(Queued())
    {
      err := THREADPOOL_OK;
      if workCount == queueSize {
        err := THREADPOOL_QUEUE_FULL;
      } else if shutdown {
        err := THREADPOOL_SHUTDOWN;
      } else {
        EnqueueAppends(View(), Task(func, args));
        var next := (tail + 1) % queueSize;
        workQueue[tail] := workQueue[tail].(fun := func);
        workQueue[tail] := workQueue[tail].(args := args);
        assert workQueue[..] == old(workQueue[..])[tail := Task(func, args)];
        tail := next;
        workCount := workCount + 1;
      }
    }

    /** The critical section of thread_routine once its waiting loop has found a task: the oldest one comes out. */
    method TakeTask() returns (task: Task)
      requires Ok() && workCount > 0
      modifies this`curr, this`workCount, workQueue
      ensures Ok() && View() == Dequeue(old(View()))
      ensures old(Queued()) == [task] + Queued()
    {
      DequeueRemovesHead(View());
      task := Task(workQueue[curr].fun, workQueue[curr].args);
      workQueue[curr] := workQueue[curr].(fun := None);
      workQueue[curr] := workQueue[curr].(args := None);
      assert workQueue[..] == old(workQueue[..])[curr := NULL_TASK];
      curr := (curr + 1) % queueSize;
      workCount := workCount - 1;
    }

    /** shutdown_interval up to its join loop: the flag is raised once, and the queue stays as it is, in either mode. */
    method RaiseShutdown(mode: ShutdownMode) returns (err: int)
      requires Ok()
      modifies this`shutdown, this`shutdownMode
      ensures Ok() && shutdown && View() == old(View()) && Queued() == old(Queued())
      ensures err == if old(shutdown) then THREADPOOL_SHUTDOWN else THREADPOOL_OK
      ensures shutdownMode == if old(shutdown) then old(shutdownMode) else mode
    {
      err := THREADPOOL_OK;
      if shutdown {
        err := THREADPOOL_SHUTDOWN;
      } else {
        shutdownMode := mode;
        shutdown := true;
      }
    }

    /** free_resource up to its test: it goes on only if no thread is started. */
    method FreeResource() returns (err: int)
      ensures err == 0 <==> startedNum <= 0
      ensures err == 0 || err == -1
    {
      if startedNum > 0 {
        return -1;
      }
      return 0;
    }
  }
}
