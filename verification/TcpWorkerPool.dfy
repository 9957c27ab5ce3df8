/**
  The classes tcp_worker and tcp_worker_pool: construction, startup, the timeout setter and the two
  blocks guarded by locker_, on the fields they update in place. The block that takes a connection is
  proved against the insertion of WorkerMachine.
 */
module TcpWorkerPool {
  import opened Basics
  import TP = ThreadPool
  import W = WorkerMachine

  const MIN_EPOLL_WAIT_TIME := 10000

  class TcpWorker {
    var started: bool
    var pollTimeout: int
    var clients: map<int, ClientInfo>

    constructor ()
      ensures !started && pollTimeout == MIN_EPOLL_WAIT_TIME && clients == map[]
    {
      started, pollTimeout, clients := false, MIN_EPOLL_WAIT_TIME, map[];
    }

    /** A worker's thread is created by its first start only. */
    method Start() returns (creates: bool)
      modifies this`started
      ensures started && creates == !old(started)
    {
      creates := false;
      if !started {
        creates := true;
        started := true;
      }
    }

    method SetTimeout(timeout: int)
      modifies this`pollTimeout
      ensures pollTimeout == timeout
    {
      pollTimeout := timeout;
    }
  }

  class TcpWorkerPool {
    const workerNum: int
    const workers: array<TcpWorker?>
    var started: bool
    var storage: seq<ClientInfo>
    var avail: int

    /** Every slot has a worker of its own. */
    ghost predicate Ok()
      reads this, workers
    {
      && workers.Length == workerNum >= 1
      && (forall i :: 0 <= i < workers.Length ==> workers[i] != null)
      && (forall i, j :: 0 <= i < j < workers.Length ==> workers[i] != workers[j])
    }

    ghost function Workers(): set<TcpWorker>
      reads this, workers
    {
      set i | 0 <= i < workers.Length && workers[i] != null :: workers[i]
    }

    constructor (cores: int, requested: nat)
      requires cores >= 1
      ensures Ok() && fresh(workers) && fresh(Workers())
      ensures workerNum == W.WorkerNum(cores, requested)
      ensures !started && storage == [] && avail == 0
      ensures forall i :: 0 <= i < workers.Length && workers[i] != null ==>
        !workers[i].started && workers[i].clients == map[] && workers[i].pollTimeout == MIN_EPOLL_WAIT_TIME
    {
      var n := W.WorkerNum(cores, requested);
      workerNum := n;
      workers := new TcpWorker?[n](_ => null);
      started, storage, avail := false, [], 0;
      new;
      var i := 0;
      while i < workerNum
        modifies workers
        invariant 0 <= i <= workerNum == workers.Length
        invariant forall j :: 0 <= j < i ==> workers[j] != null && fresh(workers[j])
        invariant forall j :: i <= j < workers.Length ==> workers[j] == null
        invariant forall j, k :: 0 <= j < k < i ==> workers[j] != workers[k]
        invariant forall j :: 0 <= j < i && workers[j] != null ==>
          !workers[j].started && workers[j].clients == map[] && workers[j].pollTimeout == MIN_EPOLL_WAIT_TIME
      {
        workers[i] := new TcpWorker();
        i := i + 1;
      }
    }

    /**
      startup: all workers run before the counter is stored, and then the thread pool is created with as
      many threads as cores, where creates[i] says whether the call of pthread_create for its thread i
      succeeds; that it may not is ignored.
     */
    method Startup(cores: int, pool: TP.ThreadPool, creates: seq<bool>)
      requires Ok() && 1 <= cores <= MAX_THREADS && |creates| == MAX_THREADS
      modifies this`avail, this`started, Workers(), pool
      ensures Ok() && started && avail == workerNum && storage == old(storage)
      ensures pool.Ok() && pool.Queued() == [] && pool.queueSize == DEFAULT_QUEUE && pool.shutdown == old(pool.shutdown)
      ensures |pool.threads| == cores
      ensures forall i :: 0 <= i < cores ==> (pool.threads[i] <==> forall j :: 0 <= j <= i ==> creates[j])
      ensures forall i :: 0 <= i < workers.Length && workers[i] != null ==>
        && workers[i].started
        && workers[i].clients == old(workers[i].clients) && workers[i].pollTimeout == old(workers[i].pollTimeout)
    {
      var i := 0;
      while i < workerNum
        modifies Workers()
        invariant 0 <= i <= workerNum && Ok()
        invariant forall j :: 0 <= j < i && workers[j] != null ==> workers[j].started
        invariant forall j :: 0 <= j < workers.Length && workers[j] != null ==>
          workers[j].clients == old(workers[j].clients) && workers[j].pollTimeout == old(workers[j].pollTimeout)
      {
        var worker := workers[i];
        if worker != null {
          assert worker in Workers();
          var _ := worker.Start();
        }
        i := i + 1;
      }
      avail := workerNum;
      var _ := pool.Create(cores, cores, DEFAULT_QUEUE, creates);
      assert Distance(cores, cores) == 0;
      started := true;
    }

    /** set_poll_timeout: every worker gets the requested timeout, or the minimum if that is larger. */
    method SetPollTimeout(timeout: int)
      requires Ok()
      modifies Workers()
      ensures Ok()
      ensures forall i :: 0 <= i < workers.Length && workers[i] != null ==>
        && workers[i].pollTimeout >= MIN_EPOLL_WAIT_TIME && workers[i].pollTimeout >= timeout
        && (workers[i].pollTimeout == timeout || workers[i].pollTimeout == MIN_EPOLL_WAIT_TIME)
        && workers[i].clients == old(workers[i].clients) && workers[i].started == old(workers[i].started)
    {
      var least := if timeout < MIN_EPOLL_WAIT_TIME then MIN_EPOLL_WAIT_TIME else timeout;
      var i := 0;
      while i < workerNum
        modifies Workers()
        invariant 0 <= i <= workerNum && Ok()
        invariant forall j :: 0 <= j < i && workers[j] != null ==> workers[j].pollTimeout == least
        invariant forall j :: 0 <= j < workers.Length && workers[j] != null ==>
          workers[j].clients == old(workers[j].clients) && workers[j].started == old(workers[j].started)
      {
        var worker := workers[i];
        if worker != null {
          assert worker in Workers();
          worker.SetTimeout(least);
        }
        i := i + 1;
      }
    }

    /** The guarded block of the submitted task. */
    method Emplace(info: ClientInfo)
      modifies this`storage
      ensures storage == old(storage) + [info]
    {
      storage := storage + [info];
    }

    /**
      The guarded block of worker_routine: with a connection waiting, the oldest one moves from the
      queue to the worker's map, unless the map has its descriptor already.
     */
    method TakeConnection(worker: TcpWorker) returns (taken: Option<ClientInfo>)
      modifies this`storage, worker`clients
      ensures taken.None? <==> old(storage) == []
      ensures taken.None? ==> storage == [] && worker.clients == old(worker.clients)
      ensures taken.Some? ==> old(storage) == [taken.value] + storage
      ensures taken.Some? && taken.value.fd in old(worker.clients) ==> worker.clients == old(worker.clients)
      ensures taken.Some? && taken.value.fd !in old(worker.clients) ==>
        worker.clients == old(worker.clients)[taken.value.fd := taken.value]
      ensures taken.Some? ==> worker.clients == W.Insert(old(worker.clients), taken.value)
    {
      taken := None;
      if storage != [] {
        var info := storage[0];
        storage := storage[1..];
        if info.fd !in worker.clients {
          worker.clients := worker.clients[info.fd := info];
        }
        taken := Some(info);
      }
    }
  }
}
