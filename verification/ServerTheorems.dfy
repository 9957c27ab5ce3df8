/**
  What a server run promises: no connection is refused by the ring, none is lost or handed over
  twice, and once the pipeline is idle every connection belongs to exactly one worker.
 */
module ServerTheorems {
  import opened Basics
  import opened Tally
  import opened TaskRing
  import opened ServerMachine
  import opened ServerInvariant
  import P = PoolMachine
  import PI = PoolInvariant
  import W = WorkerMachine
  import WI = WorkerInvariant
  import PT = PoolTheorems
  import WT = WorkerTheorems
  import Runs

  // ---------------------------------------------------------------- size

  /** A step keeps the numbers of cores and of workers. */
  ghost predicate KeepsSize(s: State, next: State) {
    && next.pool.cores == s.pool.cores && next.workers.workerNum == s.workers.workerNum
    && |next.workers.workers| == |s.workers.workers|
  }

  lemma PoolKeepsCores(p: P.State, b: P.Action)
    requires P.Step(p, b).Some?
    ensures P.Step(p, b).value.cores == p.cores
  {
  }

  lemma WorkersKeepNumber(w: W.State, b: W.Action)
    requires W.Step(w, b).Some?
    ensures W.Step(w, b).value.workerNum == w.workerNum && |W.Step(w, b).value.workers| == |w.workers|
  {
  }

  lemma StepKeepsSize(s: State, a: Action)
    requires Step(s, a).Some?
    ensures KeepsSize(s, Step(s, a).value)
  {
    match a
    case BootWorkers(created) => WorkersKeepNumber(s.workers, W.BootStep(created));
    case CreatePool => PoolKeepsCores(s.pool, P.Create(s.pool.cores, DEFAULT_QUEUE));
    case PoolStep(b) => PoolKeepsCores(s.pool, b);
    case TaskLock(t) => WorkersKeepNumber(s.workers, W.Lock(t, s.pool.threads[t].task.fun.value.info));
    case TaskPush(t) => WorkersKeepNumber(s.workers, W.Push(t));
    case TaskFinish(t) =>
      WorkersKeepNumber(s.workers, W.Unlock(t));
      PoolKeepsCores(s.pool, P.ThreadStep(t));
    case WorkerStep(w) => WorkersKeepNumber(s.workers, W.WorkerStep(w));
    case Accept(info) => PoolKeepsCores(s.pool, P.Call(0, JobOf(info)));
    case _ =>
  }

  /**
    A server on so many cores, started with so many threads requested, has as many workers as the larger
    of the two (of the request only 16 bits count), and once create has succeeded one pool thread a core.
   */
  lemma SizedAsRequested(cores: P.Cores, requested: nat, s: State)
    requires ReachableFrom(cores, requested, s)
    ensures |s.workers.workers| == if requested % 0x10000 > cores then requested % 0x10000 else cores
    ensures s.workers.workerNum == |s.workers.workers|
    ensures |s.pool.threads| <= cores
    ensures s.pool.creator.Returned? && s.pool.creator.res == 0 ==> PI.Created(s.pool) == cores
  {
    var start := Initial(cores, requested);
    var acts :| Runs.Exec(Step, start, acts) == Some(s);
    var inv := (x: State) => KeepsSize(start, x);
    forall x, a | inv(x) && Step(x, a).Some? ensures inv(Step(x, a).value) {
      StepKeepsSize(x, a);
    }
    Runs.RunKeeps(Step, inv, start, acts);
    WT.WorkerNumIsMaximum(cores, requested);
    ReachableInv(s);
    PI.ReachableInv(s.pool);
  }

  // ---------------------------------------------------------------- capacity

  /** No submit of a server run is refused, so ignoring its result loses nothing. */
  lemma NoConnectionDropped(s: State)
    requires Reachable(s)
    ensures |s.pool.submitters| == 1
    ensures var pc := s.pool.submitters[0];
      && (pc.Unlocking? || pc.Replied? ==> pc.err == THREADPOOL_OK)
      && (pc.Testing? ==> SubmitVerdict(s.pool.ring, s.pool.shutdown) == THREADPOOL_OK)
    ensures s.connected <= SERVER_MAX_CONNECTION && |s.arrivals| <= SERVER_MAX_CONNECTION
  {
    ReachableInv(s);
    if s.pool.submitters[0].Testing? {
      NeverFull(s);
    }
  }

  // ---------------------------------------------------------------- conservation

  /** What a thread has taken from the ring, unless its connection has been pushed. */
  function Withheld(thread: P.ThreadPc, producer: W.ProducerPc): multiset<Task> {
    if producer.Pushed? then multiset{} else PI.HeldBy(thread)
  }

  /** The tasks that the pool threads have taken and whose connections are not in event_storage_ yet. */
  function Undelivered(threads: seq<P.ThreadPc>, producers: seq<W.ProducerPc>): multiset<Task>
    requires |threads| <= |producers|
  {
    if threads == [] then multiset{}
    else Withheld(threads[0], producers[0]) + Undelivered(threads[1..], producers[1..])
  }

  lemma TakenByOne(thread: P.ThreadPc, producer: W.ProducerPc, x: ClientInfo)
    requires producer.Pushed? ==> thread == P.Running(JobOf(producer.info))
    ensures PI.HeldBy(thread)[JobOf(x)] == Withheld(thread, producer)[JobOf(x)] + PushedBy(producer)[x]
  {
    if producer.Pushed? {
      assert JobOf(x) == JobOf(producer.info) <==> x == producer.info;
    }
  }

  /** A task that a thread has taken is withheld or pushed, and not both. */
  lemma {:induction false} TakenTasks(threads: seq<P.ThreadPc>, producers: seq<W.ProducerPc>, x: ClientInfo)
    requires |threads| <= |producers|
    requires forall t :: 0 <= t < |producers| && producers[t].Pushed? ==>
      t < |threads| && threads[t] == P.Running(JobOf(producers[t].info))
    ensures Gather(threads, PI.HeldBy)[JobOf(x)]
         == Undelivered(threads, producers)[JobOf(x)] + Gather(producers, PushedBy)[x]
  {
    if threads == [] {
      GatherEmpty(producers, PushedBy);
    } else {
      TakenByOne(threads[0], producers[0], x);
      TakenTasks(threads[1..], producers[1..], x);
    }
  }

  lemma PushedHadArrived(s: State)
    requires Inv(s)
    ensures multiset(s.workers.pushed) <= multiset(s.arrivals)
    ensures WI.Distinct(multiset(s.workers.pushed))
  {
    forall x ensures multiset(s.workers.pushed)[x] <= multiset(s.arrivals)[x] {
      UpToThePush(s, x);
    }
    WI.DistinctPart(multiset(s.workers.pushed), multiset(s.arrivals));
  }

  lemma {:induction false} JobsCount(infos: seq<ClientInfo>, x: ClientInfo)
    ensures multiset(Jobs(infos))[JobOf(x)] == multiset(infos)[x]
  {
    if infos == [] {
    } else {
      JobsCount(infos[1..], x);
      assert infos == [infos[0]] + infos[1..] && Jobs(infos) == [JobOf(infos[0])] + Jobs(infos[1..]);
      assert JobOf(x) == JobOf(infos[0]) <==> x == infos[0];
    }
  }

  lemma ArrivedTasks(s: State, x: ClientInfo)
    requires Handed(s)
    ensures multiset(s.arrivals)[x] == multiset(s.pool.accepted)[JobOf(x)] + multiset(InFlight(s))[x]
  {
    JobsCount(s.arrivals, x);
    JobsCount(InFlight(s), x);
    assert multiset(Jobs(s.arrivals)) == multiset(s.pool.accepted) + multiset(Jobs(InFlight(s)));
  }

  lemma AcceptedTasks(p: P.State, task: Task)
    requires PI.Fifo(p)
    ensures multiset(p.accepted)[task]
         == multiset(p.completed)[task] + Gather(p.threads, PI.HeldBy)[task] + multiset(Contents(p.ring))[task]
  {
    assert multiset(p.accepted) == multiset(p.dequeued) + multiset(Contents(p.ring));
  }

  /** The places of a connection before event_storage_. */
  lemma UpToThePush(s: State, x: ClientInfo)
    requires Inv(s)
    ensures Valid(s.pool.ring) && |s.pool.threads| <= |s.workers.producers|
    ensures multiset(s.arrivals)[x]
         == multiset(InFlight(s))[x]
          + multiset(Contents(s.pool.ring))[JobOf(x)]
          + Undelivered(s.pool.threads, s.workers.producers)[JobOf(x)]
          + multiset(s.workers.pushed)[x]
  {
    TaskPlaces(s, x);
    PI.ReachableInv(s.pool);
    ArrivedTasks(s, x);
    AcceptedTasks(s.pool, JobOf(x));
  }

  lemma TaskPlaces(s: State, x: ClientInfo)
    requires Booted(s) && Tasks(s) && Delivered(s)
    ensures |s.pool.threads| <= |s.workers.producers|
    ensures multiset(s.pool.completed)[JobOf(x)] + Gather(s.pool.threads, PI.HeldBy)[JobOf(x)]
         == Undelivered(s.pool.threads, s.workers.producers)[JobOf(x)] + multiset(s.workers.pushed)[x]
  {
    TakenTasks(s.pool.threads, s.workers.producers, x);
  }

  lemma ArrivalsAreCounted(s: State, x: ClientInfo)
    requires Reachable(s)
    ensures multiset(s.arrivals)[x] == if x in s.arrivals then 1 else 0
    ensures |s.arrivals| == s.connected + (if s.acceptor.Submitting? || s.acceptor.Counting? then 1 else 0)
  {
    ReachableInv(s);
    assert x in s.arrivals <==> x in multiset(s.arrivals);
  }

  /** In event_storage_ or in a worker's map. */
  ghost function HandedOver(s: State, x: ClientInfo): nat {
    multiset(s.workers.storage)[x] + Gather(s.workers.workers, WI.ClientsOf)[x]
  }

  /**
    Conservation: each connection that accept has returned is in exactly as many places as it has
    arrived, which is one: in flight to the ring, in the ring, with a task that has not pushed it, in
    event_storage_, or in a worker's map. The number of arrivals is connected_num_, or one more
    between accept and the increment.
   */
  lemma Conservation(s: State, x: ClientInfo)
    requires Reachable(s)
    ensures Valid(s.pool.ring) && |s.pool.threads| <= |s.workers.producers|
    ensures multiset(s.arrivals)[x]
         == multiset(InFlight(s))[x]
          + multiset(Contents(s.pool.ring))[JobOf(x)]
          + Undelivered(s.pool.threads, s.workers.producers)[JobOf(x)]
          + multiset(s.workers.storage)[x]
          + Gather(s.workers.workers, WI.ClientsOf)[x]
    ensures multiset(s.arrivals)[x] == if x in s.arrivals then 1 else 0
    ensures |s.arrivals| == s.connected + (if s.acceptor.Submitting? || s.acceptor.Counting? then 1 else 0)
  {
    ArrivalsAreCounted(s, x);
    ReachableInv(s);
    UpToThePush(s, x);
    PushedHadArrived(s);
    PushedIsStoredOrOwned(s, x);
  }

  lemma PushedIsStoredOrOwned(s: State, x: ClientInfo)
    requires Projects(s) && WI.Distinct(multiset(s.workers.pushed))
    ensures multiset(s.workers.pushed)[x]
         == multiset(s.workers.storage)[x] + Gather(s.workers.workers, WI.ClientsOf)[x]
  {
    WI.ReachableInv(s.workers.workerNum, s.workers);
    assert multiset(s.workers.pushed) == multiset(s.workers.popped) + multiset(s.workers.storage);
  }

  /** No descriptor is in two workers' maps, insert met no existing key, and each entry is a connection that arrived. */
  lemma UniqueOwnership(s: State, w: nat, u: nat, fd: int)
    requires Reachable(s) && w < |s.workers.workers| && u < |s.workers.workers|
    requires fd in s.workers.workers[w].clients && fd in s.workers.workers[u].clients
    ensures w == u && !s.workers.clash && fd > 0 && s.workers.workers[w].clients[fd] in s.arrivals
  {
    ReachableInv(s);
    PushedHadArrived(s);
    WT.UniqueOwner(s.workers.workerNum, s.workers, w, u, fd);
    var x := s.workers.workers[w].clients[fd];
    WI.ReachableInv(s.workers.workerNum, s.workers);
    assert x in multiset(s.workers.pushed);
  }

  // ---------------------------------------------------------------- quiescence

  /** Every created pool thread sleeps, and event_storage_ is empty. */
  ghost predicate Idle(s: State) {
    && PI.Created(s.pool) > 0
    && (forall t :: 0 <= t < |s.pool.threads| ==> s.pool.threads[t].Waiting? || s.pool.threads[t].Unborn?)
    && s.workers.storage == []
  }

  /** The accepting thread is inside submit with the connection, and has yet to signal it. */
  predicate Pending(s: State, x: ClientInfo) {
    && s.acceptor.Submitting? && x == s.acceptor.info
    && |s.pool.submitters| > 0 && !s.pool.submitters[0].Unlocking?
  }

  /** While all sleep, the ring holds nothing but the connection about to be signalled. */
  lemma IdleRing(s: State)
    requires Inv(s) && Idle(s)
    ensures Valid(s.pool.ring) && |s.pool.submitters| == 1
    ensures s.pool.submitters[0].Signalling? ==>
      s.acceptor.Submitting? && Contents(s.pool.ring) == [JobOf(s.acceptor.info)]
    ensures !s.pool.submitters[0].Signalling? ==> Contents(s.pool.ring) == []
  {
    PI.ReachableInv(s.pool);
    PT.AllAsleepBoundsQueue(s.pool);
    assert s.pool.submitters == [s.pool.submitters[0]];
    assert Sum(s.pool.submitters, PI.SignallingOne) == PI.SignallingOne(s.pool.submitters[0]);
    if s.pool.submitters[0].Signalling? {
      LastAccepted(s);
      assert s.pool.accepted == s.pool.dequeued + Contents(s.pool.ring);
    }
  }

  lemma LastAccepted(s: State)
    requires Calling(s) && Handed(s) && Limits(s) && s.pool.submitters[0].Signalling?
    ensures s.acceptor.Submitting? && |s.pool.accepted| > 0
    ensures s.pool.accepted[|s.pool.accepted| - 1] == JobOf(s.acceptor.info)
  {
    assert InFlight(s) == [] && Jobs([]) == [];
    assert s.pool.accepted == Jobs(s.arrivals);
  }

  lemma IdleQueue(s: State, x: ClientInfo)
    requires Inv(s) && Idle(s) && Valid(s.pool.ring)
    ensures multiset(InFlight(s))[x] + multiset(Contents(s.pool.ring))[JobOf(x)] == if Pending(s, x) then 1 else 0
  {
    IdleRing(s);
    var pc := s.pool.submitters[0];
    if s.acceptor.Submitting? {
      assert JobOf(x) == JobOf(s.acceptor.info) <==> x == s.acceptor.info;
      if pc.Signalling? {
        assert InFlight(s) == [] && Contents(s.pool.ring) == [JobOf(s.acceptor.info)];
      } else if pc.Unlocking? {
        assert InFlight(s) == [] && Contents(s.pool.ring) == [];
      } else {
        assert InFlight(s) == [s.acceptor.info] && Contents(s.pool.ring) == [];
      }
    }
  }

  lemma IdleHands(s: State, x: ClientInfo)
    requires Inv(s) && Idle(s)
    ensures |s.pool.threads| <= |s.workers.producers|
    ensures Undelivered(s.pool.threads, s.workers.producers)[JobOf(x)] == 0
  {
    TakenTasks(s.pool.threads, s.workers.producers, x);
    GatherEmpty(s.pool.threads, PI.HeldBy);
  }

  /**
    When the pool threads sleep and event_storage_ is empty, a connection that arrived is owned by a
    worker, under its descriptor, exactly if it is not still being submitted; and by one worker only.
   */
  lemma QuiescenceCompletesHandOff(s: State, x: ClientInfo)
    requires Reachable(s) && Idle(s) && x in s.arrivals
    ensures (exists w :: 0 <= w < |s.workers.workers| && Owns(s, w, x)) <==> !Pending(s, x)
    ensures forall w, u | 0 <= w < |s.workers.workers| && 0 <= u < |s.workers.workers| && w != u ::
      !(Owns(s, w, x) && Owns(s, u, x))
  {
    OwnedExactly(s, x);
    if x in Gather(s.workers.workers, WI.ClientsOf) {
      OwnedBySomebody(s, x);
    } else {
      forall w | 0 <= w < |s.workers.workers| ensures !Owns(s, w, x) {
        OwnedIsGathered(s, w, x);
      }
    }
    forall v, u | 0 <= v < |s.workers.workers| && 0 <= u < |s.workers.workers| && Owns(s, v, x) && Owns(s, u, x)
      ensures v == u
    {
      UniqueOwnership(s, v, u, x.fd);
    }
  }

  lemma OwnedExactly(s: State, x: ClientInfo)
    requires Reachable(s) && Idle(s) && x in s.arrivals
    ensures Projects(s) && (x in Gather(s.workers.workers, WI.ClientsOf) <==> !Pending(s, x))
  {
    Conservation(s, x);
    ReachableInv(s);
    IdleQueue(s, x);
    IdleHands(s, x);
  }

  lemma OwnedIsGathered(s: State, w: nat, x: ClientInfo)
    requires w < |s.workers.workers|
    ensures Owns(s, w, x) ==> x in Gather(s.workers.workers, WI.ClientsOf)
  {
    GatherTerm(s.workers.workers, w, WI.ClientsOf);
    if Owns(s, w, x) {
      assert x in WI.ClientsOf(s.workers.workers[w]);
    }
  }

  lemma OwnedBySomebody(s: State, x: ClientInfo)
    requires Projects(s) && x in Gather(s.workers.workers, WI.ClientsOf)
    ensures exists w :: 0 <= w < |s.workers.workers| && Owns(s, w, x)
  {
    WI.ReachableInv(s.workers.workerNum, s.workers);
    GatherWitness(s.workers.workers, WI.ClientsOf, x);
    var w :| 0 <= w < |s.workers.workers| && x in WI.ClientsOf(s.workers.workers[w]);
    assert Owns(s, w, x);
  }

  predicate Owns(s: State, w: nat, x: ClientInfo)
    requires w < |s.workers.workers|
  {
    x.fd in s.workers.workers[w].clients && s.workers.workers[w].clients[x.fd] == x
  }
}
