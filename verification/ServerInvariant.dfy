/**
  The inductive invariant of a server run: the invariants of the two pools, and what ties the
  accepting thread, the tasks and the hand-off queue together.
 */
module ServerInvariant {
  import opened Basics
  import opened Tally
  import opened TaskRing
  import opened ServerMachine
  import P = PoolMachine
  import PI = PoolInvariant
  import W = WorkerMachine
  import WI = WorkerInvariant
  import Runs

  function PushedBy(pc: W.ProducerPc): multiset<ClientInfo> {
    if pc.Pushed? then multiset{pc.info} else multiset{}
  }

  /** The connection that accept has returned and that is not in the ring yet. */
  function InFlight(s: State): seq<ClientInfo> {
    if s.acceptor.Submitting? && |s.pool.submitters| > 0
       && (s.pool.submitters[0].Want? || s.pool.submitters[0].Testing?)
    then [s.acceptor.info] else []
  }

  /** The accepting thread is the only caller of submit, and where it is in it. */
  ghost predicate Calling(s: State) {
    && |s.pool.submitters| == 1
    && s.pool.closer.Away?
    && var pc := s.pool.submitters[0];
      if s.acceptor.Submitting? then
        && !pc.Idle? && !pc.Replied?
        && (pc.Want? || pc.Testing? ==> pc.task == JobOf(s.acceptor.info))
        && (pc.Unlocking? ==> pc.err == THREADPOOL_OK)
      else
        (pc.Idle? || pc.Replied?) && (pc.Replied? ==> pc.err == THREADPOOL_OK)
  }

  ghost predicate Booted(s: State) {
    && |s.workers.producers| == s.pool.cores
    && |s.pool.threads| <= s.pool.cores
    && (s.pool.creator.NotCalled? ==> s.pool.threads == [])
    && (s.acceptor.Booting? || s.acceptor.Creating? ==> s.pool.creator.NotCalled?)
    && (s.acceptor.Spawning? ==> s.pool.creator.Spawning?)
    && (s.acceptor.Accepting? || s.acceptor.Submitting? || s.acceptor.Counting? ==> s.pool.creator.Returned?)
    && (s.arrivals != [] ==> s.pool.creator.Returned?)
    && (!s.pool.creator.NotCalled? ==> s.pool.ring.size == DEFAULT_QUEUE)
  }

  /** The connections that arrived, but for the one in flight, have been accepted as their jobs, in order. */
  ghost predicate Handed(s: State) {
    s.pool.accepted + Jobs(InFlight(s)) == Jobs(s.arrivals)
  }

  /** A task inside the pushing block is the job of the connection it pushes. */
  ghost predicate Tasks(s: State) {
    forall t :: 0 <= t < |s.workers.producers| && !s.workers.producers[t].Outside? ==>
      t < |s.pool.threads| && s.pool.threads[t] == P.Running(JobOf(s.workers.producers[t].info))
  }

  /** A task gets to the pushing block, and to its end, only once its client has been heard. */
  ghost predicate Reads(s: State) {
    && |s.served| == |s.workers.producers|
    && (forall t :: 0 <= t < |s.served| && !s.workers.producers[t].Outside? ==> s.served[t])
    && (forall t :: 0 <= t < |s.served| && s.served[t] ==>
          RunsJob(s, t) && s.pool.threads[t].task.fun.value.info.fd in s.heard)
    && (forall task :: task in s.pool.completed ==> IsJob(task) && task.fun.value.info.fd in s.heard)
  }

  /** What was pushed comes from the tasks that are completed, and from those past their push. */
  ghost predicate Delivered(s: State) {
    forall x :: multiset(s.workers.pushed)[x]
             == multiset(s.pool.completed)[JobOf(x)] + Gather(s.workers.producers, PushedBy)[x]
  }

  ghost predicate Limits(s: State) {
    && |s.arrivals| == s.connected + (if s.acceptor.Submitting? || s.acceptor.Counting? then 1 else 0)
    && |s.arrivals| <= SERVER_MAX_CONNECTION
    && WI.Distinct(multiset(s.arrivals))
    && (forall x :: x in s.arrivals ==> x.fd > 0)
    && (s.acceptor.Submitting? || s.acceptor.Counting? ==> s.arrivals[|s.arrivals| - 1] == s.acceptor.info)
  }

  ghost predicate Glue(s: State) {
    Calling(s) && Booted(s) && Handed(s) && Tasks(s) && Reads(s) && Delivered(s) && Limits(s)
  }

  /** What each pool does in a server run is a run of its own machine. */
  ghost predicate Projects(s: State) {
    && P.Reachable(s.pool)
    && s.workers.workerNum >= 1
    && W.ReachableFrom(s.workers.workerNum, s.workers)
  }

  ghost predicate Inv(s: State) {
    Projects(s) && Glue(s)
  }

  lemma InitialKeeps(cores: P.Cores, requested: nat)
    ensures Inv(Initial(cores, requested))
  {
    InitialProjects(cores, requested);
    InitialGlue(cores, requested);
  }

  lemma InitialProjects(cores: P.Cores, requested: nat)
    ensures Projects(Initial(cores, requested))
  {
    Runs.LeadsToItself<P.State, P.Action>(P.Step, P.Initial(cores, 1));
    Runs.LeadsToItself<W.State, W.Action>(W.Step, W.Initial(W.WorkerNum(cores, requested), cores));
  }

  lemma InitialGlue(cores: P.Cores, requested: nat)
    ensures Glue(Initial(cores, requested))
  {
    NothingYet(Initial(cores, requested));
  }

  lemma NothingYet(s: State)
    requires s.acceptor.Booting? && s.connected == 0 && s.arrivals == []
    requires s.pool.submitters == [P.Idle] && s.pool.closer.Away? && s.pool.creator.NotCalled?
    requires s.pool.threads == [] && s.pool.accepted == [] && s.pool.completed == [] && s.workers.pushed == []
    requires |s.workers.producers| == s.pool.cores == |s.served|
    requires forall t :: 0 <= t < |s.served| ==> s.workers.producers[t].Outside? && !s.served[t]
    ensures Glue(s)
  {
    NothingArrived(s);
    NothingDelivered(s);
  }

  lemma NothingArrived(s: State)
    requires s.acceptor.Booting? && s.arrivals == [] && s.pool.accepted == []
    ensures Handed(s)
  {
    assert InFlight(s) == [] && Jobs([]) == [];
  }

  lemma NothingDelivered(s: State)
    requires s.pool.completed == [] && s.workers.pushed == []
    requires forall t :: 0 <= t < |s.workers.producers| ==> s.workers.producers[t].Outside?
    ensures Delivered(s)
  {
    GatherEmpty(s.workers.producers, PushedBy);
  }

  lemma PoolProjects(s: State, next: State, b: P.Action)
    requires Projects(s) && P.Step(s.pool, b) == Some(next.pool) && next.workers == s.workers
    ensures Projects(next)
  {
    P.StepReaches(s.pool, b);
  }

  lemma WorkersProject(s: State, next: State, b: W.Action)
    requires Projects(s) && W.Step(s.workers, b) == Some(next.workers) && next.pool == s.pool
    ensures Projects(next)
  {
    W.StepReaches(s.workers.workerNum, s.workers, b);
    WI.StepKeepsNumber(s.workers, b);
  }

  // ---------------------------------------------------------------- steps of the worker pool

  /** Neither the workers nor startup touch what the tasks have done. */
  lemma WorkersLeaveTasks(s: W.State, a: W.Action)
    requires (a.WorkerStep? || a.BootStep?) && W.Step(s, a).Some?
    ensures W.Step(s, a).value.producers == s.producers && W.Step(s, a).value.pushed == s.pushed
  {
  }

  lemma BootKeeps(s: State, created: bool)
    requires Inv(s) && BootStep(s, created).Some?
    ensures Inv(BootStep(s, created).value)
  {
    WorkersProject(s, BootStep(s, created).value, W.BootStep(created));
    WorkersLeaveTasks(s.workers, W.BootStep(created));
  }

  lemma WorkerKeeps(s: State, w: nat)
    requires Inv(s) && StepWorker(s, w).Some?
    ensures Inv(StepWorker(s, w).value)
  {
    WorkersProject(s, StepWorker(s, w).value, W.WorkerStep(w));
    WorkersLeaveTasks(s.workers, W.WorkerStep(w));
    WorkersKeepGlue(s, StepWorker(s, w).value);
  }

  lemma WorkersKeepGlue(s: State, next: State)
    requires Glue(s) && next == s.(workers := next.workers)
    requires next.workers.producers == s.workers.producers && next.workers.pushed == s.workers.pushed
    ensures Glue(next)
  {
    assert InFlight(next) == InFlight(s);
  }

  // ---------------------------------------------------------------- steps of the thread pool

  lemma CreateKeeps(s: State)
    requires Inv(s) && CreateStep(s).Some?
    ensures Inv(CreateStep(s).value)
  {
    PoolProjects(s, CreateStep(s).value, P.Create(s.pool.cores, DEFAULT_QUEUE));
    CreateKeepsGlue(s);
  }

  lemma CreateKeepsGlue(s: State)
    requires Glue(s) && CreateStep(s).Some?
    ensures Glue(CreateStep(s).value)
  {
    var next := CreateStep(s).value;
    assert InFlight(next) == InFlight(s);
    assert next.workers == s.workers;
    assert next.pool.accepted == s.pool.accepted && next.pool.completed == s.pool.completed;
  }

  /** A step of the pool that starts, wakes or moves a thread, and completes no task. */
  ghost predicate Quiet(p: P.State, next: P.State) {
    && next.submitters == p.submitters && next.closer == p.closer && next.cores == p.cores
    && next.accepted == p.accepted && next.completed == p.completed && next.ring.size == p.ring.size
    && |next.threads| == |p.threads|
    && (forall t :: 0 <= t < |p.threads| && p.threads[t].Running? ==> next.threads[t] == p.threads[t])
  }

  lemma QuietKeepsGlue(s: State, next: State)
    requires Glue(s) && Quiet(s.pool, next.pool)
    requires next == s.(pool := next.pool, acceptor := next.acceptor)
    requires || (next.acceptor == s.acceptor && next.pool.creator == s.pool.creator)
             || (s.acceptor.Spawning? && next.pool.creator.Spawning? && next.acceptor.Spawning?)
             || (s.acceptor.Spawning? && next.pool.creator.Returned? && next.acceptor.Accepting?)
    ensures Glue(next)
  {
    assert InFlight(next) == InFlight(s);
  }

  lemma ThreadIsQuiet(p: P.State, t: nat)
    requires t < |p.threads| && !p.threads[t].Running? && P.StepThread(p, t).Some?
    ensures Quiet(p, P.StepThread(p, t).value) && P.StepThread(p, t).value.creator == p.creator
  {
    PI.ThreadMovesOnlyItself(p, t);
  }

  lemma SpawnIsQuiet(p: P.State)
    requires P.Reachable(p) && P.SpawnStep(p).Some?
    ensures Quiet(p, P.SpawnStep(p).value)
  {
    PI.ReachableInv(p);
  }

  lemma QuietKeeps(s: State, b: P.Action)
    requires Inv(s) && (b.ThreadStep? || b.SpuriousWake?) && StepPool(s, b).Some?
    ensures Inv(StepPool(s, b).value)
  {
    PoolProjects(s, StepPool(s, b).value, b);
    if b.ThreadStep? {
      ThreadIsQuiet(s.pool, b.t);
    }
    QuietKeepsGlue(s, StepPool(s, b).value);
  }

  lemma SpawnKeeps(s: State, b: P.Action)
    requires Inv(s) && (b.Spawn? || b.SpawnFails?) && StepPool(s, b).Some?
    ensures Inv(StepPool(s, b).value)
  {
    PoolProjects(s, StepPool(s, b).value, b);
    if b.Spawn? {
      SpawnIsQuiet(s.pool);
    }
    QuietKeepsGlue(s, StepPool(s, b).value);
  }

  // ---------------------------------------------------------------- steps of submit

  /**
    The capacity argument: the ring holds at most the connections accepted before this one, which are
    fewer than SERVER_MAX_CONNECTION, which is the size of the ring; so the full test fails.
   */
  lemma NeverFull(s: State)
    requires Inv(s) && s.acceptor.Submitting? && s.pool.submitters[0].Testing?
    ensures s.pool.ring.count < s.pool.ring.size && !s.pool.shutdown
    ensures SubmitVerdict(s.pool.ring, s.pool.shutdown) == THREADPOOL_OK && Addressable(s.pool.ring)
  {
    PI.ReachableInv(s.pool);
    assert |s.pool.accepted| == |s.pool.dequeued| + |Contents(s.pool.ring)|;
    assert |s.pool.accepted + Jobs(InFlight(s))| == |s.arrivals|;
    NotFullIsAddressable(s.pool.ring);
  }

  /** What a step of the only submitter does to the pool, given that the verdict is to accept. */
  ghost predicate Submits(p: P.State, next: P.State) {
    && |next.submitters| == |p.submitters| == 1
    && next.closer == p.closer && next.cores == p.cores && next.creator == p.creator
    && next.completed == p.completed && next.ring.size == p.ring.size
    && |next.threads| == |p.threads|
    && (forall t :: 0 <= t < |p.threads| && p.threads[t].Running? ==> next.threads[t] == p.threads[t])
    && match p.submitters[0]
       case Want(task) => next.submitters[0] == P.Testing(task) && next.accepted == p.accepted
       case Testing(task) => next.submitters[0] == P.Signalling && next.accepted == p.accepted + [task]
       case Signalling => next.submitters[0] == P.Unlocking(THREADPOOL_OK) && next.accepted == p.accepted
       case Unlocking(err) => next.submitters[0] == P.Replied(err) && next.accepted == p.accepted
       case _ => false
  }

  lemma SubmitterSubmits(p: P.State, woken: set<nat>)
    requires |p.submitters| == 1 && P.StepSubmitter(p, 0, woken).Some?
    requires p.submitters[0].Testing? ==>
      SubmitVerdict(p.ring, p.shutdown) == THREADPOOL_OK && Addressable(p.ring)
    ensures Submits(p, P.StepSubmitter(p, 0, woken).value)
  {
  }

  lemma SubmitsKeepsGlue(s: State, next: State)
    requires Glue(s) && s.acceptor.Submitting? && Submits(s.pool, next.pool)
    requires next == s.(pool := next.pool, acceptor := next.acceptor)
    requires next.acceptor == if next.pool.submitters[0].Replied? then Counting(s.acceptor.info) else s.acceptor
    ensures Glue(next)
  {
    SubmitsKeepsRest(s, next);
    if s.pool.submitters[0].Testing? {
      AcceptedGrows(s, next);
    } else {
      assert InFlight(next) == InFlight(s);
    }
  }

  lemma SubmitsKeepsRest(s: State, next: State)
    requires Calling(s) && Booted(s) && Tasks(s) && Reads(s) && Delivered(s) && Limits(s)
    requires s.acceptor.Submitting? && Submits(s.pool, next.pool)
    requires next == s.(pool := next.pool, acceptor := next.acceptor)
    requires next.acceptor == if next.pool.submitters[0].Replied? then Counting(s.acceptor.info) else s.acceptor
    ensures Calling(next) && Booted(next) && Tasks(next) && Reads(next) && Delivered(next) && Limits(next)
  {
  }

  lemma AcceptedGrows(s: State, next: State)
    requires Handed(s) && s.acceptor.Submitting? && next.acceptor == s.acceptor && next.arrivals == s.arrivals
    requires |s.pool.submitters| == 1 && s.pool.submitters[0] == P.Testing(JobOf(s.acceptor.info))
    requires |next.pool.submitters| == 1 && next.pool.submitters[0].Signalling?
    requires next.pool.accepted == s.pool.accepted + [JobOf(s.acceptor.info)]
    ensures Handed(next)
  {
    assert InFlight(s) == [s.acceptor.info] && InFlight(next) == [];
    assert Jobs([s.acceptor.info]) == [JobOf(s.acceptor.info)] && Jobs([]) == [];
  }

  lemma SubmitKeeps(s: State, b: P.Action)
    requires Inv(s) && b.SubmitStep? && StepPool(s, b).Some?
    ensures Inv(StepPool(s, b).value)
  {
    PoolProjects(s, StepPool(s, b).value, b);
    OnlyCallerSubmits(s, b);
    SubmitsKeepsGlue(s, StepPool(s, b).value);
  }

  lemma OnlyCallerSubmits(s: State, b: P.Action)
    requires Inv(s) && s.acceptor.Submitting? && b.SubmitStep? && P.Step(s.pool, b).Some?
    ensures Submits(s.pool, P.Step(s.pool, b).value)
  {
    if s.pool.submitters[0].Testing? {
      NeverFull(s);
    }
    SubmitterSubmits(s.pool, b.woken);
  }

  lemma AcceptKeeps(s: State, info: ClientInfo)
    requires Inv(s) && AcceptStep(s, info).Some?
    ensures Inv(AcceptStep(s, info).value)
  {
    PoolProjects(s, AcceptStep(s, info).value, P.Call(0, JobOf(info)));
    AcceptKeepsGlue(s, info);
  }

  lemma AcceptKeepsGlue(s: State, info: ClientInfo)
    requires Glue(s) && AcceptStep(s, info).Some?
    ensures Glue(AcceptStep(s, info).value)
  {
    var next := AcceptStep(s, info).value;
    AcceptKeepsHanded(s, next, info);
    NewStaysDistinct(s.arrivals, info);
  }

  lemma AcceptKeepsHanded(s: State, next: State, info: ClientInfo)
    requires Handed(s) && s.acceptor.Accepting? && |s.pool.submitters| == 1
    requires next.acceptor == Submitting(info) && next.pool.submitters == [P.Want(JobOf(info))]
    requires next.pool.accepted == s.pool.accepted && next.arrivals == s.arrivals + [info]
    ensures Handed(next)
  {
    assert InFlight(s) == [] && InFlight(next) == [info];
    assert Jobs([]) == [] && Jobs(s.arrivals + [info]) == Jobs(s.arrivals) + Jobs([info]);
  }

  lemma NewStaysDistinct(arrivals: seq<ClientInfo>, info: ClientInfo)
    requires WI.Distinct(multiset(arrivals))
    requires forall i :: 0 <= i < |arrivals| ==> arrivals[i].fd != info.fd
    ensures WI.Distinct(multiset(arrivals + [info]))
  {
    var m := multiset(arrivals);
    assert multiset(arrivals + [info]) == m + multiset{info};
    forall x | x in m ensures x.fd != info.fd {
      assert x in arrivals;
    }
  }

  lemma CountKeeps(s: State)
    requires Inv(s) && CountStep(s).Some?
    ensures Inv(CountStep(s).value)
  {
    assert InFlight(CountStep(s).value) == InFlight(s);
  }

  // ---------------------------------------------------------------- steps of a task

  lemma HearKeeps(s: State, fd: int)
    requires Inv(s)
    ensures Inv(s.(heard := s.heard + {fd}))
  {
    assert InFlight(s.(heard := s.heard + {fd})) == InFlight(s);
  }

  lemma ReadKeeps(s: State, t: nat)
    requires Inv(s) && ReadStep(s, t).Some?
    ensures Inv(ReadStep(s, t).value)
  {
    ReadKeepsReads(s, t);
    assert InFlight(ReadStep(s, t).value) == InFlight(s);
  }

  lemma ReadKeepsReads(s: State, t: nat)
    requires Reads(s) && ReadStep(s, t).Some?
    ensures Reads(ReadStep(s, t).value)
  {
  }

  /** One task moves in or out of the pushing block. */
  ghost predicate TaskMoves(s: State, next: State, t: nat, pc: W.ProducerPc) {
    && t < |s.workers.producers| && t < |s.served|
    && next.workers.producers == s.workers.producers[t := pc]
    && next == s.(pool := next.pool, workers := next.workers, served := s.served[t := !pc.Outside?])
  }

  lemma LockKeeps(s: State, t: nat)
    requires Inv(s) && LockStep(s, t).Some?
    ensures Inv(LockStep(s, t).value)
  {
    var next := LockStep(s, t).value;
    var info := s.pool.threads[t].task.fun.value.info;
    WorkersProject(s, next, W.Lock(t, info));
    RunsAJob(s, t);
    EnterKeepsGlue(s, next, t, info);
  }

  lemma EnterKeepsGlue(s: State, next: State, t: nat, info: ClientInfo)
    requires Glue(s) && TaskMoves(s, next, t, W.Inside(info)) && s.workers.producers[t].Outside?
    requires next.pool == s.pool && next.workers.pushed == s.workers.pushed
    requires t < |s.pool.threads| && s.pool.threads[t] == P.Running(JobOf(info)) && s.served[t]
    ensures Glue(next)
  {
    EnterDelivers(s, next, t, info);
    TaskKeepsRest(s, next, t, W.Inside(info));
  }

  lemma EnterDelivers(s: State, next: State, t: nat, info: ClientInfo)
    requires Delivered(s) && t < |s.workers.producers| && s.workers.producers[t].Outside?
    requires next.workers.producers == s.workers.producers[t := W.Inside(info)]
    requires next.pool == s.pool && next.workers.pushed == s.workers.pushed
    ensures Delivered(next)
  {
    GatherExchange(s.workers.producers, t, W.Inside(info), PushedBy);
  }

  /** A running task of the pool is the job of some connection. */
  lemma RunsAJob(s: State, t: nat)
    requires P.Reachable(s.pool) && Handed(s) && t < |s.pool.threads| && s.pool.threads[t].Running?
    ensures IsJob(s.pool.threads[t].task)
    ensures s.pool.threads[t].task == JobOf(s.pool.threads[t].task.fun.value.info)
  {
    PI.ReachableInv(s.pool);
    PI.HeldIsAccepted(s.pool, t);
    AcceptedAreJobs(s, s.pool.threads[t].task);
  }

  lemma AcceptedAreJobs(s: State, task: Task)
    requires Handed(s) && task in s.pool.accepted
    ensures IsJob(task) && task.fun.value.info in s.arrivals
  {
    assert task in Jobs(s.arrivals);
    var i :| 0 <= i < |s.arrivals| && JobOf(s.arrivals[i]) == task;
  }

  lemma PushKeeps(s: State, t: nat)
    requires Inv(s) && PushStep(s, t).Some?
    ensures Inv(PushStep(s, t).value)
  {
    WorkersProject(s, PushStep(s, t).value, W.Push(t));
    PushKeepsGlue(s, PushStep(s, t).value, t);
  }

  lemma PushKeepsGlue(s: State, next: State, t: nat)
    requires Glue(s) && t < |s.workers.producers| && s.workers.producers[t].Inside?
    requires TaskMoves(s, next, t, W.Pushed(s.workers.producers[t].info)) && next.pool == s.pool
    requires next.workers.pushed == s.workers.pushed + [s.workers.producers[t].info]
    ensures Glue(next)
  {
    PushDelivers(s, next, t);
    TaskKeepsRest(s, next, t, W.Pushed(s.workers.producers[t].info));
  }

  lemma TaskKeepsRest(s: State, next: State, t: nat, pc: W.ProducerPc)
    requires Calling(s) && Booted(s) && Handed(s) && Tasks(s) && Reads(s) && Limits(s)
    requires TaskMoves(s, next, t, pc) && next.pool == s.pool && !pc.Outside? && s.served[t]
    requires t < |s.pool.threads| && s.pool.threads[t] == P.Running(JobOf(pc.info))
    ensures Calling(next) && Booted(next) && Handed(next) && Tasks(next) && Reads(next) && Limits(next)
  {
    assert InFlight(next) == InFlight(s);
  }

  lemma PushDelivers(s: State, next: State, t: nat)
    requires Delivered(s) && next.pool == s.pool && t < |s.workers.producers| && s.workers.producers[t].Inside?
    requires next.workers.pushed == s.workers.pushed + [s.workers.producers[t].info]
    requires next.workers.producers == s.workers.producers[t := W.Pushed(s.workers.producers[t].info)]
    ensures Delivered(next)
  {
    var info := s.workers.producers[t].info;
    GatherExchange(s.workers.producers, t, W.Pushed(info), PushedBy);
  }

  lemma FinishDelivers(s: State, next: State, t: nat)
    requires Delivered(s) && t < |s.workers.producers| && s.workers.producers[t].Pushed?
    requires next.workers.pushed == s.workers.pushed
    requires next.workers.producers == s.workers.producers[t := W.Outside]
    requires next.pool.completed == s.pool.completed + [JobOf(s.workers.producers[t].info)]
    ensures Delivered(next)
  {
    var info := s.workers.producers[t].info;
    GatherExchange(s.workers.producers, t, W.Outside, PushedBy);
    forall x ensures multiset(next.workers.pushed)[x]
                  == multiset(next.pool.completed)[JobOf(x)] + Gather(next.workers.producers, PushedBy)[x] {
      assert JobOf(x) == JobOf(info) <==> x == info;
    }
  }

  lemma FinishKeeps(s: State, t: nat)
    requires Inv(s) && FinishStep(s, t).Some?
    ensures Inv(FinishStep(s, t).value)
  {
    FinishProjects(s, t);
    FinishKeepsGlue(s, FinishStep(s, t).value, t);
  }

  lemma FinishProjects(s: State, t: nat)
    requires Projects(s) && FinishStep(s, t).Some?
    ensures Projects(FinishStep(s, t).value)
  {
    var next := FinishStep(s, t).value;
    WorkersProject(s, s.(workers := next.workers), W.Unlock(t));
    PoolProjects(s.(workers := next.workers), next, P.ThreadStep(t));
  }

  lemma FinishKeepsGlue(s: State, next: State, t: nat)
    requires Glue(s) && t < |s.workers.producers| && s.workers.producers[t].Pushed?
    requires TaskMoves(s, next, t, W.Outside) && next.workers.pushed == s.workers.pushed
    requires t < |s.pool.threads| && s.pool.threads[t].Running? && P.StepThread(s.pool, t) == Some(next.pool)
    ensures Glue(next)
  {
    var task := s.pool.threads[t].task;
    assert s.pool.threads[t] == P.Running(JobOf(s.workers.producers[t].info));
    assert next.pool == s.pool.(threads := s.pool.threads[t := P.Ready], completed := s.pool.completed + [task],
                                emptyCall := s.pool.emptyCall || task.fun.None?);
    FinishDelivers(s, next, t);
    FinishKeepsRest(s, next, t);
  }

  lemma FinishKeepsRest(s: State, next: State, t: nat)
    requires Calling(s) && Booted(s) && Handed(s) && Tasks(s) && Reads(s) && Limits(s)
    requires TaskMoves(s, next, t, W.Outside) && s.served[t] && t < |s.pool.threads| && s.pool.threads[t].Running?
    requires next.pool == s.pool.(threads := s.pool.threads[t := P.Ready],
                                  completed := s.pool.completed + [s.pool.threads[t].task],
                                  emptyCall := next.pool.emptyCall)
    ensures Calling(next) && Booted(next) && Handed(next) && Tasks(next) && Reads(next) && Limits(next)
  {
    assert InFlight(next) == InFlight(s);
  }

  // ---------------------------------------------------------------- all steps

  lemma StepKeeps(s: State, a: Action)
    requires Inv(s) && Step(s, a).Some?
    ensures Inv(Step(s, a).value)
  {
    match a
    case BootWorkers(created) => BootKeeps(s, created);
    case CreatePool => CreateKeeps(s);
    case PoolStep(b) =>
      if b.SubmitStep? {
        SubmitKeeps(s, b);
      } else if b.Spawn? || b.SpawnFails? {
        SpawnKeeps(s, b);
      } else {
        QuietKeeps(s, b);
      }
    case Hear(fd) => HearKeeps(s, fd);
    case TaskRead(t) => ReadKeeps(s, t);
    case TaskLock(t) => LockKeeps(s, t);
    case TaskPush(t) => PushKeeps(s, t);
    case TaskFinish(t) => FinishKeeps(s, t);
    case WorkerStep(w) => WorkerKeeps(s, w);
    case Accept(info) => AcceptKeeps(s, info);
    case Count => CountKeeps(s);
  }

  lemma ReachableInv(s: State)
    requires Reachable(s)
    ensures Inv(s)
  {
    var cores: P.Cores, requested: nat :| ReachableFrom(cores, requested, s);
    var acts :| Runs.Exec(Step, Initial(cores, requested), acts) == Some(s);
    InitialKeeps(cores, requested);
    forall x, a | Inv(x) && Step(x, a).Some? ensures Inv(Step(x, a).value) {
      StepKeeps(x, a);
    }
    Runs.RunKeeps(Step, Inv, Initial(cores, requested), acts);
  }
}
