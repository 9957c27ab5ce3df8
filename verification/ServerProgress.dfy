/**
  The pipeline of a server run does not deadlock and comes to an end: whichever steps the pool threads,
  the tasks, the workers and the accepting thread take, those of the pipeline are bounded by the accepts
  and spurious wakeups among them; and when none is left to take, nothing is on its way but tasks whose
  clients have not been heard.
 */
module ServerProgress {
  import opened Basics
  import opened Tally
  import opened TaskRing
  import opened ServerMachine
  import opened ServerInvariant
  import opened ServerTheorems
  import P = PoolMachine
  import PI = PoolInvariant
  import PP = PoolProgress
  import W = WorkerMachine
  import WI = WorkerInvariant

  /** The steps of the pipeline: the pool's, the tasks' and the count. */
  predicate Owed(a: Action) {
    match a
    case PoolStep(b) => PP.Owed(b)
    case TaskRead(_) => true
    case TaskLock(_) => true
    case TaskPush(_) => true
    case TaskFinish(_) => true
    case Count => true
    case _ => false
  }

  function OwedOne(a: Action): nat { if Owed(a) then 1 else 0 }

  /** What an accept, a spurious wakeup or the creation of the pool adds to the steps owed. */
  function Allowance(a: Action): nat {
    match a
    case CreatePool => 4 * PP.Allowance(P.Create(0, 0))
    case Accept(info) => 4 * PP.Allowance(P.Call(0, JobOf(info))) + 2
    case PoolStep(b) => 4 * PP.Allowance(b)
    case _ => 0
  }

  // ---------------------------------------------------------------- the measure

  function ProducerWeight(pc: W.ProducerPc): nat {
    if pc.Outside? then 2 else if pc.Inside? then 1 else 0
  }

  function UnservedOne(served: bool): nat { if served then 0 else 1 }

  function AcceptorWeight(pc: AcceptPc): nat {
    if pc.Submitting? then 2 else if pc.Counting? then 1 else 0
  }

  function TasksMeasure(producers: seq<W.ProducerPc>, served: seq<bool>): nat {
    Sum(producers, ProducerWeight) + Sum(served, UnservedOne)
  }

  function Measure(s: State): int {
    4 * PP.Measure(s.pool) + TasksMeasure(s.workers.producers, s.served) + AcceptorWeight(s.acceptor)
  }

  lemma MeasureIsPositive(s: State)
    requires Reachable(s)
    ensures 0 <= Measure(s)
  {
    ReachableInv(s);
    PI.ReachableInv(s.pool);
    PP.MeasureIsBounded(s.pool);
  }

  /** A step of the pool weighs at least one less if it is owed, and what it is allowed otherwise. */
  lemma PoolWeighs(p: P.State, b: P.Action)
    requires P.Reachable(p) && P.Step(p, b).Some?
    ensures PP.Measure(P.Step(p, b).value) + PP.OwedOne(b) <= PP.Measure(p) + PP.Allowance(b)
  {
    PI.ReachableInv(p);
    if PP.Owed(b) {
      PP.OwedDecreases(p, b);
    } else {
      PP.CallAdds(p, b);
    }
  }

  lemma ProducerWeighs(w: W.State, a: W.Action)
    requires (a.Lock? || a.Push? || a.Unlock?) && W.Step(w, a).Some?
    ensures Sum(W.Step(w, a).value.producers, ProducerWeight)
         == Sum(w.producers, ProducerWeight) + (if a.Unlock? then 2 else -1)
  {
    SumUpdate(w.producers, a.p, W.Step(w, a).value.producers[a.p], ProducerWeight);
  }

  lemma FinishWeighs(s: State, t: nat)
    requires Reachable(s) && FinishStep(s, t).Some?
    ensures Measure(FinishStep(s, t).value) < Measure(s)
  {
    ReachableInv(s);
    ProducerWeighs(s.workers, W.Unlock(t));
    PoolWeighs(s.pool, P.ThreadStep(t));
    SumUpdate(s.served, t, false, UnservedOne);
  }

  lemma PoolStepWeighs(s: State, b: P.Action)
    requires P.Reachable(s.pool) && StepPool(s, b).Some?
    ensures Measure(StepPool(s, b).value) + OwedOne(PoolStep(b)) <= Measure(s) + Allowance(PoolStep(b))
  {
    PoolWeighs(s.pool, b);
  }

  lemma TaskStepWeighs(s: State, a: Action)
    requires (a.TaskRead? || a.TaskLock? || a.TaskPush?) && Step(s, a).Some?
    ensures Measure(Step(s, a).value) < Measure(s)
  {
    match a
    case TaskRead(t) => SumUpdate(s.served, t, true, UnservedOne);
    case TaskLock(t) => ProducerWeighs(s.workers, W.Lock(t, s.pool.threads[t].task.fun.value.info));
    case TaskPush(t) => ProducerWeighs(s.workers, W.Push(t));
  }

  /** Workers, startup and clients weigh nothing, the creation of the pool and an accept what they are allowed. */
  lemma InputWeighs(s: State, a: Action)
    requires P.Reachable(s.pool) && Step(s, a).Some?
    requires a.Hear? || a.BootWorkers? || a.WorkerStep? || a.CreatePool? || a.Accept?
    ensures Measure(Step(s, a).value) <= Measure(s) + Allowance(a)
  {
    match a
    case Hear(_) =>
    case BootWorkers(created) => WorkersLeaveTasks(s.workers, W.BootStep(created));
    case WorkerStep(w) => WorkersLeaveTasks(s.workers, W.WorkerStep(w));
    case CreatePool => PoolWeighs(s.pool, P.Create(s.pool.cores, DEFAULT_QUEUE));
    case Accept(info) => PoolWeighs(s.pool, P.Call(0, JobOf(info)));
  }

  /** Every owed step brings the measure down, and no step raises it by more than its allowance. */
  lemma StepWeighs(s: State, a: Action)
    requires Reachable(s) && Step(s, a).Some?
    ensures Measure(Step(s, a).value) + OwedOne(a) <= Measure(s) + Allowance(a)
  {
    match a
    case PoolStep(b) =>
      ReachableInv(s);
      PoolStepWeighs(s, b);
    case TaskFinish(t) => FinishWeighs(s, t);
    case Count =>
    case _ =>
      if Owed(a) {
        TaskStepWeighs(s, a);
      } else {
        ReachableInv(s);
        InputWeighs(s, a);
      }
  }

  /** So the pipeline's steps in any run are bounded by the accepts and the spurious wakeups of the run. */
  lemma {:induction false} OwedStepsAreBounded(s: State, acts: seq<Action>)
    requires Reachable(s) && Exec(s, acts).Some?
    ensures Sum(acts, OwedOne) <= Measure(s) + Sum(acts, Allowance)
    decreases |acts|
  {
    MeasureIsPositive(s);
    if acts == [] {
    } else {
      StepWeighs(s, acts[0]);
      StepReaches(s, acts[0]);
      OwedStepsAreBounded(Step(s, acts[0]).value, acts[1..]);
    }
  }

  // ---------------------------------------------------------------- no deadlock

  /** No step of the pipeline can be taken, and no worker holds locker_, which it could give back. */
  ghost predicate Stuck(s: State) {
    !s.workers.lock.ByWorker? && forall a :: Owed(a) ==> Step(s, a).None?
  }

  lemma HolderIsInside(s: State, w: nat)
    requires Reachable(s) && s.workers.lock == W.ByWorker(w)
    ensures w < |s.workers.workers| && WI.WorkerHasLock(s.workers.workers[w].pc)
    ensures s.workers.workers[w].pc.Fetching? ==> s.workers.storage != []
  {
    ReachableInv(s);
    WI.ReachableInv(s.workers.workerNum, s.workers);
  }

  /** A worker that holds locker_ gives it back. */
  lemma HolderCanStep(s: State, w: nat)
    requires Reachable(s) && s.workers.lock == W.ByWorker(w)
    ensures w < |s.workers.workers| && Step(s, WorkerStep(w)).Some?
    ensures HolderWeight(Step(s, WorkerStep(w)).value.workers) < HolderWeight(s.workers)
  {
    HolderIsInside(s, w);
    HolderMoves(s.workers, w);
  }

  function LockWeight(pc: W.WorkerPc): nat {
    if pc.Second? then 3 else if pc.Fetching? then 2 else 1
  }

  /** How far the worker that holds locker_ is from giving it back. */
  function HolderWeight(w: W.State): nat {
    if w.lock.ByWorker? && w.lock.w < |w.workers| then LockWeight(w.workers[w.lock.w].pc) else 0
  }

  lemma HolderMoves(w: W.State, i: nat)
    requires i < |w.workers| && w.lock == W.ByWorker(i) && WI.WorkerHasLock(w.workers[i].pc)
    requires w.workers[i].pc.Fetching? ==> w.storage != []
    ensures W.StepWorker(w, i).Some? && HolderWeight(W.StepWorker(w, i).value) < HolderWeight(w)
  {
  }

  lemma TaskIsInside(s: State, t: nat)
    requires Inv(s) && s.workers.lock == W.ByProducer(t)
    ensures t < |s.workers.producers| && !s.workers.producers[t].Outside?
    ensures t < |s.pool.threads| && s.pool.threads[t].Running? && t < |s.served|
  {
    WI.ReachableInv(s.workers.workerNum, s.workers);
  }

  lemma TaskCanStep(s: State, t: nat)
    requires t < |s.workers.producers| && !s.workers.producers[t].Outside?
    requires t < |s.pool.threads| && s.pool.threads[t].Running? && t < |s.served|
    ensures Step(s, if s.workers.producers[t].Inside? then TaskPush(t) else TaskFinish(t)).Some?
  {
  }

  lemma LockIsFree(s: State)
    requires Inv(s) && Stuck(s)
    ensures s.workers.lock.Free?
  {
    if s.workers.lock.ByProducer? {
      TaskIsInside(s, s.workers.lock.p);
      TaskCanStep(s, s.workers.lock.p);
    }
  }

  lemma NobodyInside(s: State, t: nat)
    requires Inv(s) && s.workers.lock.Free? && t < |s.workers.producers|
    ensures s.workers.producers[t].Outside?
  {
    WI.ReachableInv(s.workers.workerNum, s.workers);
  }

  /** A task that is stuck waits for its client. */
  lemma TaskWaitsForClient(s: State, t: nat)
    requires Inv(s) && Stuck(s) && t < |s.pool.threads| && s.pool.threads[t].Running?
    ensures IsJob(s.pool.threads[t].task) && s.pool.threads[t].task.fun.value.info.fd !in s.heard
  {
    LockIsFree(s);
    RunsAJob(s, t);
    NobodyInside(s, t);
    assert Step(s, TaskLock(t)).None?;
    assert Step(s, TaskRead(t)).None?;
  }

  /** What the pool could still do by itself, other than end a task, it can do in the server. */
  lemma PoolIsStuck(s: State, b: P.Action)
    requires Calling(s) && Booted(s) && Stuck(s) && PP.Owed(b) && !PP.EndsTask(s.pool, b)
    ensures P.Step(s.pool, b).None?
  {
    assert Step(s, PoolStep(b)).None?;
  }

  /** The thread is not there, sleeps, or waits in its task for a client that has not been heard. */
  ghost predicate Waits(s: State, pc: P.ThreadPc) {
    || pc.Unborn? || pc.Waiting?
    || (pc.Running? && IsJob(pc.task) && pc.task.fun.value.info.fd !in s.heard)
  }

  lemma PoolWaits(s: State)
    requires Inv(s) && Stuck(s)
    ensures s.pool.owner.Nobody?
    ensures forall t :: 0 <= t < |s.pool.threads| ==> PP.ThreadAtRest(s.pool.threads[t]) || s.pool.threads[t].Running?
    ensures forall c :: 0 <= c < |s.pool.submitters| ==> PP.SubmitterAtRest(s.pool.submitters[c])
  {
    forall b | PP.Owed(b) && !PP.EndsTask(s.pool, b) ensures P.Step(s.pool, b).None? {
      PoolIsStuck(s, b);
    }
    PP.StuckButTasks(s.pool);
  }

  lemma NobodyExited(s: State, t: nat)
    requires Inv(s) && t < |s.pool.threads|
    ensures !s.pool.threads[t].Exited?
  {
    PI.ReachableInv(s.pool);
  }

  /**
    When no step of the pipeline is left, both locks are free, no task is in the pushing block, no
    submit is under way, and a pool thread that does not sleep waits for a client to be heard.
   */
  lemma StuckIsFinished(s: State)
    requires Reachable(s) && Stuck(s)
    ensures s.pool.owner.Nobody? && s.workers.lock.Free? && !s.acceptor.Submitting? && !s.acceptor.Counting?
    ensures forall t :: 0 <= t < |s.pool.threads| ==> Waits(s, s.pool.threads[t])
    ensures forall t :: 0 <= t < |s.workers.producers| ==> s.workers.producers[t].Outside?
  {
    ReachableInv(s);
    PoolWaits(s);
    assert Step(s, Count).None?;
    LockIsFree(s);
    forall t | 0 <= t < |s.workers.producers| ensures s.workers.producers[t].Outside? {
      NobodyInside(s, t);
    }
    forall t | 0 <= t < |s.pool.threads| ensures Waits(s, s.pool.threads[t]) {
      NobodyExited(s, t);
      if s.pool.threads[t].Running? {
        TaskWaitsForClient(s, t);
      }
    }
  }

  // ---------------------------------------------------------------- the end is reached

  /** The run accepts nothing, hears nobody and creates nothing: it takes steps of the pipeline, and of lock holders. */
  ghost predicate Settles(s: State, acts: seq<Action>) {
    && Exec(s, acts).Some?
    && var last := Exec(s, acts).value;
      && Stuck(last) && last.arrivals == s.arrivals && last.heard == s.heard && last.pool.cores == s.pool.cores
      && (s.pool.creator.Returned? ==> last.pool.creator == s.pool.creator)
  }

  lemma StepSettles(s: State, a: Action)
    requires Step(s, a).Some? && (Owed(a) || a.WorkerStep?)
    ensures var next := Step(s, a).value;
      && next.arrivals == s.arrivals && next.heard == s.heard
      && (s.pool.creator.Returned? ==> next.pool.creator == s.pool.creator)
  {
    match a
    case PoolStep(b) => PoolStepSettles(s, b);
    case TaskFinish(t) => PP.ThreadLeavesOthers(s.pool, t);
    case _ =>
  }

  lemma PoolStepSettles(s: State, b: P.Action)
    requires StepPool(s, b).Some?
    ensures var next := StepPool(s, b).value;
      && next.arrivals == s.arrivals && next.heard == s.heard
      && (s.pool.creator.Returned? ==> next.pool.creator == s.pool.creator)
  {
    if b.ThreadStep? {
      PP.ThreadLeavesOthers(s.pool, b.t);
    }
  }

  lemma HolderKeepsMeasure(s: State, w: nat)
    requires Reachable(s) && StepWorker(s, w).Some?
    ensures Measure(StepWorker(s, w).value) == Measure(s)
  {
    WorkersLeaveTasks(s.workers, W.WorkerStep(w));
  }

  /** From every reachable state such a run leads to one that is stuck. */
  lemma {:induction false} StuckIsReached(s: State)
    requires Reachable(s)
    ensures exists acts :: Settles(s, acts)
    decreases Measure(s), HolderWeight(s.workers)
  {
    if Stuck(s) {
      assert Exec(s, []) == Some(s);
      assert Settles(s, []);
    } else {
      var a: Action;
      if s.workers.lock.ByWorker? {
        a := WorkerStep(s.workers.lock.w);
        HolderCanStep(s, s.workers.lock.w);
        HolderKeepsMeasure(s, s.workers.lock.w);
      } else {
        a :| Owed(a) && Step(s, a).Some?;
        OwedFalls(s, a);
      }
      var next := Step(s, a).value;
      StepReaches(s, a);
      MeasureIsPositive(next);
      StepSettles(s, a);
      StepKeepsSize(s, a);
      StuckIsReached(next);
      var acts :| Settles(next, acts);
      assert ([a] + acts)[1..] == acts;
      assert Exec(s, [a] + acts) == Exec(next, acts);
      assert Settles(s, [a] + acts);
    }
  }

  lemma OwedFalls(s: State, a: Action)
    requires Reachable(s) && Owed(a) && Step(s, a).Some?
    ensures Measure(Step(s, a).value) < Measure(s)
  {
    StepWeighs(s, a);
  }
}
