/**
  The last hop of a server run: from event_storage_ to a worker. A worker that keeps running empties the
  queue within a fixed number of its steps, and when nothing else is left, who has which connection is settled.
 */
module ServerPickup {
  import opened Basics
  import opened Tally
  import opened TaskRing
  import opened ServerMachine
  import opened ServerInvariant
  import opened ServerTheorems
  import opened ServerProgress
  import opened ServerDelivery
  import PI = PoolInvariant
  import W = WorkerMachine
  import WI = WorkerInvariant
  import WT = WorkerTheorems

  /** The worker is running: its thread was created, and it has not divided by zero. */
  predicate IsRunning(pc: W.WorkerPc) {
    !pc.Unborn? && !pc.Absent? && !pc.Faulted?
  }

  /** A running worker can step, unless another process holds locker_, and then that one can. */
  lemma RunningWorkerCanStep(s: State, w: nat)
    requires Reachable(s) && w < |s.workers.workers| && IsRunning(s.workers.workers[w].pc)
    ensures match s.workers.lock
      case Free => Step(s, WorkerStep(w)).Some?
      case ByWorker(u) => Step(s, WorkerStep(u)).Some?
      case ByProducer(t) => Step(s, TaskPush(t)).Some? || Step(s, TaskFinish(t)).Some?
  {
    match s.workers.lock
    case Free =>
    case ByWorker(u) => HolderCanStep(s, u);
    case ByProducer(t) =>
      ReachableInv(s);
      TaskIsInside(s, t);
      TaskCanStep(s, t);
  }

  /** A run, of all processes, that never finds event_storage_ empty. */
  ghost predicate BusyRun(s: State, acts: seq<Action>)
    decreases |acts|
  {
    && s.workers.storage != []
    && (acts == [] || (Step(s, acts[0]).Some? && BusyRun(Step(s, acts[0]).value, acts[1..])))
  }

  function OwnOne(a: Action, w: nat): nat { if a == WorkerStep(w) then 1 else 0 }

  function OwnSteps(acts: seq<Action>, w: nat): nat {
    if acts == [] then 0 else OwnOne(acts[0], w) + OwnSteps(acts[1..], w)
  }

  /** How far the worker is from its next pop, and nine for each pop made. */
  ghost predicate Advances(workers: W.State, next: W.State, w: nat, own: nat) {
    && next.boot.Booted? && w < |workers.workers| && w < |next.workers| && |workers.popped| <= |next.popped|
    && own + WT.StepsToPop(next.workers[w].pc)
       <= WT.StepsToPop(workers.workers[w].pc) + 9 * (|next.popped| - |workers.popped|)
  }

  lemma TaskAdvances(s: W.State, a: W.Action, w: nat)
    requires s.boot.Booted? && w < |s.workers| && s.storage != [] && !a.WorkerStep? && W.Step(s, a).Some?
    ensures Advances(s, W.Step(s, a).value, w, 0)
  {
    WT.OneBusyStep(s, a, w);
  }

  lemma StepAdvances(s: State, a: Action, w: nat)
    requires s.workers.boot.Booted? && w < |s.workers.workers| && s.workers.storage != [] && Step(s, a).Some?
    ensures Advances(s.workers, Step(s, a).value.workers, w, OwnOne(a, w))
  {
    match a
    case WorkerStep(u) => WT.OneBusyStep(s.workers, W.WorkerStep(u), w);
    case BootWorkers(created) => TaskAdvances(s.workers, W.BootStep(created), w);
    case TaskLock(t) => TaskAdvances(s.workers, W.Lock(t, s.pool.threads[t].task.fun.value.info), w);
    case TaskPush(t) => TaskAdvances(s.workers, W.Push(t), w);
    case TaskFinish(t) => TaskAdvances(s.workers, W.Unlock(t), w);
    case _ =>
  }

  lemma {:induction false} RunAdvances(s: State, acts: seq<Action>, w: nat)
    requires s.workers.boot.Booted? && w < |s.workers.workers| && BusyRun(s, acts)
    ensures Exec(s, acts).Some? && Advances(s.workers, Exec(s, acts).value.workers, w, OwnSteps(acts, w))
    decreases |acts|
  {
    if acts == [] {
    } else {
      StepAdvances(s, acts[0], w);
      RunAdvances(Step(s, acts[0]).value, acts[1..], w);
    }
  }

  lemma PartIsSmaller<T>(part: multiset<T>, whole: multiset<T>)
    requires part <= whole
    ensures |part| <= |whole|
  {
    assert whole == part + (whole - part);
  }

  lemma PopsAreBounded(s: State)
    requires Reachable(s)
    ensures |s.workers.popped| <= SERVER_MAX_CONNECTION
  {
    ReachableInv(s);
    PushedHadArrived(s);
    WI.ReachableInv(s.workers.workerNum, s.workers);
    PartIsSmaller(multiset(s.workers.pushed), multiset(s.arrivals));
  }

  /**
    Over every server run that never finds event_storage_ empty, a worker takes at most nine steps, and
    nine for each of the 2048 connections that there can be: so one that keeps running empties the queue.
   */
  lemma WorkerEmptiesStorage(s: State, acts: seq<Action>, w: nat)
    requires Reachable(s) && s.workers.boot.Booted? && w < |s.workers.workers| && BusyRun(s, acts)
    ensures Exec(s, acts).Some? && OwnSteps(acts, w) <= 9 + 9 * (2048 - |s.workers.popped|)
  {
    RunAdvances(s, acts, w);
    ExecReaches(s, acts);
    var last := Exec(s, acts).value;
    PopsAreBounded(last);
    FewAdvances(s.workers, last.workers, w, OwnSteps(acts, w));
  }

  lemma FewAdvances(workers: W.State, next: W.State, w: nat, own: nat)
    requires Advances(workers, next, w, own) && |next.popped| <= 2048
    ensures own <= 9 + 9 * (2048 - |workers.popped|)
  {
  }

  /**
    In the end, with no step of the pipeline left and event_storage_ empty: a connection is in the map of
    exactly one worker if it was heard and fewer silent ones arrived before it than there are pool threads,
    and in nobody's otherwise.
   */
  lemma OwnedExactlyInTheEnd(s: State, k: nat)
    requires Reachable(s) && Stuck(s) && s.workers.storage == [] && k < |s.arrivals|
    ensures (exists w :: 0 <= w < |s.workers.workers| && Owns(s, w, s.arrivals[k]))
       <==> s.arrivals[k].fd in s.heard && Silent(s.arrivals[..k], s.heard) < PI.Created(s.pool)
    ensures forall w, u | 0 <= w < |s.workers.workers| && 0 <= u < |s.workers.workers| && w != u ::
      !(Owns(s, w, s.arrivals[k]) && Owns(s, u, s.arrivals[k]))
  {
    var x := s.arrivals[k];
    DeliveredExactly(s, k);
    ReachableInv(s);
    if x in Gather(s.workers.workers, WI.ClientsOf) {
      OwnedBySomebody(s, x);
    } else {
      forall w | 0 <= w < |s.workers.workers| ensures !Owns(s, w, x) {
        OwnedIsGathered(s, w, x);
      }
    }
    forall v, u | 0 <= v < |s.workers.workers| && 0 <= u < |s.workers.workers| && Owns(s, v, x) && Owns(s, u, x)
      ensures v == u
    {
      UniqueOwnership(s, v, u, x.fd);
    }
  }
}
