/**
  Termination and absence of deadlock in the thread pool. A measure falls with every step that is
  not a new call or a spurious wakeup, and those raise it by a fixed amount; a state in which no such
  step can be taken is one in which the queue has been emptied, or the shutdown has finished. Tasks are
  assumed to terminate.
 */
module PoolProgress {
  import opened Basics
  import opened Tally
  import opened TaskRing
  import opened PoolMachine
  import opened PoolInvariant
  import opened PoolTheorems

  /** The steps that the pool and its pending callers owe, as against new calls and spurious wakeups. */
  predicate Owed(a: Action) {
    !(a.Create? || a.Call? || a.CallShutdown? || a.SpuriousWake?)
  }

  function OwedOne(a: Action): nat { if Owed(a) then 1 else 0 }

  predicate AllOwed(acts: seq<Action>) {
    forall i :: 0 <= i < |acts| ==> Owed(acts[i])
  }

  // ---------------------------------------------------------------- the measure

  function ThreadWeight(pc: ThreadPc): nat {
    match pc
    case Unborn => 7
    case Born => 6
    case Started => 5
    case Ready => 4
    case Woken => 4
    case Looping => 3
    case Past => 2
    case Waiting => 0
    case Holding(_) => 6
    case Running(_) => 5
    case Closing => 1
    case Exited => 0
  }

  /** What waking every thread can add. */
  const ROUSE := 4 * MAX_THREADS

  function SubmitterWeight(pc: SubmitPc): nat {
    match pc
    case Idle => 0
    case Want(_) => ROUSE + 9
    case Testing(_) => ROUSE + 8
    case Signalling => ROUSE + 2
    case Unlocking(_) => 1
    case Replied(_) => 0
  }

  function CloserWeight(pc: CloserPc): int {
    match pc
    case Away => 0
    case WantClose(_) => ROUSE + 2 * MAX_THREADS + 7
    case Locked(_) => ROUSE + 2 * MAX_THREADS + 6
    case Broadcasting => ROUSE + 2 * MAX_THREADS + 5
    case Releasing => 2 * MAX_THREADS + 3
    case Bound(i) => 2 * (MAX_THREADS - i) + 2
    case Joining(i) => 2 * (MAX_THREADS - i) + 1
    case Freeing(_) => 1
    case Done(_, _) => 0
    case Stranded => 0
  }

  function CreatorWeight(s: State): int {
    if s.creator.Spawning? then |s.threads| - s.creator.i + 1 else 0
  }

  /** The part of the measure that submitters do not touch. */
  function PoolMeasure(s: State): int {
    Sum(s.threads, ThreadWeight) + CloserWeight(s.closer) + CreatorWeight(s)
  }

  function Measure(s: State): int {
    PoolMeasure(s) + 5 * s.ring.count + Sum(s.submitters, SubmitterWeight)
  }

  lemma MeasureIsBounded(s: State)
    requires Inv(s)
    ensures 0 <= PoolMeasure(s) <= Measure(s)
  {
  }

  /** Waking threads adds at most 4 for each. */
  lemma {:induction false} RousingAdds(threads: seq<ThreadPc>, woken: set<nat>)
    ensures Sum(Rouse(threads, woken), ThreadWeight) <= Sum(threads, ThreadWeight) + 4 * |threads|
    decreases |threads|
  {
    if threads == [] {
    } else {
      var n := |threads| - 1;
      RousingAdds(threads[..n], woken);
      SumSplit(threads[..n], [threads[n]], ThreadWeight);
      SumSplit(Rouse(threads[..n], woken), [Rouse(threads, woken)[n]], ThreadWeight);
      assert threads == threads[..n] + [threads[n]];
      assert Rouse(threads, woken) == Rouse(threads[..n], woken) + [Rouse(threads, woken)[n]];
    }
  }

  lemma ThreadLosesWeight(s: State, t: nat)
    requires Shape(s) && Phases(s) && t < |s.threads| && StepThread(s, t).Some?
    ensures var next := StepThread(s, t).value;
      && t < |next.threads|
      && ThreadWeight(next.threads[t]) + 5 * next.ring.count < ThreadWeight(s.threads[t]) + 5 * s.ring.count
      && (s.shutdown ==> next.ring.count == s.ring.count)
      && next.threads == s.threads[t := next.threads[t]]
      && next.submitters == s.submitters && next.closer == s.closer && next.creator == s.creator
  {
    if s.threads[t].Past? && !s.shutdown {
      NotFullIsAddressable(s.ring);
    }
  }

  lemma ThreadDecreases(s: State, t: nat)
    requires Shape(s) && Phases(s) && t < |s.threads| && StepThread(s, t).Some?
    ensures Measure(StepThread(s, t).value) < Measure(s)
    ensures s.shutdown ==> PoolMeasure(StepThread(s, t).value) < PoolMeasure(s)
  {
    var next := StepThread(s, t).value;
    ThreadLosesWeight(s, t);
    SumUpdate(s.threads, t, next.threads[t], ThreadWeight);
  }

  lemma SubmitterLosesWeight(s: State, c: nat, woken: set<nat>)
    requires c < |s.submitters| && StepSubmitter(s, c, woken).Some?
    requires s.submitters[c].Testing? && s.ring.count != s.ring.size ==> Addressable(s.ring)
    ensures var next := StepSubmitter(s, c, woken).value;
      && |next.submitters| == |s.submitters| && next.submitters == s.submitters[c := next.submitters[c]]
      && SubmitterWeight(next.submitters[c]) + 5 * next.ring.count
         + (if s.submitters[c].Signalling? then ROUSE else 0) < SubmitterWeight(s.submitters[c]) + 5 * s.ring.count
      && next.threads == (if s.submitters[c].Signalling? then Rouse(s.threads, woken) else s.threads)
      && next.closer == s.closer && next.creator == s.creator
  {
  }

  lemma SubmitterDecreases(s: State, c: nat, woken: set<nat>)
    requires Shape(s) && c < |s.submitters| && StepSubmitter(s, c, woken).Some?
    ensures Measure(StepSubmitter(s, c, woken).value) < Measure(s)
  {
    var next := StepSubmitter(s, c, woken).value;
    if s.submitters[c].Testing? && s.ring.count != s.ring.size {
      NotFullIsAddressable(s.ring);
    }
    SubmitterLosesWeight(s, c, woken);
    SubmitterSums(s, next, c, woken);
  }

  lemma SubmitterSums(s: State, next: State, c: nat, woken: set<nat>)
    requires |s.threads| <= MAX_THREADS && c < |s.submitters| == |next.submitters|
    requires next.submitters == s.submitters[c := next.submitters[c]]
    requires SubmitterWeight(next.submitters[c]) + 5 * next.ring.count
         + (if s.submitters[c].Signalling? then ROUSE else 0) < SubmitterWeight(s.submitters[c]) + 5 * s.ring.count
    requires next.threads == if s.submitters[c].Signalling? then Rouse(s.threads, woken) else s.threads
    requires next.closer == s.closer && next.creator == s.creator
    ensures Measure(next) < Measure(s)
  {
    SumUpdate(s.submitters, c, next.submitters[c], SubmitterWeight);
    RousingAdds(s.threads, woken);
  }

  lemma CloserLosesWeight(s: State)
    requires Inv(s) && StepCloser(s).Some?
    ensures var next := StepCloser(s).value;
      && CloserWeight(next.closer) + (if s.closer.Broadcasting? then ROUSE else 0) < CloserWeight(s.closer)
      && next.threads == (if s.closer.Broadcasting? then Rouse(s.threads, Waiters(s.threads)) else s.threads)
      && next.creator == s.creator && next.ring == s.ring && next.submitters == s.submitters
  {
    if s.closer.Joining? {
      JoinsACreatedThread(s);
    }
  }

  lemma CloserDecreases(s: State)
    requires Inv(s) && StepCloser(s).Some?
    ensures Measure(StepCloser(s).value) < Measure(s)
    ensures PoolMeasure(StepCloser(s).value) < PoolMeasure(s)
  {
    CloserLosesWeight(s);
    CloserSums(s, StepCloser(s).value);
  }

  lemma CloserSums(s: State, next: State)
    requires |s.threads| <= MAX_THREADS
    requires CloserWeight(next.closer) + (if s.closer.Broadcasting? then ROUSE else 0) < CloserWeight(s.closer)
    requires next.threads == if s.closer.Broadcasting? then Rouse(s.threads, Waiters(s.threads)) else s.threads
    requires next.creator == s.creator && next.ring == s.ring && next.submitters == s.submitters
    ensures Measure(next) < Measure(s) && PoolMeasure(next) < PoolMeasure(s)
  {
    RousingAdds(s.threads, Waiters(s.threads));
  }

  lemma SpawnDecreases(s: State)
    requires Shape(s) && SpawnStep(s).Some?
    ensures Measure(SpawnStep(s).value) < Measure(s)
    ensures PoolMeasure(SpawnStep(s).value) < PoolMeasure(s)
  {
    if s.creator.i < |s.threads| {
      SumUpdate(s.threads, s.creator.i, Born, ThreadWeight);
    }
  }

  /** Every owed step brings the measure down. */
  lemma OwedDecreases(s: State, a: Action)
    requires Inv(s) && Owed(a) && Step(s, a).Some?
    ensures Measure(Step(s, a).value) < Measure(s)
  {
    match a
    case Spawn => SpawnDecreases(s);
    case SpawnFails =>
    case ThreadStep(t) => ThreadDecreases(s, t);
    case SubmitStep(c, woken) => SubmitterDecreases(s, c, woken);
    case CloserStep => CloserDecreases(s);
  }

  /** What a call or a spurious wakeup adds to the steps owed. */
  function Allowance(a: Action): nat {
    match a
    case Create(_, _) => 8 * MAX_THREADS + 1
    case Call(_, _) => ROUSE + 9
    case CallShutdown(_) => ROUSE + 2 * MAX_THREADS + 7
    case SpuriousWake(_) => 4
    case _ => 0
  }

  lemma CallAdds(s: State, a: Action)
    requires Inv(s) && !Owed(a) && Step(s, a).Some?
    ensures Measure(Step(s, a).value) <= Measure(s) + Allowance(a)
  {
    match a
    case Create(threadCount, queueSize) =>
      SumConstant(Step(s, a).value.threads, ThreadWeight, 7);
    case Call(c, task) => SumUpdate(s.submitters, c, Want(task), SubmitterWeight);
    case SpuriousWake(t) => SumUpdate(s.threads, t, Woken, ThreadWeight);
    case CallShutdown(requested) =>
  }

  /** So the owed steps of any run are bounded by its calls and its spurious wakeups. */
  lemma {:induction false} OwedStepsAreBounded(s: State, acts: seq<Action>)
    requires Reachable(s) && Exec(s, acts).Some?
    ensures Sum(acts, OwedOne) <= Measure(s) + Sum(acts, Allowance)
    decreases |acts|
  {
    ReachableInv(s);
    MeasureIsBounded(s);
    if acts == [] {
    } else {
      StepReaches(s, acts[0]);
      if Owed(acts[0]) {
        OwedDecreases(s, acts[0]);
      } else {
        CallAdds(s, acts[0]);
      }
      OwedStepsAreBounded(Step(s, acts[0]).value, acts[1..]);
    }
  }

  // ---------------------------------------------------------------- no deadlock

  predicate ThreadAtRest(pc: ThreadPc) { pc.Unborn? || pc.Waiting? || pc.Exited? }

  predicate SubmitterAtRest(pc: SubmitPc) { pc.Idle? || pc.Replied? }

  /** Everybody has returned, exited or gone to sleep. */
  ghost predicate AtRest(s: State) {
    && s.owner.Nobody?
    && !s.creator.Spawning?
    && (forall t :: 0 <= t < |s.threads| ==> ThreadAtRest(s.threads[t]))
    && (forall c :: 0 <= c < |s.submitters| ==> SubmitterAtRest(s.submitters[c]))
    && (s.closer.Away? || s.closer.Done?)
  }

  ghost predicate Stuck(s: State) {
    forall a :: Owed(a) ==> Step(s, a).None?
  }

  /** Whoever holds the lock can go on. */
  lemma OwnerCanStep(s: State) returns (a: Action)
    requires Inv(s) && !s.owner.Nobody?
    ensures Owed(a) && Step(s, a).Some?
    ensures s.owner.Submitter? || OfPool(a)
    ensures a.ThreadStep? ==> s.owner == Thread(a.t)
  {
    match s.owner
    case Thread(t) => a := ThreadStep(t);
    case Submitter(c) =>
      a := SubmitStep(c, Waiters(s.threads));
      forall t | Waiters(s.threads) == {} && 0 <= t < |s.threads| ensures !s.threads[t].Waiting? {
        assert t !in Waiters(s.threads);
      }
    case Closer => a := CloserStep;
  }

  /** The steps of the pool itself: its threads, its creator and its closer. */
  predicate OfPool(a: Action) {
    a.ThreadStep? || a.CloserStep? || a.Spawn? || a.SpawnFails?
  }

  function OfPoolOne(a: Action): nat { if OfPool(a) then 1 else 0 }

  /** The step is the end of a task. */
  predicate EndsTask(s: State, a: Action) {
    a.ThreadStep? && a.t < |s.threads| && s.threads[a.t].Running?
  }

  /** If nothing can move but the tasks that run, then the lock is free, and only those and sleepers are left. */
  lemma StuckButTasks(s: State)
    requires Reachable(s) && forall a :: Owed(a) && !EndsTask(s, a) ==> Step(s, a).None?
    ensures s.owner.Nobody? && !s.creator.Spawning?
    ensures forall t :: 0 <= t < |s.threads| ==> ThreadAtRest(s.threads[t]) || s.threads[t].Running?
    ensures forall c :: 0 <= c < |s.submitters| ==> SubmitterAtRest(s.submitters[c])
  {
    ReachableInv(s);
    if !s.owner.Nobody? {
      var a := OwnerCanStep(s);
      assert false;
    }
    assert Step(s, Spawn).None?;
    forall t | 0 <= t < |s.threads| ensures ThreadAtRest(s.threads[t]) || s.threads[t].Running? {
      assert !s.threads[t].Running? ==> Step(s, ThreadStep(t)).None?;
    }
    forall c | 0 <= c < |s.submitters| ensures SubmitterAtRest(s.submitters[c]) {
      assert Step(s, SubmitStep(c, {})).None?;
    }
  }

  /** A state in which no owed step can be taken is at rest: nothing is deadlocked. */
  lemma StuckIsAtRest(s: State)
    requires Reachable(s) && Stuck(s)
    ensures AtRest(s)
  {
    ReachableInv(s);
    StuckButTasks(s);
    forall t | 0 <= t < |s.threads| ensures ThreadAtRest(s.threads[t]) {
      assert Step(s, ThreadStep(t)).None?;
    }
    if s.closer.Joining? {
      JoinsACreatedThread(s);
    }
    assert Step(s, CloserStep).None?;
  }

  /** From every reachable state the owed steps lead to one that is at rest. */
  lemma {:induction false} RestIsReached(s: State)
    requires Reachable(s)
    ensures exists acts :: AllOwed(acts) && Exec(s, acts).Some? && AtRest(Exec(s, acts).value)
    decreases Measure(s)
  {
    ReachableInv(s);
    if Stuck(s) {
      StuckIsAtRest(s);
      assert AllOwed([]) && Exec(s, []) == Some(s);
    } else {
      var a :| Owed(a) && Step(s, a).Some?;
      var next := Step(s, a).value;
      StepReaches(s, a);
      OwedDecreases(s, a);
      ReachableInv(next);
      MeasureIsBounded(next);
      RestIsReached(next);
      var acts :| AllOwed(acts) && Exec(next, acts).Some? && AtRest(Exec(next, acts).value);
      assert ([a] + acts)[1..] == acts;
      assert AllOwed([a] + acts) && Exec(s, [a] + acts) == Exec(next, acts);
    }
  }

  // ---------------------------------------------------------------- what being at rest means

  lemma RestDrainsQueue(s: State)
    requires Inv(s) && AtRest(s) && s.closer.Away? && Created(s) > 0
    ensures s.ring.count == 0 && Gather(s.threads, HeldBy) == multiset{}
    ensures multiset(s.completed) == multiset(s.accepted)
  {
    AllAsleepMeansEmpty(s);
    GatherEmpty(s.threads, HeldBy);
    assert Contents(s.ring) == [];
  }

  lemma {:induction false} RunKeepsAway(s: State, acts: seq<Action>)
    requires Exec(s, acts).Some? && s.closer.Away? && !s.creator.NotCalled?
    requires forall i :: 0 <= i < |acts| ==> !acts[i].CallShutdown?
    ensures var last := Exec(s, acts).value;
      last.closer.Away? && !last.creator.NotCalled? && Created(s) <= Created(last)
    decreases |acts|
  {
    if acts == [] {
    } else {
      StepKeepsAway(s, acts[0]);
      RunKeepsAway(Step(s, acts[0]).value, acts[1..]);
    }
  }

  lemma ThreadLeavesOthers(s: State, t: nat)
    requires t < |s.threads| && StepThread(s, t).Some?
    ensures StepThread(s, t).value.closer == s.closer && StepThread(s, t).value.creator == s.creator
  {
  }

  lemma StepKeepsAway(s: State, a: Action)
    requires Step(s, a).Some? && s.closer.Away? && !s.creator.NotCalled? && !a.CallShutdown?
    ensures var next := Step(s, a).value;
      next.closer.Away? && !next.creator.NotCalled? && Created(s) <= Created(next)
  {
    match a
    case ThreadStep(t) => ThreadLeavesOthers(s, t);
    case SubmitStep(c, woken) =>
    case _ =>
  }

  /**
    Without a shutdown and with at least one thread, every accepted task is completed, whatever else is
    submitted meanwhile: the owed steps of any run are bounded by its calls and its spurious wakeups,
    and when none is left to take, no task is.
   */
  lemma EveryTaskCompletes(s: State, acts: seq<Action>)
    requires Reachable(s) && s.closer.Away? && Created(s) > 0
    requires Exec(s, acts).Some? && forall i :: 0 <= i < |acts| ==> !acts[i].CallShutdown?
    ensures Sum(acts, OwedOne) <= Measure(s) + Sum(acts, Allowance)
    ensures var last := Exec(s, acts).value;
      Stuck(last) ==> multiset(last.completed) == multiset(last.accepted) && last.ring.count == 0
  {
    OwedStepsAreBounded(s, acts);
    RunKeepsAway(s, acts);
    ExecReaches(s, acts);
    var last := Exec(s, acts).value;
    if Stuck(last) {
      ReachableInv(last);
      StuckIsAtRest(last);
      RestDrainsQueue(last);
    }
  }

  // ---------------------------------------------------------------- shutdown terminates

  lemma AfterBroadcast(s: State, a: Action)
    requires Inv(s) && BroadcastDone(s.closer) && !s.creator.NotCalled? && Step(s, a).Some?
    ensures var next := Step(s, a).value;
      && BroadcastDone(next.closer) && !next.creator.NotCalled?
      && PoolMeasure(next) + OfPoolOne(a) <= PoolMeasure(s)
  {
    match a
    case ThreadStep(t) =>
      ThreadDecreases(s, t);
      ThreadLosesWeight(s, t);
    case CloserStep => CloserDecreases(s);
    case Spawn => SpawnDecreases(s);
    case SubmitStep(c, woken) => SubmitterCannotWake(s, c, woken);
    case _ =>
  }

  lemma SubmitterCannotWake(s: State, c: nat, woken: set<nat>)
    requires Phases(s) && BroadcastDone(s.closer) && c < |s.submitters| && StepSubmitter(s, c, woken).Some?
    ensures var next := StepSubmitter(s, c, woken).value;
      next.threads == s.threads && next.closer == s.closer && next.creator == s.creator
  {
    assert Rouse(s.threads, woken) == s.threads;
  }

  /**
    After the broadcast the pool takes a bounded number of further steps, however many submits are
    still called and however they interleave with it.
   */
  lemma {:induction false} ShutdownIsBounded(s: State, acts: seq<Action>)
    requires Reachable(s) && BroadcastDone(s.closer) && !s.creator.NotCalled? && Exec(s, acts).Some?
    ensures Sum(acts, OfPoolOne) <= PoolMeasure(s) <= Measure(s)
    ensures BroadcastDone(Exec(s, acts).value.closer)
    decreases |acts|
  {
    ReachableInv(s);
    MeasureIsBounded(s);
    if acts == [] {
    } else {
      StepReaches(s, acts[0]);
      AfterBroadcast(s, acts[0]);
      ShutdownIsBounded(Step(s, acts[0]).value, acts[1..]);
    }
  }

  /**
    And it does not stop short, whatever submits are under way: once the pool has no step left and no
    submitter is inside its critical section, the join loop is over, every created thread has exited,
    and what is uncompleted is what the ring holds.
   */
  lemma ShutdownCompletes(s: State)
    requires Reachable(s) && s.shutdown && !s.owner.Submitter?
    requires forall a :: OfPool(a) ==> Step(s, a).None?
    ensures s.closer.Done?
    ensures forall t :: 0 <= t < Created(s) ==> t < |s.threads| && s.threads[t].Exited?
    ensures Valid(s.ring) && multiset(s.accepted) == multiset(s.completed) + multiset(Contents(s.ring))
  {
    PoolIsDone(s);
    ReachableInv(s);
    GatherEmpty(s.threads, HeldBy);
  }

  lemma PoolIsDone(s: State)
    requires Reachable(s) && s.shutdown && !s.owner.Submitter?
    requires forall a :: OfPool(a) ==> Step(s, a).None?
    ensures s.closer.Done?
    ensures forall t :: 0 <= t < |s.threads| ==> s.threads[t].Unborn? || s.threads[t].Exited?
  {
    ReachableInv(s);
    if !s.owner.Nobody? {
      var a := OwnerCanStep(s);
      assert false;
    }
    assert Step(s, CloserStep).None?;
    forall t | 0 <= t < |s.threads| ensures ThreadAtRest(s.threads[t]) {
      assert Step(s, ThreadStep(t)).None?;
    }
    if s.closer.Joining? {
      JoinsACreatedThread(s);
    }
  }
}
