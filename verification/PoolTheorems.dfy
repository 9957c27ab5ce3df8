/**
  What the thread pool promises in every reachable state and over every run: no lost wakeup,
  exactly-once FIFO delivery, the accounting of its threads, the freeze at shutdown and the cover of
  the join loop.
 */
module PoolTheorems {
  import opened Basics
  import opened Tally
  import opened TaskRing
  import opened PoolMachine
  import opened PoolInvariant
  import Runs

  // ---------------------------------------------------------------- wakeups

  /**
    While a thread sleeps unsignalled, every queued task is matched by a thread that is awake and
    heading for the queue, or by a signal about to be sent.
   */
  lemma NoLostWakeup(s: State, t: nat)
    requires Reachable(s) && t < |s.threads| && s.threads[t].Waiting?
    ensures s.ring.count <= Sum(s.threads, HeadingOne) + Sum(s.submitters, SignallingOne)
  {
    ReachableInv(s);
    NobodyAsleep(s.threads);
  }

  /** All created threads sleep only when the queue is empty, or while a submitter has yet to signal. */
  lemma NeverAllAsleep(s: State)
    requires Reachable(s) && Created(s) > 0
    requires forall t :: 0 <= t < Created(s) && t < |s.threads| ==> s.threads[t].Waiting?
    requires forall c :: 0 <= c < |s.submitters| ==> !s.submitters[c].Signalling?
    ensures s.ring.count == 0
  {
    ReachableInv(s);
    AllAsleepMeansEmpty(s);
  }

  lemma AllAsleepMeansEmpty(s: State)
    requires Inv(s) && Created(s) > 0
    requires forall t :: 0 <= t < |s.threads| ==> s.threads[t].Waiting? || s.threads[t].Unborn?
    requires forall c :: 0 <= c < |s.submitters| ==> !s.submitters[c].Signalling?
    ensures s.ring.count == 0
  {
    AllAsleepBoundsQueue(s);
    SumConstant(s.submitters, SignallingOne, 0);
  }

  lemma AllAsleepBoundsQueue(s: State)
    requires Inv(s) && Created(s) > 0
    requires forall t :: 0 <= t < |s.threads| ==> s.threads[t].Waiting? || s.threads[t].Unborn?
    ensures s.ring.count <= Sum(s.submitters, SignallingOne)
  {
    NobodyAsleep(s.threads);
    SumConstant(s.threads, HeadingOne, 0);
  }

  // ---------------------------------------------------------------- the queue over a whole run

  /** Tasks leave the ring in the order in which they were accepted, and none is lost or run twice. */
  lemma ExactlyOnceFifo(s: State)
    requires Reachable(s)
    ensures Valid(s.ring)
    ensures s.dequeued <= s.accepted && s.accepted == s.dequeued + Contents(s.ring)
    ensures multiset(s.accepted) == multiset(s.completed) + Gather(s.threads, HeldBy) + multiset(Contents(s.ring))
  {
    ReachableInv(s);
  }

  /**
    No index is out of range, no divisor is zero, no thread that was not created is joined, the lock
    is never left behind, and a null function is called only if somebody submitted one.
   */
  lemma NoUndefinedBehaviour(s: State)
    requires Reachable(s)
    ensures !s.outOfRange && !s.closer.Stranded?
    ensures 0 <= s.ring.count <= s.ring.size
    ensures s.emptyCall <==> exists task :: task in s.completed && task.fun.None?
    ensures s.emptyCall ==> exists task :: task in s.accepted && task.fun.None?
  {
    ReachableInv(s);
    if s.emptyCall {
      var task :| task in s.completed && task.fun.None?;
      assert task in multiset(s.dequeued);
      assert task in s.dequeued;
    }
  }

  /** Whoever is inside a critical section is alone there. */
  lemma MutualExclusion(s: State)
    requires Reachable(s)
    ensures forall t, u | 0 <= t < |s.threads| && 0 <= u < |s.threads| && t != u ::
      !(ThreadHasLock(s.threads[t]) && ThreadHasLock(s.threads[u]))
    ensures forall c, d | 0 <= c < |s.submitters| && 0 <= d < |s.submitters| && c != d ::
      !(SubmitterHasLock(s.submitters[c]) && SubmitterHasLock(s.submitters[d]))
    ensures forall t, c | 0 <= t < |s.threads| && 0 <= c < |s.submitters| ::
      !(ThreadHasLock(s.threads[t]) && SubmitterHasLock(s.submitters[c]))
    ensures CloserHasLock(s.closer) ==> forall t :: 0 <= t < |s.threads| ==> !ThreadHasLock(s.threads[t])
    ensures CloserHasLock(s.closer) ==> forall c :: 0 <= c < |s.submitters| ==> !SubmitterHasLock(s.submitters[c])
  {
    ReachableInv(s);
  }

  // ---------------------------------------------------------------- counters

  /** Both counters count threads, so that neither leaves [0, 1024]. */
  lemma ThreadAccounting(s: State)
    requires Reachable(s)
    ensures s.startedNum == Sum(s.threads, StartedOne) && s.threadCount == Sum(s.threads, RegisteredOne)
    ensures 0 <= s.startedNum <= MAX_THREADS
    ensures 0 <= s.threadCount <= Created(s) <= |s.threads| <= MAX_THREADS
    ensures s.creator.Returned? ==> (s.creator.res == 0 <==> Created(s) == |s.threads|)
  {
    ReachableInv(s);
    SumAtMost(s.threads, StartedOne, 1);
    RegisteredAreCreated(s);
  }

  /** free_resource finds no started thread exactly when none is between its two counter steps. */
  lemma FreeTestIsExact(s: State)
    requires Reachable(s)
    ensures s.startedNum <= 0 <==> forall t :: 0 <= t < |s.threads| ==> !IsStarted(s.threads[t])
  {
    ReachableInv(s);
    if s.startedNum > 0 {
      SumWitness(s.threads, StartedOne);
    } else {
      forall t | 0 <= t < |s.threads| ensures !IsStarted(s.threads[t]) {
        SumTerm(s.threads, t, StartedOne);
      }
    }
  }

  predicate NobodyStarted(s: State) {
    forall t :: 0 <= t < |s.threads| ==> !IsStarted(s.threads[t])
  }

  /** So free_resource goes on to destroy the mutex exactly if no thread is between them, and fails otherwise. */
  lemma FreesExactly(s: State)
    requires Reachable(s) && s.closer.Freeing?
    ensures StepCloser(s) == Some(s.(closer := Done(s.closer.i, NobodyStarted(s))))
  {
    FreeTestIsExact(s);
  }

  // ---------------------------------------------------------------- the join loop

  /**
    When the loop ends, the threads that have registered are those below its index, whatever order
    they registered in, and all of them have exited.
   */
  lemma JoinCoversRegistered(s: State, t: nat)
    requires Reachable(s) && s.closer.Bound? && !(s.closer.i < s.threadCount) && t < |s.threads|
    ensures s.closer.i == s.threadCount
    ensures IsRegistered(s.threads[t]) <==> t < s.closer.i
    ensures IsRegistered(s.threads[t]) <==> s.threads[t].Exited?
  {
    ReachableInv(s);
    ExitedPrefix(s.threads, s.closer.i, t);
  }

  /** With i exited threads in front and at most i registered ones in all, nobody behind has registered. */
  lemma ExitedPrefix(threads: seq<ThreadPc>, i: nat, t: nat)
    requires i <= |threads| && t < |threads| && Sum(threads, RegisteredOne) <= i
    requires forall j :: 0 <= j < i ==> threads[j].Exited?
    ensures Sum(threads, RegisteredOne) == i
    ensures IsRegistered(threads[t]) <==> t < i
  {
    assert threads == threads[..i] + threads[i..];
    SumSplit(threads[..i], threads[i..], RegisteredOne);
    SumConstant(threads[..i], RegisteredOne, 1);
    if t >= i {
      SumTerm(threads[i..], t - i, RegisteredOne);
    }
  }

  /**
    The loop leaves no created thread behind exactly when all of them had registered at its last
    test of the bound.
   */
  lemma JoinCoversCreated(s: State)
    requires Reachable(s) && s.closer.Bound? && !(s.closer.i < s.threadCount)
    ensures s.threadCount == Created(s)
       <==> forall t :: 0 <= t < Created(s) ==> t < |s.threads| && s.threads[t].Exited?
  {
    ThreadAccounting(s);
    ReachableInv(s);
    forall t: nat | t < |s.threads| ensures s.threads[t].Exited? <==> t < s.threadCount {
      JoinCoversRegistered(s, t);
    }
    if s.threadCount < Created(s) {
      assert !s.threads[s.threadCount].Exited?;
    }
  }

  /**
    And it can: for every number of cores there is a run that ends with the pool freed while a
    created thread, not yet registered, is still to take the lock.
   */
  lemma JoinCanMissAThread(cores: Cores)
    ensures exists s :: && Reachable(s) && s.cores == cores && s.closer == Done(0, true)
                        && Created(s) == 1 && |s.threads| > 0 && s.threads[0].Born?
  {
    var s := CreateOneThread(cores);
    s := LockForShutdown(s, cores);
    s := RaiseAndRelease(s, cores);
    s := Advance(Advance(s, CloserStep), CloserStep);
  }

  /** Or with nothing freed: if that thread has taken its first step by the time of the test. */
  lemma FreeCanFail(cores: Cores)
    ensures exists s :: && Reachable(s) && s.cores == cores && s.closer == Done(0, false)
                        && Created(s) == 1 && |s.threads| > 0 && s.threads[0].Started?
  {
    var s := CreateOneThread(cores);
    s := LockForShutdown(s, cores);
    s := RaiseAndRelease(s, cores);
    s := Advance(Advance(s, CloserStep), ThreadStep(0));
    s := Advance(s, CloserStep);
  }

  lemma CreateOneThread(cores: Cores) returns (s: State)
    ensures Reachable(s) && UnregisteredThread(s, cores) && s.owner.Nobody? && s.closer.Away? && !s.shutdown
  {
    s := Initial(cores, 0);
    Runs.LeadsToItself<State, Action>(Step, s);
    s := Advance(Advance(s, Create(cores, DEFAULT_QUEUE)), Spawn);
  }

  lemma LockForShutdown(s: State, cores: Cores) returns (next: State)
    requires Reachable(s) && UnregisteredThread(s, cores) && s.owner.Nobody? && s.closer.Away? && !s.shutdown
    ensures Reachable(next) && UnregisteredThread(next, cores) && next.closer.Broadcasting?
  {
    next := Advance(Advance(s, CallShutdown(Graceful)), CloserStep);
    next := Advance(next, CloserStep);
  }

  lemma RaiseAndRelease(s: State, cores: Cores) returns (next: State)
    requires Reachable(s) && UnregisteredThread(s, cores) && s.closer.Broadcasting?
    ensures Reachable(next) && UnregisteredThread(next, cores) && next.closer == Bound(0)
  {
    next := Advance(Advance(s, CloserStep), CloserStep);
  }

  predicate UnregisteredThread(s: State, cores: Cores) {
    && s.cores == cores && Created(s) == 1 && s.threadCount == 0 && s.startedNum == 0
    && |s.threads| > 0 && s.threads[0].Born?
  }

  // ---------------------------------------------------------------- the freeze

  /** Once the broadcast has been made, no thread is asleep and none goes back to sleep. */
  lemma NobodySleepsAfterBroadcast(s: State, acts: seq<Action>, t: nat)
    requires Reachable(s) && BroadcastDone(s.closer) && Exec(s, acts).Some?
    requires t < |Exec(s, acts).value.threads|
    ensures !Exec(s, acts).value.threads[t].Waiting?
  {
    ReachableInv(s);
    ExecKeeps(s, acts);
    BroadcastStays(s, acts);
  }

  lemma {:induction false} BroadcastStays(s: State, acts: seq<Action>)
    requires Inv(s) && BroadcastDone(s.closer) && Exec(s, acts).Some?
    ensures BroadcastDone(Exec(s, acts).value.closer)
    decreases |acts|
  {
    if acts == [] {
    } else {
      StepKeeps(s, acts[0]);
      BroadcastStaysOne(s, acts[0]);
      BroadcastStays(Step(s, acts[0]).value, acts[1..]);
    }
  }

  lemma BroadcastStaysOne(s: State, a: Action)
    requires Inv(s) && BroadcastDone(s.closer) && Step(s, a).Some?
    ensures BroadcastDone(Step(s, a).value.closer)
  {
    match a
    case SubmitStep(c, woken) => FreezeSubmitter(s, c, woken);
    case ThreadStep(t) => FreezeThread(s, t);
    case _ =>
  }

  /** What submit answers once the flag is set. */
  function RefusalOf(r: Ring): int {
    if r.count == r.size then THREADPOOL_QUEUE_FULL else THREADPOOL_SHUTDOWN
  }

  lemma FreezeStep(s: State, a: Action)
    requires Inv(s) && s.shutdown && Step(s, a).Some?
    ensures var next := Step(s, a).value;
      && next.shutdown && next.accepted == s.accepted && next.dequeued == s.dequeued
      && (!s.creator.NotCalled? ==> next.ring == s.ring && !next.creator.NotCalled?)
  {
    match a
    case SubmitStep(c, woken) => FreezeSubmitter(s, c, woken);
    case ThreadStep(t) => FreezeThread(s, t);
    case CloserStep =>
    case _ =>
  }

  lemma FreezeSubmitter(s: State, c: nat, woken: set<nat>)
    requires s.shutdown && c < |s.submitters| && StepSubmitter(s, c, woken).Some?
    ensures var next := StepSubmitter(s, c, woken).value;
      && next.shutdown && next.accepted == s.accepted && next.dequeued == s.dequeued
      && next.ring == s.ring && next.creator == s.creator && next.closer == s.closer
  {
  }

  lemma FreezeThread(s: State, t: nat)
    requires s.shutdown && t < |s.threads| && StepThread(s, t).Some?
    ensures var next := StepThread(s, t).value;
      && next.shutdown && next.accepted == s.accepted && next.dequeued == s.dequeued
      && next.ring == s.ring && next.creator == s.creator && next.closer == s.closer
  {
  }

  /**
    From the step that sets the flag, in either mode, nothing enters or leaves the ring: what is
    abandoned is what the ring held then.
   */
  lemma {:induction false} ShutdownFreezes(s: State, acts: seq<Action>)
    requires Reachable(s) && s.shutdown && Exec(s, acts).Some?
    ensures var last := Exec(s, acts).value;
      && last.shutdown && last.accepted == s.accepted && last.dequeued == s.dequeued
      && (!s.creator.NotCalled? ==> last.ring == s.ring)
    decreases |acts|
  {
    if acts == [] {
    } else {
      ReachableInv(s);
      FreezeStep(s, acts[0]);
      StepReaches(s, acts[0]);
      ShutdownFreezes(Step(s, acts[0]).value, acts[1..]);
    }
  }

  /** Every later submit is refused, with an answer fixed by how full the ring was when the flag was set. */
  lemma ShutdownRefuses(s: State, acts: seq<Action>, c: nat, woken: set<nat>)
    requires Reachable(s) && s.shutdown && !s.creator.NotCalled? && Exec(s, acts).Some?
    requires var last := Exec(s, acts).value; c < |last.submitters| && last.submitters[c].Testing?
    ensures var last := Exec(s, acts).value;
      StepSubmitter(last, c, woken) == Some(WithSubmitter(last, c, Unlocking(RefusalOf(s.ring))))
  {
    ShutdownFreezes(s, acts);
  }

  /** The tasks that are ever completed after the flag is set are among those already in a thread's hands. */
  lemma ShutdownFinishesOnlyHeld(s: State, acts: seq<Action>)
    requires Reachable(s) && s.shutdown && Exec(s, acts).Some?
    ensures multiset(Exec(s, acts).value.completed) <= multiset(s.completed) + Gather(s.threads, HeldBy)
  {
    ReachableInv(s);
    ShutdownFreezes(s, acts);
    ExecKeeps(s, acts);
  }
}
