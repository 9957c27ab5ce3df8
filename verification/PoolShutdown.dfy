/**
  Which threads a shutdown waits for. The join loop goes by index up to the number of registered
  threads, so it waits for every created thread if the last one created has registered, and it need
  not otherwise, however many of the others have.
 */
module PoolShutdown {
  import opened Basics
  import opened Tally
  import opened PoolMachine
  import opened PoolInvariant
  import opened PoolTheorems
  import opened PoolProgress

  /** create has returned with some thread, and no shutdown is past its join loop. */
  ghost predicate Joinable(s: State) {
    && Reachable(s) && s.creator.Returned? && 0 < Created(s) <= |s.threads|
    && !s.closer.Freeing? && !s.closer.Done?
  }

  predicate LastRegistered(s: State) {
    0 < Created(s) <= |s.threads| && IsRegistered(s.threads[Created(s) - 1])
  }

  predicate AllExited(s: State) {
    forall t :: 0 <= t < Created(s) ==> t < |s.threads| && s.threads[t].Exited?
  }

  // ---------------------------------------------------------------- the last one has registered

  /** Past the join loop, every created thread has been joined and none is between start and exit. */
  ghost predicate Covers(s: State) {
    && s.creator.Returned? && LastRegistered(s)
    && (s.closer.Freeing? || s.closer.Done? ==> s.closer.i == Created(s) && s.startedNum == 0)
    && (s.closer.Done? ==> s.closer.freed)
  }

  lemma ThreadStaysRegistered(s: State, t: nat)
    requires t < |s.threads| && StepThread(s, t).Some? && IsRegistered(s.threads[t])
    ensures t < |StepThread(s, t).value.threads| && IsRegistered(StepThread(s, t).value.threads[t])
  {
  }

  /** After create has returned, a registered thread stays so, and only its own steps register it. */
  lemma StepKeepsRegistered(s: State, a: Action, u: nat)
    requires s.creator.Returned? && Step(s, a).Some? && u < |s.threads|
    ensures var next := Step(s, a).value;
      && next.creator == s.creator && u < |next.threads|
      && (IsRegistered(s.threads[u]) ==> IsRegistered(next.threads[u]))
      && (IsRegistered(next.threads[u]) && a != ThreadStep(u) ==> IsRegistered(s.threads[u]))
      && (next.closer == s.closer || a.CloserStep? || a.CallShutdown?)
  {
    match a
    case ThreadStep(t) =>
      ThreadMovesOnlyItself(s, t);
      if t == u && IsRegistered(s.threads[t]) {
        ThreadStaysRegistered(s, t);
      }
      ThreadLeavesOthers(s, t);
    case _ =>
  }

  /** When all created threads have exited, no counter moves any more. */
  lemma ExitedCount(s: State)
    requires Inv(s) && InJoinLoop(s.closer) && s.closer.i == Created(s)
    ensures s.startedNum == 0 && AllExited(s)
    ensures forall t :: 0 <= t < |s.threads| ==> StepThread(s, t).None?
  {
    SumConstant(s.threads, StartedOne, 0);
  }

  lemma ThreadKeepsCovers(s: State, t: nat)
    requires Inv(s) && Covers(s) && t < |s.threads| && StepThread(s, t).Some?
    ensures Covers(StepThread(s, t).value)
  {
    if s.closer.Freeing? || s.closer.Done? {
      ExitedCount(s);
      assert false;
    }
    StepKeepsRegistered(s, ThreadStep(t), Created(s) - 1);
  }

  lemma CloserKeepsCovers(s: State)
    requires Reachable(s) && Covers(s) && StepCloser(s).Some?
    ensures Covers(StepCloser(s).value)
  {
    ReachableInv(s);
    if s.closer.Joining? {
      JoinsACreatedThread(s);
    }
    if s.closer.Bound? && s.closer.i >= s.threadCount {
      JoinCoversRegistered(s, Created(s) - 1);
      ThreadAccounting(s);
      ExitedCount(s);
    }
  }

  lemma StepKeepsCovers(s: State, a: Action)
    requires Reachable(s) && Covers(s) && Step(s, a).Some?
    ensures Covers(Step(s, a).value)
  {
    ReachableInv(s);
    StepKeepsRegistered(s, a, Created(s) - 1);
    match a
    case ThreadStep(t) => ThreadKeepsCovers(s, t);
    case CloserStep => CloserKeepsCovers(s);
    case _ => OthersKeepStarted(s, a);
  }

  lemma OthersKeepStarted(s: State, a: Action)
    requires s.creator.Returned? && !a.ThreadStep? && !a.CloserStep? && Step(s, a).Some?
    ensures Step(s, a).value.startedNum == s.startedNum
    ensures InJoinLoop(s.closer) ==> Step(s, a).value.closer == s.closer
    ensures Step(s, a).value.closer == s.closer || Step(s, a).value.closer.WantClose?
  {
  }

  lemma {:induction false} RunKeepsCovers(s: State, acts: seq<Action>)
    requires Reachable(s) && Covers(s) && Exec(s, acts).Some?
    ensures Covers(Exec(s, acts).value) && Created(Exec(s, acts).value) == Created(s)
    decreases |acts|
  {
    if acts == [] {
    } else {
      StepKeepsCovers(s, acts[0]);
      StepReaches(s, acts[0]);
      StepKeepsRegistered(s, acts[0], 0);
      RunKeepsCovers(Step(s, acts[0]).value, acts[1..]);
    }
  }

  /**
    If every created thread has registered before the join loop ends, or only the last one, then every
    run that comes to free_resource has joined them all, finds no started thread, and frees the pool.
   */
  lemma RegisteredAreFreed(s: State, acts: seq<Action>)
    requires Joinable(s) && (s.threadCount == Created(s) || LastRegistered(s)) && Exec(s, acts).Some?
    ensures var last := Exec(s, acts).value;
      && (last.closer.Freeing? || last.closer.Done? ==> last.startedNum == 0 && AllExited(last))
      && (last.closer.Done? ==> last.closer == Done(Created(s), true))
  {
    if s.threadCount == Created(s) {
      AllRegistered(s);
    }
    RunKeepsCovers(s, acts);
    ExecReaches(s, acts);
    var last := Exec(s, acts).value;
    ReachableInv(last);
    if last.closer.Freeing? || last.closer.Done? {
      ExitedCount(last);
    }
  }

  lemma AllRegistered(s: State)
    requires Joinable(s) && s.threadCount == Created(s)
    ensures LastRegistered(s)
  {
    ReachableInv(s);
    if !LastRegistered(s) {
      UnregisteredLast(s);
    }
  }

  /** With the last created thread unregistered, the count stays below it. */
  lemma UnregisteredLast(s: State)
    requires Inv(s) && 0 < Created(s) && !IsRegistered(s.threads[Created(s) - 1])
    ensures s.threadCount < Created(s)
  {
    var t := Created(s) - 1;
    assert s.threads == s.threads[..t] + s.threads[t..];
    SumSplit(s.threads[..t], s.threads[t..], RegisteredOne);
    SumConstant(s.threads[t..], RegisteredOne, 0);
    SumAtMost(s.threads[..t], RegisteredOne, 1);
  }

  // ---------------------------------------------------------------- the last one has not

  /** A shutdown has been called, and the last created thread has not registered. */
  ghost predicate Lagging(s: State) {
    && Reachable(s) && s.creator.Returned? && 0 < Created(s) <= |s.threads|
    && !LastRegistered(s) && !s.closer.Away?
  }

  /** The shutdown can get on without the thread: it never comes to join it. */
  lemma GoesOnWithout(s: State) returns (a: Action)
    requires Lagging(s) && !s.closer.Done?
    ensures Owed(a) && Step(s, a).Some? && a != ThreadStep(Created(s) - 1)
  {
    ReachableInv(s);
    UnregisteredLast(s);
    if !s.owner.Nobody? {
      a := OwnerCanStep(s);
    } else if s.closer.Joining? && !s.threads[s.closer.i].Exited? {
      JoinsACreatedThread(s);
      a := ThreadStep(s.closer.i);
    } else {
      a := CloserStep;
    }
  }

  lemma StaysLagging(s: State, a: Action)
    requires Lagging(s) && Owed(a) && Step(s, a).Some? && a != ThreadStep(Created(s) - 1)
    ensures Lagging(Step(s, a).value) && Measure(Step(s, a).value) < Measure(s)
    ensures Created(Step(s, a).value) == Created(s)
  {
    ReachableInv(s);
    StepReaches(s, a);
    OwedDecreases(s, a);
    StepKeepsRegistered(s, a, Created(s) - 1);
    StaysCalled(s, a);
  }

  lemma StaysCalled(s: State, a: Action)
    requires Step(s, a).Some? && !s.closer.Away?
    ensures !Step(s, a).value.closer.Away?
  {
    match a
    case ThreadStep(t) => ThreadLeavesOthers(s, t);
    case _ =>
  }

  /** So some run of it ends with that thread left behind. */
  lemma {:induction false} LeavesBehind(s: State)
    requires Lagging(s)
    ensures exists acts ::
      Exec(s, acts).Some? && Exec(s, acts).value.closer.Done? && !AllExited(Exec(s, acts).value)
    decreases Measure(s)
  {
    ReachableInv(s);
    if s.closer.Done? {
      assert Exec(s, []) == Some(s);
    } else {
      var a := GoesOnWithout(s);
      var next := Step(s, a).value;
      StaysLagging(s, a);
      ReachableInv(next);
      MeasureIsBounded(next);
      LeavesBehind(next);
      var acts :| Exec(next, acts).Some? && Exec(next, acts).value.closer.Done? && !AllExited(Exec(next, acts).value);
      assert ([a] + acts)[1..] == acts;
      assert Exec(s, [a] + acts) == Exec(next, acts);
    }
  }

  /**
    Exactly when: at any moment between the return of create and the end of the join loop, every run
    that finishes the shutdown has waited for all created threads if and only if the last of them has
    registered. (That all of them have is more than is needed, that most of them have is not enough.)
   */
  lemma JoinsAllExactly(s: State)
    requires Joinable(s)
    ensures LastRegistered(s) <==>
      forall acts :: Exec(s, acts).Some? && Exec(s, acts).value.closer.Done? ==> AllExited(Exec(s, acts).value)
  {
    if LastRegistered(s) {
      forall acts | Exec(s, acts).Some? && Exec(s, acts).value.closer.Done?
        ensures AllExited(Exec(s, acts).value)
      {
        RegisteredAreFreed(s, acts);
      }
    } else if s.closer.Away? {
      var called := Step(s, CallShutdown(Graceful)).value;
      StepReaches(s, CallShutdown(Graceful));
      LeavesBehind(called);
      var acts :|
        Exec(called, acts).Some? && Exec(called, acts).value.closer.Done? && !AllExited(Exec(called, acts).value);
      assert ([CallShutdown(Graceful)] + acts)[1..] == acts;
      assert Exec(s, [CallShutdown(Graceful)] + acts) == Exec(called, acts);
    } else {
      LeavesBehind(s);
    }
  }
}
