/**
  When worker_routine can come to divide by zero. Once startup has stored the counter the question is
  decided: with a worker in the window at the store, or one that was never created, no continuation
  divides by zero; otherwise some continuation does, from every state.
 */
module WorkerFaults {
  import opened Basics
  import opened Tally
  import opened WorkerMachine
  import opened WorkerInvariant
  import opened WorkerTheorems
  import Runs

  predicate SomeFaulted(s: State) {
    exists w :: 0 <= w < |s.workers| && s.workers[w].pc.Faulted?
  }

  predicate AllPresent(s: State) {
    forall w :: 0 <= w < |s.workers| ==> !s.workers[w].pc.Absent?
  }

  /** Some continuation divides by zero, or the run has done so already. */
  ghost predicate CanFault(s: State) {
    exists acts :: Exec(s, acts).Some? && SomeFaulted(Exec(s, acts).value)
  }

  lemma StepCanFault(s: State, a: Action)
    requires Step(s, a).Some? && CanFault(Step(s, a).value)
    ensures CanFault(s)
  {
    var next := Step(s, a).value;
    var acts :| Exec(next, acts).Some? && SomeFaulted(Exec(next, acts).value);
    assert ([a] + acts)[1..] == acts;
    assert Exec(s, [a] + acts) == Exec(next, acts);
  }

  lemma FaultedCanFault(s: State)
    requires SomeFaulted(s)
    ensures CanFault(s)
  {
    assert Exec(s, []) == Some(s);
  }

  // ---------------------------------------------------------------- only if

  /** A worker that has just divided by zero has found all of them in the window. */
  lemma FaultNeedsAll(workerNum: nat, s: State, w: nat)
    requires workerNum >= 1 && ReachableFrom(workerNum, s) && w < |s.workers| && StepWorker(s, w).Some?
    requires !SomeFaulted(s) && SomeFaulted(StepWorker(s, w).value)
    ensures AllPresent(s)
  {
    FaultsAtDivision(s, w);
    DivisorIsZeroExactly(workerNum, s, w);
  }

  lemma FaultsAtDivision(s: State, w: nat)
    requires w < |s.workers| && StepWorker(s, w).Some?
    requires !SomeFaulted(s) && SomeFaulted(StepWorker(s, w).value)
    ensures s.workers[w].pc.Dividing? && s.avail == 0
  {
    var u :| 0 <= u < |StepWorker(s, w).value.workers| && StepWorker(s, w).value.workers[u].pc.Faulted?;
    assert u < |s.workers|;
  }

  lemma BootLeavesFaults(workerNum: nat, s: State, created: bool)
    requires workerNum >= 1 && ReachableFrom(workerNum, s) && StepBoot(s, created).Some?
    ensures !SomeFaulted(StepBoot(s, created).value)
  {
    ReachableInv(workerNum, s);
    forall w | 0 <= w < |s.workers| ensures !s.workers[w].pc.Faulted? {
      assert TimedRight(s, s.workers[w].pc);
    }
  }

  lemma StepKeepsPresent(workerNum: nat, s: State, a: Action)
    requires workerNum >= 1 && ReachableFrom(workerNum, s) && Step(s, a).Some?
    requires SomeFaulted(s) ==> AllPresent(s)
    ensures SomeFaulted(Step(s, a).value) ==> AllPresent(Step(s, a).value)
  {
    match a
    case BootStep(created) => BootLeavesFaults(workerNum, s, created);
    case WorkerStep(w) =>
      WorkerKeepsPresence(s, w);
      if !SomeFaulted(s) && SomeFaulted(StepWorker(s, w).value) {
        FaultNeedsAll(workerNum, s, w);
      }
    case _ =>
  }

  lemma StepKeepsOutcome(s: State, a: Action)
    requires s.boot.Booted? && Step(s, a).Some?
    ensures var next := Step(s, a).value;
      next.boot.Booted? && next.inWindowAtStore == s.inWindowAtStore && (AllPresent(next) <==> AllPresent(s))
  {
    if a.WorkerStep? {
      WorkerKeepsPresence(s, a.w);
    }
  }

  lemma WorkerKeepsPresence(s: State, w: nat)
    requires w < |s.workers| && StepWorker(s, w).Some?
    ensures AllPresent(StepWorker(s, w).value) <==> AllPresent(s)
  {
    var next := StepWorker(s, w).value;
    assert |next.workers| == |s.workers|;
    assert forall u :: 0 <= u < |s.workers| ==> (next.workers[u].pc.Absent? <==> s.workers[u].pc.Absent?);
  }

  lemma ReachableFaults(workerNum: nat, s: State)
    requires workerNum >= 1 && ReachableFrom(workerNum, s) && SomeFaulted(s)
    ensures AllPresent(s) && s.boot.Booted? && s.inWindowAtStore == 0
  {
    var producers: nat :| Runs.Leads(Step, Initial(workerNum, producers), s);
    var acts :| Runs.Exec(Step, Initial(workerNum, producers), acts) == Some(s);
    var inv := (x: State) => ReachableFrom(workerNum, x) && (SomeFaulted(x) ==> AllPresent(x));
    Runs.LeadsToItself<State, Action>(Step, Initial(workerNum, producers));
    forall x, a | inv(x) && Step(x, a).Some? ensures inv(Step(x, a).value) {
      StepKeepsPresent(workerNum, x, a);
      StepReaches(workerNum, x, a);
    }
    Runs.RunKeeps(Step, inv, Initial(workerNum, producers), acts);
    var w :| 0 <= w < |s.workers| && s.workers[w].pc.Faulted?;
    FaultNeedsEmptyStore(workerNum, s, w);
  }

  lemma {:induction false} RunKeepsOutcome(workerNum: nat, s: State, acts: seq<Action>)
    requires workerNum >= 1 && ReachableFrom(workerNum, s) && s.boot.Booted?
    requires Exec(s, acts).Some? && SomeFaulted(Exec(s, acts).value)
    ensures AllPresent(s) && s.inWindowAtStore == 0
    decreases |acts|
  {
    if acts == [] {
      ReachableFaults(workerNum, s);
    } else {
      StepKeepsOutcome(s, acts[0]);
      StepReaches(workerNum, s, acts[0]);
      RunKeepsOutcome(workerNum, Step(s, acts[0]).value, acts[1..]);
    }
  }

  // ---------------------------------------------------------------- if

  /** How far a worker is from the window. */
  function ToWindow(worker: Worker): nat {
    match worker.pc
    case Entering => 1
    case Leaving => 2
    case Fetching => 3
    case Second => 4
    case WantLock => 5
    case Top => 6
    case _ => 0
  }

  function ToUnlock(pc: ProducerPc): nat {
    if pc.Inside? then 2 else if pc.Pushed? then 1 else 0
  }

  function Distance(s: State): nat { Sum(s.workers, ToWindow) + Sum(s.producers, ToUnlock) }

  /** The store found the window empty, all workers are there, and w is not in the window. */
  ghost predicate Fatal(workerNum: nat, s: State, w: nat) {
    && workerNum >= 1 && ReachableFrom(workerNum, s) && s.boot.Booted? && s.inWindowAtStore == 0 && AllPresent(s)
    && w < |s.workers| && !InWindow(s.workers[w].pc)
  }

  lemma MovesCloser(s: State, u: nat)
    requires u < |s.workers| && ToWindow(s.workers[u]) > 0 && StepWorker(s, u).Some?
    requires s.workers[u].pc.Fetching? ==> s.storage != []
    ensures var next := StepWorker(s, u).value;
      && next.producers == s.producers && |next.workers| == |s.workers|
      && next.workers == s.workers[u := next.workers[u]]
      && ToWindow(next.workers[u]) < ToWindow(s.workers[u])
      && (InWindow(next.workers[u].pc) <==> s.workers[u].pc.Entering?)
  {
  }

  lemma ComesCloser(s: State, u: nat)
    requires u < |s.workers| && ToWindow(s.workers[u]) > 0 && StepWorker(s, u).Some?
    requires s.workers[u].pc.Fetching? ==> s.storage != []
    ensures var next := StepWorker(s, u).value;
      && Distance(next) < Distance(s) && |next.workers| == |s.workers|
      && forall v :: 0 <= v < |s.workers| && (v != u || !s.workers[u].pc.Entering?) ==>
        (InWindow(next.workers[v].pc) <==> InWindow(s.workers[v].pc))
  {
    MovesCloser(s, u);
    SumUpdate(s.workers, u, StepWorker(s, u).value.workers[u], ToWindow);
  }

  /** The step brings a worker closer to the window, or a task closer to giving locker_ back, and leaves w outside. */
  ghost predicate Approaches(s: State, a: Action, w: nat) {
    && Step(s, a).Some? && Distance(Step(s, a).value) < Distance(s)
    && w < |Step(s, a).value.workers| && !InWindow(Step(s, a).value.workers[w].pc)
  }

  lemma HolderApproaches(workerNum: nat, s: State, w: nat) returns (a: Action)
    requires Fatal(workerNum, s, w) && !s.lock.Free?
    ensures Approaches(s, a, w)
  {
    ReachableInv(workerNum, s);
    match s.lock
    case ByWorker(v) =>
      a := WorkerStep(v);
      ComesCloser(s, v);
    case ByProducer(p) =>
      a := if s.producers[p].Inside? then Push(p) else Unlock(p);
      SumUpdate(s.producers, p, Step(s, a).value.producers[p], ToUnlock);
  }

  lemma WorkerApproaches(workerNum: nat, s: State, w: nat, u: nat)
    requires Fatal(workerNum, s, w) && s.lock.Free?
    requires u < |s.workers| && !InWindow(s.workers[u].pc) && (u == w ==> !s.workers[u].pc.Entering?)
    ensures Approaches(s, WorkerStep(u), w)
  {
    ReachableInv(workerNum, s);
    ComesCloser(s, u);
  }

  /** One after another comes into the window, w last. */
  lemma {:induction false} AllComeIn(workerNum: nat, s: State, w: nat)
    requires Fatal(workerNum, s, w)
    ensures CanFault(s)
    decreases Distance(s)
  {
    var a: Action;
    if !s.lock.Free? {
      a := HolderApproaches(workerNum, s, w);
    } else if u: nat :| u < |s.workers| && !InWindow(s.workers[u].pc) && u != w {
      a := WorkerStep(u);
      WorkerApproaches(workerNum, s, w, u);
    } else if !s.workers[w].pc.Entering? {
      a := WorkerStep(w);
      WorkerApproaches(workerNum, s, w, w);
    } else {
      LastInFaults(workerNum, s, w);
      return;
    }
    StepReaches(workerNum, s, a);
    StepKeepsOutcome(s, a);
    AllComeIn(workerNum, Step(s, a).value, w);
    StepCanFault(s, a);
  }

  /** With everybody in the window, the first worker divides by zero or comes round to its top. */
  lemma {:induction false} FirstComesRound(workerNum: nat, s: State)
    requires workerNum >= 1 && ReachableFrom(workerNum, s) && s.boot.Booted?
    requires s.inWindowAtStore == 0 && AllPresent(s)
    ensures CanFault(s)
    decreases if |s.workers| > 0 then WindowLeft(s.workers[0].pc) else 0
  {
    ReachableInv(workerNum, s);
    if s.workers[0].pc.Faulted? {
      FaultedCanFault(s);
    } else if !InWindow(s.workers[0].pc) {
      AllComeIn(workerNum, s, 0);
    } else {
      var a := WorkerStep(0);
      assert Step(s, a).Some?;
      StepReaches(workerNum, s, a);
      StepKeepsOutcome(s, a);
      FirstComesRound(workerNum, Step(s, a).value);
      StepCanFault(s, a);
    }
  }

  function WindowLeft(pc: WorkerPc): nat {
    match pc
    case Testing => 3
    case TakingAvail => 2
    case Dividing => 2
    case Polling(_) => 1
    case _ => 0
  }

  /**
    Exactly when: once the counter has been stored, a division by zero can follow if and only if no worker
    was in the window at the store and every worker's thread was created.
   */
  lemma FaultExactly(workerNum: nat, s: State)
    requires workerNum >= 1 && ReachableFrom(workerNum, s) && s.boot.Booted?
    ensures CanFault(s) <==> s.inWindowAtStore == 0 && AllPresent(s)
  {
    if CanFault(s) {
      var acts :| Exec(s, acts).Some? && SomeFaulted(Exec(s, acts).value);
      RunKeepsOutcome(workerNum, s, acts);
    }
    if s.inWindowAtStore == 0 && AllPresent(s) {
      FirstComesRound(workerNum, s);
    }
  }

  /** A worker whose thread could not be created makes the difference: with it no continuation divides by zero. */
  lemma MissingWorkerPreventsFault(workerNum: nat)
    requires workerNum >= 1
    ensures exists s :: && ReachableFrom(workerNum, s) && s.boot.Booted? && s.inWindowAtStore == 0
                        && !AllPresent(s) && !CanFault(s)
  {
    var s := StartUpTo(workerNum, workerNum - 1);
    s := Advance(workerNum, s, BootStep(false));
    assert s.workers[workerNum - 1].pc.Absent?;
    SumConstant(s.workers, WindowOne, 0);
    s := Advance(workerNum, s, BootStep(true));
    FaultExactly(workerNum, s);
  }
}
