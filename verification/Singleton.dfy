/**
  thread_pool::instance and thread_pool::shutdown as a step machine: any number of callers of either
  interleave. Objects are numbered in the order of their construction. What shutdown_interval does
  inside one object is the subject of PoolMachine; here it is one step.
 */
module Singleton {
  import opened Basics
  import opened Tally
  import Runs

  datatype CallerPc =
    | Idle
    // instance
    | FirstTest
    | WantLock
    | SecondTest            // holds mtx_
    | Constructing          // holds mtx_
    | Unlocking             // holds mtx_
    | Returning             // before the read of m_threadpool_ in the return statement
    | Got(result: Option<nat>)
    // shutdown
    | CloseTest
    | WantClose
    | CloseRetest           // holds mtx_
    | Closing               // holds mtx_, before shutdown_interval
    | Deleting              // holds mtx_
    | Clearing              // holds mtx_, before the store of nullptr
    | CloseUnlocking        // holds mtx_
    | Closed

  /** What last happened to m_threadpool_. */
  datatype Change = Unchanged | Stored | Cleared

  datatype State = State(
    ptr: Option<nat>,
    mtx: Option<nat>,
    callers: seq<CallerPc>,
    constructed: nat,
    // The objects that shutdown_interval has been called on, and those that have been deleted.
    closed: seq<nat>,
    deleted: set<nat>,
    // For each caller, the last change of m_threadpool_ since its last passing test or construction.
    since: seq<Change>)

  datatype Action = CallInstance(c: nat) | CallShutdown(c: nat) | CallerStep(c: nat)

  function Initial(callers: nat): State {
    State(None, None, seq(callers, _ => Idle), 0, [], {}, seq(callers, _ => Unchanged))
  }

  predicate AtRest(pc: CallerPc) { pc.Idle? || pc.Got? || pc.Closed? }

  function Step(s: State, a: Action): Option<State> {
    if a.c >= |s.callers| then None
    else match a
      case CallInstance(c) => if AtRest(s.callers[c]) then Some(s.(callers := s.callers[c := FirstTest])) else None
      case CallShutdown(c) => if AtRest(s.callers[c]) then Some(s.(callers := s.callers[c := CloseTest])) else None
      case CallerStep(c) => StepCaller(s, c)
  }

  function StepCaller(s: State, c: nat): Option<State>
    requires c < |s.callers|
  {
    match s.callers[c]
    case Idle => None
    case FirstTest =>
      if s.ptr.None? then Some(s.(callers := s.callers[c := WantLock]))
      else Some(s.(callers := s.callers[c := Returning], since := Restarted(s.since, c)))
    case WantLock => if s.mtx.None? then Some(s.(callers := s.callers[c := SecondTest], mtx := Some(c))) else None
    case SecondTest =>
      if s.ptr.None? then Some(s.(callers := s.callers[c := Constructing]))
      else Some(s.(callers := s.callers[c := Unlocking], since := Restarted(s.since, c)))
    case Constructing =>
      Some(s.(callers := s.callers[c := Unlocking], ptr := Some(s.constructed), constructed := s.constructed + 1,
              since := Restarted(seq(|s.since|, _ => Stored), c)))
    case Unlocking => Some(s.(callers := s.callers[c := Returning], mtx := None))
    case Returning => Some(s.(callers := s.callers[c := Got(s.ptr)]))
    case Got(_) => None
    case CloseTest => Some(s.(callers := s.callers[c := if s.ptr.Some? then WantClose else Closed]))
    case WantClose => if s.mtx.None? then Some(s.(callers := s.callers[c := CloseRetest], mtx := Some(c))) else None
    case CloseRetest => Some(s.(callers := s.callers[c := if s.ptr.Some? then Closing else CloseUnlocking]))
    case Closing =>
      if s.ptr.Some? then Some(s.(callers := s.callers[c := Deleting], closed := s.closed + [s.ptr.value])) else None
    case Deleting =>
      if s.ptr.Some? then Some(s.(callers := s.callers[c := Clearing], deleted := s.deleted + {s.ptr.value})) else None
    case Clearing =>
      Some(s.(callers := s.callers[c := CloseUnlocking], ptr := None, since := seq(|s.since|, _ => Cleared)))
    case CloseUnlocking => Some(s.(callers := s.callers[c := Closed], mtx := None))
    case Closed => None
  }

  /** The caller has seen, or made, the present value. */
  function Restarted(since: seq<Change>, c: nat): seq<Change> {
    if c < |since| then since[c := Unchanged] else since
  }

  function Exec(s: State, acts: seq<Action>): Option<State> {
    Runs.Exec(Step, s, acts)
  }

  ghost predicate Reachable(s: State) {
    exists callers: nat :: Runs.Leads(Step, Initial(callers), s)
  }

  // ---------------------------------------------------------------- the invariant

  predicate HasMtx(pc: CallerPc) {
    || pc.SecondTest? || pc.Constructing? || pc.Unlocking?
    || pc.CloseRetest? || pc.Closing? || pc.Deleting? || pc.Clearing? || pc.CloseUnlocking?
  }

  ghost predicate Locking(s: State) {
    && (s.mtx.Some? ==> s.mtx.value < |s.callers|)
    && forall c :: 0 <= c < |s.callers| ==> (HasMtx(s.callers[c]) <==> s.mtx == Some(c))
  }

  /** The current object is the last one constructed; all earlier ones have been closed, each once, and deleted. */
  ghost predicate Objects(s: State) {
    && (s.ptr.Some? ==> s.ptr.value + 1 == s.constructed)
    && (forall id :: 0 <= id < s.constructed ==> (id in s.closed && id in s.deleted) || s.ptr == Some(id))
    && (forall i :: 0 <= i < |s.closed| ==> s.closed[i] < s.constructed)
    && (forall i, j :: 0 <= i < j < |s.closed| ==> s.closed[i] != s.closed[j])
    && (forall id :: id in s.deleted ==> id in s.closed)
  }

  ghost predicate Callers(s: State) {
    && (s.ptr.Some? && s.ptr.value in s.closed ==>
          && s.mtx.Some? && s.mtx.value < |s.callers|
          && (s.callers[s.mtx.value].Deleting? || s.callers[s.mtx.value].Clearing?))
    && (forall c :: 0 <= c < |s.callers| ==> At(s, s.callers[c]))
  }

  ghost predicate At(s: State, pc: CallerPc) {
    match pc
    case Constructing => s.ptr.None?
    case Unlocking => s.ptr.Some?
    case Returning => s.closed == [] ==> s.ptr.Some?
    case Got(result) => s.closed == [] ==> result.Some? && result == s.ptr
    case Closing => s.ptr.Some?
    case Deleting => s.ptr.Some? && s.ptr.value in s.closed
    case Clearing => s.ptr.Some? && s.ptr.value in s.closed && s.ptr.value in s.deleted
    case _ => true
  }

  /** A caller past its test finds the value null exactly if it was cleared last. */
  ghost predicate Tracked(s: State) {
    && |s.since| == |s.callers|
    && forall c :: 0 <= c < |s.callers| && (s.callers[c].Unlocking? || s.callers[c].Returning?) ==>
         (s.ptr.None? <==> s.since[c].Cleared?)
  }

  ghost predicate Inv(s: State) {
    Locking(s) && Objects(s) && Callers(s) && Tracked(s)
  }

  lemma StepKeepsLocking(s: State, a: Action)
    requires Locking(s) && Step(s, a).Some?
    ensures Locking(Step(s, a).value)
  {
  }

  lemma StepKeepsObjects(s: State, a: Action)
    requires Inv(s) && Step(s, a).Some?
    ensures Objects(Step(s, a).value)
  {
    var next := Step(s, a).value;
    assert At(s, s.callers[a.c]);
    if next.closed != s.closed {
      assert s.ptr.value !in s.closed;
    }
  }

  lemma StepKeepsCallers(s: State, a: Action)
    requires Inv(s) && Step(s, a).Some?
    ensures Callers(Step(s, a).value)
  {
    var next := Step(s, a).value;
    assert At(s, s.callers[a.c]);
    forall c | 0 <= c < |next.callers| ensures At(next, next.callers[c]) {
      if c != a.c {
        assert At(s, s.callers[c]);
      }
    }
  }

  lemma StepKeepsTracked(s: State, a: Action)
    requires Tracked(s) && Step(s, a).Some?
    ensures Tracked(Step(s, a).value)
  {
  }

  lemma StepKeeps(s: State, a: Action)
    requires Inv(s) && Step(s, a).Some?
    ensures Inv(Step(s, a).value)
  {
    StepKeepsLocking(s, a);
    StepKeepsObjects(s, a);
    StepKeepsCallers(s, a);
    StepKeepsTracked(s, a);
  }

  lemma InitialKeeps(callers: nat)
    ensures Inv(Initial(callers))
  {
  }

  lemma ReachableInv(s: State)
    requires Reachable(s)
    ensures Inv(s)
  {
    var callers: nat :| Runs.Leads(Step, Initial(callers), s);
    var acts :| Runs.Exec(Step, Initial(callers), acts) == Some(s);
    InitialKeeps(callers);
    forall x, a | Inv(x) && Step(x, a).Some? ensures Inv(Step(x, a).value) {
      StepKeeps(x, a);
    }
    Runs.RunKeeps(Step, Inv, Initial(callers), acts);
  }

  // ---------------------------------------------------------------- what it gives

  /** As long as nothing has been shut down, one object is constructed and every caller gets it. */
  lemma OneInstance(s: State, c: nat, d: nat)
    requires Reachable(s) && s.closed == [] && c < |s.callers| && d < |s.callers|
    ensures s.constructed <= 1
    ensures s.callers[c].Got? && s.callers[d].Got? ==>
      s.callers[c].result == s.callers[d].result == Some(0) && s.constructed == 1
  {
    ReachableInv(s);
    assert At(s, s.callers[c]) && At(s, s.callers[d]);
    assert forall id :: 0 <= id < s.constructed ==> s.ptr == Some(id);
    assert s.constructed > 0 ==> s.ptr == Some(0);
  }

  /** shutdown_interval is called at most once on each object, while that object is the current one. */
  lemma ClosedOnce(s: State, c: nat)
    requires Reachable(s) && c < |s.callers| && s.callers[c].Closing?
    ensures s.ptr.Some? && s.ptr.value !in s.closed && s.ptr.value !in s.deleted
    ensures forall i, j :: 0 <= i < j < |s.closed| ==> s.closed[i] != s.closed[j]
  {
    ReachableInv(s);
    assert At(s, s.callers[c]);
  }

  /** At most one object is alive at any time. */
  lemma OneAlive(s: State, a: nat, b: nat)
    requires Reachable(s) && a < s.constructed && b < s.constructed
    requires a !in s.closed && b !in s.closed
    ensures a == b && s.ptr == Some(a)
  {
    ReachableInv(s);
  }

  // ---------------------------------------------------------------- the result of a call

  /**
    The return statement reads m_threadpool_ once more, outside the lock. The result is the value at
    that read, and it is null exactly when the last change since the caller's last passing test or
    construction was the store of nullptr in shutdown.
   */
  lemma NullExactlyIfCleared(s: State, c: nat)
    requires Reachable(s) && c < |s.callers| && s.callers[c].Returning?
    ensures |s.since| == |s.callers|
    ensures var next := StepCaller(s, c).value;
      && next.callers[c] == Got(s.ptr) && next.ptr == s.ptr
      && (next.callers[c].result.None? <==> s.since[c].Cleared?)
      && (next.callers[c].result.Some? ==> s.constructed > 0 && next.callers[c].result == Some(s.constructed - 1))
  {
    ReachableInv(s);
  }

  /** No step of the run is the store of nullptr in shutdown. */
  ghost predicate NeverClears(s: State, acts: seq<Action>)
    decreases |acts|
  {
    acts == [] ||
    (&& Step(s, acts[0]).Some?
     && !(acts[0].CallerStep? && s.callers[acts[0].c].Clearing?)
     && NeverClears(Step(s, acts[0]).value, acts[1..]))
  }

  /** The caller is in a call of instance and has not found the value and lost it again. */
  predicate InInstance(s: State, c: nat) {
    && c < |s.callers|
    && var pc := s.callers[c];
      || pc.FirstTest? || pc.WantLock? || pc.SecondTest? || pc.Constructing?
      || ((pc.Unlocking? || pc.Returning?) && s.ptr.Some?)
  }

  /** Between the call and its result: what the caller has found is still there. */
  predicate OnCourse(s: State, c: nat) {
    && c < |s.callers|
    && (s.callers[c].Unlocking? || s.callers[c].Returning? ==> s.ptr.Some?)
    && (s.callers[c].Got? ==> s.callers[c].result.Some? && s.callers[c].result == s.ptr)
  }

  lemma StaysOnCourse(s: State, a: Action, c: nat)
    requires Inv(s) && OnCourse(s, c) && Step(s, a).Some?
    requires !(a.CallerStep? && s.callers[a.c].Clearing?)
    ensures OnCourse(Step(s, a).value, c)
  {
    assert At(s, s.callers[a.c]);
  }

  lemma StepReaches(s: State, a: Action)
    requires Reachable(s) && Step(s, a).Some?
    ensures Reachable(Step(s, a).value)
  {
    var callers: nat :| Runs.Leads(Step, Initial(callers), s);
    Runs.LeadsOn(Step, Initial(callers), s, a);
  }

  lemma {:induction false} RunStaysOnCourse(s: State, acts: seq<Action>, c: nat)
    requires Reachable(s) && OnCourse(s, c) && NeverClears(s, acts)
    ensures Exec(s, acts).Some? && OnCourse(Exec(s, acts).value, c)
    decreases |acts|
  {
    if acts == [] {
    } else {
      ReachableInv(s);
      StaysOnCourse(s, acts[0], c);
      StepReaches(s, acts[0]);
      RunStaysOnCourse(Step(s, acts[0]).value, acts[1..], c);
    }
  }

  /**
    Whatever was shut down before, callers of instance that no store of nullptr comes in between get an
    object, the current one, and so all the same.
   */
  lemma UndisturbedCallsAgree(s: State, acts: seq<Action>, c: nat, d: nat)
    requires Reachable(s) && InInstance(s, c) && InInstance(s, d) && NeverClears(s, acts)
    ensures Exec(s, acts).Some?
    ensures var last := Exec(s, acts).value;
      && c < |last.callers| && d < |last.callers|
      && (last.callers[c].Got? ==> last.callers[c].result.Some? && last.callers[c].result == last.ptr)
      && (last.callers[c].Got? && last.callers[d].Got? ==> last.callers[c].result == last.callers[d].result)
  {
    RunStaysOnCourse(s, acts, c);
    RunStaysOnCourse(s, acts, d);
  }

  // ---------------------------------------------------------------- what a shutdown achieves

  predicate IsCall(a: Action) { a.CallInstance? || a.CallShutdown? }

  predicate InShutdown(pc: CallerPc) {
    || pc.CloseTest? || pc.WantClose? || pc.CloseRetest? || pc.Closing? || pc.Deleting? || pc.Clearing?
    || pc.CloseUnlocking? || pc.Closed?
  }

  /** The first n objects are shut down and deleted. */
  predicate AllClosed(s: State, n: nat) {
    forall id :: 0 <= id < n ==> id in s.closed && id in s.deleted
  }

  /** The caller is in a shutdown, and once it is past its stores the first n objects are gone. */
  predicate Closes(s: State, c: nat, n: nat) {
    && c < |s.callers| && n <= s.constructed && InShutdown(s.callers[c])
    && (s.callers[c].CloseUnlocking? || s.callers[c].Closed? ==> AllClosed(s, n))
  }

  lemma OwnStepCloses(s: State, c: nat, n: nat)
    requires Inv(s) && Closes(s, c, n) && StepCaller(s, c).Some?
    ensures Closes(StepCaller(s, c).value, c, n)
  {
    assert At(s, s.callers[c]);
  }

  lemma OtherStepCloses(s: State, a: Action, c: nat, n: nat)
    requires Closes(s, c, n) && Step(s, a).Some? && a.c != c
    ensures Closes(Step(s, a).value, c, n)
  {
    var next := Step(s, a).value;
    assert next.callers[c] == s.callers[c] && s.constructed <= next.constructed;
    assert forall id :: id in s.closed ==> id in next.closed;
    assert s.deleted <= next.deleted;
  }

  lemma {:induction false} RunCloses(s: State, acts: seq<Action>, c: nat, n: nat)
    requires Reachable(s) && Closes(s, c, n) && Exec(s, acts).Some?
    requires forall i :: 0 <= i < |acts| ==> !(IsCall(acts[i]) && acts[i].c == c)
    ensures Closes(Exec(s, acts).value, c, n)
    decreases |acts|
  {
    if acts == [] {
    } else {
      ReachableInv(s);
      StepReaches(s, acts[0]);
      if acts[0].c == c {
        OwnStepCloses(s, c, n);
      } else {
        OtherStepCloses(s, acts[0], c, n);
      }
      RunCloses(Step(s, acts[0]).value, acts[1..], c, n);
    }
  }

  /**
    Whoever else runs: when a call of shutdown has returned, every object constructed before the call has
    been shut down and deleted, by this caller or by another.
   */
  lemma ShutdownClosesAll(s: State, acts: seq<Action>, c: nat)
    requires Reachable(s) && Step(s, CallShutdown(c)).Some?
    requires Exec(Step(s, CallShutdown(c)).value, acts).Some?
    requires forall i :: 0 <= i < |acts| ==> !(IsCall(acts[i]) && acts[i].c == c)
    ensures var last := Exec(Step(s, CallShutdown(c)).value, acts).value;
      && c < |last.callers| && InShutdown(last.callers[c])
      && (last.callers[c].Closed? ==> AllClosed(last, s.constructed))
  {
    StepReaches(s, CallShutdown(c));
    RunCloses(Step(s, CallShutdown(c)).value, acts, c, s.constructed);
  }

  // ---------------------------------------------------------------- calls that nobody disturbs

  predicate Alone(acts: seq<Action>, c: nat) {
    forall i :: 0 <= i < |acts| ==> acts[i] == CallerStep(c)
  }

  function Current(s: State): seq<nat> {
    if s.ptr.Some? then [s.ptr.value] else []
  }

  /** What has become of the state in which the caller began a shutdown, if nobody else has stepped. */
  predicate ClosesAlone(start: State, s: State, c: nat) {
    && c < |s.callers| && s.constructed == start.constructed
    && var pc := s.callers[c];
      && InShutdown(pc)
      && s.mtx == (if HasMtx(pc) then Some(c) else start.mtx)
      && s.ptr == (if pc.CloseUnlocking? || pc.Closed? then None else start.ptr)
      && s.closed == (if pc.Deleting? || pc.Clearing? || pc.CloseUnlocking? || pc.Closed?
                      then start.closed + Current(start) else start.closed)
      && (pc.Clearing? || pc.CloseUnlocking? || pc.Closed? ==>
            s.deleted == start.deleted + (set id | id in Current(start)))
      && (HasMtx(pc) ==> start.mtx.None?)
      && (!pc.CloseTest? && !pc.Closed? ==> start.ptr.Some?)
      && (pc.CloseTest? || pc.WantClose? || pc.CloseRetest? || pc.Closing? || pc.Deleting? ==>
            s.deleted == start.deleted)
  }

  lemma StepClosesAlone(start: State, s: State, c: nat)
    requires ClosesAlone(start, s, c) && StepCaller(s, c).Some?
    ensures ClosesAlone(start, StepCaller(s, c).value, c)
  {
    assert start.closed + [] == start.closed;
    assert start.ptr.Some? ==> (set id | id in Current(start)) == {start.ptr.value};
  }

  lemma {:induction false} RunClosesAlone(start: State, s: State, acts: seq<Action>, c: nat)
    requires ClosesAlone(start, s, c) && Alone(acts, c) && Exec(s, acts).Some?
    ensures ClosesAlone(start, Exec(s, acts).value, c)
    decreases |acts|
  {
    if acts == [] {
    } else {
      StepClosesAlone(start, s, c);
      RunClosesAlone(start, Step(s, acts[0]).value, acts[1..], c);
    }
  }

  /**
    A shutdown that nobody disturbs has shut down and deleted just the object that was current, if there was
    one; afterwards there is none, and the mutex is as it was.
   */
  lemma ShutdownAlone(s: State, acts: seq<Action>, c: nat)
    requires Step(s, CallShutdown(c)).Some? && Alone(acts, c) && Exec(Step(s, CallShutdown(c)).value, acts).Some?
    ensures var last := Exec(Step(s, CallShutdown(c)).value, acts).value;
      && c < |last.callers|
      && (last.callers[c].Closed? ==>
            && last.ptr.None? && last.mtx == s.mtx && last.constructed == s.constructed
            && last.closed == s.closed + Current(s) && last.deleted == s.deleted + (set id | id in Current(s)))
  {
    RunClosesAlone(s, Step(s, CallShutdown(c)).value, acts, c);
  }

  predicate InCall(pc: CallerPc) {
    || pc.FirstTest? || pc.WantLock? || pc.SecondTest? || pc.Constructing? || pc.Unlocking? || pc.Returning? || pc.Got?
  }

  /** What has become of the state in which the caller called instance, if nobody else has stepped. */
  predicate GetsAlone(start: State, s: State, c: nat) {
    && c < |s.callers| && s.closed == start.closed && s.deleted == start.deleted
    && var pc := s.callers[c];
      && InCall(pc)
      && s.mtx == (if HasMtx(pc) then Some(c) else start.mtx)
      && (HasMtx(pc) ==> start.mtx.None?)
      && (pc.WantLock? || pc.SecondTest? || pc.Constructing? ==> start.ptr.None?)
      && (if start.ptr.Some? || pc.FirstTest? || pc.WantLock? || pc.SecondTest? || pc.Constructing?
          then s.ptr == start.ptr && s.constructed == start.constructed
          else s.ptr == Some(start.constructed) && s.constructed == start.constructed + 1)
      && (pc.Got? ==> pc.result == s.ptr)
  }

  lemma StepGetsAlone(start: State, s: State, c: nat)
    requires GetsAlone(start, s, c) && StepCaller(s, c).Some?
    ensures GetsAlone(start, StepCaller(s, c).value, c)
  {
  }

  lemma {:induction false} RunGetsAlone(start: State, s: State, acts: seq<Action>, c: nat)
    requires GetsAlone(start, s, c) && Alone(acts, c) && Exec(s, acts).Some?
    ensures GetsAlone(start, Exec(s, acts).value, c)
    decreases |acts|
  {
    if acts == [] {
    } else {
      StepGetsAlone(start, s, c);
      RunGetsAlone(start, Step(s, acts[0]).value, acts[1..], c);
    }
  }

  /**
    A call of instance that nobody disturbs gives the current object, or a new one if and only if there was
    none, whatever was shut down before; and the mutex is as it was.
   */
  lemma InstanceAlone(s: State, acts: seq<Action>, c: nat)
    requires Step(s, CallInstance(c)).Some? && Alone(acts, c) && Exec(Step(s, CallInstance(c)).value, acts).Some?
    ensures var last := Exec(Step(s, CallInstance(c)).value, acts).value;
      && c < |last.callers|
      && (last.callers[c].Got? ==>
            && last.callers[c].result == last.ptr && last.mtx == s.mtx && last.closed == s.closed
            && last.ptr == (if s.ptr.Some? then s.ptr else Some(s.constructed))
            && last.constructed == s.constructed + (if s.ptr.Some? then 0 else 1))
  {
    RunGetsAlone(s, Step(s, CallInstance(c)).value, acts, c);
  }

  // ---------------------------------------------------------------- calls come to an end

  /** As long as somebody is in a call, somebody can go on: at least whoever has the mutex, or all if it is free. */
  lemma SomebodyCanStep(s: State, c: nat)
    requires Reachable(s) && c < |s.callers| && !AtRest(s.callers[c])
    ensures exists d :: 0 <= d < |s.callers| && StepCaller(s, d).Some?
    ensures s.mtx.None? || s.mtx == Some(c) ==> StepCaller(s, c).Some?
  {
    ReachableInv(s);
    var d := if s.mtx.Some? then s.mtx.value else c;
    assert At(s, s.callers[d]);
    assert HasMtx(s.callers[d]) <==> s.mtx == Some(d);
    assert StepCaller(s, d).Some?;
  }

  /** How many of its own steps a caller is away from its return, at most. */
  function StepsLeft(pc: CallerPc): nat {
    match pc
    case FirstTest => 6
    case WantLock => 5
    case SecondTest => 4
    case Constructing => 3
    case Unlocking => 2
    case Returning => 1
    case CloseTest => 7
    case WantClose => 6
    case CloseRetest => 5
    case Closing => 4
    case Deleting => 3
    case Clearing => 2
    case CloseUnlocking => 1
    case _ => 0
  }

  function StepOne(a: Action): nat { if a.CallerStep? then 1 else 0 }

  function CallSteps(a: Action): nat {
    match a
    case CallInstance(_) => 6
    case CallShutdown(_) => 7
    case CallerStep(_) => 0
  }

  lemma StepTakesOne(s: State, a: Action)
    requires Step(s, a).Some?
    ensures Sum(Step(s, a).value.callers, StepsLeft) + StepOne(a) <= Sum(s.callers, StepsLeft) + CallSteps(a)
  {
    MovesCaller(s, a);
    SumUpdate(s.callers, a.c, Step(s, a).value.callers[a.c], StepsLeft);
  }

  lemma MovesCaller(s: State, a: Action)
    requires Step(s, a).Some?
    ensures var next := Step(s, a).value;
      && a.c < |s.callers| == |next.callers| && next.callers == s.callers[a.c := next.callers[a.c]]
      && StepsLeft(next.callers[a.c]) + StepOne(a) <= StepsLeft(s.callers[a.c]) + CallSteps(a)
  {
  }

  /** Over every run, the calls take no more than six steps for each instance and seven for each shutdown. */
  lemma {:induction false} CallsEnd(s: State, acts: seq<Action>)
    requires Exec(s, acts).Some?
    ensures Sum(acts, StepOne) <= Sum(s.callers, StepsLeft) + Sum(acts, CallSteps)
    decreases |acts|
  {
    if acts == [] {
    } else {
      StepTakesOne(s, acts[0]);
      CallsEnd(Step(s, acts[0]).value, acts[1..]);
    }
  }

  // ---------------------------------------------------------------- with a shutdown in between

  ghost function Advance(s: State, a: Action): (next: State)
    requires Reachable(s) && Step(s, a).Some?
    ensures Reachable(next) && Step(s, a) == Some(next)
  {
    StepReaches(s, a);
    Step(s, a).value
  }

  /** A run in which it is: a shutdown comes between a caller's test and its return read. */
  lemma InstanceCanReturnNull()
    ensures exists s :: Reachable(s) && |s.callers| == 2 && s.callers[0] == Got(None) && |s.closed| == 1
  {
    var s := Construct();
    s := Advance(Advance(s, CallInstance(0)), CallerStep(0));
    assert s.callers[0].Returning?;
    s := ShutDown(s);
    s := Advance(s, CallerStep(0));
  }

  lemma Construct() returns (s: State)
    ensures Reachable(s) && s.ptr == Some(0) && s.mtx.None? && s.closed == []
    ensures |s.callers| == 2 && s.callers[0].Got? && s.callers[1].Idle?
  {
    s := FindNothing();
    s := ConstructLocked(s);
    s := Advance(Advance(s, CallerStep(0)), CallerStep(0));
  }

  lemma FindNothing() returns (s: State)
    ensures Reachable(s) && s.callers == [WantLock, Idle] && s.ptr.None? && s.mtx.None?
    ensures s.constructed == 0 && s.closed == []
  {
    s := Initial(2);
    Runs.LeadsToItself<State, Action>(Step, s);
    s := Advance(Advance(s, CallInstance(0)), CallerStep(0));
  }

  lemma ConstructLocked(s: State) returns (next: State)
    requires Reachable(s) && s.callers == [WantLock, Idle] && s.ptr.None? && s.mtx.None?
    requires s.constructed == 0 && s.closed == []
    ensures Reachable(next) && next.callers == [Unlocking, Idle] && next.ptr == Some(0) && next.closed == []
  {
    next := Advance(Advance(s, CallerStep(0)), CallerStep(0));
    next := Advance(next, CallerStep(0));
  }

  lemma ShutDown(s: State) returns (next: State)
    requires Reachable(s) && s.ptr.Some? && s.mtx.None? && s.closed == []
    requires |s.callers| == 2 && s.callers[1].Idle?
    ensures Reachable(next) && next.ptr.None? && |next.closed| == 1
    ensures |next.callers| == 2 && next.callers[0] == s.callers[0]
  {
    next := Advance(Advance(s, CallShutdown(1)), CallerStep(1));
    next := Advance(Advance(next, CallerStep(1)), CallerStep(1));
    assert next.callers == [s.callers[0], Closing] && next.ptr == s.ptr && next.closed == [];
    next := CloseAndClear(next);
  }

  lemma CloseAndClear(s: State) returns (next: State)
    requires Reachable(s) && s.ptr.Some? && s.closed == [] && |s.callers| == 2 && s.callers[1].Closing?
    ensures Reachable(next) && next.ptr.None? && |next.closed| == 1
    ensures |next.callers| == 2 && next.callers[0] == s.callers[0]
  {
    next := Advance(Advance(s, CallerStep(1)), CallerStep(1));
    next := Advance(next, CallerStep(1));
  }
}
