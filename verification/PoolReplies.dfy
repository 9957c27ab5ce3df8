/**
  What the callers of the thread pool get: the answer of submit and the task it adds, the sizes that
  create settles on, and the mode in which the pool is shut down.
 */
module PoolReplies {
  import opened Basics
  import opened Tally
  import opened TaskRing
  import opened PoolMachine
  import opened PoolInvariant
  import Runs

  // ---------------------------------------------------------------- the answer of submit

  /**
    The tests of submit: full comes before shutdown, and each is answered exactly if it applies;
    otherwise the task goes to the end of the queue.
   */
  lemma SubmitAnswers(s: State, c: nat, woken: set<nat>)
    requires Reachable(s) && c < |s.submitters| && s.submitters[c].Testing?
    ensures Valid(s.ring) && StepSubmitter(s, c, woken).Some?
    ensures var next := StepSubmitter(s, c, woken).value;
      && c < |next.submitters| && Valid(next.ring)
      && (next.submitters[c] == Unlocking(THREADPOOL_QUEUE_FULL) <==> |Contents(s.ring)| == s.ring.size)
      && (next.submitters[c] == Unlocking(THREADPOOL_SHUTDOWN) <==> |Contents(s.ring)| != s.ring.size && s.shutdown)
      && (next.submitters[c] == Signalling <==> |Contents(s.ring)| != s.ring.size && !s.shutdown)
      && (next.submitters[c] == Signalling ==> Contents(next.ring) == Contents(s.ring) + [s.submitters[c].task])
      && (next.submitters[c] != Signalling ==> next.ring == s.ring && next.accepted == s.accepted)
  {
    ReachableInv(s);
    if s.ring.count != s.ring.size {
      EnqueueAppends(s.ring, s.submitters[c].task);
    }
  }

  predicate IsReply(err: int) {
    err == THREADPOOL_OK || err == THREADPOOL_QUEUE_FULL || err == THREADPOOL_SHUTDOWN
  }

  /** The queue has been created since, and nothing has been accepted into it. */
  predicate CreatedSince(s: State) { !s.creator.NotCalled? && s.accepted == [] }

  /** An answer is given for its own reason, which lasts until the lock is given back. */
  predicate ReplyHolds(s: State, pc: SubmitPc) {
    match pc
    case Unlocking(err) =>
      && IsReply(err)
      && (err == THREADPOOL_SHUTDOWN ==> s.shutdown && s.ring.count != s.ring.size)
      && (err == THREADPOOL_QUEUE_FULL ==> s.ring.count == s.ring.size || CreatedSince(s))
    case Replied(err) => IsReply(err) && (err == THREADPOOL_SHUTDOWN ==> s.shutdown)
    case _ => true
  }

  ghost predicate Replies(s: State) {
    && (s.creator.NotCalled? ==> s.accepted == [])
    && forall c :: 0 <= c < |s.submitters| ==> ReplyHolds(s, s.submitters[c])
  }

  /** A step that leaves alone what the answers speak of. */
  ghost predicate Spares(s: State, next: State) {
    && next.submitters == s.submitters && next.accepted == s.accepted
    && (s.shutdown ==> next.shutdown) && next.creator.NotCalled? == s.creator.NotCalled?
    && (next.ring.count == s.ring.count || !s.owner.Submitter?) && next.ring.size == s.ring.size
  }

  lemma SparingKeepsReplies(s: State, next: State)
    requires Locking(s) && Replies(s) && Spares(s, next)
    ensures Replies(next)
  {
    forall c | 0 <= c < |next.submitters| ensures ReplyHolds(next, next.submitters[c]) {
      assert ReplyHolds(s, s.submitters[c]);
    }
  }

  lemma ThreadSpares(s: State, t: nat)
    requires Locking(s) && t < |s.threads| && StepThread(s, t).Some?
    ensures Spares(s, StepThread(s, t).value)
  {
  }

  lemma OthersSpare(s: State, a: Action)
    requires a.Spawn? || a.SpawnFails? || a.SpuriousWake? || a.CallShutdown? || a.CloserStep?
    requires Step(s, a).Some?
    ensures Spares(s, Step(s, a).value)
  {
  }

  lemma SubmitterReplies(s: State, c: nat, woken: set<nat>)
    requires Inv(s) && Replies(s) && c < |s.submitters| && StepSubmitter(s, c, woken).Some?
    ensures var next := StepSubmitter(s, c, woken).value;
      && next.submitters == s.submitters[c := next.submitters[c]] && ReplyHolds(next, next.submitters[c])
      && next.shutdown == s.shutdown && next.creator == s.creator && next.ring.size == s.ring.size
      && (s.creator.NotCalled? ==> next.accepted == s.accepted)
      && (SubmitterHasLock(s.submitters[c]) || (next.ring == s.ring && next.accepted == s.accepted))
  {
    assert ReplyHolds(s, s.submitters[c]);
    if s.submitters[c].Testing? && s.ring.count != s.ring.size {
      NotFullIsAddressable(s.ring);
    }
  }

  lemma SubmitterKeepsReplies(s: State, c: nat, woken: set<nat>)
    requires Inv(s) && Replies(s) && c < |s.submitters| && StepSubmitter(s, c, woken).Some?
    ensures Replies(StepSubmitter(s, c, woken).value)
  {
    var next := StepSubmitter(s, c, woken).value;
    SubmitterReplies(s, c, woken);
    forall d | 0 <= d < |next.submitters| ensures ReplyHolds(next, next.submitters[d]) {
      if d != c {
        assert ReplyHolds(s, s.submitters[d]);
      }
    }
  }

  lemma CallKeepsReplies(s: State, c: nat, task: Task)
    requires Replies(s) && Step(s, Call(c, task)).Some?
    ensures Replies(Step(s, Call(c, task)).value)
  {
    var next := Step(s, Call(c, task)).value;
    forall d | 0 <= d < |next.submitters| && d != c ensures ReplyHolds(next, next.submitters[d]) {
      assert ReplyHolds(s, s.submitters[d]);
    }
  }

  /** create finds nothing accepted, and makes a queue that is not full. */
  lemma CreateKeepsReplies(s: State, threadCount: int, queueSize: int)
    requires Inv(s) && Replies(s) && CreateStep(s, threadCount, queueSize).Some?
    ensures Replies(CreateStep(s, threadCount, queueSize).value)
  {
    var next := CreateStep(s, threadCount, queueSize).value;
    NewRingIsEmpty(queueSize);
    forall c | 0 <= c < |next.submitters| ensures ReplyHolds(next, next.submitters[c]) {
      assert ReplyHolds(s, s.submitters[c]);
    }
  }

  lemma StepKeepsReplies(s: State, a: Action)
    requires Inv(s) && Replies(s) && Step(s, a).Some?
    ensures Replies(Step(s, a).value)
  {
    match a
    case Create(threadCount, queueSize) => CreateKeepsReplies(s, threadCount, queueSize);
    case Call(c, task) => CallKeepsReplies(s, c, task);
    case SubmitStep(c, woken) => SubmitterKeepsReplies(s, c, woken);
    case ThreadStep(t) =>
      ThreadSpares(s, t);
      SparingKeepsReplies(s, StepThread(s, t).value);
    case _ =>
      OthersSpare(s, a);
      SparingKeepsReplies(s, Step(s, a).value);
  }

  lemma ReachableReplies(s: State)
    requires Reachable(s)
    ensures Inv(s) && Replies(s)
  {
    var cores: Cores, callers: nat :| Runs.Leads(Step, Initial(cores, callers), s);
    var acts :| Runs.Exec(Step, Initial(cores, callers), acts) == Some(s);
    var inv := (x: State) => Inv(x) && Replies(x);
    InitialKeeps(cores, callers);
    forall x, a | inv(x) && Step(x, a).Some? ensures inv(Step(x, a).value) {
      StepKeeps(x, a);
      StepKeepsReplies(x, a);
    }
    Runs.RunKeeps(Step, inv, Initial(cores, callers), acts);
  }

  /**
    In every reachable state: nobody is answered with shutdown while the flag is down. While a caller
    answered with full still holds the lock, the ring is full, exactly unless create came after its test
    (the test of a queue that has not been created compares 0 with 0).
   */
  lemma RepliesAreRight(s: State, c: nat)
    requires Reachable(s) && c < |s.submitters|
    ensures var pc := s.submitters[c];
      && Valid(s.ring)
      && (pc.Unlocking? || pc.Replied? ==> IsReply(pc.err) && (pc.err == THREADPOOL_SHUTDOWN ==> s.shutdown))
      && (pc == Unlocking(THREADPOOL_SHUTDOWN) ==> |Contents(s.ring)| < s.ring.size)
      && (pc == Unlocking(THREADPOOL_QUEUE_FULL) ==>
            (|Contents(s.ring)| == s.ring.size <==> s.creator.NotCalled? || s.accepted != []))
  {
    ReachableReplies(s);
    assert ReplyHolds(s, s.submitters[c]);
    if s.accepted == [] && !s.creator.NotCalled? {
      assert Contents(s.ring) == [];
    }
  }

  /** The exception: a caller is told full before create, and still holds the lock when the queue is made. */
  lemma FullBeforeCreate(cores: Cores)
    ensures exists s :: && Reachable(s) && s.cores == cores && |s.submitters| == 1
                        && s.submitters[0] == Unlocking(THREADPOOL_QUEUE_FULL)
                        && s.ring.count == 0 && s.ring.size == 2048
  {
    var s := Initial(cores, 1);
    Runs.LeadsToItself<State, Action>(Step, s);
    s := Advance(Advance(s, Call(0, NULL_TASK)), SubmitStep(0, {}));
    s := Advance(s, SubmitStep(0, {}));
    s := Advance(s, Create(cores, 2048));
  }

  // ---------------------------------------------------------------- the task of a call

  /** What the steps of one caller add to the accepted tasks over a run. */
  function AddedBy(s: State, acts: seq<Action>, c: nat): seq<Task>
    decreases |acts|
  {
    if acts == [] || Step(s, acts[0]).None? then []
    else Added(s, acts[0], c) + AddedBy(Step(s, acts[0]).value, acts[1..], c)
  }

  function Added(s: State, a: Action, c: nat): seq<Task> {
    if Step(s, a).Some? && a.SubmitStep? && a.c == c && |s.accepted| <= |Step(s, a).value.accepted|
    then Step(s, a).value.accepted[|s.accepted|..] else []
  }

  /** The accepted tasks grow only by what callers add. */
  lemma AcceptedIsWhatIsAdded(s: State, a: Action)
    requires Step(s, a).Some?
    ensures Step(s, a).value.accepted == s.accepted + (if a.SubmitStep? then Added(s, a, a.c) else [])
  {
    match a
    case ThreadStep(t) => ThreadLeavesCallers(s, t);
    case _ =>
  }

  /** The caller is in a call with the task, or has returned from it, and has added what is given. */
  predicate InCall(s: State, c: nat, task: Task, added: seq<Task>) {
    && c < |s.submitters|
    && match s.submitters[c]
       case Idle => false
       case Want(wanted) => wanted == task && added == []
       case Testing(wanted) => wanted == task && added == []
       case Signalling => added == [task]
       case Unlocking(err) => added == if err == THREADPOOL_OK then [task] else []
       case Replied(err) => added == if err == THREADPOOL_OK then [task] else []
  }

  lemma OwnStepStaysInCall(s: State, c: nat, woken: set<nat>, task: Task, added: seq<Task>)
    requires Inv(s) && InCall(s, c, task, added) && StepSubmitter(s, c, woken).Some?
    ensures InCall(StepSubmitter(s, c, woken).value, c, task, added + Added(s, SubmitStep(c, woken), c))
  {
    if s.submitters[c].Testing? && s.ring.count != s.ring.size {
      NotFullIsAddressable(s.ring);
    }
  }

  lemma OtherStepLeavesCaller(s: State, a: Action, c: nat)
    requires Step(s, a).Some? && c < |s.submitters| && !((a.Call? || a.SubmitStep?) && a.c == c)
    ensures var next := Step(s, a).value; c < |next.submitters| && next.submitters[c] == s.submitters[c]
  {
    match a
    case ThreadStep(t) => ThreadLeavesCallers(s, t);
    case _ =>
  }

  lemma ThreadLeavesCallers(s: State, t: nat)
    requires t < |s.threads| && StepThread(s, t).Some?
    ensures StepThread(s, t).value.submitters == s.submitters && StepThread(s, t).value.accepted == s.accepted
  {
  }

  lemma {:induction false} RunStaysInCall(s: State, acts: seq<Action>, c: nat, task: Task, added: seq<Task>)
    requires Reachable(s) && InCall(s, c, task, added) && Exec(s, acts).Some?
    requires forall i :: 0 <= i < |acts| ==> !(acts[i].Call? && acts[i].c == c)
    ensures InCall(Exec(s, acts).value, c, task, added + AddedBy(s, acts, c))
    decreases |acts|
  {
    if acts == [] {
      assert added + [] == added;
    } else {
      var a, next := acts[0], Step(s, acts[0]).value;
      ReachableInv(s);
      StepReaches(s, a);
      if a.SubmitStep? && a.c == c {
        OwnStepStaysInCall(s, c, a.woken, task, added);
      } else {
        OtherStepLeavesCaller(s, a, c);
        assert added + [] == added;
      }
      RunStaysInCall(next, acts[1..], c, task, added + Added(s, a, c));
      assert added + Added(s, a, c) + AddedBy(next, acts[1..], c) == added + AddedBy(s, acts, c);
    }
  }

  /**
    A call of submit, in whatever company: when it has returned 0, its steps have put exactly the task it
    was called with, function and arguments, behind the accepted ones; when it has returned anything else,
    nothing. What it returns is 0, full or shutdown.
   */
  lemma CallAddsItsTask(s: State, acts: seq<Action>, c: nat, task: Task)
    requires Reachable(s) && Step(s, Call(c, task)).Some?
    requires Exec(Step(s, Call(c, task)).value, acts).Some?
    requires forall i :: 0 <= i < |acts| ==> !(acts[i].Call? && acts[i].c == c)
    ensures var called := Step(s, Call(c, task)).value;
      var last := Exec(called, acts).value;
      && c < |last.submitters|
      && (last.submitters[c].Replied? ==>
            && IsReply(last.submitters[c].err)
            && AddedBy(called, acts, c) == if last.submitters[c].err == THREADPOOL_OK then [task] else [])
  {
    var called := Step(s, Call(c, task)).value;
    StepReaches(s, Call(c, task));
    RunStaysInCall(called, acts, c, task, []);
    ExecReaches(called, acts);
    if Exec(called, acts).value.submitters[c].Replied? {
      RepliesAreRight(Exec(called, acts).value, c);
    }
    assert [] + AddedBy(called, acts, c) == AddedBy(called, acts, c);
  }

  // ---------------------------------------------------------------- create and shutdown

  /**
    create settles on the sizes nearest to the requested ones, starts no thread before its loop, and
    leaves callers, flag and history alone.
   */
  lemma CreateSettles(s: State, threadCount: int, queueSize: int)
    requires Reachable(s) && s.creator.NotCalled?
    ensures CreateStep(s, threadCount, queueSize).Some?
    ensures var next := CreateStep(s, threadCount, queueSize).value;
      && Nearest(|next.threads|, threadCount, s.cores, 1024) && Created(next) == 0
      && Nearest(next.ring.size, queueSize, 1024, 65535) && Valid(next.ring) && Contents(next.ring) == []
      && next.shutdown == s.shutdown && next.submitters == s.submitters && next.closer == s.closer
      && next.accepted == s.accepted == []
  {
    ReachableReplies(s);
    NewRingIsEmpty(queueSize);
    CoerceInIsClamp(threadCount, s.cores, MAX_THREADS);
  }

  lemma SpawnUpTo(cores: Cores, k: nat) returns (s: State)
    requires k <= cores
    ensures Reachable(s) && s.cores == cores && s.creator == Spawning(k) && |s.threads| == cores
  {
    if k == 0 {
      s := Initial(cores, 0);
      Runs.LeadsToItself<State, Action>(Step, s);
      s := Advance(s, Create(cores, DEFAULT_QUEUE));
    } else {
      s := SpawnUpTo(cores, k - 1);
      s := Advance(s, Spawn);
    }
  }

  /** The creation of any of the threads may be the one that fails, and then the threads before it are left to run. */
  lemma CreateCanFailAnywhere(cores: Cores, k: nat)
    requires k < cores
    ensures exists s :: && Reachable(s) && s.cores == cores && s.creator == Returned(k, -1) && |s.threads| == cores
                        && forall t :: 0 <= t < cores ==> (s.threads[t].Unborn? <==> t >= k)
  {
    var s := SpawnUpTo(cores, k);
    s := Advance(s, SpawnFails);
    ReachableInv(s);
  }

  /** The mode that a shutdown was called with is the one the flag goes up with. */
  predicate Asked(s: State, requested: ShutdownMode) {
    match s.closer
    case Away => false
    case WantClose(mode) => mode == requested
    case Locked(mode) => mode == requested
    case _ => s.mode == requested
  }

  lemma ThreadLeavesMode(s: State, t: nat)
    requires t < |s.threads| && StepThread(s, t).Some?
    ensures StepThread(s, t).value.closer == s.closer && StepThread(s, t).value.mode == s.mode
  {
  }

  lemma SubmitterLeavesMode(s: State, c: nat, woken: set<nat>)
    requires c < |s.submitters| && StepSubmitter(s, c, woken).Some?
    ensures var next := StepSubmitter(s, c, woken).value; next.closer == s.closer && next.mode == s.mode
  {
  }

  lemma StepKeepsAsked(s: State, a: Action, requested: ShutdownMode)
    requires Phases(s) && Asked(s, requested) && Step(s, a).Some?
    ensures Asked(Step(s, a).value, requested)
  {
    match a
    case ThreadStep(t) => ThreadLeavesMode(s, t);
    case SubmitStep(c, woken) => SubmitterLeavesMode(s, c, woken);
    case _ =>
  }

  lemma {:induction false} RunKeepsAsked(s: State, acts: seq<Action>, requested: ShutdownMode)
    requires Reachable(s) && Asked(s, requested) && Exec(s, acts).Some?
    ensures Asked(Exec(s, acts).value, requested)
    decreases |acts|
  {
    if acts == [] {
    } else {
      ReachableInv(s);
      StepReaches(s, acts[0]);
      StepKeepsAsked(s, acts[0], requested);
      RunKeepsAsked(Step(s, acts[0]).value, acts[1..], requested);
    }
  }

  /** Over every run from a call of shutdown_interval: once the flag is up, the mode is the one it was called with. */
  lemma ModeIsTheOneAskedFor(s: State, acts: seq<Action>, requested: ShutdownMode)
    requires Reachable(s) && s.closer.Away? && Exec(s, [CallShutdown(requested)] + acts).Some?
    ensures var last := Exec(s, [CallShutdown(requested)] + acts).value; last.shutdown ==> last.mode == requested
  {
    var called := Step(s, CallShutdown(requested)).value;
    assert ([CallShutdown(requested)] + acts)[1..] == acts;
    StepReaches(s, CallShutdown(requested));
    RunKeepsAsked(called, acts, requested);
    ExecReaches(called, acts);
    ReachableInv(Exec(called, acts).value);
  }

  // ---------------------------------------------------------------- wakeups

  /** A spurious wakeup changes nothing: the thread tests the empty queue again and goes back to sleep. */
  lemma SpuriousWakeIsHarmless(s: State, t: nat)
    requires Reachable(s) && t < |s.threads| && s.threads[t].Waiting?
    requires s.owner.Nobody? && !s.shutdown && s.ring.count == 0
    ensures Exec(s, [SpuriousWake(t), ThreadStep(t), ThreadStep(t)]) == Some(s)
  {
    Runs.ExecThree(Step, s, SpuriousWake(t), ThreadStep(t), ThreadStep(t));
    var woken := Step(s, SpuriousWake(t)).value;
    var looping := Step(woken, ThreadStep(t)).value;
    assert Step(looping, ThreadStep(t)).value.threads == s.threads;
  }

  /** The signal of submit may reach any one of the sleepers, and then wakes no other. */
  lemma SignalReachesAnySleeper(s: State, c: nat, t: nat)
    requires Reachable(s) && c < |s.submitters| && s.submitters[c].Signalling?
    requires t < |s.threads| && s.threads[t].Waiting?
    ensures Step(s, SubmitStep(c, {t})).Some?
    ensures var next := Step(s, SubmitStep(c, {t})).value;
      next.threads == s.threads[t := Woken] && next.submitters == s.submitters[c := Unlocking(THREADPOOL_OK)]
  {
    assert Rouse(s.threads, {t}) == s.threads[t := Woken];
  }
}
