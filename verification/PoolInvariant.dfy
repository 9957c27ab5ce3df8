/**
  The inductive invariant of the thread pool, in seven parts, each kept by every step.
 */
module PoolInvariant {
  import opened Basics
  import opened Tally
  import opened TaskRing
  import opened PoolMachine
  import Runs

  // ---------------------------------------------------------------- what the counters count

  predicate ThreadHasLock(pc: ThreadPc) { pc.Looping? || pc.Past? || pc.Holding? || pc.Closing? }

  predicate SubmitterHasLock(pc: SubmitPc) { pc.Testing? || pc.Signalling? || pc.Unlocking? }

  predicate CloserHasLock(pc: CloserPc) { pc.Locked? || pc.Broadcasting? || pc.Releasing? || pc.Stranded? }

  /** Between started_num_++ and started_num_--. */
  predicate IsStarted(pc: ThreadPc) {
    !(pc.Unborn? || pc.Born? || pc.Closing? || pc.Exited?)
  }

  /** Past thread_count_++. */
  predicate IsRegistered(pc: ThreadPc) { !(pc.Unborn? || pc.Born? || pc.Started?) }

  /** Awake and on its way to the test of the queue, without a task. */
  predicate IsHeading(pc: ThreadPc) {
    pc.Born? || pc.Started? || pc.Ready? || pc.Woken? || pc.Looping? || pc.Past?
  }

  function StartedOne(pc: ThreadPc): nat { if IsStarted(pc) then 1 else 0 }

  function RegisteredOne(pc: ThreadPc): nat { if IsRegistered(pc) then 1 else 0 }

  function HeadingOne(pc: ThreadPc): nat { if IsHeading(pc) then 1 else 0 }

  function AsleepOne(pc: ThreadPc): nat { if pc.Waiting? then 1 else 0 }

  function SignallingOne(pc: SubmitPc): nat { if pc.Signalling? then 1 else 0 }

  /** The task that a thread has taken and not yet completed. */
  function InHand(pc: ThreadPc): Option<Task> {
    match pc
    case Holding(task) => Some(task)
    case Running(task) => Some(task)
    case _ => None
  }

  function HeldBy(pc: ThreadPc): multiset<Task> {
    if InHand(pc).Some? then multiset{InHand(pc).value} else multiset{}
  }

  /** How many threads pthread_create has made. */
  function Created(s: State): nat {
    match s.creator
    case NotCalled => 0
    case Spawning(i) => i
    case Returned(i, _) => i
  }

  // ---------------------------------------------------------------- the invariant

  ghost predicate Shape(s: State) {
    && Valid(s.ring)
    && (s.creator.NotCalled? ==> s.threads == [] && s.ring == NO_RING)
    && (!s.creator.NotCalled? ==> s.cores <= |s.threads| <= MAX_THREADS && s.ring != NO_RING)
    && Created(s) <= |s.threads|
    && (s.creator.Returned? ==> s.creator.res == if Created(s) == |s.threads| then 0 else -1)
    && forall t :: 0 <= t < |s.threads| ==> (s.threads[t].Unborn? <==> t >= Created(s))
  }

  /** The lock has one owner, and its owner is the process inside a critical section. */
  ghost predicate Locking(s: State) {
    && (s.owner.Thread? ==> s.owner.t < |s.threads|)
    && (s.owner.Submitter? ==> s.owner.c < |s.submitters|)
    && (forall t :: 0 <= t < |s.threads| ==> (ThreadHasLock(s.threads[t]) <==> s.owner == Thread(t)))
    && (forall c :: 0 <= c < |s.submitters| ==> (SubmitterHasLock(s.submitters[c]) <==> s.owner == Submitter(c)))
    && (CloserHasLock(s.closer) <==> s.owner == Closer)
  }

  ghost predicate Counted(s: State) {
    && s.startedNum == Sum(s.threads, StartedOne)
    && s.threadCount == Sum(s.threads, RegisteredOne)
  }

  predicate FlagRaised(pc: CloserPc) {
    pc.Broadcasting? || pc.Releasing? || pc.Bound? || pc.Joining? || pc.Freeing? || pc.Done?
  }

  predicate BroadcastDone(pc: CloserPc) { FlagRaised(pc) && !pc.Broadcasting? }

  ghost predicate Phases(s: State) {
    && (s.shutdown <==> FlagRaised(s.closer))
    && !s.closer.Stranded?
    && (BroadcastDone(s.closer) ==> forall t :: 0 <= t < |s.threads| ==> !s.threads[t].Waiting?)
    && (forall t :: 0 <= t < |s.threads| && (s.threads[t].Closing? || s.threads[t].Exited?) ==>
          BroadcastDone(s.closer))
    && (forall t :: 0 <= t < |s.threads| && s.threads[t].Past? ==> s.shutdown || s.ring.count > 0)
    && (forall c :: 0 <= c < |s.submitters| && s.submitters[c].Signalling? ==> s.ring.count > 0)
    && !s.outOfRange
  }

  /** While anybody sleeps, each queued task has a thread heading for it or a signal about to be sent. */
  ghost predicate Attended(s: State) {
    Sum(s.threads, AsleepOne) > 0 ==>
      s.ring.count <= Sum(s.threads, HeadingOne) + Sum(s.submitters, SignallingOne)
  }

  ghost predicate Fifo(s: State) {
    && Valid(s.ring)
    && s.accepted == s.dequeued + Contents(s.ring)
    && multiset(s.dequeued) == multiset(s.completed) + Gather(s.threads, HeldBy)
    && (s.emptyCall <==> exists task :: task in s.completed && task.fun.None?)
  }

  predicate InJoinLoop(pc: CloserPc) { pc.Bound? || pc.Joining? || pc.Freeing? || pc.Done? }

  /** The loop has joined the threads below its index. */
  ghost predicate Joined(s: State) {
    && (InJoinLoop(s.closer) ==>
          && s.closer.i <= |s.threads|
          && forall j :: 0 <= j < s.closer.i ==> s.threads[j].Exited?)
    && (s.closer.Joining? ==> s.closer.i < s.threadCount)
  }

  ghost predicate Inv(s: State) {
    && Shape(s) && Locking(s) && Counted(s) && Phases(s) && Attended(s) && Fifo(s) && Joined(s)
  }

  // ---------------------------------------------------------------- helpers

  /** How one thread's move changes every sum over the threads. */
  lemma ThreadMoves(threads: seq<ThreadPc>, t: nat, pc: ThreadPc)
    requires t < |threads|
    ensures Sum(threads[t := pc], StartedOne) == Sum(threads, StartedOne) - StartedOne(threads[t]) + StartedOne(pc)
    ensures Sum(threads[t := pc], RegisteredOne)
         == Sum(threads, RegisteredOne) - RegisteredOne(threads[t]) + RegisteredOne(pc)
    ensures Sum(threads[t := pc], HeadingOne) == Sum(threads, HeadingOne) - HeadingOne(threads[t]) + HeadingOne(pc)
    ensures Sum(threads[t := pc], AsleepOne) == Sum(threads, AsleepOne) - AsleepOne(threads[t]) + AsleepOne(pc)
  {
    SumUpdate(threads, t, pc, StartedOne);
    SumUpdate(threads, t, pc, RegisteredOne);
    SumUpdate(threads, t, pc, HeadingOne);
    SumUpdate(threads, t, pc, AsleepOne);
  }

  lemma HeldMoves(threads: seq<ThreadPc>, t: nat, pc: ThreadPc)
    requires t < |threads|
    ensures HeldBy(threads[t]) <= Gather(threads, HeldBy)
    ensures Gather(threads[t := pc], HeldBy) == Gather(threads, HeldBy) - HeldBy(threads[t]) + HeldBy(pc)
  {
    GatherExchange(threads, t, pc, HeldBy);
  }

  lemma NobodyAsleep(threads: seq<ThreadPc>)
    ensures (Sum(threads, AsleepOne) == 0) <==> forall t :: 0 <= t < |threads| ==> !threads[t].Waiting?
  {
    if Sum(threads, AsleepOne) == 0 {
      forall t | 0 <= t < |threads| ensures !threads[t].Waiting? {
        SumTerm(threads, t, AsleepOne);
      }
    } else {
      SumWitness(threads, AsleepOne);
    }
  }

  /** A wakeup leaves alone every sum that does not tell a waiter from a woken thread. */
  lemma {:induction false} RousingKeepsSum(threads: seq<ThreadPc>, woken: set<nat>, f: ThreadPc -> nat)
    requires f(Waiting) == f(Woken)
    ensures Sum(Rouse(threads, woken), f) == Sum(threads, f)
    decreases |threads|
  {
    if threads == [] {
    } else {
      var n := |threads| - 1;
      RousingKeepsSum(threads[..n], woken, f);
      SumSplit(threads[..n], [threads[n]], f);
      SumSplit(Rouse(threads[..n], woken), [Rouse(threads, woken)[n]], f);
      assert threads == threads[..n] + [threads[n]];
      assert Rouse(threads, woken) == Rouse(threads[..n], woken) + [Rouse(threads, woken)[n]];
    }
  }

  lemma {:induction false} RousingKeepsGather<U>(threads: seq<ThreadPc>, woken: set<nat>, g: ThreadPc -> multiset<U>)
    requires g(Waiting) == g(Woken)
    ensures Gather(Rouse(threads, woken), g) == Gather(threads, g)
    decreases |threads|
  {
    if threads == [] {
    } else {
      var n := |threads| - 1;
      RousingKeepsGather(threads[..n], woken, g);
      GatherSplit(threads[..n], [threads[n]], g);
      GatherSplit(Rouse(threads[..n], woken), [Rouse(threads, woken)[n]], g);
      assert threads == threads[..n] + [threads[n]];
      assert Rouse(threads, woken) == Rouse(threads[..n], woken) + [Rouse(threads, woken)[n]];
    }
  }

  function HeadingOrAsleepOne(pc: ThreadPc): nat { HeadingOne(pc) + AsleepOne(pc) }

  /** A wakeup changes only who is asleep, and whoever stops sleeping is heading for the queue. */
  lemma Rousing(threads: seq<ThreadPc>, woken: set<nat>)
    ensures Sum(Rouse(threads, woken), StartedOne) == Sum(threads, StartedOne)
    ensures Sum(Rouse(threads, woken), RegisteredOne) == Sum(threads, RegisteredOne)
    ensures Sum(Rouse(threads, woken), HeadingOne) + Sum(Rouse(threads, woken), AsleepOne)
         == Sum(threads, HeadingOne) + Sum(threads, AsleepOne)
  {
    RousingKeepsSum(threads, woken, StartedOne);
    RousingKeepsSum(threads, woken, RegisteredOne);
    RousingKeepsSum(threads, woken, HeadingOrAsleepOne);
    HeadingOrAsleepSum(threads);
    HeadingOrAsleepSum(Rouse(threads, woken));
  }

  lemma {:induction false} HeadingOrAsleepSum(threads: seq<ThreadPc>)
    ensures Sum(threads, HeadingOrAsleepOne) == Sum(threads, HeadingOne) + Sum(threads, AsleepOne)
  {
    if threads == [] {
    } else {
      HeadingOrAsleepSum(threads[1..]);
    }
  }

  lemma {:induction false} RousingOnlyWakes(threads: seq<ThreadPc>, woken: set<nat>)
    ensures Sum(Rouse(threads, woken), AsleepOne) <= Sum(threads, AsleepOne)
    decreases |threads|
  {
    if threads == [] {
    } else {
      var n := |threads| - 1;
      RousingOnlyWakes(threads[..n], woken);
      SumSplit(threads[..n], [threads[n]], AsleepOne);
      SumSplit(Rouse(threads[..n], woken), [Rouse(threads, woken)[n]], AsleepOne);
      assert threads == threads[..n] + [threads[n]];
      assert Rouse(threads, woken) == Rouse(threads[..n], woken) + [Rouse(threads, woken)[n]];
    }
  }

  // ---------------------------------------------------------------- every step keeps it

  lemma InitialKeeps(cores: Cores, callers: nat)
    ensures Inv(Initial(cores, callers))
  {
  }

  lemma CreateKeeps(s: State, threadCount: int, queueSize: int)
    requires Inv(s) && CreateStep(s, threadCount, queueSize).Some?
    ensures Inv(CreateStep(s, threadCount, queueSize).value)
  {
    var next := CreateStep(s, threadCount, queueSize).value;
    NewRingIsEmpty(queueSize);
    SumConstant(next.threads, StartedOne, 0);
    SumConstant(next.threads, RegisteredOne, 0);
    SumConstant(next.threads, AsleepOne, 0);
    GatherEmpty(next.threads, HeldBy);
    GatherEmpty(s.threads, HeldBy);
  }

  /** One thread goes from one program counter to another; nothing else that is summed changes. */
  ghost predicate Moves(s: State, next: State, t: nat) {
    && t < |s.threads| && t < |next.threads|
    && next.threads == s.threads[t := next.threads[t]]
    && next.submitters == s.submitters
    && next.startedNum == s.startedNum + StartedOne(next.threads[t]) - StartedOne(s.threads[t])
    && next.threadCount == s.threadCount + RegisteredOne(next.threads[t]) - RegisteredOne(s.threads[t])
  }

  lemma MoveKeepsCounted(s: State, next: State, t: nat)
    requires Counted(s) && Moves(s, next, t)
    ensures Counted(next)
  {
    ThreadMoves(s.threads, t, next.threads[t]);
  }

  /**
    A move leaves the queue attended if it takes no more heading threads away than tasks and puts
    nobody to sleep, or if it leaves the ring empty, or if nobody can sleep any more.
   */
  lemma MoveKeepsAttended(s: State, next: State, t: nat)
    requires Attended(s) && Moves(s, next, t)
    requires || next.ring.count <= 0
             || (&& next.ring.count - s.ring.count <= HeadingOne(next.threads[t]) - HeadingOne(s.threads[t])
                 && AsleepOne(next.threads[t]) <= AsleepOne(s.threads[t]))
             || (!next.threads[t].Waiting? && forall i :: 0 <= i < |s.threads| ==> !s.threads[i].Waiting?)
    ensures Attended(next)
  {
    ThreadMoves(s.threads, t, next.threads[t]);
    NobodyAsleep(s.threads);
  }

  /** The lock goes with the mover: it takes a free lock, keeps its own, or gives it back. */
  lemma MoveKeepsLocking(s: State, next: State, t: nat)
    requires Locking(s) && Moves(s, next, t) && next.closer == s.closer
    requires ThreadHasLock(next.threads[t]) && !ThreadHasLock(s.threads[t]) ==> s.owner.Nobody?
    requires next.owner == if ThreadHasLock(next.threads[t]) then Thread(t)
                           else if ThreadHasLock(s.threads[t]) then Nobody else s.owner
    ensures Locking(next)
  {
  }

  lemma MoveKeepsJoined(s: State, next: State, t: nat)
    requires Joined(s) && Moves(s, next, t) && next.closer == s.closer && !s.threads[t].Exited?
    requires s.threadCount <= next.threadCount
    ensures Joined(next)
  {
  }

  /** What a thread holds was accepted. */
  lemma HeldIsAccepted(s: State, t: nat)
    requires Fifo(s) && t < |s.threads|
    ensures InHand(s.threads[t]).Some? ==>
      InHand(s.threads[t]).value in s.dequeued && InHand(s.threads[t]).value in s.accepted
  {
    GatherTerm(s.threads, t, HeldBy);
    if InHand(s.threads[t]).Some? {
      assert InHand(s.threads[t]).value in multiset(s.dequeued);
    }
  }

  ghost predicate TaskStays(s: State, next: State, t: nat)
    requires t < |s.threads| && t < |next.threads|
  {
    && InHand(next.threads[t]) == InHand(s.threads[t])
    && next.ring == s.ring && next.dequeued == s.dequeued && next.completed == s.completed
    && next.emptyCall == s.emptyCall
  }

  ghost predicate TaskTaken(s: State, next: State, t: nat)
    requires t < |s.threads| && t < |next.threads|
  {
    && s.ring.count > 0 && Addressable(s.ring)
    && InHand(s.threads[t]) == None && InHand(next.threads[t]) == Some(Head(s.ring))
    && next.ring == Dequeue(s.ring) && next.dequeued == s.dequeued + [Head(s.ring)]
    && next.completed == s.completed && next.emptyCall == s.emptyCall
  }

  ghost predicate TaskFinished(s: State, next: State, t: nat)
    requires t < |s.threads| && t < |next.threads|
  {
    && s.threads[t].Running? && InHand(next.threads[t]) == None
    && next.ring == s.ring && next.dequeued == s.dequeued
    && next.completed == s.completed + [s.threads[t].task]
    && next.emptyCall == (s.emptyCall || s.threads[t].task.fun.None?)
  }

  /** A task goes from the ring to a thread's hands, from there to the completed ones, or stays. */
  ghost predicate HandsMove(s: State, next: State, t: nat) {
    && t < |s.threads| && t < |next.threads|
    && next.threads == s.threads[t := next.threads[t]]
    && next.accepted == s.accepted
    && (TaskStays(s, next, t) || TaskTaken(s, next, t) || TaskFinished(s, next, t))
  }

  lemma StayKeepsFifo(s: State, next: State, t: nat)
    requires Fifo(s) && HandsMove(s, next, t) && TaskStays(s, next, t)
    ensures Fifo(next)
  {
    HeldMoves(s.threads, t, next.threads[t]);
  }

  lemma TakingKeepsFifo(s: State, next: State, t: nat)
    requires Fifo(s) && HandsMove(s, next, t) && TaskTaken(s, next, t)
    ensures Fifo(next)
  {
    HeldMoves(s.threads, t, next.threads[t]);
    DequeueRemovesHead(s.ring);
  }

  lemma FinishingKeepsFifo(s: State, next: State, t: nat)
    requires Fifo(s) && HandsMove(s, next, t) && TaskFinished(s, next, t)
    ensures Fifo(next)
  {
    var task := s.threads[t].task;
    HeldMoves(s.threads, t, next.threads[t]);
    HeldIsAccepted(s, t);
    assert HeldBy(s.threads[t]) == multiset{task} && HeldBy(next.threads[t]) == multiset{};
    MovesOver(s.completed, task, Gather(s.threads, HeldBy));
  }

  lemma MovesOver(completed: seq<Task>, task: Task, held: multiset<Task>)
    requires multiset{task} <= held
    ensures multiset(completed + [task]) + (held - multiset{task} + multiset{}) == multiset(completed) + held
  {
    assert multiset(completed + [task]) == multiset(completed) + multiset{task};
    assert multiset{task} + (held - multiset{task}) == held;
  }

  lemma HandsKeepFifo(s: State, next: State, t: nat)
    requires Fifo(s) && HandsMove(s, next, t)
    ensures Fifo(next)
  {
    if TaskStays(s, next, t) {
      StayKeepsFifo(s, next, t);
    } else if TaskTaken(s, next, t) {
      TakingKeepsFifo(s, next, t);
    } else {
      FinishingKeepsFifo(s, next, t);
    }
  }

  lemma ThreadLeavesTasks(s: State, t: nat)
    requires t < |s.threads| && StepThread(s, t).Some?
    requires !s.threads[t].Running? && (s.threads[t].Past? ==> s.shutdown)
    ensures HandsMove(s, StepThread(s, t).value, t)
  {
    assert TaskStays(s, StepThread(s, t).value, t);
  }

  lemma ThreadTakesTask(s: State, t: nat)
    requires t < |s.threads| && s.threads[t].Past? && !s.shutdown
    requires s.ring.count > 0 && Addressable(s.ring)
    ensures HandsMove(s, StepThread(s, t).value, t)
  {
    assert TaskTaken(s, StepThread(s, t).value, t);
  }

  lemma ThreadFinishesTask(s: State, t: nat)
    requires t < |s.threads| && s.threads[t].Running?
    ensures HandsMove(s, StepThread(s, t).value, t)
  {
    assert TaskFinished(s, StepThread(s, t).value, t);
  }

  lemma ThreadMovesHands(s: State, t: nat)
    requires Shape(s) && Phases(s) && t < |s.threads| && StepThread(s, t).Some?
    ensures HandsMove(s, StepThread(s, t).value, t)
  {
    if s.threads[t].Past? && !s.shutdown {
      NotFullIsAddressable(s.ring);
      ThreadTakesTask(s, t);
    } else if s.threads[t].Running? {
      ThreadFinishesTask(s, t);
    } else {
      ThreadLeavesTasks(s, t);
    }
  }

  lemma BirthKeeps(s: State, next: State, i: nat)
    requires Inv(s) && s.creator == Spawning(i) && i < |s.threads|
    requires next == s.(threads := s.threads[i := Born], creator := Spawning(i + 1))
    ensures Inv(next)
  {
    assert Moves(s, next, i) && TaskStays(s, next, i);
    HandsKeepFifo(s, next, i);
    MoveKeepsCounted(s, next, i);
    MoveKeepsAttended(s, next, i);
    MoveKeepsLocking(s, next, i);
    MoveKeepsJoined(s, next, i);
  }

  /** create returns: nothing but its own progress changes. */
  lemma ReturnKeeps(s: State, next: State)
    requires Inv(s) && s.creator.Spawning?
    requires next == s.(creator := Returned(s.creator.i, if s.creator.i == |s.threads| then 0 else -1))
    ensures Inv(next)
  {
    SameQueueKeepsSums(s, next);
  }

  lemma SpawnKeeps(s: State)
    requires Inv(s) && SpawnStep(s).Some?
    ensures Inv(SpawnStep(s).value)
  {
    if s.creator.i < |s.threads| {
      BirthKeeps(s, SpawnStep(s).value, s.creator.i);
    } else {
      ReturnKeeps(s, SpawnStep(s).value);
    }
  }

  lemma CallShutdownKeeps(s: State, requested: ShutdownMode)
    requires Inv(s) && s.closer.Away?
    ensures Inv(s.(closer := WantClose(requested)))
  {
    SameQueueKeepsSums(s, s.(closer := WantClose(requested)));
  }

  lemma WakeKeeps(s: State, t: nat)
    requires Inv(s) && t < |s.threads| && s.threads[t].Waiting?
    ensures Inv(WithThread(s, t, Woken))
  {
    var next := WithThread(s, t, Woken);
    HandsKeepFifo(s, next, t);
    MoveKeepsCounted(s, next, t);
    MoveKeepsAttended(s, next, t);
    MoveKeepsLocking(s, next, t);
    MoveKeepsJoined(s, next, t);
  }

  lemma CallKeeps(s: State, c: nat, task: Task)
    requires Inv(s) && Step(s, Call(c, task)).Some?
    ensures Inv(Step(s, Call(c, task)).value)
  {
    SumUpdate(s.submitters, c, Want(task), SignallingOne);
  }

  // A thread's step.

  lemma MoveKeepsShape(s: State, next: State)
    requires Shape(s) && next.creator == s.creator && next.cores == s.cores && |next.threads| == |s.threads|
    requires forall t :: 0 <= t < |s.threads| ==> (next.threads[t].Unborn? <==> s.threads[t].Unborn?)
    requires Valid(next.ring) && (next.ring == NO_RING <==> s.ring == NO_RING)
    ensures Shape(next)
  {
  }

  lemma RingStepKeepsRing(r: Ring, task: Task)
    requires Valid(r)
    ensures r.count > 0 ==> Addressable(r) && Valid(Dequeue(r)) && Dequeue(r) != NO_RING && r != NO_RING
    ensures r.count != r.size ==>
      Addressable(r) && Valid(Enqueue(r, task)) && Enqueue(r, task) != NO_RING && r != NO_RING
  {
    if r.count > 0 {
      DequeueRemovesHead(r);
    }
    if r.count != r.size {
      EnqueueAppends(r, task);
    }
  }

  lemma ThreadKeepsShape(s: State, t: nat)
    requires Shape(s) && Phases(s) && t < |s.threads| && StepThread(s, t).Some?
    ensures Shape(StepThread(s, t).value)
  {
    if s.threads[t].Past? && !s.shutdown {
      RingStepKeepsRing(s.ring, NULL_TASK);
    }
    MoveKeepsShape(s, StepThread(s, t).value);
  }

  lemma ThreadMovesOnlyItself(s: State, t: nat)
    requires t < |s.threads| && StepThread(s, t).Some?
    ensures var next := StepThread(s, t).value;
      |next.threads| == |s.threads| && next.threads == s.threads[t := next.threads[t]]
  {
  }

  lemma ThreadMovesItself(s: State, t: nat)
    requires Shape(s) && Phases(s) && t < |s.threads| && StepThread(s, t).Some?
    ensures var next := StepThread(s, t).value;
      Moves(s, next, t) && !s.threads[t].Exited? && s.threadCount <= next.threadCount
  {
    if s.threads[t].Past? && !s.shutdown {
      NotFullIsAddressable(s.ring);
    }
  }

  lemma ThreadMovesLock(s: State, t: nat)
    requires Shape(s) && Phases(s) && Locking(s) && t < |s.threads| && StepThread(s, t).Some?
    ensures var next := StepThread(s, t).value;
      && t < |next.threads|
      && next.closer == s.closer
      && (ThreadHasLock(next.threads[t]) && !ThreadHasLock(s.threads[t]) ==> s.owner.Nobody?)
      && next.owner == (if ThreadHasLock(next.threads[t]) then Thread(t)
                        else if ThreadHasLock(s.threads[t]) then Nobody else s.owner)
  {
    if s.threads[t].Past? && !s.shutdown {
      NotFullIsAddressable(s.ring);
    }
  }

  lemma ThreadStaysAttended(s: State, t: nat)
    requires Phases(s) && Locking(s) && t < |s.threads| && StepThread(s, t).Some?
    ensures var next := StepThread(s, t).value;
      t < |next.threads| &&
      (|| next.ring.count <= 0
       || (&& next.ring.count - s.ring.count <= HeadingOne(next.threads[t]) - HeadingOne(s.threads[t])
           && AsleepOne(next.threads[t]) <= AsleepOne(s.threads[t]))
       || (!next.threads[t].Waiting? && forall i :: 0 <= i < |s.threads| ==> !s.threads[i].Waiting?))
  {
  }

  lemma MoveKeepsPhases(s: State, next: State, t: nat)
    requires Locking(s) && Phases(s) && Moves(s, next, t)
    requires next.closer == s.closer && next.shutdown == s.shutdown && !next.outOfRange
    requires next.ring.count == s.ring.count || ThreadHasLock(s.threads[t])
    requires next.threads[t].Waiting? ==> !s.shutdown
    requires next.threads[t].Closing? || next.threads[t].Exited? ==> BroadcastDone(s.closer)
    requires next.threads[t].Past? ==> s.shutdown || next.ring.count > 0
    ensures Phases(next)
  {
  }

  lemma ThreadKeepsPhases(s: State, t: nat)
    requires Shape(s) && Locking(s) && Phases(s) && t < |s.threads| && StepThread(s, t).Some?
    ensures Phases(StepThread(s, t).value)
  {
    var next := StepThread(s, t).value;
    ThreadMovesItself(s, t);
    ThreadMovesLock(s, t);
    if s.threads[t].Past? && !s.shutdown {
      NotFullIsAddressable(s.ring);
    }
    MoveKeepsPhases(s, next, t);
  }

  lemma ThreadKeeps(s: State, t: nat)
    requires Inv(s) && t < |s.threads| && StepThread(s, t).Some?
    ensures Inv(StepThread(s, t).value)
  {
    var next := StepThread(s, t).value;
    ThreadMovesItself(s, t);
    ThreadMovesLock(s, t);
    ThreadStaysAttended(s, t);
    ThreadKeepsShape(s, t);
    ThreadKeepsPhases(s, t);
    ThreadMovesHands(s, t);
    HandsKeepFifo(s, next, t);
    MoveKeepsLocking(s, next, t);
    MoveKeepsJoined(s, next, t);
    MoveKeepsCounted(s, next, t);
    MoveKeepsAttended(s, next, t);
  }

  // A step of submit.

  lemma SubmitterKeepsShape(s: State, c: nat, woken: set<nat>)
    requires Shape(s) && c < |s.submitters| && StepSubmitter(s, c, woken).Some?
    ensures Shape(StepSubmitter(s, c, woken).value)
  {
    if s.submitters[c].Testing? && s.ring.count != s.ring.size {
      RingStepKeepsRing(s.ring, s.submitters[c].task);
    }
    MoveKeepsShape(s, StepSubmitter(s, c, woken).value);
  }

  lemma SubmitterKeepsLocking(s: State, c: nat, woken: set<nat>)
    requires Locking(s) && c < |s.submitters| && StepSubmitter(s, c, woken).Some?
    ensures Locking(StepSubmitter(s, c, woken).value)
  {
  }

  lemma SubmitterKeepsPhases(s: State, c: nat, woken: set<nat>)
    requires Shape(s) && Phases(s) && Joined(s) && c < |s.submitters| && StepSubmitter(s, c, woken).Some?
    ensures var next := StepSubmitter(s, c, woken).value; Phases(next) && Joined(next)
  {
    if s.submitters[c].Testing? && s.ring.count != s.ring.size {
      NotFullIsAddressable(s.ring);
    }
  }

  lemma SignalKeepsSums(s: State, next: State, c: nat, woken: set<nat>)
    requires Counted(s) && Attended(s) && c < |s.submitters| && s.submitters[c].Signalling?
    requires CanSignal(s.threads, woken) && next.threads == Rouse(s.threads, woken)
    requires next.submitters == s.submitters[c := Unlocking(THREADPOOL_OK)] && next.ring == s.ring
    requires next.startedNum == s.startedNum && next.threadCount == s.threadCount
    ensures Counted(next) && Attended(next)
  {
    SumUpdate(s.submitters, c, next.submitters[c], SignallingOne);
    Rousing(s.threads, woken);
    RousingOnlyWakes(s.threads, woken);
    if woken != {} {
      RousedSomebody(s.threads, woken);
    } else {
      NobodyAsleep(s.threads);
    }
  }

  /** Each task that a submitter adds comes with a signal it still has to send. */
  lemma AddingKeepsSums(s: State, next: State, c: nat)
    requires Counted(s) && Attended(s) && c < |s.submitters| && |next.submitters| == |s.submitters|
    requires next.submitters == s.submitters[c := next.submitters[c]] && next.threads == s.threads
    requires next.ring.count - s.ring.count <= SignallingOne(next.submitters[c]) - SignallingOne(s.submitters[c])
    requires next.startedNum == s.startedNum && next.threadCount == s.threadCount
    ensures Counted(next) && Attended(next)
  {
    SumUpdate(s.submitters, c, next.submitters[c], SignallingOne);
  }

  lemma SubmitterAdds(s: State, c: nat, woken: set<nat>)
    requires c < |s.submitters| && StepSubmitter(s, c, woken).Some? && !s.submitters[c].Signalling?
    requires s.submitters[c].Testing? && s.ring.count != s.ring.size ==> Addressable(s.ring)
    ensures var next := StepSubmitter(s, c, woken).value;
      && |next.submitters| == |s.submitters| && next.threads == s.threads
      && next.submitters == s.submitters[c := next.submitters[c]]
      && next.ring.count - s.ring.count <= SignallingOne(next.submitters[c]) - SignallingOne(s.submitters[c])
      && next.startedNum == s.startedNum && next.threadCount == s.threadCount
  {
  }

  lemma SubmitterKeepsSums(s: State, c: nat, woken: set<nat>)
    requires Shape(s) && Counted(s) && Attended(s)
    requires c < |s.submitters| && StepSubmitter(s, c, woken).Some?
    ensures var next := StepSubmitter(s, c, woken).value; Counted(next) && Attended(next)
  {
    var next := StepSubmitter(s, c, woken).value;
    if s.submitters[c].Signalling? {
      SignalKeepsSums(s, next, c, woken);
    } else {
      if s.submitters[c].Testing? && s.ring.count != s.ring.size {
        NotFullIsAddressable(s.ring);
      }
      SubmitterAdds(s, c, woken);
      AddingKeepsSums(s, next, c);
    }
  }

  lemma RousedSomebody(threads: seq<ThreadPc>, woken: set<nat>)
    requires woken != {} && CanSignal(threads, woken)
    ensures Sum(Rouse(threads, woken), AsleepOne) < Sum(threads, AsleepOne)
  {
    var t :| t in woken;
    var one := threads[t := Woken];
    SumUpdate(threads, t, Woken, AsleepOne);
    assert Rouse(threads, woken) == Rouse(one, woken);
    RousingOnlyWakes(one, woken);
  }

  lemma SubmitterKeepsFifo(s: State, c: nat, woken: set<nat>)
    requires Shape(s) && Phases(s) && Fifo(s) && c < |s.submitters| && StepSubmitter(s, c, woken).Some?
    ensures Fifo(StepSubmitter(s, c, woken).value)
  {
    var next := StepSubmitter(s, c, woken).value;
    if s.submitters[c].Signalling? {
      RousingKeepsGather(s.threads, woken, HeldBy);
    } else if s.submitters[c].Testing? && s.ring.count != s.ring.size {
      EnqueueAppends(s.ring, s.submitters[c].task);
    }
  }

  // A step of shutdown_interval.

  lemma CloserKeepsShape(s: State)
    requires Shape(s) && StepCloser(s).Some?
    ensures Shape(StepCloser(s).value)
  {
    var next := StepCloser(s).value;
    assert next.ring == s.ring && next.creator == s.creator && next.cores == s.cores;
    assert |next.threads| == |s.threads|;
  }

  lemma CloserKeepsLocking(s: State)
    requires Locking(s) && StepCloser(s).Some?
    ensures Locking(StepCloser(s).value)
  {
    var next := StepCloser(s).value;
    if s.closer.Broadcasting? {
      RousingKeepsLocking(s, next);
    } else {
      assert next.threads == s.threads && next.submitters == s.submitters;
    }
  }

  lemma RousingKeepsLocking(s: State, next: State)
    requires Locking(s) && next.owner == s.owner && next.submitters == s.submitters
    requires next.threads == Rouse(s.threads, Waiters(s.threads))
    requires CloserHasLock(next.closer) == CloserHasLock(s.closer)
    ensures Locking(next)
  {
  }

  lemma CloserKeepsPhases(s: State)
    requires Shape(s) && Locking(s) && Counted(s) && Phases(s) && Joined(s) && StepCloser(s).Some?
    ensures Phases(StepCloser(s).value)
  {
    if s.closer.Joining? {
      JoinsACreatedThread(s);
    }
  }

  lemma BroadcastKeepsSums(s: State, next: State)
    requires Counted(s) && Attended(s) && Fifo(s)
    requires next == s.(closer := Releasing, threads := Rouse(s.threads, Waiters(s.threads)))
    ensures Counted(next) && Attended(next) && Fifo(next)
  {
    var all := Waiters(s.threads);
    Rousing(s.threads, all);
    RousingKeepsGather(s.threads, all, HeldBy);
    NobodyAsleep(next.threads);
  }

  /** The two states agree on all that the sums and the queue's history speak of. */
  ghost predicate SameQueue(s: State, next: State) {
    && next.threads == s.threads && next.submitters == s.submitters && next.ring == s.ring
    && next.startedNum == s.startedNum && next.threadCount == s.threadCount
    && next.accepted == s.accepted && next.dequeued == s.dequeued && next.completed == s.completed
    && next.emptyCall == s.emptyCall
  }

  lemma SameQueueKeepsSums(s: State, next: State)
    requires Counted(s) && Attended(s) && Fifo(s) && SameQueue(s, next)
    ensures Counted(next) && Attended(next) && Fifo(next)
  {
  }

  lemma CloserLeavesQueue(s: State)
    requires StepCloser(s).Some? && !s.closer.Broadcasting?
    ensures SameQueue(s, StepCloser(s).value)
  {
  }

  lemma CloserKeepsJoined(s: State)
    requires Inv(s) && StepCloser(s).Some?
    ensures Joined(StepCloser(s).value)
  {
    if s.closer.Joining? {
      JoinsACreatedThread(s);
    }
  }

  /** Registered threads are no more than created ones, so threads_.at(i) is a created thread. */
  lemma JoinsACreatedThread(s: State)
    requires Shape(s) && Counted(s) && s.closer.Joining? && s.closer.i < s.threadCount
    ensures s.closer.i < Created(s) && !s.threads[s.closer.i].Unborn?
  {
    RegisteredAreCreated(s);
  }

  lemma RegisteredAreCreated(s: State)
    requires Shape(s)
    ensures Sum(s.threads, RegisteredOne) <= Created(s)
  {
    var n := Created(s);
    assert s.threads == s.threads[..n] + s.threads[n..];
    SumSplit(s.threads[..n], s.threads[n..], RegisteredOne);
    SumConstant(s.threads[n..], RegisteredOne, 0);
    SumAtMost(s.threads[..n], RegisteredOne, 1);
  }

  lemma CloserKeeps(s: State)
    requires Inv(s) && StepCloser(s).Some?
    ensures Inv(StepCloser(s).value)
  {
    var next := StepCloser(s).value;
    CloserKeepsShape(s);
    CloserKeepsLocking(s);
    CloserKeepsPhases(s);
    CloserKeepsJoined(s);
    if s.closer.Broadcasting? {
      BroadcastKeepsSums(s, next);
    } else {
      CloserLeavesQueue(s);
      SameQueueKeepsSums(s, next);
    }
  }

  lemma StepKeeps(s: State, a: Action)
    requires Inv(s) && Step(s, a).Some?
    ensures Inv(Step(s, a).value)
  {
    match a
    case Create(threadCount, queueSize) => CreateKeeps(s, threadCount, queueSize);
    case Spawn => SpawnKeeps(s);
    case SpawnFails => ReturnKeeps(s, SpawnFailsStep(s).value);
    case ThreadStep(t) =>
      ThreadKeeps(s, t);
    case SpuriousWake(t) => WakeKeeps(s, t);
    case Call(c, task) => CallKeeps(s, c, task);
    case SubmitStep(c, woken) =>
      SubmitterKeepsShape(s, c, woken);
      SubmitterKeepsLocking(s, c, woken);
      SubmitterKeepsPhases(s, c, woken);
      SubmitterKeepsSums(s, c, woken);
      SubmitterKeepsFifo(s, c, woken);
    case CallShutdown(requested) => CallShutdownKeeps(s, requested);
    case CloserStep =>
      CloserKeeps(s);
  }

  lemma ExecKeeps(s: State, acts: seq<Action>)
    requires Inv(s) && Exec(s, acts).Some?
    ensures Inv(Exec(s, acts).value)
  {
    forall x, a | Inv(x) && Step(x, a).Some? ensures Inv(Step(x, a).value) {
      StepKeeps(x, a);
    }
    Runs.RunKeeps(Step, Inv, s, acts);
  }

  /** Every reachable state satisfies the invariant. */
  lemma ReachableInv(s: State)
    requires Reachable(s)
    ensures Inv(s)
  {
    var cores: Cores, callers: nat :| Runs.Leads(Step, Initial(cores, callers), s);
    var acts :| Runs.Exec(Step, Initial(cores, callers), acts) == Some(s);
    InitialKeeps(cores, callers);
    ExecKeeps(Initial(cores, callers), acts);
  }
}
