/**
  thread_pool as a step machine. Any number of callers of submit, the threads running
  thread_routine, the one caller of create and the one caller of shutdown_interval interleave; a
  step is one access to shared memory or one call on the mutex or the condition variable.

  Step gives the next state, or None when the process cannot move (it blocks, or is not there).
  The condition variable follows POSIX.1-2017: a signal wakes at least one waiter if there is one,
  a broadcast wakes all of them, and a waiter may also wake without either.
 */
module PoolMachine {
  import opened Basics
  import opened TaskRing
  import Runs

  /** CPU_CORE. */
  type Cores = c: int | 1 <= c <= MAX_THREADS witness 1

  datatype Owner = Nobody | Thread(t: nat) | Submitter(c: nat) | Closer

  /** Where a pool thread is in thread_routine. */
  datatype ThreadPc =
    | Unborn                // pthread_create has not been called for it
    | Born                  // before started_num_++
    | Started               // before thread_count_++
    | Ready                 // before pthread_mutex_lock
    | Looping               // holds the lock, at the test of the waiting loop
    | Waiting               // inside pthread_cond_wait, not signalled
    | Woken                 // inside pthread_cond_wait, to take the lock again
    | Past                  // holds the lock, past the waiting loop
    | Holding(task: Task)   // holds the lock, has copied a task out
    | Running(task: Task)   // in task.run()
    | Closing               // holds the lock, past started_num_--
    | Exited

  /** Where a caller of submit is. */
  datatype SubmitPc =
    | Idle
    | Want(task: Task)      // before pthread_mutex_lock
    | Testing(task: Task)   // holds the lock, before the two tests
    | Signalling            // holds the lock, the task is in the ring
    | Unlocking(err: int)   // holds the lock, before pthread_mutex_unlock
    | Replied(err: int)

  /** Where the caller of shutdown_interval is. */
  datatype CloserPc =
    | Away
    | WantClose(mode: ShutdownMode)
    | Locked(mode: ShutdownMode)
    | Broadcasting          // holds the lock, the flag is set
    | Releasing             // holds the lock, before pthread_mutex_unlock
    | Bound(i: nat)         // at the test i < thread_count_
    | Joining(i: nat)       // in pthread_join of thread i
    | Freeing(i: nat)       // past the loop, before the test of free_resource
    | Done(i: nat, freed: bool)
    | Stranded              // found the flag set, and returned with the lock held

  /** Where the caller of create is; i threads have been created. */
  datatype CreatorPc = NotCalled | Spawning(i: nat) | Returned(i: nat, res: int)

  datatype State = State(
    cores: Cores,
    ring: Ring,
    shutdown: bool,
    mode: ShutdownMode,
    owner: Owner,
    startedNum: int,
    threadCount: int,
    threads: seq<ThreadPc>,
    creator: CreatorPc,
    submitters: seq<SubmitPc>,
    closer: CloserPc,
    // History: tasks put into the ring, taken out of it, and run to completion.
    accepted: seq<Task>,
    dequeued: seq<Task>,
    completed: seq<Task>,
    // Undefined behaviour: an index out of range, a zero divisor, or a join of no thread.
    outOfRange: bool,
    // A null function was called.
    emptyCall: bool)

  datatype Action =
    | Create(threadCount: int, queueSize: int)
    | Spawn
    | SpawnFails
    | ThreadStep(t: nat)
    | SpuriousWake(t: nat)
    | Call(c: nat, task: Task)
    | SubmitStep(c: nat, woken: set<nat>)
    | CallShutdown(requested: ShutdownMode)
    | CloserStep

  /** The state after the constructor, with callers that have not called yet. */
  function Initial(cores: Cores, callers: nat): State {
    State(cores, NO_RING, false, Graceful, Nobody, 0, 0, [], NotCalled,
          seq(callers, _ => Idle), Away, [], [], [], false, false)
  }

  function Step(s: State, a: Action): Option<State> {
    match a
    case Create(threadCount, queueSize) => CreateStep(s, threadCount, queueSize)
    case Spawn => SpawnStep(s)
    case SpawnFails => SpawnFailsStep(s)
    case ThreadStep(t) => if t < |s.threads| then StepThread(s, t) else None
    case SpuriousWake(t) =>
      if t < |s.threads| && s.threads[t].Waiting? then Some(WithThread(s, t, Woken)) else None
    case Call(c, task) =>
      if c < |s.submitters| && (s.submitters[c].Idle? || s.submitters[c].Replied?)
      then Some(WithSubmitter(s, c, Want(task))) else None
    case SubmitStep(c, woken) => if c < |s.submitters| then StepSubmitter(s, c, woken) else None
    case CallShutdown(requested) =>
      if s.closer.Away? then Some(s.(closer := WantClose(requested))) else None
    case CloserStep => StepCloser(s)
  }

  function WithThread(s: State, t: nat, pc: ThreadPc): State
    requires t < |s.threads|
  {
    s.(threads := s.threads[t := pc])
  }

  function WithSubmitter(s: State, c: nat, pc: SubmitPc): State
    requires c < |s.submitters|
  {
    s.(submitters := s.submitters[c := pc])
  }

  // ---------------------------------------------------------------- create

  /** The fields that create sets before it starts any thread. */
  function CreateStep(s: State, threadCount: int, queueSize: int): Option<State> {
    if s.creator.NotCalled? then
      Some(s.(ring := NewRing(queueSize), threadCount := 0, startedNum := 0,
              threads := seq(CoerceIn(threadCount, s.cores, MAX_THREADS), _ => Unborn),
              creator := Spawning(0)))
    else
      None
  }

  function SpawnStep(s: State): Option<State> {
    if !s.creator.Spawning? then None
    else if s.creator.i < |s.threads| then
      Some(s.(threads := s.threads[s.creator.i := Born], creator := Spawning(s.creator.i + 1)))
    else Some(s.(creator := Returned(s.creator.i, 0)))
  }

  function SpawnFailsStep(s: State): Option<State> {
    if s.creator.Spawning? && s.creator.i < |s.threads|
    then Some(s.(creator := Returned(s.creator.i, -1)))
    else None
  }

  // ---------------------------------------------------------------- thread_routine

  function StepThread(s: State, t: nat): Option<State>
    requires t < |s.threads|
  {
    match s.threads[t]
    case Unborn => None
    case Born => Some(s.(threads := s.threads[t := Started], startedNum := s.startedNum + 1))
    case Started => Some(s.(threads := s.threads[t := Ready], threadCount := s.threadCount + 1))
    case Ready => Acquire(s, t)
    case Woken => Acquire(s, t)
    case Looping =>
      if !s.shutdown && s.ring.count == 0
      then Some(s.(threads := s.threads[t := Waiting], owner := Nobody))
      else Some(WithThread(s, t, Past))
    case Waiting => None
    case Past => Some(LeaveLoop(s, t))
    case Holding(task) => Some(s.(threads := s.threads[t := Running(task)], owner := Nobody))
    case Running(task) =>
      Some(s.(threads := s.threads[t := Ready], completed := s.completed + [task],
              emptyCall := s.emptyCall || task.fun.None?))
    case Closing => Some(s.(threads := s.threads[t := Exited], owner := Nobody))
    case Exited => None
  }

  /** Past the waiting loop: exit if the flag is set (both modes take the same steps), else take a task. */
  function LeaveLoop(s: State, t: nat): State
    requires t < |s.threads|
  {
    if s.shutdown then s.(threads := s.threads[t := Closing], startedNum := s.startedNum - 1)
    else if !Addressable(s.ring) then s.(outOfRange := true)
    else s.(threads := s.threads[t := Holding(Head(s.ring))],
            ring := Dequeue(s.ring), dequeued := s.dequeued + [Head(s.ring)])
  }

  function Acquire(s: State, t: nat): Option<State>
    requires t < |s.threads|
  {
    if s.owner.Nobody? then Some(s.(threads := s.threads[t := Looping], owner := Thread(t))) else None
  }

  // ---------------------------------------------------------------- submit

  function StepSubmitter(s: State, c: nat, woken: set<nat>): Option<State>
    requires c < |s.submitters|
  {
    match s.submitters[c]
    case Idle => None
    case Want(task) =>
      if s.owner.Nobody?
      then Some(s.(submitters := s.submitters[c := Testing(task)], owner := Submitter(c))) else None
    case Testing(task) =>
      var verdict := SubmitVerdict(s.ring, s.shutdown);
      if verdict != THREADPOOL_OK then Some(WithSubmitter(s, c, Unlocking(verdict)))
      else if !Addressable(s.ring) then Some(s.(outOfRange := true))
      else Some(s.(submitters := s.submitters[c := Signalling],
                   ring := Enqueue(s.ring, task), accepted := s.accepted + [task]))
    case Signalling =>
      if CanSignal(s.threads, woken)
      then Some(s.(submitters := s.submitters[c := Unlocking(THREADPOOL_OK)], threads := Rouse(s.threads, woken)))
      else None
    case Unlocking(err) => Some(s.(submitters := s.submitters[c := Replied(err)], owner := Nobody))
    case Replied(_) => None
  }

  /** The sets of waiters that one signal may wake. */
  predicate CanSignal(threads: seq<ThreadPc>, woken: set<nat>) {
    && (forall t :: t in woken ==> t < |threads| && threads[t].Waiting?)
    && (woken == {} ==> forall t :: 0 <= t < |threads| ==> !threads[t].Waiting?)
  }

  function Rouse(threads: seq<ThreadPc>, woken: set<nat>): (r: seq<ThreadPc>) {
    seq(|threads|, t requires 0 <= t < |threads| =>
      if t in woken && threads[t].Waiting? then Woken else threads[t])
  }

  function Waiters(threads: seq<ThreadPc>): set<nat> {
    set t: nat | t < |threads| && threads[t].Waiting?
  }

  // ---------------------------------------------------------------- shutdown_interval

  function StepCloser(s: State): Option<State> {
    match s.closer
    case Away => None
    case WantClose(mode) =>
      if s.owner.Nobody? then Some(s.(closer := Locked(mode), owner := Closer)) else None
    case Locked(mode) =>
      if s.shutdown then Some(s.(closer := Stranded))
      else Some(s.(closer := Broadcasting, shutdown := true, mode := mode))
    case Broadcasting => Some(s.(closer := Releasing, threads := Rouse(s.threads, Waiters(s.threads))))
    case Releasing => Some(s.(closer := Bound(0), owner := Nobody))
    case Bound(i) => Some(s.(closer := if i < s.threadCount then Joining(i) else Freeing(i)))
    case Joining(i) =>
      if i >= |s.threads| || s.threads[i].Unborn? then Some(s.(outOfRange := true))
      else if s.threads[i].Exited? then Some(s.(closer := Bound(i + 1)))
      else None
    case Freeing(i) => Some(s.(closer := Done(i, s.startedNum <= 0)))
    case Done(_, _) => None
    case Stranded => None
  }

  // ---------------------------------------------------------------- runs

  function Exec(s: State, acts: seq<Action>): Option<State> {
    Runs.Exec(Step, s, acts)
  }

  ghost predicate Reachable(s: State) {
    exists cores: Cores, callers: nat :: Runs.Leads(Step, Initial(cores, callers), s)
  }

  lemma StepReaches(s: State, a: Action)
    requires Reachable(s) && Step(s, a).Some?
    ensures Reachable(Step(s, a).value)
  {
    var cores: Cores, callers: nat :| Runs.Leads(Step, Initial(cores, callers), s);
    Runs.LeadsOn(Step, Initial(cores, callers), s, a);
  }

  lemma {:induction false} ExecReaches(s: State, acts: seq<Action>)
    requires Reachable(s) && Exec(s, acts).Some?
    ensures Reachable(Exec(s, acts).value)
    decreases |acts|
  {
    if acts == [] {
    } else {
      StepReaches(s, acts[0]);
      ExecReaches(Step(s, acts[0]).value, acts[1..]);
    }
  }

  /** The next state of a reachable state, which is reachable. */
  ghost function Advance(s: State, a: Action): (next: State)
    requires Reachable(s) && Step(s, a).Some?
    ensures Reachable(next) && Step(s, a) == Some(next)
  {
    StepReaches(s, a);
    Step(s, a).value
  }
}
