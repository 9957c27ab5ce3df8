/**
  A server run: the thread pool and the worker pool composed with the accepting thread. A connection
  goes from accept through the ring of the thread pool, a running task and event_storage_ into the
  map of one worker. The accepting thread is the only caller of submit, and nothing shuts the pool down.

  A task starts with a blocking read from its connection, which returns once the client has sent
  something, closed or failed; that a client has done so is an input of the machine.
 */
module ServerMachine {
  import opened Basics
  import P = PoolMachine
  import W = WorkerMachine
  import Runs

  /** Where the accepting thread is. */
  datatype AcceptPc =
    | Booting                       // in tcp_worker_pool::startup, up to the store of the counter
    | Creating                      // before thread_pool::create
    | Spawning                      // in thread_pool::create
    | Accepting                     // in the callback, or waiting for one
    | Submitting(info: ClientInfo)  // in tcp_worker_pool::submit
    | Counting(info: ClientInfo)    // before connected_num_++

  datatype State = State(
    pool: P.State,
    workers: W.State,
    acceptor: AcceptPc,
    connected: nat,
    // The descriptors whose clients have sent, closed or failed.
    heard: set<int>,
    // For each pool thread, whether the read of the task that it runs has returned.
    served: seq<bool>,
    // History: connections that accept returned.
    arrivals: seq<ClientInfo>)

  datatype Action =
    | BootWorkers(created: bool)
    | CreatePool
    | PoolStep(a: P.Action)
    | Hear(fd: int)
    | TaskRead(t: nat)
    | TaskLock(t: nat)
    | TaskPush(t: nat)
    | TaskFinish(t: nat)
    | WorkerStep(w: nat)
    | Accept(info: ClientInfo)
    | Count

  /** The task that tcp_worker_pool::submit makes for a connection. */
  function JobOf(info: ClientInfo): Task { Task(Some(HandOff(info)), None) }

  function Jobs(infos: seq<ClientInfo>): seq<Task> {
    seq(|infos|, i requires 0 <= i < |infos| => JobOf(infos[i]))
  }

  /** The server as constructed, with the requested number of threads. */
  function Initial(cores: P.Cores, requested: nat): State {
    State(P.Initial(cores, 1), W.Initial(W.WorkerNum(cores, requested), cores), Booting, 0, {},
          seq(cores, _ => false), [])
  }

  function Step(s: State, a: Action): Option<State> {
    match a
    case BootWorkers(created) => BootStep(s, created)
    case CreatePool => CreateStep(s)
    case PoolStep(b) => StepPool(s, b)
    case Hear(fd) => Some(s.(heard := s.heard + {fd}))
    case TaskRead(t) => ReadStep(s, t)
    case TaskLock(t) => LockStep(s, t)
    case TaskPush(t) => PushStep(s, t)
    case TaskFinish(t) => FinishStep(s, t)
    case WorkerStep(w) => StepWorker(s, w)
    case Accept(info) => AcceptStep(s, info)
    case Count => CountStep(s)
  }

  function BootStep(s: State, created: bool): Option<State> {
    if !s.acceptor.Booting? then None
    else match W.Step(s.workers, W.BootStep(created))
      case None => None
      case Some(next) => Some(s.(workers := next, acceptor := if next.boot.Booted? then Creating else Booting))
  }

  function CreateStep(s: State): Option<State> {
    if !s.acceptor.Creating? then None
    else match P.Step(s.pool, P.Create(s.pool.cores, DEFAULT_QUEUE))
      case None => None
      case Some(next) => Some(s.(pool := next, acceptor := Spawning))
  }

  /** A step inside the thread pool that is neither the start of a call nor part of a task. */
  function StepPool(s: State, b: P.Action): Option<State> {
    match b
    case Spawn => SpawnStep(s, b)
    case SpawnFails => SpawnStep(s, b)
    case ThreadStep(t) =>
      if t < |s.pool.threads| && s.pool.threads[t].Running? then None else QuietStep(s, b)
    case SpuriousWake(_) => QuietStep(s, b)
    case SubmitStep(_, _) => SubmitStep(s, b)
    case _ => None
  }

  function QuietStep(s: State, b: P.Action): Option<State> {
    match P.Step(s.pool, b)
    case None => None
    case Some(next) => Some(s.(pool := next))
  }

  /** The result of create is ignored. */
  function SpawnStep(s: State, b: P.Action): Option<State> {
    if !s.acceptor.Spawning? then None
    else match P.Step(s.pool, b)
      case None => None
      case Some(next) => Some(s.(pool := next, acceptor := if next.creator.Returned? then Accepting else Spawning))
  }

  /** The result of thread_pool::submit is ignored. */
  function SubmitStep(s: State, b: P.Action): Option<State> {
    if !s.acceptor.Submitting? then None
    else match P.Step(s.pool, b)
      case None => None
      case Some(next) =>
        var replied := |next.submitters| > 0 && next.submitters[0].Replied?;
        Some(s.(pool := next, acceptor := if replied then Counting(s.acceptor.info) else s.acceptor))
  }

  /** The read of a running task returns. */
  function ReadStep(s: State, t: nat): Option<State> {
    if RunsJob(s, t) && t < |s.served| && !s.served[t] && s.pool.threads[t].task.fun.value.info.fd in s.heard
    then Some(s.(served := s.served[t := true])) else None
  }

  /** Past its read, a task takes locker_. */
  function LockStep(s: State, t: nat): Option<State> {
    if RunsJob(s, t) && t < |s.served| && s.served[t] then
      match W.Step(s.workers, W.Lock(t, s.pool.threads[t].task.fun.value.info))
      case None => None
      case Some(next) => Some(s.(workers := next))
    else None
  }

  predicate IsJob(task: Task) {
    task.fun.Some? && task.fun.value.HandOff? && task == JobOf(task.fun.value.info)
  }

  predicate RunsJob(s: State, t: nat) {
    t < |s.pool.threads| && s.pool.threads[t].Running? && IsJob(s.pool.threads[t].task)
  }

  function PushStep(s: State, t: nat): Option<State> {
    match W.Step(s.workers, W.Push(t))
    case None => None
    case Some(next) => Some(s.(workers := next))
  }

  /** It gives locker_ back and returns to thread_routine. */
  function FinishStep(s: State, t: nat): Option<State> {
    if t < |s.pool.threads| && s.pool.threads[t].Running? && t < |s.served| then
      match W.Step(s.workers, W.Unlock(t))
      case None => None
      case Some(unlocked) =>
        match P.Step(s.pool, P.ThreadStep(t))
        case None => None
        case Some(next) => Some(s.(pool := next, workers := unlocked, served := s.served[t := false]))
    else None
  }

  function StepWorker(s: State, w: nat): Option<State> {
    match W.Step(s.workers, W.WorkerStep(w))
    case None => None
    case Some(next) => Some(s.(workers := next))
  }

  /** accept returns a positive descriptor that is not open; no descriptor is ever closed. */
  function AcceptStep(s: State, info: ClientInfo): Option<State> {
    if s.acceptor.Accepting? && s.connected < SERVER_MAX_CONNECTION && info.fd > 0
      && forall i :: 0 <= i < |s.arrivals| ==> s.arrivals[i].fd != info.fd
    then match P.Step(s.pool, P.Call(0, JobOf(info)))
      case None => None
      case Some(next) => Some(s.(pool := next, acceptor := Submitting(info), arrivals := s.arrivals + [info]))
    else None
  }

  function CountStep(s: State): Option<State> {
    if s.acceptor.Counting? then Some(s.(connected := s.connected + 1, acceptor := Accepting)) else None
  }

  function Exec(s: State, acts: seq<Action>): Option<State> {
    Runs.Exec(Step, s, acts)
  }

  ghost predicate ReachableFrom(cores: P.Cores, requested: nat, s: State) {
    Runs.Leads(Step, Initial(cores, requested), s)
  }

  ghost predicate Reachable(s: State) {
    exists cores: P.Cores, requested: nat :: ReachableFrom(cores, requested, s)
  }

  lemma StepReaches(s: State, a: Action)
    requires Reachable(s) && Step(s, a).Some?
    ensures Reachable(Step(s, a).value)
  {
    var cores: P.Cores, requested: nat :| ReachableFrom(cores, requested, s);
    Runs.LeadsOn(Step, Initial(cores, requested), s, a);
    assert ReachableFrom(cores, requested, Step(s, a).value);
  }

  lemma {:induction false} ExecReaches(s: State, acts: seq<Action>)
    requires Reachable(s) && Exec(s, acts).Some?
    ensures Reachable(Exec(s, acts).value)
    decreases |acts|
  {
    if acts == [] {
    } else {
      StepReaches(s, acts[0]);
      ExecReaches(Step(s, acts[0]).value, acts[1..]);
    }
  }

  /** The next state of a reachable state, which is reachable. */
  ghost function Advance(s: State, a: Action): (next: State)
    requires Reachable(s) && Step(s, a).Some?
    ensures Reachable(next) && Step(s, a) == Some(next)
  {
    StepReaches(s, a);
    Step(s, a).value
  }
}
