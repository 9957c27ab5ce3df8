/**
  tcp_worker_pool as a step machine: startup, any number of workers running worker_routine, and any
  number of pool tasks that push connections into event_storage_. A step is one access to shared
  memory or one critical section; the value read by the unlocked test of the queue and by each of the
  separate reads of avail_woker_num_ is whatever that variable holds at that step.
 */
module WorkerMachine {
  import opened Basics
  import opened Tally
  import Runs

  datatype Holder = Free | ByWorker(w: nat) | ByProducer(p: nat)

  /** Where a worker is in worker_routine. */
  datatype WorkerPc =
    | Unborn
    | Absent                // pthread_create failed, which start does not notice
    | Top                   // at the unlocked test of event_storage_
    | WantLock
    | Second                // holds locker_, at the second test
    | Fetching              // holds locker_, past it
    | Leaving               // holds locker_, before the guard is destroyed
    | Entering              // before avail_woker_num_--
    | Testing               // at the comparison with worker_num_ / 2
    | TakingAvail           // about to read avail_woker_num_ as the timeout
    | Dividing              // about to read it as the divisor
    | Polling(wttme: int)   // in poll_event, before avail_woker_num_++
    | Faulted               // divided by zero

  datatype Worker = Worker(pc: WorkerPc, clients: map<int, ClientInfo>)

  /** Where a pool task is in the block that pushes its connection. */
  datatype ProducerPc = Outside | Inside(info: ClientInfo) | Pushed(info: ClientInfo)

  datatype Boot = Starting(i: nat) | Booted

  datatype State = State(
    workerNum: nat,
    workers: seq<Worker>,
    boot: Boot,
    lock: Holder,
    storage: seq<ClientInfo>,
    producers: seq<ProducerPc>,
    avail: int,
    // The number of workers between decrement and increment when startup stored the counter.
    inWindowAtStore: nat,
    // History: connections put into event_storage_ and taken out of it.
    pushed: seq<ClientInfo>,
    popped: seq<ClientInfo>,
    // front or pop was called on an empty queue.
    emptyPop: bool,
    // insert met a key that was already there.
    clash: bool)

  datatype Action =
    | BootStep(created: bool)
    | WorkerStep(w: nat)
    | Lock(p: nat, info: ClientInfo)
    | Push(p: nat)
    | Unlock(p: nat)

  /** worker_num_ as the constructor computes it, from the 16 bits of the requested number. */
  function WorkerNum(cores: int, requested: nat): int {
    var workerNum := requested % 0x10000;
    CoerceIn(cores, workerNum, cores * 12)
  }

  function Initial(workerNum: nat, producers: nat): State {
    State(workerNum, seq(workerNum, _ => Worker(Unborn, map[])), Starting(0), Free, [],
          seq(producers, _ => Outside), 0, 0, [], [], false, false)
  }

  predicate InWindow(pc: WorkerPc) {
    pc.Testing? || pc.TakingAvail? || pc.Dividing? || pc.Polling? || pc.Faulted?
  }

  function WindowOne(worker: Worker): nat { if InWindow(worker.pc) then 1 else 0 }

  function Step(s: State, a: Action): Option<State> {
    match a
    case BootStep(created) => StepBoot(s, created)
    case WorkerStep(w) => if w < |s.workers| then StepWorker(s, w) else None
    case Lock(p, info) =>
      if p < |s.producers| && s.producers[p].Outside? && s.lock.Free?
      then Some(s.(producers := s.producers[p := Inside(info)], lock := ByProducer(p))) else None
    case Push(p) =>
      if p < |s.producers| && s.producers[p].Inside?
      then var info := s.producers[p].info;
        Some(s.(producers := s.producers[p := Pushed(info)],
                storage := s.storage + [info], pushed := s.pushed + [info]))
      else None
    case Unlock(p) =>
      if p < |s.producers| && s.producers[p].Pushed?
      then Some(s.(producers := s.producers[p := Outside], lock := Free)) else None
  }

  /** startup: start each worker in turn, then store the counter. */
  function StepBoot(s: State, created: bool): Option<State> {
    if s.boot.Booted? then None
    else if s.boot.i < |s.workers| then
      Some(s.(workers := s.workers[s.boot.i := s.workers[s.boot.i].(pc := if created then Top else Absent)],
              boot := Starting(s.boot.i + 1)))
    else
      Some(s.(avail := s.workerNum, boot := Booted, inWindowAtStore := Sum(s.workers, WindowOne)))
  }

  function Goto(s: State, w: nat, pc: WorkerPc): seq<Worker>
    requires w < |s.workers|
  {
    s.workers[w := s.workers[w].(pc := pc)]
  }

  function StepWorker(s: State, w: nat): Option<State>
    requires w < |s.workers|
  {
    match s.workers[w].pc
    case Unborn => None
    case Absent => None
    case Top => Some(s.(workers := Goto(s, w, if s.storage != [] then WantLock else Entering)))
    case WantLock => if s.lock.Free? then Some(s.(workers := Goto(s, w, Second), lock := ByWorker(w))) else None
    case Second => Some(s.(workers := Goto(s, w, if s.storage != [] then Fetching else Leaving)))
    case Fetching => Some(Fetch(s, w))
    case Leaving => Some(s.(workers := Goto(s, w, Entering), lock := Free))
    case Entering => Some(s.(workers := Goto(s, w, Testing), avail := s.avail - 1))
    case Testing => Some(s.(workers := Goto(s, w, if s.avail > s.workerNum / 2 then TakingAvail else Dividing)))
    case TakingAvail => Some(s.(workers := Goto(s, w, Polling(AtLeastOne(s.avail)))))
    case Dividing =>
      Some(s.(workers := Goto(s, w, if s.avail == 0 then Faulted
                                    else Polling(AtLeastOne(Remainder(s.workerNum, s.avail))))))
    case Polling(_) => Some(s.(workers := Goto(s, w, Top), avail := s.avail + 1))
    case Faulted => None
  }

  /** front, pop, and the insertion into client_infos, which leaves an existing entry alone. */
  function Fetch(s: State, w: nat): State
    requires w < |s.workers|
  {
    if s.storage == [] then s.(emptyPop := true)
    else
      var info := s.storage[0];
      var clients := s.workers[w].clients;
      s.(workers := s.workers[w := Worker(Leaving, Insert(clients, info))],
         storage := s.storage[1..], popped := s.popped + [info], clash := s.clash || info.fd in clients)
  }

  /** map::insert: an existing entry stays. */
  function Insert(clients: map<int, ClientInfo>, info: ClientInfo): map<int, ClientInfo> {
    if info.fd in clients then clients else clients[info.fd := info]
  }

  function AtLeastOne(wttme: int): int { if wttme == 0 then 1 else wttme }

  function Abs(x: int): nat { if x < 0 then -x else x }

  /** The C++ remainder: the quotient is truncated towards zero. */
  function Remainder(a: int, b: int): int
    requires b != 0
  {
    if a < 0 then -(Abs(a) % Abs(b)) else Abs(a) % Abs(b)
  }

  // ---------------------------------------------------------------- runs

  function Exec(s: State, acts: seq<Action>): Option<State> {
    Runs.Exec(Step, s, acts)
  }

  ghost predicate ReachableFrom(workerNum: nat, s: State) {
    exists producers: nat :: Runs.Leads(Step, Initial(workerNum, producers), s)
  }

  lemma StepReaches(workerNum: nat, s: State, a: Action)
    requires ReachableFrom(workerNum, s) && Step(s, a).Some?
    ensures ReachableFrom(workerNum, Step(s, a).value)
  {
    var producers: nat :| Runs.Leads(Step, Initial(workerNum, producers), s);
    Runs.LeadsOn(Step, Initial(workerNum, producers), s, a);
  }

  ghost function Advance(workerNum: nat, s: State, a: Action): (next: State)
    requires ReachableFrom(workerNum, s) && Step(s, a).Some?
    ensures ReachableFrom(workerNum, next) && Step(s, a) == Some(next)
  {
    StepReaches(workerNum, s, a);
    Step(s, a).value
  }
}
