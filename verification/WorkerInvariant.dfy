/**
  The inductive invariant of the worker pool: who holds locker_, what the availability counter
  counts, what the timeouts are, and where each pushed connection is.
 */
module WorkerInvariant {
  import opened Basics
  import opened Tally
  import opened WorkerMachine
  import Runs

  predicate WorkerHasLock(pc: WorkerPc) { pc.Second? || pc.Fetching? || pc.Leaving? }

  predicate ProducerHasLock(pc: ProducerPc) { !pc.Outside? }

  ghost predicate Shape(s: State) {
    && |s.workers| == s.workerNum >= 1
    && (s.boot.Starting? ==> s.boot.i <= |s.workers|)
    && (forall w :: 0 <= w < |s.workers| ==> (s.workers[w].pc.Unborn? <==> s.boot.Starting? && w >= s.boot.i))
  }

  ghost predicate Locking(s: State) {
    && (s.lock.ByWorker? ==> s.lock.w < |s.workers|)
    && (s.lock.ByProducer? ==> s.lock.p < |s.producers|)
    && (forall w :: 0 <= w < |s.workers| ==> (WorkerHasLock(s.workers[w].pc) <==> s.lock == ByWorker(w)))
    && (forall p :: 0 <= p < |s.producers| ==> (ProducerHasLock(s.producers[p]) <==> s.lock == ByProducer(p)))
  }

  /** The second test, made under the lock, still holds at the pop; and the queue is first in, first out. */
  ghost predicate Queue(s: State) {
    && s.pushed == s.popped + s.storage
    && (forall w :: 0 <= w < |s.workers| && s.workers[w].pc.Fetching? ==> s.storage != [])
    && !s.emptyPop
  }

  /** How many workers are between the decrement and the increment. */
  function Window(s: State): nat { Sum(s.workers, WindowOne) }

  /** The counter before anybody is in the window. */
  function Base(s: State): nat { if s.boot.Booted? then s.workerNum + s.inWindowAtStore else 0 }

  ghost predicate Counter(s: State) {
    && s.avail == Base(s) - Window(s)
    && (s.boot.Starting? ==> s.inWindowAtStore == 0)
    && s.inWindowAtStore <= s.workerNum
  }

  /** The largest timeout that a state's workers can have computed. */
  function LongestWait(s: State): int {
    if s.workerNum + s.inWindowAtStore > 2 then s.workerNum + s.inWindowAtStore - 1 else 1
  }

  ghost predicate Timing(s: State) {
    forall w :: 0 <= w < |s.workers| ==> TimedRight(s, s.workers[w].pc)
  }

  predicate TimedRight(s: State, pc: WorkerPc) {
    && (pc.TakingAvail? || pc.Faulted? ==> s.boot.Booted?)
    && (pc.Faulted? ==> s.inWindowAtStore == 0)
    && (pc.Polling? ==> 1 <= pc.wttme <= LongestWait(s))
  }

  /** No two of the connections have the same descriptor, and none is there twice. */
  ghost predicate Distinct(m: multiset<ClientInfo>) {
    && (forall x :: x in m ==> m[x] == 1)
    && (forall x, y :: x in m && y in m && x.fd == y.fd ==> x == y)
  }

  function ClientsOf(worker: Worker): multiset<ClientInfo> { multiset(Infos(worker.clients)) }

  function Infos(clients: map<int, ClientInfo>): set<ClientInfo> { set fd | fd in clients :: clients[fd] }

  predicate KeyedByFd(clients: map<int, ClientInfo>) {
    forall fd :: fd in clients ==> clients[fd].fd == fd
  }

  /** What has been popped is in the workers' maps, as long as the pushed descriptors are distinct. */
  ghost predicate Ownership(s: State) {
    && (forall w :: 0 <= w < |s.workers| ==> KeyedByFd(s.workers[w].clients))
    && (Distinct(multiset(s.pushed)) ==> multiset(s.popped) == Gather(s.workers, ClientsOf) && !s.clash)
  }

  ghost predicate Inv(s: State) {
    Shape(s) && Locking(s) && Queue(s) && Counter(s) && Timing(s) && Ownership(s)
  }

  // ---------------------------------------------------------------- helpers

  lemma RemainderBounds(a: int, b: int)
    requires a >= 0 && b != 0
    ensures 0 <= Remainder(a, b) < Abs(b)
    ensures Remainder(a, b) <= a
  {
    SmallRemainder(a, Abs(b));
  }

  lemma SmallRemainder(a: int, b: int)
    requires a >= 0 && b > 0
    ensures a % b <= a
  {
    assert a == b * (a / b) + a % b;
    assert b * (a / b) >= 0;
  }

  lemma WindowIsBounded(s: State)
    ensures Window(s) <= |s.workers|
  {
    SumAtMost(s.workers, WindowOne, 1);
  }

  lemma InsertAdds(clients: map<int, ClientInfo>, info: ClientInfo)
    requires KeyedByFd(clients) && info.fd !in clients
    ensures KeyedByFd(Insert(clients, info))
    ensures multiset(Infos(Insert(clients, info))) == multiset(Infos(clients)) + multiset{info}
  {
    var after := Insert(clients, info);
    forall x ensures x in Infos(after) <==> x in Infos(clients) + {info} {
      if x in Infos(clients) {
        assert after[x.fd] == x;
      }
      assert after[info.fd] == info;
    }
    assert Infos(after) == Infos(clients) + {info};
    assert info !in Infos(clients);
  }

  // ---------------------------------------------------------------- every step keeps it

  lemma InitialKeeps(workerNum: nat, producers: nat)
    requires workerNum >= 1
    ensures Inv(Initial(workerNum, producers))
  {
    var s := Initial(workerNum, producers);
    SumConstant(s.workers, WindowOne, 0);
    GatherEmpty(s.workers, ClientsOf);
  }

  /** One worker changes its program counter, and nobody's map changes. */
  ghost predicate Moves(s: State, next: State, w: nat) {
    && w < |s.workers| && w < |next.workers|
    && next.workers == s.workers[w := next.workers[w]]
    && next.workers[w].clients == s.workers[w].clients
    && next.workerNum == s.workerNum && next.producers == s.producers
    && next.storage == s.storage && next.pushed == s.pushed && next.popped == s.popped
    && next.emptyPop == s.emptyPop && next.clash == s.clash
    && next.inWindowAtStore == s.inWindowAtStore
  }

  lemma MoveKeepsOwnership(s: State, next: State, w: nat)
    requires Ownership(s) && Moves(s, next, w)
    ensures Ownership(next)
  {
    GatherExchange(s.workers, w, next.workers[w], ClientsOf);
  }

  lemma MoveKeepsCounter(s: State, next: State, w: nat)
    requires Counter(s) && Moves(s, next, w)
    requires next.boot.Booted? == s.boot.Booted?
    requires next.avail == s.avail - WindowOne(next.workers[w]) + WindowOne(s.workers[w])
    ensures Counter(next)
  {
    SumUpdate(s.workers, w, next.workers[w], WindowOne);
  }

  lemma StartKeeps(s: State, created: bool)
    requires Inv(s) && s.boot.Starting? && s.boot.i < |s.workers|
    ensures Inv(StepBoot(s, created).value)
  {
    var next := StepBoot(s, created).value;
    MoveKeepsOwnership(s, next, s.boot.i);
    MoveKeepsCounter(s, next, s.boot.i);
  }

  lemma StoreKeeps(s: State, created: bool)
    requires Inv(s) && s.boot.Starting? && s.boot.i == |s.workers|
    ensures Inv(StepBoot(s, created).value)
  {
    WindowIsBounded(s);
    forall w | 0 <= w < |s.workers| ensures TimedRight(StepBoot(s, created).value, s.workers[w].pc) {
      assert TimedRight(s, s.workers[w].pc);
    }
  }

  lemma WorkerKeepsShape(s: State, w: nat)
    requires Shape(s) && w < |s.workers| && StepWorker(s, w).Some?
    ensures Shape(StepWorker(s, w).value)
  {
  }

  /** The lock goes with the mover: it takes a free lock, keeps its own, or gives it back. */
  lemma MoveKeepsLocking(s: State, next: State, w: nat)
    requires Locking(s) && w < |s.workers| && |next.workers| == |s.workers|
    requires next.workers == s.workers[w := next.workers[w]] && next.producers == s.producers
    requires WorkerHasLock(next.workers[w].pc) && !WorkerHasLock(s.workers[w].pc) ==> s.lock.Free?
    requires next.lock == if WorkerHasLock(next.workers[w].pc) then ByWorker(w)
                          else if WorkerHasLock(s.workers[w].pc) then Free else s.lock
    ensures Locking(next)
  {
  }

  lemma WorkerMovesLock(s: State, w: nat)
    requires Locking(s) && Queue(s) && w < |s.workers| && StepWorker(s, w).Some?
    ensures var next := StepWorker(s, w).value;
      && |next.workers| == |s.workers|
      && next.workers == s.workers[w := next.workers[w]] && next.producers == s.producers
      && (WorkerHasLock(next.workers[w].pc) && !WorkerHasLock(s.workers[w].pc) ==> s.lock.Free?)
      && next.lock == (if WorkerHasLock(next.workers[w].pc) then ByWorker(w)
                       else if WorkerHasLock(s.workers[w].pc) then Free else s.lock)
  {
  }

  lemma WorkerKeepsLocking(s: State, w: nat)
    requires Locking(s) && Queue(s) && w < |s.workers| && StepWorker(s, w).Some?
    ensures Locking(StepWorker(s, w).value)
  {
    WorkerMovesLock(s, w);
    MoveKeepsLocking(s, StepWorker(s, w).value, w);
  }

  lemma WorkerKeepsQueue(s: State, w: nat)
    requires Shape(s) && Locking(s) && Queue(s) && w < |s.workers| && StepWorker(s, w).Some?
    ensures Queue(StepWorker(s, w).value)
  {
    if s.workers[w].pc.Fetching? {
      assert forall u :: 0 <= u < |s.workers| && u != w ==> !s.workers[u].pc.Fetching?;
      assert s.storage == [s.storage[0]] + s.storage[1..];
    }
  }

  lemma WorkerMoves(s: State, w: nat)
    requires w < |s.workers| && StepWorker(s, w).Some? && !s.workers[w].pc.Fetching?
    ensures Moves(s, StepWorker(s, w).value, w) && StepWorker(s, w).value.boot == s.boot
  {
  }

  lemma WorkerCounts(s: State, w: nat)
    requires w < |s.workers| && StepWorker(s, w).Some? && !s.workers[w].pc.Fetching?
    ensures var next := StepWorker(s, w).value;
      && |next.workers| == |s.workers|
      && next.avail == s.avail - WindowOne(next.workers[w]) + WindowOne(s.workers[w])
  {
  }

  /** What the counter shows to a worker inside the window. */
  lemma CounterSeen(s: State, w: nat)
    requires Shape(s) && Counter(s) && w < |s.workers| && InWindow(s.workers[w].pc)
    ensures s.boot.Booted? ==> s.inWindowAtStore <= s.avail < s.workerNum + s.inWindowAtStore
    ensures s.boot.Starting? ==> 0 - s.workerNum <= s.avail < 0
  {
    WindowIsBounded(s);
    SumTerm(s.workers, w, WindowOne);
  }

  lemma WorkerTimesRight(s: State, w: nat)
    requires Shape(s) && Counter(s) && Timing(s) && w < |s.workers| && StepWorker(s, w).Some?
    requires !s.workers[w].pc.Fetching?
    ensures TimedRight(s, StepWorker(s, w).value.workers[w].pc)
  {
    assert TimedRight(s, s.workers[w].pc);
    if InWindow(s.workers[w].pc) {
      CounterSeen(s, w);
      if s.workers[w].pc.Dividing? && s.avail != 0 {
        RemainderBounds(s.workerNum, s.avail);
      }
    }
  }

  lemma WorkerKeepsTiming(s: State, w: nat)
    requires Shape(s) && Counter(s) && Timing(s) && w < |s.workers| && StepWorker(s, w).Some?
    requires !s.workers[w].pc.Fetching?
    ensures Timing(StepWorker(s, w).value)
  {
    var next := StepWorker(s, w).value;
    WorkerMoves(s, w);
    WorkerTimesRight(s, w);
    forall u | 0 <= u < |next.workers| ensures TimedRight(next, next.workers[u].pc) {
      assert TimedRight(s, if u == w then next.workers[w].pc else s.workers[u].pc);
    }
  }

  /** A connection at the head of the queue is in nobody's map. */
  lemma HeadIsNew(s: State, w: nat)
    requires Queue(s) && Ownership(s) && Distinct(multiset(s.pushed)) && s.storage != [] && w < |s.workers|
    ensures s.storage[0].fd !in s.workers[w].clients
  {
    var info := s.storage[0];
    var clients := s.workers[w].clients;
    if info.fd in clients {
      var x := clients[info.fd];
      assert x in ClientsOf(s.workers[w]);
      GatherTerm(s.workers, w, ClientsOf);
    }
  }

  lemma FetchKeeps(s: State, w: nat)
    requires Inv(s) && w < |s.workers| && s.workers[w].pc.Fetching?
    ensures var next := Fetch(s, w); Counter(next) && Timing(next) && Ownership(next)
  {
    var next := Fetch(s, w);
    SumUpdate(s.workers, w, next.workers[w], WindowOne);
    forall u | 0 <= u < |next.workers| ensures TimedRight(next, next.workers[u].pc) {
      assert TimedRight(s, s.workers[u].pc);
    }
    FetchKeepsOwnership(s, w);
  }

  lemma FetchKeepsOwnership(s: State, w: nat)
    requires Queue(s) && Ownership(s) && w < |s.workers| && s.storage != []
    ensures Ownership(Fetch(s, w))
  {
    var next := Fetch(s, w);
    var info := s.storage[0];
    if info.fd !in s.workers[w].clients {
      InsertAdds(s.workers[w].clients, info);
    }
    if Distinct(multiset(s.pushed)) {
      HeadIsNew(s, w);
      GatherExchange(s.workers, w, next.workers[w], ClientsOf);
    }
  }

  lemma WorkerKeeps(s: State, w: nat)
    requires Inv(s) && w < |s.workers| && StepWorker(s, w).Some?
    ensures Inv(StepWorker(s, w).value)
  {
    var next := StepWorker(s, w).value;
    WorkerKeepsShape(s, w);
    WorkerKeepsLocking(s, w);
    WorkerKeepsQueue(s, w);
    if s.workers[w].pc.Fetching? {
      FetchKeeps(s, w);
    } else {
      WorkerMoves(s, w);
      WorkerCounts(s, w);
      WorkerKeepsTiming(s, w);
      MoveKeepsCounter(s, next, w);
      MoveKeepsOwnership(s, next, w);
    }
  }

  lemma DistinctPart(part: multiset<ClientInfo>, whole: multiset<ClientInfo>)
    requires Distinct(whole) && part <= whole
    ensures Distinct(part)
  {
    forall x | x in part ensures part[x] == 1 {
      assert part[x] <= whole[x];
    }
  }

  /** A pool task touches neither the workers nor the counter. */
  ghost predicate LeavesWorkers(s: State, next: State) {
    && next.workers == s.workers && next.workerNum == s.workerNum && next.boot == s.boot
    && next.avail == s.avail && next.inWindowAtStore == s.inWindowAtStore
    && next.popped == s.popped && next.emptyPop == s.emptyPop && next.clash == s.clash
  }

  lemma ProducerLeavesWorkers(s: State, a: Action)
    requires (a.Lock? || a.Push? || a.Unlock?) && Step(s, a).Some?
    ensures LeavesWorkers(s, Step(s, a).value)
    ensures a.Push? ==> Step(s, a).value.pushed == s.pushed + [s.producers[a.p].info]
    ensures !a.Push? ==> Step(s, a).value.pushed == s.pushed
  {
  }

  lemma LeavingKeepsRest(s: State, next: State, extra: seq<ClientInfo>)
    requires Shape(s) && Counter(s) && Timing(s) && Ownership(s)
    requires LeavesWorkers(s, next) && next.pushed == s.pushed + extra
    ensures Shape(next) && Counter(next) && Timing(next) && Ownership(next)
  {
    forall w | 0 <= w < |s.workers| ensures TimedRight(next, next.workers[w].pc) {
      assert TimedRight(s, s.workers[w].pc);
    }
    if Distinct(multiset(next.pushed)) {
      DistinctPart(multiset(s.pushed), multiset(next.pushed));
    }
  }

  lemma ProducerKeepsControl(s: State, a: Action)
    requires Locking(s) && Queue(s) && (a.Lock? || a.Push? || a.Unlock?) && Step(s, a).Some?
    ensures Locking(Step(s, a).value) && Queue(Step(s, a).value)
  {
  }

  lemma ProducerKeeps(s: State, a: Action)
    requires Inv(s) && (a.Lock? || a.Push? || a.Unlock?) && Step(s, a).Some?
    ensures Inv(Step(s, a).value)
  {
    ProducerLeavesWorkers(s, a);
    ProducerKeepsControl(s, a);
    LeavingKeepsRest(s, Step(s, a).value, if a.Push? then [s.producers[a.p].info] else []);
  }

  lemma StepKeeps(s: State, a: Action)
    requires Inv(s) && Step(s, a).Some?
    ensures Inv(Step(s, a).value)
  {
    match a
    case BootStep(created) =>
      if s.boot.i < |s.workers| { StartKeeps(s, created); } else { StoreKeeps(s, created); }
    case WorkerStep(w) => WorkerKeeps(s, w);
    case _ => ProducerKeeps(s, a);
  }

  lemma ReachableInv(workerNum: nat, s: State)
    requires workerNum >= 1 && ReachableFrom(workerNum, s)
    ensures Inv(s) && s.workerNum == workerNum
  {
    var producers: nat :| Runs.Leads(Step, Initial(workerNum, producers), s);
    var acts :| Runs.Exec(Step, Initial(workerNum, producers), acts) == Some(s);
    var inv := (x: State) => Inv(x) && x.workerNum == workerNum;
    InitialKeeps(workerNum, producers);
    forall x, a | inv(x) && Step(x, a).Some? ensures inv(Step(x, a).value) {
      StepKeeps(x, a);
      StepKeepsNumber(x, a);
    }
    Runs.RunKeeps(Step, inv, Initial(workerNum, producers), acts);
  }

  lemma StepKeepsNumber(s: State, a: Action)
    requires Step(s, a).Some?
    ensures Step(s, a).value.workerNum == s.workerNum
  {
  }
}
