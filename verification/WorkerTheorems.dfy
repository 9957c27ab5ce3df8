/**
  What the worker pool does in every interleaving: the exact value of the availability counter, when
  the divisor is zero, how long the timeouts are, and how the hand-off queue is emptied.
 */
module WorkerTheorems {
  import opened Basics
  import opened Tally
  import opened WorkerMachine
  import opened WorkerInvariant
  import Runs

  // ---------------------------------------------------------------- the counter

  /**
    The counter, with d the number of workers in the window when startup stored it: -p before the
    store and worker_num_ + d - p after it, where p workers are in the window.
   */
  lemma AvailabilityCounter(workerNum: nat, s: State)
    requires workerNum >= 1 && ReachableFrom(workerNum, s)
    ensures s.avail == (if s.boot.Booted? then workerNum + s.inWindowAtStore else 0) - Window(s)
    ensures s.inWindowAtStore <= workerNum && Window(s) <= workerNum
  {
    ReachableInv(workerNum, s);
    WindowIsBounded(s);
  }

  /** The divisor is zero exactly when nobody was in the window at the store and everybody is in it at the read. */
  lemma DivisorIsZeroExactly(workerNum: nat, s: State, w: nat)
    requires workerNum >= 1 && ReachableFrom(workerNum, s) && w < |s.workers| && s.workers[w].pc.Dividing?
    ensures s.avail == 0 <==>
      s.boot.Booted? && s.inWindowAtStore == 0 && forall u :: 0 <= u < |s.workers| ==> InWindow(s.workers[u].pc)
  {
    ReachableInv(workerNum, s);
    CounterSeen(s, w);
    if Window(s) == |s.workers| {
      forall u | 0 <= u < |s.workers| ensures InWindow(s.workers[u].pc) {
        SumAtMost(s.workers[..u] + s.workers[u + 1..], WindowOne, 1);
        assert s.workers == s.workers[..u] + [s.workers[u]] + s.workers[u + 1..];
        SumSplit(s.workers[..u] + [s.workers[u]], s.workers[u + 1..], WindowOne);
        SumSplit(s.workers[..u], [s.workers[u]], WindowOne);
        SumSplit(s.workers[..u], s.workers[u + 1..], WindowOne);
      }
    }
    if forall u :: 0 <= u < |s.workers| ==> InWindow(s.workers[u].pc) {
      SumConstant(s.workers, WindowOne, 1);
    }
  }

  /** A run divides by zero only if no worker was in the window when startup stored the counter. */
  lemma FaultNeedsEmptyStore(workerNum: nat, s: State, w: nat)
    requires workerNum >= 1 && ReachableFrom(workerNum, s) && w < |s.workers| && s.workers[w].pc.Faulted?
    ensures s.boot.Booted? && s.inWindowAtStore == 0
  {
    ReachableInv(workerNum, s);
    assert TimedRight(s, s.workers[w].pc);
  }

  /** In that case the last worker to enter divides by zero, if its next three steps are not interleaved. */
  lemma LastInFaults(workerNum: nat, s: State, w: nat)
    requires workerNum >= 1 && ReachableFrom(workerNum, s) && s.boot.Booted? && s.inWindowAtStore == 0
    requires w < |s.workers| && s.workers[w].pc.Entering?
    requires forall u :: 0 <= u < |s.workers| && u != w ==> InWindow(s.workers[u].pc)
    ensures var acts := [WorkerStep(w), WorkerStep(w), WorkerStep(w)];
      && Exec(s, acts).Some? && w < |Exec(s, acts).value.workers|
      && Exec(s, acts).value.workers[w].pc.Faulted?
  {
    ReachableInv(workerNum, s);
    LastSeesZero(s, w);
    var entered := StepWorker(s, w).value;
    var dividing := StepWorker(entered, w).value;
    assert dividing.workers[w].pc.Dividing? && dividing.avail == 0;
    Runs.ExecThree(Step, s, WorkerStep(w), WorkerStep(w), WorkerStep(w));
  }

  lemma LastSeesZero(s: State, w: nat)
    requires Shape(s) && Counter(s) && s.boot.Booted? && s.inWindowAtStore == 0
    requires w < |s.workers| && s.workers[w].pc.Entering?
    requires forall u :: 0 <= u < |s.workers| && u != w ==> InWindow(s.workers[u].pc)
    ensures StepWorker(s, w).value.avail == 0
  {
    var entered := StepWorker(s, w).value;
    SumConstant(entered.workers, WindowOne, 1);
    SumUpdate(s.workers, w, entered.workers[w], WindowOne);
  }

  // ---------------------------------------------------------------- the timeout

  /**
    Although the branch test and the value used are separate reads of a counter that others change,
    every timeout lies between 1 and worker_num_ + d - 1 (or is 1 where that is 0).
   */
  lemma TimeoutBounds(workerNum: nat, s: State, w: nat)
    requires workerNum >= 1 && ReachableFrom(workerNum, s) && w < |s.workers| && s.workers[w].pc.Polling?
    ensures 1 <= s.workers[w].pc.wttme <= 2 * workerNum - 1
    ensures s.inWindowAtStore == 0 && workerNum > 1 ==> s.workers[w].pc.wttme < workerNum
    ensures s.workers[w].pc.wttme <= 1 || s.workers[w].pc.wttme < workerNum + s.inWindowAtStore
  {
    ReachableInv(workerNum, s);
    assert TimedRight(s, s.workers[w].pc);
  }

  /** The C++ quotient, truncated towards zero. */
  function Quotient(a: int, b: int): int
    requires b != 0
  {
    if (a < 0) == (b < 0) then Abs(a) / Abs(b) else 0 - Abs(a) / Abs(b)
  }

  lemma QuotientSize(a: int, b: int)
    requires b != 0
    ensures var size := Abs(b) * (Abs(a) / Abs(b)); b * Quotient(a, b) == if a < 0 then -size else size
  {
    SignedProduct(Abs(b), Abs(a) / Abs(b));
  }

  /**
    The remainder is the one of C++: it completes the truncated quotient, so it is smaller than the
    divisor and never has the sign opposite to the dividend's.
   */
  lemma RemainderTruncates(a: int, b: int)
    requires b != 0
    ensures a == b * Quotient(a, b) + Remainder(a, b) && Abs(b * Quotient(a, b)) <= Abs(a)
    ensures Abs(Remainder(a, b)) < Abs(b) && (a >= 0 ==> Remainder(a, b) >= 0) && (a <= 0 ==> Remainder(a, b) <= 0)
  {
    QuotientSize(a, b);
    QuotientFits(Abs(a), Abs(b));
  }

  lemma SignedProduct(x: int, y: int)
    ensures (-x) * y == -(x * y) && x * (-y) == -(x * y) && (-x) * (-y) == x * y
  {
  }

  lemma QuotientFits(m: nat, n: nat)
    requires n > 0
    ensures m == n * (m / n) + m % n && 0 <= n * (m / n) <= m
  {
  }

  /** n divided by k is q, with r left over. */
  predicate Divides(n: int, k: int, q: int, r: int) {
    n == k * q + r && 0 <= r < Abs(k)
  }

  /**
    A worker that reaches poll_event by one of its two reads waits for the value it read, or for what is
    left of worker_num_ divided by it; and for 1 where that is 0.
   */
  lemma TimeoutFollowsRead(workerNum: nat, s: State, w: nat)
    requires workerNum >= 1 && ReachableFrom(workerNum, s) && w < |s.workers|
    requires s.workers[w].pc.TakingAvail? || (s.workers[w].pc.Dividing? && s.avail != 0)
    ensures var pc := StepWorker(s, w).value.workers[w].pc;
      && pc.Polling? && pc.wttme >= 1
      && (s.workers[w].pc.TakingAvail? ==> pc.wttme == if s.avail == 0 then 1 else s.avail)
      && (s.workers[w].pc.Dividing? ==>
            exists q, r :: Divides(workerNum, s.avail, q, r) && pc.wttme == if r == 0 then 1 else r)
  {
    ReachableInv(workerNum, s);
    assert TimedRight(s, s.workers[w].pc);
    CounterSeen(s, w);
    if s.workers[w].pc.Dividing? {
      RemainderTruncates(workerNum, s.avail);
      assert Divides(workerNum, s.avail, Quotient(workerNum, s.avail), Remainder(workerNum, s.avail));
    }
  }

  /**
    A pass without interference: with k workers available at both reads, a worker waits for k exactly
    when they are more than half of all, or there is just one.
   */
  lemma UninterruptedTimeout(workerNum: nat, s: State, w: nat)
    requires workerNum >= 1 && ReachableFrom(workerNum, s) && w < |s.workers| && s.workers[w].pc.Testing? && s.avail > 0
    ensures var next := StepWorker(StepWorker(s, w).value, w).value;
      && next.avail == s.avail && next.workers[w].pc.Polling?
      && (next.workers[w].pc.wttme == s.avail <==> 2 * s.avail > workerNum || s.avail == 1)
  {
    ReachableInv(workerNum, s);
    var branched := StepWorker(s, w).value;
    assert branched.workers[w].pc == if 2 * s.avail > workerNum then TakingAvail else Dividing;
    RemainderBounds(workerNum, s.avail);
  }

  // ---------------------------------------------------------------- both ends are reached

  /** The first k workers are at the comparison, the others at the top of their loop, and the queue is empty. */
  ghost predicate Lined(workerNum: nat, s: State, k: nat) {
    && ReachableFrom(workerNum, s) && |s.workers| == s.workerNum == workerNum && s.storage == []
    && forall w :: 0 <= w < |s.workers| ==> s.workers[w].pc == if w < k then Testing else Top
  }

  lemma StartUpTo(workerNum: nat, i: nat) returns (s: State)
    requires i <= workerNum
    ensures ReachableFrom(workerNum, s) && |s.workers| == s.workerNum == workerNum && s.storage == []
    ensures s.boot == Starting(i) && s.avail == 0
    ensures forall w :: 0 <= w < i ==> s.workers[w].pc.Top?
  {
    if i == 0 {
      s := Initial(workerNum, 0);
      Runs.LeadsToItself<State, Action>(Step, s);
    } else {
      s := StartUpTo(workerNum, i - 1);
      s := Advance(workerNum, s, BootStep(true));
    }
  }

  lemma EnterUpTo(workerNum: nat, s: State, k: nat) returns (next: State)
    requires Lined(workerNum, s, 0) && k <= workerNum
    ensures Lined(workerNum, next, k) && next.avail == s.avail - k
    ensures next.boot == s.boot && next.inWindowAtStore == s.inWindowAtStore
  {
    if k == 0 {
      next := s;
    } else {
      next := EnterUpTo(workerNum, s, k - 1);
      next := Advance(workerNum, next, WorkerStep(k - 1));
      next := Advance(workerNum, next, WorkerStep(k - 1));
    }
  }

  /** With the store before any decrement, for every number of workers, some run divides by zero. */
  lemma FaultIsReached(workerNum: nat)
    requires workerNum >= 1
    ensures exists s, w :: ReachableFrom(workerNum, s) && 0 <= w < |s.workers| && s.workers[w].pc.Faulted?
  {
    var s := StartUpTo(workerNum, workerNum);
    SumConstant(s.workers, WindowOne, 0);
    s := Advance(workerNum, s, BootStep(true));
    s := EnterUpTo(workerNum, s, workerNum);
    s := Advance(workerNum, s, WorkerStep(0));
    s := Advance(workerNum, s, WorkerStep(0));
    assert s.workers[0].pc.Faulted?;
  }

  /** One worker after another goes through the loop and out of the window, the last first. */
  lemma LeaveDownTo(workerNum: nat, s: State, k: nat) returns (next: State)
    requires Lined(workerNum, s, workerNum) && s.boot.Booted? && 1 <= k <= workerNum && s.avail == workerNum
    ensures Lined(workerNum, next, k) && next.avail == 2 * workerNum - k
    decreases workerNum - k
  {
    if k == workerNum {
      next := s;
    } else {
      next := LeaveDownTo(workerNum, s, k + 1);
      next := Advance(workerNum, next, WorkerStep(k));
      assert next.workers[k].pc.TakingAvail?;
      next := Advance(workerNum, next, WorkerStep(k));
      next := Advance(workerNum, next, WorkerStep(k));
    }
  }

  /** With every decrement before the store, the largest timeout of the bound is computed. */
  lemma LongestTimeoutIsReached(workerNum: nat)
    requires workerNum >= 1
    ensures exists s, w :: && ReachableFrom(workerNum, s) && 0 <= w < |s.workers|
                           && s.workers[w].pc == Polling(2 * workerNum - 1)
  {
    var s := StartUpTo(workerNum, workerNum);
    s := EnterUpTo(workerNum, s, workerNum);
    s := Advance(workerNum, s, BootStep(true));
    s := LeaveDownTo(workerNum, s, 1);
    s := Advance(workerNum, s, WorkerStep(0));
    assert s.workers[0].pc.TakingAvail?;
    s := Advance(workerNum, s, WorkerStep(0));
    assert s.workers[0].pc == Polling(2 * workerNum - 1);
  }

  // ---------------------------------------------------------------- the hand-off queue

  /**
    The queue is never popped when it is empty, despite the unlocked first test; what the workers pop
    is a prefix of what was pushed.
   */
  lemma DoubleCheckedDequeue(workerNum: nat, s: State)
    requires workerNum >= 1 && ReachableFrom(workerNum, s)
    ensures !s.emptyPop && s.popped <= s.pushed && s.pushed == s.popped + s.storage
  {
    ReachableInv(workerNum, s);
  }

  /** With distinct descriptors, insert never meets an existing key and no two workers have the same connection. */
  lemma UniqueOwner(workerNum: nat, s: State, w: nat, u: nat, fd: int)
    requires workerNum >= 1 && ReachableFrom(workerNum, s) && Distinct(multiset(s.pushed))
    requires w < |s.workers| && u < |s.workers|
    requires fd in s.workers[w].clients && fd in s.workers[u].clients
    ensures w == u && !s.clash && s.workers[w].clients[fd] in s.popped
  {
    ReachableInv(workerNum, s);
    OwnedOnce(s, w, u, fd);
  }

  lemma OwnedOnce(s: State, w: nat, u: nat, fd: int)
    requires Queue(s) && Ownership(s) && Distinct(multiset(s.pushed))
    requires w < |s.workers| && u < |s.workers|
    requires fd in s.workers[w].clients && fd in s.workers[u].clients
    ensures w == u && s.workers[w].clients[fd] in s.popped
  {
    var x, y := s.workers[w].clients[fd], s.workers[u].clients[fd];
    assert x in ClientsOf(s.workers[w]) && y in ClientsOf(s.workers[u]);
    assert multiset(s.popped) <= multiset(s.pushed);
    DistinctPart(multiset(s.popped), multiset(s.pushed));
    GatherTerm(s.workers, w, ClientsOf);
    GatherTerm(s.workers, u, ClientsOf);
    assert x in multiset(s.popped) && y in multiset(s.popped);
    if w != u {
      GatherTwoTerms(s.workers, w, u, ClientsOf);
    }
  }

  /** The insertion adds the connection under its descriptor, unless that is there: every existing entry stays. */
  lemma InsertKeepsEntries(clients: map<int, ClientInfo>, info: ClientInfo)
    ensures Insert(clients, info).Keys == clients.Keys + {info.fd}
    ensures forall fd :: fd in clients ==> Insert(clients, info)[fd] == clients[fd]
    ensures info.fd !in clients ==> Insert(clients, info)[info.fd] == info
  {
  }

  /** Every worker stays, with what it has. */
  ghost predicate KeepsEntries(s: State, next: State) {
    && |next.workers| == |s.workers|
    && forall w, fd :: 0 <= w < |s.workers| && fd in s.workers[w].clients ==>
         fd in next.workers[w].clients && next.workers[w].clients[fd] == s.workers[w].clients[fd]
  }

  lemma WorkerKeepsEntries(s: State, w: nat)
    requires w < |s.workers| && StepWorker(s, w).Some?
    ensures KeepsEntries(s, StepWorker(s, w).value)
  {
    if s.workers[w].pc.Fetching? {
      if s.storage != [] {
        InsertKeepsEntries(s.workers[w].clients, s.storage[0]);
      }
    } else {
      WorkerMoves(s, w);
    }
  }

  lemma StepKeepsEntries(s: State, a: Action)
    requires Step(s, a).Some?
    ensures KeepsEntries(s, Step(s, a).value)
  {
    match a
    case WorkerStep(w) => WorkerKeepsEntries(s, w);
    case _ =>
  }

  /** Ownership is for good: over every run, a worker keeps each connection that is in its map. */
  lemma {:induction false} OwnersKeepTheirs(s: State, acts: seq<Action>)
    requires Exec(s, acts).Some?
    ensures KeepsEntries(s, Exec(s, acts).value)
    decreases |acts|
  {
    if acts == [] {
    } else {
      StepKeepsEntries(s, acts[0]);
      OwnersKeepTheirs(Step(s, acts[0]).value, acts[1..]);
    }
  }

  /** How many of its own steps a worker is away from its next pop, as long as the queue is not empty. */
  function StepsToPop(pc: WorkerPc): nat {
    match pc
    case Fetching => 1
    case Second => 2
    case WantLock => 3
    case Top => 4
    case Polling(_) => 5
    case TakingAvail => 6
    case Dividing => 6
    case Testing => 7
    case Entering => 8
    case Leaving => 9
    case _ => 0
  }

  /** A run, of all processes, that never finds event_storage_ empty. */
  ghost predicate BusyRun(s: State, acts: seq<Action>)
    decreases |acts|
  {
    && s.storage != []
    && (acts == [] || (Step(s, acts[0]).Some? && BusyRun(Step(s, acts[0]).value, acts[1..])))
  }

  function StepsOf(w: nat, acts: seq<Action>): nat {
    if acts == [] then 0 else (if acts[0] == WorkerStep(w) then 1 else 0) + StepsOf(w, acts[1..])
  }

  lemma OneBusyStep(s: State, a: Action, w: nat)
    requires s.boot.Booted? && w < |s.workers| && s.storage != [] && Step(s, a).Some?
    ensures var next := Step(s, a).value;
      && next.boot.Booted? && w < |next.workers| && |s.popped| <= |next.popped|
      && (if a == WorkerStep(w) then 1 else 0) + StepsToPop(next.workers[w].pc)
         <= StepsToPop(s.workers[w].pc) + 9 * (|next.popped| - |s.popped|)
  {
    if a.WorkerStep? && a.w != w {
      OthersStayPut(s, a.w, w);
    }
  }

  lemma OthersStayPut(s: State, u: nat, w: nat)
    requires u < |s.workers| && w < |s.workers| && u != w && StepWorker(s, u).Some?
    ensures var next := StepWorker(s, u).value;
      && |next.workers| == |s.workers| && next.workers[w] == s.workers[w]
      && next.boot == s.boot && |s.popped| <= |next.popped|
  {
  }

  /**
    The queue is emptied by any worker that keeps running: while connections wait, a worker takes no
    more than nine steps for each connection that is popped, and nine more.
   */
  lemma {:induction false} WorkerEmptiesQueue(s: State, acts: seq<Action>, w: nat)
    requires s.boot.Booted? && w < |s.workers| && BusyRun(s, acts)
    ensures Exec(s, acts).Some?
    ensures |s.popped| <= |Exec(s, acts).value.popped|
    ensures StepsOf(w, acts) <= StepsToPop(s.workers[w].pc) + 9 * (|Exec(s, acts).value.popped| - |s.popped|)
    decreases |acts|
  {
    if acts == [] {
    } else {
      OneBusyStep(s, acts[0], w);
      WorkerEmptiesQueue(Step(s, acts[0]).value, acts[1..], w);
    }
  }

  // ---------------------------------------------------------------- the number of workers

  /**
    As its bounds are written, the coercion is a maximum, and the number of workers keeps to 12 a core
    exactly when the request did.
   */
  lemma WorkerNumIsMaximum(cores: int, requested: nat)
    requires cores >= 1
    ensures WorkerNum(cores, requested) >= cores && WorkerNum(cores, requested) >= requested % 0x10000
    ensures WorkerNum(cores, requested) == cores || WorkerNum(cores, requested) == requested % 0x10000
    ensures WorkerNum(cores, requested) <= cores * 12 <==> requested % 0x10000 <= cores * 12
  {
  }
}
