/**
  Which connections a server run delivers. A task blocks in its read until its client is heard, so a
  silent client keeps a pool thread; tasks are taken in the order in which their connections arrived.
  The connections that get through are exactly those that are heard and have fewer silent ones ahead of
  them than there are pool threads.
 */
module ServerDelivery {
  import opened Basics
  import opened Tally
  import opened TaskRing
  import opened ServerMachine
  import opened ServerInvariant
  import opened ServerTheorems
  import opened ServerProgress
  import P = PoolMachine
  import PI = PoolInvariant
  import PP = PoolProgress
  import W = WorkerMachine
  import WI = WorkerInvariant
  import Runs

  // ---------------------------------------------------------------- counting the silent

  function SilentOne(heard: set<int>): ClientInfo -> nat {
    (x: ClientInfo) => if x.fd in heard then 0 else 1
  }

  /** How many of the connections have not been heard. */
  function Silent(infos: seq<ClientInfo>, heard: set<int>): nat { Sum(infos, SilentOne(heard)) }

  function SilentTask(task: Task, heard: set<int>): nat {
    if IsJob(task) && task.fun.value.info.fd !in heard then 1 else 0
  }

  function SilentTaskOne(heard: set<int>): Task -> nat {
    (task: Task) => SilentTask(task, heard)
  }

  function SilentHand(pc: P.ThreadPc, heard: set<int>): nat {
    if PI.InHand(pc).Some? then SilentTask(PI.InHand(pc).value, heard) else 0
  }

  function SilentHandOne(heard: set<int>): P.ThreadPc -> nat {
    (pc: P.ThreadPc) => SilentHand(pc, heard)
  }

  lemma {:induction false} SilentJobs(infos: seq<ClientInfo>, heard: set<int>)
    ensures Sum(Jobs(infos), SilentTaskOne(heard)) == Silent(infos, heard)
  {
    if infos == [] {
    } else {
      SilentJobs(infos[1..], heard);
      assert Jobs(infos)[1..] == Jobs(infos[1..]);
    }
  }

  /** Hearing one more leaves no more silent. */
  lemma {:induction false} SilentFall(infos: seq<ClientInfo>, heard: set<int>, fd: int)
    ensures Silent(infos, heard + {fd}) <= Silent(infos, heard)
  {
    if infos == [] {
    } else {
      SilentFall(infos[1..], heard, fd);
    }
  }

  lemma SilentPrefix(infos: seq<ClientInfo>, heard: set<int>, j: nat, k: nat)
    requires j <= k <= |infos|
    ensures Silent(infos[..j], heard) <= Silent(infos[..k], heard)
  {
    assert infos[..k] == infos[..j] + infos[j..k];
    SumSplit(infos[..j], infos[j..k], SilentOne(heard));
  }

  /** The tasks in the threads' hands. */
  function Hands(threads: seq<P.ThreadPc>): seq<Task> {
    if threads == [] then []
    else (if PI.InHand(threads[0]).Some? then [PI.InHand(threads[0]).value] else []) + Hands(threads[1..])
  }

  lemma {:induction false} HandsHold(threads: seq<P.ThreadPc>, heard: set<int>)
    ensures multiset(Hands(threads)) == Gather(threads, PI.HeldBy)
    ensures Sum(Hands(threads), SilentTaskOne(heard)) == Sum(threads, SilentHandOne(heard))
  {
    if threads == [] {
    } else {
      HandsHold(threads[1..], heard);
      var first := if PI.InHand(threads[0]).Some? then [PI.InHand(threads[0]).value] else [];
      assert multiset(first) == PI.HeldBy(threads[0]);
      SumSplit(first, Hands(threads[1..]), SilentTaskOne(heard));
    }
  }

  // ---------------------------------------------------------------- the order of arrival

  /** What has left the ring are the connections that arrived first. */
  lemma DequeuedArrivedFirst(s: State)
    requires Inv(s)
    ensures |s.pool.dequeued| <= |s.arrivals|
    ensures s.pool.dequeued == Jobs(s.arrivals[..|s.pool.dequeued|])
  {
    PI.ReachableInv(s.pool);
    assert s.pool.dequeued <= s.pool.accepted + Jobs(InFlight(s));
    assert |s.pool.accepted + Jobs(InFlight(s))| == |s.arrivals|;
  }

  /** The silent among them are in the threads' hands. */
  lemma SilentAreInHand(s: State)
    requires Inv(s)
    ensures |s.pool.dequeued| <= |s.arrivals|
    ensures Silent(s.arrivals[..|s.pool.dequeued|], s.heard) == Sum(s.pool.threads, SilentHandOne(s.heard))
  {
    var p := s.pool;
    DequeuedArrivedFirst(s);
    SilentJobs(s.arrivals[..|p.dequeued|], s.heard);
    PI.ReachableInv(p);
    HandsHold(p.threads, s.heard);
    assert multiset(p.dequeued) == multiset(p.completed + Hands(p.threads));
    SumPermuted(p.dequeued, p.completed + Hands(p.threads), SilentTaskOne(s.heard));
    SumSplit(p.completed, Hands(p.threads), SilentTaskOne(s.heard));
    SumConstant(p.completed, SilentTaskOne(s.heard), 0);
  }

  /** Every connection that has left the ring had fewer silent ones ahead of it than there are threads. */
  ghost predicate Ahead(s: State) {
    forall k: nat :: k < |s.pool.dequeued| && k < |s.arrivals| ==>
      Silent(s.arrivals[..k], s.heard) < PI.Created(s.pool)
  }

  /** A created thread that holds nothing leaves fewer silent tasks in hand than there are threads. */
  lemma OneHandFree(threads: seq<P.ThreadPc>, n: nat, t: nat, heard: set<int>)
    requires t < n <= |threads| && PI.InHand(threads[t]).None?
    requires forall i :: n <= i < |threads| ==> threads[i].Unborn?
    ensures Sum(threads, SilentHandOne(heard)) < n
  {
    assert threads == threads[..n] + threads[n..];
    SumSplit(threads[..n], threads[n..], SilentHandOne(heard));
    SumConstant(threads[n..], SilentHandOne(heard), 0);
    SumBelow(threads[..n], t, SilentHandOne(heard));
  }

  lemma TakerIsFree(s: State, t: nat)
    requires Inv(s) && t < |s.pool.threads| && s.pool.threads[t].Past?
    ensures |s.pool.dequeued| <= |s.arrivals|
    ensures Silent(s.arrivals[..|s.pool.dequeued|], s.heard) < PI.Created(s.pool)
  {
    SilentAreInHand(s);
    PI.ReachableInv(s.pool);
    OneHandFree(s.pool.threads, PI.Created(s.pool), t, s.heard);
  }

  ghost predicate Takes(p: P.State, next: P.State, t: nat) {
    && t < |p.threads| && p.threads[t].Past?
    && |next.dequeued| == |p.dequeued| + 1
  }

  lemma PoolStepTakes(p: P.State, b: P.Action)
    requires P.Step(p, b).Some?
    ensures var next := P.Step(p, b).value;
      next.dequeued == p.dequeued || (b.ThreadStep? && Takes(p, next, b.t))
  {
  }

  lemma PoolKeepsCreated(p: P.State, b: P.Action)
    requires P.Step(p, b).Some?
    ensures PI.Created(p) <= PI.Created(P.Step(p, b).value)
  {
    match b
    case ThreadStep(t) => PP.ThreadLeavesOthers(p, t);
    case _ =>
  }

  /** Nothing else makes anybody silent, or undoes the creation of a thread. */
  ghost predicate Goes(s: State, next: State) {
    && s.arrivals <= next.arrivals && next.heard == s.heard
    && PI.Created(s.pool) <= PI.Created(next.pool)
    && (next.pool.dequeued == s.pool.dequeued || exists t :: Takes(s.pool, next.pool, t))
  }

  lemma PoolStepGoes(s: State, b: P.Action)
    requires StepPool(s, b).Some?
    ensures Goes(s, StepPool(s, b).value)
  {
    PoolStepTakes(s.pool, b);
    PoolKeepsCreated(s.pool, b);
  }

  lemma FinishGoes(s: State, t: nat)
    requires FinishStep(s, t).Some?
    ensures Goes(s, FinishStep(s, t).value)
  {
    PoolStepTakes(s.pool, P.ThreadStep(t));
    PoolKeepsCreated(s.pool, P.ThreadStep(t));
  }

  lemma StepGoes(s: State, a: Action)
    requires Step(s, a).Some? && !a.Hear?
    ensures Goes(s, Step(s, a).value)
  {
    match a
    case PoolStep(b) => PoolStepGoes(s, b);
    case TaskFinish(t) => FinishGoes(s, t);
    case _ =>
  }

  lemma GoingKeepsAhead(s: State, next: State)
    requires Inv(s) && Ahead(s) && Goes(s, next)
    ensures Ahead(next)
  {
    DequeuedArrivedFirst(s);
    if next.pool.dequeued != s.pool.dequeued {
      var t :| Takes(s.pool, next.pool, t);
      TakerIsFree(s, t);
    }
    forall k: nat | k < |next.pool.dequeued| && k < |next.arrivals|
      ensures Silent(next.arrivals[..k], next.heard) < PI.Created(next.pool)
    {
      assert k <= |s.pool.dequeued|;
      assert next.arrivals[..k] == s.arrivals[..k];
    }
  }

  lemma StepKeepsAhead(s: State, a: Action)
    requires Inv(s) && Ahead(s) && Step(s, a).Some?
    ensures Ahead(Step(s, a).value)
  {
    if a.Hear? {
      forall k: nat | k < |s.arrivals|
        ensures Silent(s.arrivals[..k], s.heard + {a.fd}) <= Silent(s.arrivals[..k], s.heard)
      {
        SilentFall(s.arrivals[..k], s.heard, a.fd);
      }
    } else {
      StepGoes(s, a);
      GoingKeepsAhead(s, Step(s, a).value);
    }
  }

  lemma ReachableAhead(s: State)
    requires Reachable(s)
    ensures Ahead(s)
  {
    var cores: P.Cores, requested: nat :| ReachableFrom(cores, requested, s);
    var acts :| Runs.Exec(Step, Initial(cores, requested), acts) == Some(s);
    var inv := (x: State) => Inv(x) && Ahead(x);
    InitialKeeps(cores, requested);
    forall x, a | inv(x) && Step(x, a).Some? ensures inv(Step(x, a).value) {
      StepKeeps(x, a);
      StepKeepsAhead(x, a);
    }
    Runs.RunKeeps(Step, inv, Initial(cores, requested), acts);
  }

  // ---------------------------------------------------------------- what is held back

  lemma SilentIsNotPushed(s: State, x: ClientInfo)
    requires Inv(s) && x.fd !in s.heard
    ensures multiset(s.workers.pushed)[x] == 0
  {
    if x in Gather(s.workers.producers, PushedBy) {
      GatherWitness(s.workers.producers, PushedBy, x);
      assert false;
    }
    assert JobOf(x) !in s.pool.completed;
  }

  /** A connection that has not left the ring is in it, or in flight to it. */
  lemma QueuedPlace(s: State, k: nat)
    requires PI.Fifo(s.pool) && Handed(s) && |s.pool.dequeued| <= k < |s.arrivals|
    ensures multiset(InFlight(s))[s.arrivals[k]] + multiset(Contents(s.pool.ring))[JobOf(s.arrivals[k])] >= 1
  {
    var x := s.arrivals[k];
    assert (s.pool.accepted + Jobs(InFlight(s)))[k] == JobOf(x);
    if k < |s.pool.accepted| {
      assert Contents(s.pool.ring)[k - |s.pool.dequeued|] == JobOf(x);
      assert JobOf(x) in multiset(Contents(s.pool.ring));
    } else {
      assert InFlight(s)[k - |s.pool.accepted|] == x;
      assert x in multiset(InFlight(s));
    }
  }

  lemma QueuedIsNotPushed(s: State, k: nat)
    requires Reachable(s) && |s.pool.dequeued| <= k < |s.arrivals|
    ensures multiset(s.workers.pushed)[s.arrivals[k]] == 0
  {
    ReachableInv(s);
    UpToThePush(s, s.arrivals[k]);
    ArrivalsAreCounted(s, s.arrivals[k]);
    PI.ReachableInv(s.pool);
    QueuedPlace(s, k);
  }

  /**
    In every reachable state: a connection that is silent, or that has as many silent ones ahead of it
    as there are pool threads, is neither in event_storage_ nor with a worker.
   */
  lemma HeldBack(s: State, k: nat)
    requires Reachable(s) && k < |s.arrivals|
    requires s.arrivals[k].fd !in s.heard || Silent(s.arrivals[..k], s.heard) >= PI.Created(s.pool)
    ensures HandedOver(s, s.arrivals[k]) == 0
  {
    ReachableInv(s);
    ReachableAhead(s);
    if s.arrivals[k].fd !in s.heard {
      SilentIsNotPushed(s, s.arrivals[k]);
    } else {
      QueuedIsNotPushed(s, k);
    }
    PushedHadArrived(s);
    PushedIsStoredOrOwned(s, s.arrivals[k]);
  }

  // ---------------------------------------------------------------- what is delivered

  /** While tasks are queued, no thread is asleep unless a thread or a signal is on its way to them. */
  lemma NobodySleeps(p: P.State)
    requires PI.Attended(p) && p.ring.count > 0
    requires forall t :: 0 <= t < |p.threads| ==> !PI.IsHeading(p.threads[t])
    requires forall c :: 0 <= c < |p.submitters| ==> !p.submitters[c].Signalling?
    ensures forall t :: 0 <= t < |p.threads| ==> !p.threads[t].Waiting?
  {
    SumConstant(p.threads, PI.HeadingOne, 0);
    SumConstant(p.submitters, PI.SignallingOne, 0);
    PI.NobodyAsleep(p.threads);
  }

  lemma AllHandsFull(threads: seq<P.ThreadPc>, n: nat, heard: set<int>)
    requires n <= |threads| && forall t :: 0 <= t < n ==> SilentHand(threads[t], heard) == 1
    ensures Sum(threads, SilentHandOne(heard)) >= n
  {
    assert threads == threads[..n] + threads[n..];
    SumSplit(threads[..n], threads[n..], SilentHandOne(heard));
    SumConstant(threads[..n], SilentHandOne(heard), 1);
  }

  /** When nothing moves and tasks are queued, every created thread has a silent client. */
  lemma AllHandsSilent(s: State)
    requires Reachable(s) && Stuck(s) && s.pool.ring.count > 0
    ensures Sum(s.pool.threads, SilentHandOne(s.heard)) >= PI.Created(s.pool)
  {
    StuckIsFinished(s);
    ReachableInv(s);
    PI.ReachableInv(s.pool);
    assert forall c :: 0 <= c < |s.pool.submitters| ==> !s.pool.submitters[c].Signalling?;
    NobodySleeps(s.pool);
    AllHandsFull(s.pool.threads, PI.Created(s.pool), s.heard);
  }

  /** A connection that is still in the ring had all the threads' clients ahead of it. */
  lemma QueuedIsBehind(s: State, k: nat)
    requires Reachable(s) && Stuck(s) && k < |s.arrivals|
    requires Valid(s.pool.ring) && JobOf(s.arrivals[k]) in Contents(s.pool.ring)
    ensures Silent(s.arrivals[..k], s.heard) >= PI.Created(s.pool)
  {
    ReachableInv(s);
    PI.ReachableInv(s.pool);
    AllHandsSilent(s);
    SilentAreInHand(s);
    if k < |s.pool.dequeued| {
      QueuedOnce(s, k);
    } else {
      SilentPrefix(s.arrivals, s.heard, |s.pool.dequeued|, k);
    }
  }

  /** Nothing is both in the ring and out of it. */
  lemma QueuedOnce(s: State, k: nat)
    requires Reachable(s) && k < |s.arrivals| && k < |s.pool.dequeued|
    ensures Valid(s.pool.ring) && JobOf(s.arrivals[k]) !in Contents(s.pool.ring)
  {
    ReachableInv(s);
    PI.ReachableInv(s.pool);
    DequeuedArrivedFirst(s);
    var x := s.arrivals[k];
    assert s.pool.dequeued[k] == JobOf(x) && JobOf(x) in multiset(s.pool.dequeued);
    ArrivedTasks(s, x);
    ArrivalsAreCounted(s, x);
    assert multiset(s.pool.accepted) == multiset(s.pool.dequeued) + multiset(Contents(s.pool.ring));
  }

  /** When nothing moves, only the tasks of silent clients are in a thread's hands. */
  lemma HeardIsNotInHand(s: State, x: ClientInfo)
    requires Reachable(s) && Stuck(s) && x.fd in s.heard
    ensures |s.pool.threads| <= |s.workers.producers|
    ensures Undelivered(s.pool.threads, s.workers.producers)[JobOf(x)] == 0
  {
    StuckIsFinished(s);
    ReachableInv(s);
    TakenTasks(s.pool.threads, s.workers.producers, x);
    if JobOf(x) in Gather(s.pool.threads, PI.HeldBy) {
      GatherWitness(s.pool.threads, PI.HeldBy, JobOf(x));
      assert false;
    }
  }

  /**
    Exactly when: once no step of the pipeline is left, a connection has been delivered if and only if
    it has been heard and fewer silent ones arrived before it than pool threads were created.
   */
  lemma DeliveredExactly(s: State, k: nat)
    requires Reachable(s) && Stuck(s) && k < |s.arrivals|
    ensures HandedOver(s, s.arrivals[k])
         == if s.arrivals[k].fd in s.heard && Silent(s.arrivals[..k], s.heard) < PI.Created(s.pool) then 1 else 0
  {
    var x := s.arrivals[k];
    if x.fd in s.heard && Silent(s.arrivals[..k], s.heard) < PI.Created(s.pool) {
      Conservation(s, x);
      StuckIsFinished(s);
      HeardIsNotInHand(s, x);
      if JobOf(x) in Contents(s.pool.ring) {
        QueuedIsBehind(s, k);
      }
      assert InFlight(s) == [];
    } else {
      HeldBack(s, k);
    }
  }

  /**
    Over every run, with further accepts, wakeups and whatever the workers do: the steps of the pipeline
    are bounded by what is accepted and woken, and when none is left, the connections delivered are
    those that are heard and have fewer silent ones ahead of them than there are pool threads. So with
    fewer silent clients than threads, no other connection is left waiting.
   */
  lemma EveryConnectionIsDelivered(s: State, acts: seq<Action>, k: nat)
    requires Reachable(s) && Exec(s, acts).Some? && k < |Exec(s, acts).value.arrivals|
    ensures Sum(acts, OwedOne) <= Measure(s) + Sum(acts, Allowance)
    ensures var last := Exec(s, acts).value;
      var x := last.arrivals[k];
      Stuck(last) ==>
        && (HandedOver(last, x) == 1
            <==> x.fd in last.heard && Silent(last.arrivals[..k], last.heard) < PI.Created(last.pool))
        && (x.fd in last.heard && Silent(last.arrivals, last.heard) < PI.Created(last.pool) ==>
              HandedOver(last, x) == 1)
  {
    OwedStepsAreBounded(s, acts);
    ExecReaches(s, acts);
    var last := Exec(s, acts).value;
    if Stuck(last) {
      DeliveredExactly(last, k);
      SilentPrefix(last.arrivals, last.heard, k, |last.arrivals|);
      assert last.arrivals[..|last.arrivals|] == last.arrivals;
    }
  }
}
