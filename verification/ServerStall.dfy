/**
  A server run that stalls: for every number of cores, that many silent clients keep every pool thread,
  and the connection of a client that has sent its request waits in the ring.
 */
module ServerStall {
  import opened Basics
  import opened Tally
  import opened ServerMachine
  import opened ServerInvariant
  import opened ServerTheorems
  import opened ServerProgress
  import opened ServerDelivery
  import P = PoolMachine
  import PI = PoolInvariant
  import W = WorkerMachine
  import Runs

  /** startup has started i of the workers, and nothing else has happened. */
  ghost predicate Starting(s: State, cores: P.Cores, i: nat) {
    && Reachable(s) && s.acceptor.Booting? && s.arrivals == [] && s.heard == {}
    && s.workers.boot == W.Starting(i) && |s.workers.workers| == cores
    && s.pool == P.Initial(cores, 1)
  }

  lemma StartUpTo(cores: P.Cores, i: nat) returns (s: State)
    requires i <= cores
    ensures Starting(s, cores, i)
  {
    if i == 0 {
      s := Initial(cores, 1);
      Runs.LeadsToItself<State, Action>(Step, s);
      assert ReachableFrom(cores, 1, s);
    } else {
      s := StartUpTo(cores, i - 1);
      s := Advance(s, BootWorkers(true));
    }
  }

  /** create has made i threads. */
  ghost predicate Making(s: State, cores: P.Cores, i: nat) {
    && Reachable(s) && s.acceptor.Spawning? && s.arrivals == [] && s.heard == {} && s.pool.cores == cores
    && s.pool.creator == P.Spawning(i) && |s.pool.threads| == cores
  }

  lemma MakeUpTo(cores: P.Cores, i: nat) returns (s: State)
    requires i <= cores
    ensures Making(s, cores, i)
  {
    if i == 0 {
      s := StartUpTo(cores, cores);
      s := Advance(Advance(s, BootWorkers(true)), CreatePool);
    } else {
      s := MakeUpTo(cores, i - 1);
      s := Advance(s, PoolStep(P.Spawn));
    }
  }

  /** The server is up with all its threads, n connections have arrived, numbered from 1, and those heard are given. */
  ghost predicate Up(s: State, cores: P.Cores, n: nat, heard: set<int>) {
    && Reachable(s) && s.pool.cores == cores && s.pool.creator == P.Returned(cores, 0) && s.heard == heard
    && s.arrivals == seq(n, i => ClientInfo(i + 1, 0))
  }

  lemma Settle(s: State, cores: P.Cores, n: nat, heard: set<int>) returns (next: State)
    requires Up(s, cores, n, heard)
    ensures Up(next, cores, n, heard) && Stuck(next) && next.acceptor.Accepting?
  {
    StuckIsReached(s);
    var acts :| Settles(s, acts);
    ExecReaches(s, acts);
    next := Exec(s, acts).value;
    StuckIsFinished(next);
    ReachableInv(next);
  }

  lemma AcceptOne(s: State, cores: P.Cores, n: nat) returns (next: State)
    requires Up(s, cores, n, {}) && s.acceptor.Accepting? && n < SERVER_MAX_CONNECTION
    ensures Up(next, cores, n + 1, {})
  {
    ReachableInv(s);
    ArrivalsAreCounted(s, ClientInfo(1, 0));
    next := Advance(s, Accept(ClientInfo(n + 1, 0)));
  }

  lemma AcceptUpTo(cores: P.Cores, n: nat) returns (s: State)
    requires n <= SERVER_MAX_CONNECTION
    ensures Up(s, cores, n, {}) && s.acceptor.Accepting?
  {
    if n == 0 {
      s := MakeUpTo(cores, cores);
      s := Advance(s, PoolStep(P.Spawn));
    } else {
      s := AcceptUpTo(cores, n - 1);
      s := AcceptOne(s, cores, n - 1);
      s := Settle(s, cores, n, {});
    }
  }

  /** The last connection is heard and nothing is left to do, but it is in nobody's hands. */
  ghost predicate Stalled(s: State, cores: P.Cores) {
    && Reachable(s) && Stuck(s) && s.pool.cores == cores && s.pool.creator == P.Returned(cores, 0)
    && |s.arrivals| == cores + 1
    && s.arrivals[cores].fd in s.heard && HandedOver(s, s.arrivals[cores]) == 0
  }

  lemma StallIsReached(cores: P.Cores)
    ensures exists s :: Stalled(s, cores)
  {
    var s := AcceptUpTo(cores, cores);
    s := AcceptOne(s, cores, cores);
    s := Advance(s, Hear(cores + 1));
    s := Settle(s, cores, cores + 1, {cores + 1});
    SumConstant(s.arrivals[..cores], SilentOne({cores + 1}), 1);
    DeliveredExactly(s, cores);
    assert Stalled(s, cores);
  }
}
