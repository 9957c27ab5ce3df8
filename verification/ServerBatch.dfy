/**
  The accepts of a server run and the accept callback: a run can take in every batch of events just as
  the callback handles it, up to the bound and no further.
 */
module ServerBatch {
  import opened Basics
  import opened ServerMachine
  import opened ServerInvariant
  import opened ServerTheorems
  import opened ServerProgress
  import opened ServerStall
  import C = TcpServer
  import Runs
  import P = PoolMachine

  /** The descriptors that accept returns are positive, not open, and not the same. */
  ghost predicate Fresh(infos: seq<ClientInfo>, arrivals: seq<ClientInfo>) {
    && (forall i :: 0 <= i < |infos| ==> infos[i].fd > 0)
    && (forall i, j :: 0 <= i < |infos| && 0 <= j < |arrivals| ==> infos[i].fd != arrivals[j].fd)
    && (forall i, j :: 0 <= i < j < |infos| ==> infos[i].fd != infos[j].fd)
  }

  /** The server is up, with the accepting thread back at its poll. */
  ghost predicate Polls(s: State) {
    Reachable(s) && s.acceptor.Accepting?
  }

  /** At its poll, the server accepts exactly the connections that the callback would admit as the next event. */
  lemma AcceptsAsHandled(s: State, e: C.Event)
    requires Polls(s) && e.readable && (e.accepted.fd > 0 ==> Fresh([e.accepted], s.arrivals))
    ensures Step(s, Accept(e.accepted)).Some? <==> C.Handle([e], s.connected).admitted == [e.accepted]
    ensures Step(s, Accept(e.accepted)).None? <==> C.Handle([e], s.connected).admitted == []
    ensures Step(s, Accept(e.accepted)).Some? ==>
      Step(s, Accept(e.accepted)).value.arrivals == s.arrivals + C.Handle([e], s.connected).admitted
  {
    ReachableInv(s);
    assert e.accepted.fd > 0 ==> [e.accepted][0].fd == e.accepted.fd;
    assert C.Handle([e][1..], s.connected + 1) == C.Outcome([], false);
    assert C.Handle([e][1..], s.connected) == C.Outcome([], false);
  }

  /** The last state has taken in the connections, and counted them. */
  ghost predicate TakenIn(s: State, acts: seq<Action>, infos: seq<ClientInfo>) {
    && Exec(s, acts).Some?
    && var last := Exec(s, acts).value;
      && Polls(last) && last.arrivals == s.arrivals + infos && last.connected == s.connected + |infos|
  }

  lemma BackAtItsPoll(s: State) returns (acts: seq<Action>)
    requires Reachable(s) && s.pool.creator.Returned?
    ensures Exec(s, acts).Some? && Polls(Exec(s, acts).value)
    ensures var last := Exec(s, acts).value; last.arrivals == s.arrivals && last.connected == |s.arrivals|
  {
    StuckIsReached(s);
    acts :| Settles(s, acts);
    ExecReaches(s, acts);
    var last := Exec(s, acts).value;
    StuckIsFinished(last);
    ReachableInv(last);
    ArrivalsAreCounted(last, ClientInfo(0, 0));
  }

  lemma OneIsTakenIn(s: State, info: ClientInfo) returns (acts: seq<Action>)
    requires Polls(s) && Fresh([info], s.arrivals) && s.connected < SERVER_MAX_CONNECTION
    ensures TakenIn(s, acts, [info])
  {
    AcceptsOne(s, info);
    var called := Step(s, Accept(info)).value;
    StepReaches(s, Accept(info));
    var back := BackAtItsPoll(called);
    acts := [Accept(info)] + back;
    assert acts[1..] == back;
  }

  lemma Together(arrivals: seq<ClientInfo>, infos: seq<ClientInfo>, others: seq<ClientInfo>)
    ensures arrivals + infos + others == arrivals + (infos + others)
  {
  }

  lemma InTurn(s: State, acts: seq<Action>, infos: seq<ClientInfo>, more: seq<Action>, others: seq<ClientInfo>)
    requires TakenIn(s, acts, infos) && TakenIn(Exec(s, acts).value, more, others)
    ensures TakenIn(s, acts + more, infos + others)
  {
    Runs.ExecConcat(Step, s, acts, more);
    Together(s.arrivals, infos, others);
  }

  /** One after another is accepted, submitted and counted. */
  lemma {:induction false} TakesIn(s: State, infos: seq<ClientInfo>)
    requires Polls(s) && Fresh(infos, s.arrivals) && s.connected + |infos| <= SERVER_MAX_CONNECTION
    ensures exists acts :: TakenIn(s, acts, infos)
    decreases |infos|
  {
    if infos == [] {
      assert s.arrivals + [] == s.arrivals;
      assert TakenIn(s, [], []);
    } else {
      FirstIsFresh(infos, s.arrivals);
      var acts := OneIsTakenIn(s, infos[0]);
      TakesIn(Exec(s, acts).value, infos[1..]);
      var more :| TakenIn(Exec(s, acts).value, more, infos[1..]);
      InTurn(s, acts, [infos[0]], more, infos[1..]);
      assert infos == [infos[0]] + infos[1..];
    }
  }

  lemma FirstIsFresh(infos: seq<ClientInfo>, arrivals: seq<ClientInfo>)
    requires infos != [] && Fresh(infos, arrivals)
    ensures Fresh([infos[0]], arrivals) && Fresh(infos[1..], arrivals + [infos[0]])
  {
  }

  lemma AcceptsOne(s: State, info: ClientInfo)
    requires Polls(s) && Fresh([info], s.arrivals) && s.connected < SERVER_MAX_CONNECTION
    ensures Step(s, Accept(info)).Some?
    ensures var called := Step(s, Accept(info)).value;
      && called.arrivals == s.arrivals + [info] && called.pool.creator.Returned?
      && |s.arrivals| == s.connected
  {
    ReachableInv(s);
    assert [info][0] == info;
  }

  /**
    From every reachable state at the poll, and for every batch of events whose descriptors are fresh, a run
    takes in exactly what the callback admits, in order, and counts it.
   */
  lemma BatchIsTakenIn(s: State, events: seq<C.Event>)
    requires Polls(s) && Fresh(C.Handle(events, s.connected).admitted, s.arrivals)
    ensures exists acts :: TakenIn(s, acts, C.Handle(events, s.connected).admitted)
  {
    ReachableInv(s);
    C.AdmitsUpToTheBound(events, s.connected);
    TakesIn(s, C.Handle(events, s.connected).admitted);
  }

  /** The bound is reached: on every number of cores, every number of connections up to 2048 can be counted. */
  lemma EveryCountIsReached(cores: P.Cores, n: nat)
    requires n <= 2048
    ensures exists s :: Polls(s) && s.pool.cores == cores && s.connected == n
  {
    var s := AcceptUpTo(cores, n);
    ArrivalsAreCounted(s, ClientInfo(0, 0));
    assert Polls(s) && s.connected == n;
  }
}
