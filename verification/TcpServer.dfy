/**
  The accept callback of tcp_server: the loop over the events of one poll. The thread pool is as a server
  run creates it, with its default size, and its threads take tasks out meanwhile.
 */
module TcpServer {
  import opened Basics
  import TaskRing
  import opened ServerMachine
  import TP = ThreadPool

  /** One event: its EPOLLIN flag, its EPOLLHUP or EPOLLERR flag, and what accept would return. */
  datatype Event = Event(readable: bool, failed: bool, accepted: ClientInfo)

  datatype Outcome = Outcome(admitted: seq<ClientInfo>, aborted: bool)

  /** Whether the event makes the server accept: only below the bound, and before any look at an error. */
  predicate Accepts(e: Event, connected: nat) {
    e.readable && connected < SERVER_MAX_CONNECTION
  }

  /** What a batch of events amounts to: the connections admitted in order, up to an error that aborts. */
  function Handle(events: seq<Event>, connected: nat): Outcome {
    if events == [] then Outcome([], false)
    else if Accepts(events[0], connected) then
      if events[0].accepted.fd > 0 then
        var rest := Handle(events[1..], connected + 1);
        Outcome([events[0].accepted] + rest.admitted, rest.aborted)
      else Handle(events[1..], connected)
    else if events[0].failed then Outcome([], true)
    else Handle(events[1..], connected)
  }

  /** The connections that accept would return for the readable events. */
  function Offers(events: seq<Event>): seq<ClientInfo> {
    if events == [] then [] else Offer(events[0]) + Offers(events[1..])
  }

  function Offer(e: Event): seq<ClientInfo> {
    if e.readable && e.accepted.fd > 0 then [e.accepted] else []
  }

  function Least(a: nat, b: nat): nat { if a < b then a else b }

  /** How many connections are counted when the callback comes to event i, if it does. */
  function CountedAt(events: seq<Event>, connected: nat, i: nat): nat
    requires i <= |events| && connected <= SERVER_MAX_CONNECTION
  {
    connected + Least(|Offers(events[..i])|, SERVER_MAX_CONNECTION - connected)
  }

  /** The event aborts the server when n connections are counted: an error that cannot be accepted. */
  predicate Fatal(e: Event, n: nat) {
    e.failed && (!e.readable || n >= SERVER_MAX_CONNECTION)
  }

  /** The callback comes to the given event and no further: the first that is fatal, or the end. */
  ghost predicate StopsAt(events: seq<Event>, connected: nat, stop: nat)
    requires connected <= SERVER_MAX_CONNECTION
  {
    && stop <= |events|
    && (forall i :: 0 <= i < stop ==> !Fatal(events[i], CountedAt(events, connected, i)))
    && (stop < |events| ==> Fatal(events[stop], CountedAt(events, connected, stop)))
  }

  /** What the batch admits if it stops there: the offered connections before it, as far as there is room. */
  function AdmittedBefore(events: seq<Event>, connected: nat, stop: nat): seq<ClientInfo>
    requires stop <= |events| && connected <= SERVER_MAX_CONNECTION
  {
    Offers(events[..stop])[..Least(|Offers(events[..stop])|, SERVER_MAX_CONNECTION - connected)]
  }

  /** The first event taken off: what it offers takes up room while there is some. */
  lemma CountedNext(events: seq<Event>, connected: nat, i: nat)
    requires 0 < i <= |events| && connected <= SERVER_MAX_CONNECTION
    ensures var took := if Accepts(events[0], connected) && events[0].accepted.fd > 0 then 1 else 0;
      && connected + took <= SERVER_MAX_CONNECTION
      && CountedAt(events, connected, i) == CountedAt(events[1..], connected + took, i - 1)
      && AdmittedBefore(events, connected, i)
         == (if took == 1 then [events[0].accepted] else []) + AdmittedBefore(events[1..], connected + took, i - 1)
  {
    assert events[..i][1..] == events[1..][..i - 1] && events[..i][0] == events[0];
  }

  /**
    The batch in closed form: it aborts if and only if it comes to a fatal event, and it admits the
    connections offered before that, in order, up to the room below the bound.
   */
  lemma {:induction false} HandlesUpToTheFatal(events: seq<Event>, connected: nat)
    requires connected <= SERVER_MAX_CONNECTION
    ensures exists stop: nat ::
      && StopsAt(events, connected, stop)
      && (Handle(events, connected).aborted <==> stop < |events|)
      && Handle(events, connected).admitted == AdmittedBefore(events, connected, stop)
  {
    if events == [] {
      assert StopsAt(events, connected, 0);
    } else if Fatal(events[0], connected) {
      assert CountedAt(events, connected, 0) == connected;
      assert StopsAt(events, connected, 0);
    } else {
      var took := if Accepts(events[0], connected) && events[0].accepted.fd > 0 then 1 else 0;
      HandlesUpToTheFatal(events[1..], connected + took);
      var stop: nat :|
        && StopsAt(events[1..], connected + took, stop)
        && (Handle(events[1..], connected + took).aborted <==> stop < |events| - 1)
        && Handle(events[1..], connected + took).admitted == AdmittedBefore(events[1..], connected + took, stop);
      StopsLater(events, connected, took, stop);
      CountedNext(events, connected, stop + 1);
    }
  }

  lemma StopsLater(events: seq<Event>, connected: nat, took: nat, stop: nat)
    requires connected <= SERVER_MAX_CONNECTION && events != [] && !Fatal(events[0], connected)
    requires took == if Accepts(events[0], connected) && events[0].accepted.fd > 0 then 1 else 0
    requires connected + took <= SERVER_MAX_CONNECTION && StopsAt(events[1..], connected + took, stop)
    ensures StopsAt(events, connected, stop + 1)
  {
    assert CountedAt(events, connected, 0) == connected;
    forall i | 0 < i <= stop + 1 && i < |events|
      ensures CountedAt(events, connected, i) == CountedAt(events[1..], connected + took, i - 1)
      ensures events[i] == events[1..][i - 1]
    {
      CountedNext(events, connected, i);
    }
  }

  lemma Regroup<T>(a: seq<T>, b: seq<T>, c: seq<T>)
    ensures (a + b) + c == a + (b + c)
  {
  }

  lemma {:induction false} OffersConcat(events: seq<Event>, more: seq<Event>)
    ensures Offers(events + more) == Offers(events) + Offers(more)
  {
    if events == [] {
      assert [] + more == more;
    } else {
      OffersConcat(events[1..], more);
      assert (events + more)[1..] == events[1..] + more && (events + more)[0] == events[0];
      Regroup(Offer(events[0]), Offers(events[1..]), Offers(more));
    }
  }

  /** So the bound is exact: unless the batch aborts, all that is offered is admitted, up to the room. */
  lemma AdmitsUpToTheBound(events: seq<Event>, connected: nat)
    requires connected <= SERVER_MAX_CONNECTION
    ensures connected + |Handle(events, connected).admitted| <= SERVER_MAX_CONNECTION
    ensures Handle(events, connected).admitted <= Offers(events)
    ensures !Handle(events, connected).aborted ==>
      |Handle(events, connected).admitted| == Least(|Offers(events)|, SERVER_MAX_CONNECTION - connected)
  {
    HandlesUpToTheFatal(events, connected);
    var stop: nat :|
      && StopsAt(events, connected, stop)
      && (Handle(events, connected).aborted <==> stop < |events|)
      && Handle(events, connected).admitted == AdmittedBefore(events, connected, stop);
    assert events[..stop] + events[stop..] == events;
    OffersConcat(events[..stop], events[stop..]);
  }

  /** A batch aborts if and only if some event is fatal at what is counted by then. */
  lemma AbortsExactly(events: seq<Event>, connected: nat)
    requires connected <= SERVER_MAX_CONNECTION
    ensures Handle(events, connected).aborted
       <==> exists i :: 0 <= i < |events| && Fatal(events[i], CountedAt(events, connected, i))
  {
    HandlesUpToTheFatal(events, connected);
  }

  /** An admitted connection comes behind all that were. */
  lemma Joins(taken: seq<Task>, queued: seq<Task>, before: seq<Task>, done: seq<ClientInfo>, info: ClientInfo)
    requires taken + queued == before + Jobs(done)
    ensures taken + (queued + [JobOf(info)]) == before + Jobs(done + [info])
  {
    assert Jobs(done + [info]) == Jobs(done) + [JobOf(info)];
    assert taken + (queued + [JobOf(info)]) == (taken + queued) + [JobOf(info)];
  }

  /** What is admitted from the i-th event on, after those admitted before it. */
  function From(admitted: seq<ClientInfo>, events: seq<Event>, i: nat, connected: nat): Outcome
    requires i <= |events|
  {
    var rest := Handle(events[i..], connected);
    Outcome(admitted + rest.admitted, rest.aborted)
  }

  lemma FromNext(admitted: seq<ClientInfo>, events: seq<Event>, i: nat, connected: nat)
    requires i < |events|
    ensures From(admitted, events, i, connected)
         == if Accepts(events[i], connected) then
              if events[i].accepted.fd > 0 then From(admitted + [events[i].accepted], events, i + 1, connected + 1)
              else From(admitted, events, i + 1, connected)
            else if events[i].failed then Outcome(admitted, true)
            else From(admitted, events, i + 1, connected)
  {
    assert events[i..][1..] == events[i + 1..];
    if Accepts(events[i], connected) && events[i].accepted.fd > 0 {
      var rest := Handle(events[i + 1..], connected + 1).admitted;
      assert admitted + ([events[i].accepted] + rest) == admitted + [events[i].accepted] + rest;
    }
  }

  class TcpServer {
    var connectedNum: nat
    const pool: TP.ThreadPool

    ghost predicate Ok()
      reads this, pool, pool.workQueue
    {
      && pool.Ok() && !pool.shutdown && pool.queueSize == DEFAULT_QUEUE
      && |pool.Queued()| <= connectedNum <= SERVER_MAX_CONNECTION
    }

    constructor (pool: TP.ThreadPool)
      requires pool.Ok() && !pool.shutdown && pool.queueSize == DEFAULT_QUEUE && pool.Queued() == []
      ensures Ok() && connectedNum == 0 && this.pool == pool
    {
      connectedNum := 0;
      this.pool := pool;
    }

    /** One accepted connection: submitted, and counted whatever submit answers; it answers that it was queued. */
    method Admit(info: ClientInfo)
      requires Ok() && connectedNum < SERVER_MAX_CONNECTION
      modifies this`connectedNum, pool`tail, pool`workCount, pool.workQueue
      ensures Ok() && connectedNum == old(connectedNum) + 1
      ensures pool.Queued() == old(pool.Queued()) + [JobOf(info)]
    {
      var job := JobOf(info);
      var _ := pool.Submit(job.args, job.fun);
      connectedNum := connectedNum + 1;
    }

    /** What the pool threads do meanwhile: they take up to n tasks, as far as there are any. */
    method Drain(n: nat) returns (taken: seq<Task>)
      requires Ok()
      modifies pool`curr, pool`workCount, pool.workQueue
      ensures Ok()
      ensures old(pool.Queued()) == taken + pool.Queued()
      ensures |taken| == n || pool.Queued() == []
    {
      taken := [];
      while |taken| < n && pool.workCount > 0
        invariant Ok()
        invariant old(pool.Queued()) == taken + pool.Queued()
        invariant |taken| <= n
      {
        var task := pool.TakeTask();
        Regroup(taken, [task], pool.Queued());
        taken := taken + [task];
      }
    }

    /**
      The callback, with drained[i] tasks taken by the pool threads before event i: the admitted
      connections are queued, in order, behind what was there, although the result of submit is ignored.
     */
    method OnEvents(events: seq<Event>, drained: seq<nat>) returns (aborted: bool, taken: seq<Task>)
      requires Ok() && |drained| == |events|
      modifies this`connectedNum, pool`curr, pool`tail, pool`workCount, pool.workQueue
      ensures Ok()
      ensures aborted == Handle(events, old(connectedNum)).aborted
      ensures connectedNum == old(connectedNum) + |Handle(events, old(connectedNum)).admitted|
      ensures taken + pool.Queued() == old(pool.Queued()) + Jobs(Handle(events, old(connectedNum)).admitted)
    {
      ghost var before := pool.Queued();
      ghost var done: seq<ClientInfo> := [];
      aborted, taken := false, [];
      var i := 0;
      ghost var all := Handle(events, connectedNum);
      assert events[0..] == events && [] + all.admitted == all.admitted && before + Jobs([]) == before;
      while i < |events|
        invariant 0 <= i <= |events|
        invariant Ok() && !aborted
        invariant connectedNum == old(connectedNum) + |done|
        invariant taken + pool.Queued() == before + Jobs(done)
        invariant From(done, events, i, connectedNum) == all
      {
        FromNext(done, events, i, connectedNum);
        var now := Drain(drained[i]);
        Regroup(taken, now, pool.Queued());
        taken := taken + now;
        if events[i].readable && connectedNum < SERVER_MAX_CONNECTION {
          if events[i].accepted.fd > 0 {
            Joins(taken, pool.Queued(), before, done, events[i].accepted);
            Admit(events[i].accepted);
            done := done + [events[i].accepted];
          }
        } else if events[i].failed {
          aborted := true;
          return;
        }
        i := i + 1;
      }
      assert done + [] == all.admitted;
    }
  }
}
