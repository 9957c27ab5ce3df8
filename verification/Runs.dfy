/**
  Runs of a step machine. A machine is a function that gives the next state for a state and an
  action, or None when that action cannot be taken.
 */
module Runs {
  import opened Basics

  /** The state that a sequence of actions leads to, if every one of them can be taken. */
  function Exec<S, A>(step: (S, A) -> Option<S>, s: S, acts: seq<A>): Option<S> {
    if acts == [] then Some(s)
    else
      var next := step(s, acts[0]);
      if next.None? then None else Exec(step, next.value, acts[1..])
  }

  ghost predicate Leads<S(!new), A(!new)>(step: (S, A) -> Option<S>, s: S, t: S) {
    exists acts :: Exec(step, s, acts) == Some(t)
  }

  lemma {:induction false} ExecConcat<S, A>(step: (S, A) -> Option<S>, s: S, acts: seq<A>, more: seq<A>)
    requires Exec(step, s, acts).Some?
    ensures Exec(step, s, acts + more) == Exec(step, Exec(step, s, acts).value, more)
  {
    if acts == [] {
      assert acts + more == more;
    } else {
      ExecConcat(step, step(s, acts[0]).value, acts[1..], more);
      assert (acts + more)[1..] == acts[1..] + more;
    }
  }

  lemma ExecThree<S, A>(step: (S, A) -> Option<S>, s: S, a: A, b: A, c: A)
    requires step(s, a).Some? && step(step(s, a).value, b).Some?
    ensures Exec(step, s, [a, b, c]) == step(step(step(s, a).value, b).value, c)
  {
    var next := step(s, a).value;
    assert [a, b, c][1..] == [b, c] && [b, c][1..] == [c] && [c][1..] == [];
    assert Exec(step, next, [b, c]) == Exec(step, step(next, b).value, [c]);
  }

  lemma LeadsToItself<S(!new), A(!new)>(step: (S, A) -> Option<S>, s: S)
    ensures Leads(step, s, s)
  {
    assert Exec(step, s, []) == Some(s);
  }

  lemma LeadsOn<S(!new), A(!new)>(step: (S, A) -> Option<S>, s: S, t: S, a: A)
    requires Leads(step, s, t) && step(t, a).Some?
    ensures Leads(step, s, step(t, a).value)
  {
    var acts :| Exec(step, s, acts) == Some(t);
    ExecConcat(step, s, acts, [a]);
    assert Exec(step, t, [a]) == Exec(step, step(t, a).value, [a][1..]);
    assert Exec(step, s, acts + [a]) == step(t, a);
  }

  /** What every step keeps, every run keeps. */
  lemma {:induction false} RunKeeps<S(!new), A(!new)>(step: (S, A) -> Option<S>, inv: S -> bool, s: S, acts: seq<A>)
    requires forall x, a :: inv(x) && step(x, a).Some? ==> inv(step(x, a).value)
    requires inv(s) && Exec(step, s, acts).Some?
    ensures inv(Exec(step, s, acts).value)
    decreases |acts|
  {
    if acts == [] {
    } else {
      RunKeeps(step, inv, step(s, acts[0]).value, acts[1..]);
    }
  }
}
