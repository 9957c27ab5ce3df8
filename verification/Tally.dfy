/**
  Sums over the per-process program counters of a machine, and how one process's step changes them.
 */
module Tally {

  function Sum<T>(s: seq<T>, f: T -> nat): nat {
    if s == [] then 0 else f(s[0]) + Sum(s[1..], f)
  }

  lemma {:induction false} SumUpdate<T>(s: seq<T>, i: nat, x: T, f: T -> nat)
    requires i < |s|
    ensures Sum(s[i := x], f) + f(s[i]) == Sum(s, f) + f(x)
  {
    if i == 0 {
      assert s[0 := x][1..] == s[1..];
    } else {
      SumUpdate(s[1..], i - 1, x, f);
      assert s[i := x][1..] == s[1..][i - 1 := x];
    }
  }

  lemma {:induction false} SumSplit<T>(s: seq<T>, t: seq<T>, f: T -> nat)
    ensures Sum(s + t, f) == Sum(s, f) + Sum(t, f)
  {
    if s == [] {
      assert s + t == t;
    } else {
      SumSplit(s[1..], t, f);
      assert (s + t)[1..] == s[1..] + t;
    }
  }

  /** A sum is at least each of its terms, and zero only if all of them are. */
  lemma {:induction false} SumTerm<T>(s: seq<T>, i: nat, f: T -> nat)
    requires i < |s|
    ensures f(s[i]) <= Sum(s, f)
  {
    if i == 0 {
    } else {
      SumTerm(s[1..], i - 1, f);
    }
  }

  lemma {:induction false} SumConstant<T>(s: seq<T>, f: T -> nat, c: nat)
    requires forall i :: 0 <= i < |s| ==> f(s[i]) == c
    ensures Sum(s, f) == c * |s|
  {
    if s == [] {
    } else {
      SumConstant(s[1..], f, c);
    }
  }

  lemma {:induction false} SumAtMost<T>(s: seq<T>, f: T -> nat, c: nat)
    requires forall i :: 0 <= i < |s| ==> f(s[i]) <= c
    ensures Sum(s, f) <= c * |s|
  {
    if s == [] {
    } else {
      SumAtMost(s[1..], f, c);
    }
  }

  /** A sum of ones and at least one zero is less than their number. */
  lemma {:induction false} SumBelow<T>(s: seq<T>, i: nat, f: T -> nat)
    requires i < |s| && f(s[i]) == 0
    requires forall j :: 0 <= j < |s| ==> f(s[j]) <= 1
    ensures Sum(s, f) < |s|
  {
    if i == 0 {
      SumAtMost(s[1..], f, 1);
    } else {
      SumBelow(s[1..], i - 1, f);
    }
  }

  function Without<T>(s: seq<T>, i: nat): seq<T>
    requires i < |s|
  {
    s[..i] + s[i + 1..]
  }

  lemma {:induction false} SumWithout<T>(s: seq<T>, i: nat, f: T -> nat)
    requires i < |s|
    ensures Sum(s, f) == f(s[i]) + Sum(Without(s, i), f)
    ensures multiset(s) == multiset{s[i]} + multiset(Without(s, i))
  {
    assert s == [s[0]] + s[1..];
    if i == 0 {
      assert Without(s, 0) == s[1..];
    } else {
      SumWithout(s[1..], i - 1, f);
      assert Without(s, i) == [s[0]] + Without(s[1..], i - 1);
    }
  }

  lemma Cancel<T>(x: T, a: multiset<T>, b: multiset<T>)
    requires multiset{x} + a == multiset{x} + b
    ensures a == b
  {
    forall y ensures a[y] == b[y] {
      assert (multiset{x} + a)[y] == (multiset{x} + b)[y];
    }
  }

  /** The order of its terms does not matter. */
  lemma {:induction false} SumPermuted<T>(s: seq<T>, t: seq<T>, f: T -> nat)
    requires multiset(s) == multiset(t)
    ensures Sum(s, f) == Sum(t, f)
  {
    if s == [] {
      assert |t| == |multiset(t)|;
    } else {
      assert s[0] in multiset(t);
      var i :| 0 <= i < |t| && t[i] == s[0];
      SumWithout(s, 0, f);
      SumWithout(t, i, f);
      Cancel(s[0], multiset(Without(s, 0)), multiset(Without(t, i)));
      SumPermuted(Without(s, 0), Without(t, i), f);
    }
  }

  /** A sum that is positive has a positive term. */
  lemma {:induction false} SumWitness<T>(s: seq<T>, f: T -> nat)
    requires Sum(s, f) > 0
    ensures exists i :: 0 <= i < |s| && f(s[i]) > 0
  {
    if f(s[0]) > 0 {
    } else {
      SumWitness(s[1..], f);
      var i :| 0 <= i < |s[1..]| && f(s[1..][i]) > 0;
      assert f(s[i + 1]) > 0;
    }
  }

  /** The multiset union of what each process holds. */
  function Gather<T, U>(s: seq<T>, g: T -> multiset<U>): multiset<U> {
    if s == [] then multiset{} else g(s[0]) + Gather(s[1..], g)
  }

  lemma {:induction false} GatherUpdate<T, U>(s: seq<T>, i: nat, x: T, g: T -> multiset<U>)
    requires i < |s|
    ensures Gather(s[i := x], g) + g(s[i]) == Gather(s, g) + g(x)
  {
    if i == 0 {
      assert s[0 := x][1..] == s[1..];
    } else {
      GatherUpdate(s[1..], i - 1, x, g);
      var rest := s[1..][i - 1 := x];
      assert s[i := x][1..] == rest;
      assert g(s[0]) + Gather(rest, g) + g(s[i]) == g(s[0]) + (Gather(rest, g) + g(s[i]));
    }
  }

  /** What is gathered after one process exchanges what it holds. */
  lemma GatherExchange<T, U>(s: seq<T>, i: nat, x: T, g: T -> multiset<U>)
    requires i < |s|
    ensures g(s[i]) <= Gather(s, g)
    ensures Gather(s[i := x], g) == Gather(s, g) - g(s[i]) + g(x)
  {
    GatherUpdate(s, i, x, g);
    GatherTerm(s, i, g);
    Exchange(Gather(s[i := x], g), g(s[i]), Gather(s, g), g(x));
  }

  lemma Exchange<U>(after: multiset<U>, lost: multiset<U>, before: multiset<U>, gained: multiset<U>)
    requires after + lost == before + gained && lost <= before
    ensures after == before - lost + gained
  {
    forall x ensures after[x] == (before - lost + gained)[x] {
      assert (after + lost)[x] == (before + gained)[x];
    }
  }

  lemma {:induction false} GatherSplit<T, U>(s: seq<T>, t: seq<T>, g: T -> multiset<U>)
    ensures Gather(s + t, g) == Gather(s, g) + Gather(t, g)
  {
    if s == [] {
      assert s + t == t;
    } else {
      GatherSplit(s[1..], t, g);
      assert (s + t)[1..] == s[1..] + t;
    }
  }

  lemma {:induction false} GatherTerm<T, U>(s: seq<T>, i: nat, g: T -> multiset<U>)
    requires i < |s|
    ensures g(s[i]) <= Gather(s, g)
  {
    if i == 0 {
    } else {
      GatherTerm(s[1..], i - 1, g);
    }
  }

  lemma {:induction false} GatherTwoTerms<T, U>(s: seq<T>, i: nat, j: nat, g: T -> multiset<U>)
    requires i < |s| && j < |s| && i != j
    ensures g(s[i]) + g(s[j]) <= Gather(s, g)
  {
    if i == 0 {
      GatherTerm(s[1..], j - 1, g);
    } else if j == 0 {
      GatherTerm(s[1..], i - 1, g);
    } else {
      GatherTwoTerms(s[1..], i - 1, j - 1, g);
    }
  }

  lemma {:induction false} GatherEmpty<T, U>(s: seq<T>, g: T -> multiset<U>)
    requires forall i :: 0 <= i < |s| ==> g(s[i]) == multiset{}
    ensures Gather(s, g) == multiset{}
  {
    if s == [] {
    } else {
      GatherEmpty(s[1..], g);
    }
  }

  /** An element of the union is held by some process. */
  lemma {:induction false} GatherWitness<T, U>(s: seq<T>, g: T -> multiset<U>, x: U)
    requires x in Gather(s, g)
    ensures exists i :: 0 <= i < |s| && x in g(s[i])
  {
    if x in g(s[0]) {
    } else {
      GatherWitness(s[1..], g, x);
      var i :| 0 <= i < |s[1..]| && x in g(s[1..][i]);
      assert x in g(s[i + 1]);
    }
  }
}
