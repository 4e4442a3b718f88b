/** Counting the members of a task table that are in a given phase, and adding up their weights. */
module Counting {

  function B(b: bool): nat { if b then 1 else 0 }

  function Count<P>(s: seq<P>, f: P -> bool): nat {
    if s == [] then 0 else Count(s[..|s| - 1], f) + B(f(s[|s| - 1]))
  }

  /** Replacing one member shifts the count by what that member contributes. */
  lemma {:induction false} CountUpdate<P>(s: seq<P>, i: nat, v: P, f: P -> bool)
    requires i < |s|
    ensures Count(s[i := v], f) == Count(s, f) - B(f(s[i])) + B(f(v))
    ensures B(f(s[i])) <= Count(s, f) <= |s| - B(!f(s[i]))
  {
    var n := |s| - 1;
    CountBound(s[..n], f);
    if i == n {
      assert s[i := v][..n] == s[..n];
    } else {
      CountUpdate(s[..n], i, v, f);
      assert s[i := v][..n] == s[..n][i := v];
    }
  }

  lemma {:induction false} CountBound<P>(s: seq<P>, f: P -> bool)
    ensures Count(s, f) <= |s|
    ensures (forall x :: x in s ==> !f(x)) ==> Count(s, f) == 0
  {
    if s != [] { CountBound(s[..|s| - 1], f); }
  }

  /** Appending a member adds what it contributes. */
  lemma CountAppend<P>(s: seq<P>, v: P, f: P -> bool)
    ensures Count(s + [v], f) == Count(s, f) + B(f(v))
  {
    assert (s + [v])[..|s|] == s;
  }

  /** A phase within another is counted by it; a member in only the outer one leaves a gap. */
  lemma {:induction false} CountWithin<P>(s: seq<P>, i: nat, f: P -> bool, g: P -> bool)
    requires i < |s| && forall x :: x in s && f(x) ==> g(x)
    ensures Count(s, f) + B(g(s[i]) && !f(s[i])) <= Count(s, g)
  {
    var n := |s| - 1;
    if n > 0 { CountWithin(s[..n], if i < n then i else 0, f, g); }
  }

  /** A phase that is counted has a member. */
  lemma {:induction false} CountWitness<P>(s: seq<P>, f: P -> bool) returns (i: nat)
    requires Count(s, f) > 0
    ensures i < |s| && f(s[i])
  {
    var n := |s| - 1;
    if f(s[n]) { i := n; } else { i := CountWitness(s[..n], f); }
  }

  /** A phase counted once has no second member. */
  lemma CountUnique<P>(s: seq<P>, i: nat, j: nat, f: P -> bool)
    requires i < |s| && j < |s| && f(s[i]) && f(s[j]) && Count(s, f) <= 1
    ensures i == j
  {
    if i != j {
      var n := |s| - 1;
      CountAtLeast(s[..n], i, f);
      CountAtLeast(s[..n], j, f);
      if i < n && j < n { CountUnique(s[..n], i, j, f); }
    }
  }

  lemma {:induction false} CountAtLeast<P>(s: seq<P>, i: nat, f: P -> bool)
    ensures i < |s| && f(s[i]) ==> Count(s, f) > 0
  {
    if i < |s| { CountUpdate(s, i, s[i], f); }
  }

  /** The weights of the members added up: a measure of what a table of tasks still has to do. */
  function Sum<P>(s: seq<P>, w: P -> nat): nat {
    if s == [] then 0 else Sum(s[..|s| - 1], w) + w(s[|s| - 1])
  }

  lemma {:induction false} SumUpdate<P>(s: seq<P>, i: nat, v: P, w: P -> nat)
    requires i < |s|
    ensures Sum(s[i := v], w) == Sum(s, w) - w(s[i]) + w(v)
  {
    var n := |s| - 1;
    if i == n {
      assert s[i := v][..n] == s[..n];
    } else {
      SumUpdate(s[..n], i, v, w);
      assert s[i := v][..n] == s[..n][i := v];
    }
  }

  lemma {:induction false} SumBound<P>(s: seq<P>, w: P -> nat)
    requires forall x :: w(x) <= 3
    ensures Sum(s, w) <= 3 * |s|
  {
    if s != [] { SumBound(s[..|s| - 1], w); }
  }
}
