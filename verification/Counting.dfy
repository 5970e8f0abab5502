/** Sums over the processes of a system, runs of a transition relation, and ring arithmetic. */
module Counting {

  /** The sum of the weights of all elements. */
  function Sum<T>(xs: seq<T>, w: T -> nat): nat {
    if xs == [] then 0 else w(xs[0]) + Sum(xs[1..], w)
  }

  lemma {:induction false} SumUpdate<T>(xs: seq<T>, i: nat, x: T, w: T -> nat)
    requires i < |xs|
    ensures Sum(xs[i := x], w) + w(xs[i]) == Sum(xs, w) + w(x)
  {
    if i == 0 {
      assert xs[0 := x][1..] == xs[1..];
    } else {
      assert xs[i := x][1..] == xs[1..][i - 1 := x];
      SumUpdate(xs[1..], i - 1, x, w);
    }
  }

  lemma {:induction false} SumZero<T>(xs: seq<T>, w: T -> nat)
    requires forall i :: 0 <= i < |xs| ==> w(xs[i]) == 0
    ensures Sum(xs, w) == 0
  {
    if xs != [] {
      SumZero(xs[1..], w);
    }
  }

  lemma {:induction false} SumAtLeast<T>(xs: seq<T>, i: nat, w: T -> nat)
    requires i < |xs|
    ensures Sum(xs, w) >= w(xs[i])
  {
    if i > 0 {
      SumAtLeast(xs[1..], i - 1, w);
    }
  }

  lemma {:induction false} SumBounded<T>(xs: seq<T>, w: T -> nat, most: nat)
    requires forall i :: 0 <= i < |xs| ==> w(xs[i]) <= most
    ensures Sum(xs, w) <= |xs| * most
  {
    if xs != [] {
      SumBounded(xs[1..], w, most);
      assert |xs| * most == (|xs| - 1) * most + most;
    }
  }

  ghost predicate Distinct<T>(xs: seq<T>) {
    forall i, j :: 0 <= i < j < |xs| ==> xs[i] != xs[j]
  }

  /** Pigeonhole: distinct elements of a set are at most as many as the set has. */
  lemma {:induction false} DistinctIn<T>(xs: seq<T>, all: set<T>)
    requires Distinct(xs) && forall i :: 0 <= i < |xs| ==> xs[i] in all
    ensures |xs| <= |all|
  {
    if xs != [] {
      DistinctIn(xs[1..], all - {xs[0]});
    }
  }

  /** The numbers below n. */
  function Below(n: nat): (r: set<int>)
    ensures |r| == n && forall x :: x in r <==> 0 <= x < n
  {
    if n == 0 then {} else Below(n - 1) + {n - 1}
  }

  lemma NumbersBelow(all: set<int>, n: nat)
    requires forall x :: x in all ==> 0 <= x < n
    ensures |all| <= n
  {
    assert Below(n) == all + (Below(n) - all);
  }

  /** The cell that is j places behind cell `start` of a ring. */
  function Around(start: nat, j: nat, size: nat): (k: nat)
    requires start < size && j <= size
    ensures k < size
  {
    if start + j < size then start + j else start + j - size
  }

  /** The C expression `x % m` for an index that has run past the end of a ring at most once. */
  lemma WrapOnce(start: nat, j: nat, m: nat)
    requires start < m && j <= m
    ensures (start + j) % m == Around(start, j, m)
  {
    if start + j < m {
      NoWrap(start + j, m);
    } else {
      WrapAround(start + j - m, m);
    }
  }

  lemma NoWrap(x: nat, m: nat)
    requires x < m
    ensures x % m == x
  {
  }

  lemma WrapAround(y: nat, m: nat)
    requires 0 < m && y < m
    ensures (m + y) % m == y
  {
    var q := (m + y) / m;
    assert m + y == q * m + (m + y) % m;
    assert q <= 0 ==> q * m <= 0;
    assert q >= 2 ==> q * m >= 2 * m;
  }
}
