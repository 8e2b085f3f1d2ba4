/** Sums and filters over sequences: the in-memory meaning of SUM, COUNT and WHERE. */
module Seqs {

  /** Σ f(x) over `xs`, in order; 0 for the empty sequence (Array.reduce with 0). */
  function SumOf<T>(xs: seq<T>, f: T -> int): int
    decreases |xs|
  {
    if |xs| == 0 then 0 else f(xs[0]) + SumOf(xs[1..], f)
  }

  /** The elements of `xs` that satisfy `p`, in their original order. */
  function Filter<T(!new)>(xs: seq<T>, p: T -> bool): (r: seq<T>)
    ensures |r| <= |xs|
    ensures forall i :: 0 <= i < |r| ==> p(r[i]) && r[i] in xs
    ensures forall i :: 0 <= i < |xs| && p(xs[i]) ==> xs[i] in r
    ensures multiset(r) <= multiset(xs)
    ensures forall x :: multiset(r)[x] == if p(x) then multiset(xs)[x] else 0
    decreases |xs|
  {
    if |xs| == 0 then []
    else
      var rest := Filter(xs[1..], p);
      assert xs == [xs[0]] + xs[1..];
      assert multiset(xs) == multiset{xs[0]} + multiset(xs[1..]);
      if p(xs[0]) then
        assert multiset([xs[0]] + rest) == multiset{xs[0]} + multiset(rest);
        [xs[0]] + rest
      else rest
  }

  /**
   * Filtering keeps the survivors in their original order: any relation that
   * holds from every element to every later one still holds in the result.
   */
  lemma {:induction false} FilterKeepsOrder<T(!new)>(xs: seq<T>, p: T -> bool, before: (T, T) -> bool)
    requires Ordered(xs, before)
    ensures Ordered(Filter(xs, p), before)
    decreases |xs|
  {
    if |xs| > 0 {
      var tail := xs[1..];
      OrderedTail(xs, before);
      FilterKeepsOrder(tail, p, before);
      var rest := Filter(tail, p);
      if p(xs[0]) {
        forall k | 0 <= k < |rest|
          ensures before(xs[0], rest[k])
        {
          var m :| 0 <= m < |tail| && tail[m] == rest[k];
          assert xs[m + 1] == rest[k];
        }
        OrderedPrepend(xs[0], rest, before);
      }
    }
  }

  /** Every element is related to every later one. */
  predicate Ordered<T>(xs: seq<T>, before: (T, T) -> bool) {
    forall i, j :: 0 <= i < j < |xs| ==> before(xs[i], xs[j])
  }

  lemma OrderedTail<T>(xs: seq<T>, before: (T, T) -> bool)
    requires |xs| > 0 && Ordered(xs, before)
    ensures Ordered(xs[1..], before)
  {
    var tail := xs[1..];
    forall i, j | 0 <= i < j < |tail|
      ensures before(tail[i], tail[j])
    {
      assert tail[i] == xs[i + 1] && tail[j] == xs[j + 1];
    }
  }

  lemma OrderedPrepend<T>(x: T, rest: seq<T>, before: (T, T) -> bool)
    requires Ordered(rest, before)
    requires forall k :: 0 <= k < |rest| ==> before(x, rest[k])
    ensures Ordered([x] + rest, before)
  {
    var r := [x] + rest;
    forall i, j | 0 <= i < j < |r|
      ensures before(r[i], r[j])
    {
      assert r[j] == rest[j - 1];
      if i > 0 {
        assert r[i] == rest[i - 1];
      }
    }
  }

  lemma {:induction false} SumOfAppend<T>(a: seq<T>, b: seq<T>, f: T -> int)
    ensures SumOf(a + b, f) == SumOf(a, f) + SumOf(b, f)
    decreases |a|
  {
    if |a| == 0 {
      assert a + b == b;
    } else {
      assert (a + b)[1..] == a[1..] + b;
      SumOfAppend(a[1..], b, f);
    }
  }

  /** Removing the element at `i` takes exactly f(xs[i]) off the sum. */
  lemma {:induction false} SumOfRemove<T>(xs: seq<T>, i: nat, f: T -> int)
    requires i < |xs|
    ensures SumOf(xs, f) == f(xs[i]) + SumOf(xs[..i] + xs[i + 1..], f)
  {
    assert xs == xs[..i] + ([xs[i]] + xs[i + 1..]);
    assert ([xs[i]] + xs[i + 1..])[1..] == xs[i + 1..];
    SumOfAppend(xs[..i], [xs[i]] + xs[i + 1..], f);
    SumOfAppend(xs[..i], xs[i + 1..], f);
  }

  /** A sum does not depend on the order of its terms. */
  lemma {:induction false} SumOfPermutation<T>(xs: seq<T>, ys: seq<T>, f: T -> int)
    requires multiset(xs) == multiset(ys)
    ensures SumOf(xs, f) == SumOf(ys, f)
    decreases |xs|
  {
    if |xs| == 0 {
      assert |ys| == |multiset(ys)| == 0;
    } else {
      var x := xs[0];
      assert x in multiset(ys);
      var i :| 0 <= i < |ys| && ys[i] == x;
      var rest := ys[..i] + ys[i + 1..];
      MultisetRemove(ys, i);
      MultisetRemove(xs, 0);
      assert xs[..0] + xs[1..] == xs[1..];
      SumOfPermutation(xs[1..], rest, f);
      SumOfRemove(ys, i, f);
    }
  }

  /** Dropping the element at `i` drops one occurrence of it from the multiset. */
  lemma MultisetRemove<T>(ys: seq<T>, i: nat)
    requires i < |ys|
    ensures multiset(ys[..i] + ys[i + 1..]) == multiset(ys) - multiset{ys[i]}
  {
    assert ys == ys[..i] + [ys[i]] + ys[i + 1..];
    assert multiset(ys) == multiset(ys[..i]) + multiset([ys[i]]) + multiset(ys[i + 1..]);
  }

  /** Counting a sequence through a predicate and its negation covers every element once. */
  lemma {:induction false} FilterSplitsSum<T(!new)>(xs: seq<T>, p: T -> bool, f: T -> int)
    ensures SumOf(xs, f) == SumOf(Filter(xs, p), f) + SumOf(Filter(xs, x => !p(x)), f)
    decreases |xs|
  {
    if |xs| > 0 {
      FilterSplitsSum(xs[1..], p, f);
    }
  }
}
