/** Descending sort by an integer score: the model of ORDER BY … DESC. */
module Sorting {

  /** Scores never increase along `xs`. */
  predicate SortedDesc<T>(xs: seq<T>, score: T -> int) {
    forall i, j :: 0 <= i < j < |xs| ==> score(xs[i]) >= score(xs[j])
  }

  function Insert<T>(x: T, xs: seq<T>, score: T -> int): (r: seq<T>)
    requires SortedDesc(xs, score)
    ensures SortedDesc(r, score)
    ensures multiset(r) == multiset(xs) + multiset{x}
    ensures |r| == |xs| + 1
    ensures r[0] == x || (0 < |xs| && r[0] == xs[0])
    decreases |xs|
  {
    if |xs| == 0 then [x]
    else if score(x) >= score(xs[0]) then [x] + xs
    else
      var rest := Insert(x, xs[1..], score);
      assert xs == [xs[0]] + xs[1..];
      [xs[0]] + rest
  }

  /**
   * A rearrangement of `xs` in descending score order. Rows of equal score may
   * come in any order: the database leaves ties unordered too.
   */
  function SortDesc<T>(xs: seq<T>, score: T -> int): (r: seq<T>)
    ensures SortedDesc(r, score)
    ensures multiset(r) == multiset(xs)
    ensures |r| == |xs|
    decreases |xs|
  {
    if |xs| == 0 then []
    else
      assert xs == [xs[0]] + xs[1..];
      Insert(xs[0], SortDesc(xs[1..], score), score)
  }
}
