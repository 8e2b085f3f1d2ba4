/**
 * The meaning of the analytics queries' `SUM(totalPrice)`, `SUM(quantity)`,
 * `COUNT(id)` … `GROUP BY key` over a sequence of sales, for any bucket key.
 */
module Aggregation {
  import opened Entities
  import Seqs
  import Sorting

  /** One result row of a grouped query. */
  datatype Bucket<K> = Bucket(key: K, revenue: int, totalQuantity: int, totalSales: nat)

  function SalePrice(sale: Sale): int {
    sale.totalPrice
  }

  function SaleQuantity(sale: Sale): int {
    sale.quantity
  }

  /** SUM(sale.totalPrice), with 0 for no rows. */
  function Revenue(sales: seq<Sale>): int {
    Seqs.SumOf(sales, SalePrice)
  }

  /** SUM(sale.quantity), with 0 for no rows. */
  function Quantity(sales: seq<Sale>): int {
    Seqs.SumOf(sales, SaleQuantity)
  }

  /** The sales whose key is `k`, in order. */
  function WithKey<K(==)>(sales: seq<Sale>, key: Sale -> K, k: K): (r: seq<Sale>)
    ensures |r| <= |sales|
    ensures forall i :: 0 <= i < |r| ==> key(r[i]) == k
    decreases |sales|
  {
    if |sales| == 0 then []
    else if key(sales[0]) == k then [sales[0]] + WithKey(sales[1..], key, k)
    else WithKey(sales[1..], key, k)
  }

  /** The sales whose key is not `k`, in order. */
  function WithoutKey<K(==)>(sales: seq<Sale>, key: Sale -> K, k: K): (r: seq<Sale>)
    ensures |r| <= |sales|
    ensures 0 < |sales| && key(sales[0]) == k ==> |r| < |sales|
    ensures forall i :: 0 <= i < |r| ==> key(r[i]) != k
    ensures forall j :: 0 <= j < |sales| && key(sales[j]) != k ==> sales[j] in r
    decreases |sales|
  {
    if |sales| == 0 then []
    else
      var rest := WithoutKey(sales[1..], key, k);
      assert forall j :: 1 <= j < |sales| ==> sales[j] == sales[1..][j - 1];
      if key(sales[0]) == k then rest else [sales[0]] + rest
  }

  /** The aggregate row of key `k`. */
  function BucketOf<K(==)>(sales: seq<Sale>, key: Sale -> K, k: K): Bucket<K> {
    var group := WithKey(sales, key, k);
    Bucket(k, Revenue(group), Quantity(group), |group|)
  }

  lemma {:induction false} WithKeyOfNoKey<K>(sales: seq<Sale>, key: Sale -> K, k: K)
    requires forall i :: 0 <= i < |sales| ==> key(sales[i]) != k
    ensures WithKey(sales, key, k) == []
    decreases |sales|
  {
    if |sales| > 0 {
      WithKeyOfNoKey(sales[1..], key, k);
    }
  }

  /** Dropping key `k` leaves every other key's group as it was. */
  lemma {:induction false} WithKeyAfterWithout<K>(sales: seq<Sale>, key: Sale -> K, k: K, k': K)
    requires k != k'
    ensures WithKey(WithoutKey(sales, key, k), key, k') == WithKey(sales, key, k')
    decreases |sales|
  {
    if |sales| > 0 {
      WithKeyAfterWithout(sales[1..], key, k, k');
    }
  }

  /** A group and the rest split the revenue and the quantity. */
  lemma {:induction false} GroupSplitsTotals<K>(sales: seq<Sale>, key: Sale -> K, k: K)
    ensures Revenue(sales) == Revenue(WithKey(sales, key, k)) + Revenue(WithoutKey(sales, key, k))
    ensures Quantity(sales) == Quantity(WithKey(sales, key, k)) + Quantity(WithoutKey(sales, key, k))
    ensures |sales| == |WithKey(sales, key, k)| + |WithoutKey(sales, key, k)|
    decreases |sales|
  {
    if |sales| > 0 {
      GroupSplitsTotals(sales[1..], key, k);
    }
  }

  /**
   * GROUP BY: one row per key that occurs, in order of first occurrence,
   * each aggregating exactly the sales with that key.
   */
  function GroupBy<K(==)>(sales: seq<Sale>, key: Sale -> K): (r: seq<Bucket<K>>)
    ensures forall i :: 0 <= i < |r| ==> r[i] == BucketOf(sales, key, r[i].key)
    ensures forall i :: 0 <= i < |r| ==> r[i].totalSales > 0
    ensures forall i, j :: 0 <= i < j < |r| ==> r[i].key != r[j].key
    decreases |sales|
  {
    if |sales| == 0 then []
    else
      var k := key(sales[0]);
      var rest := WithoutKey(sales, key, k);
      var tail := GroupBy(rest, key);
      var r := [BucketOf(sales, key, k)] + tail;
      forall i | 1 <= i < |r|
        ensures r[i] == BucketOf(sales, key, r[i].key) && r[i].key != k
      {
        if r[i].key == k {
          WithKeyOfNoKey(rest, key, k);
          assert false;
        }
        WithKeyAfterWithout(sales, key, k, r[i].key);
      }
      r
  }

  /** Every sale's key has its row. */
  lemma {:induction false} GroupByCoversEveryKey<K>(sales: seq<Sale>, key: Sale -> K, j: nat)
    requires j < |sales|
    ensures exists i :: 0 <= i < |GroupBy(sales, key)| && GroupBy(sales, key)[i].key == key(sales[j])
    decreases |sales|
  {
    var r := GroupBy(sales, key);
    var k := key(sales[0]);
    if key(sales[j]) == k {
      assert r[0].key == key(sales[j]);
    } else {
      var rest := WithoutKey(sales, key, k);
      var m :| 0 <= m < |rest| && rest[m] == sales[j];
      GroupByCoversEveryKey(rest, key, m);
      var i :| 0 <= i < |GroupBy(rest, key)| && GroupBy(rest, key)[i].key == key(rest[m]);
      assert r[i + 1].key == key(sales[j]);
    }
  }

  function BucketRevenue<K>(b: Bucket<K>): int {
    b.revenue
  }

  function BucketQuantity<K>(b: Bucket<K>): int {
    b.totalQuantity
  }

  function BucketSales<K>(b: Bucket<K>): int {
    b.totalSales
  }

  /**
   * Nothing is lost or counted twice by grouping: the rows' revenue, quantity
   * and count add up to those of all the sales grouped.
   */
  lemma {:induction false} GroupByConserves<K>(sales: seq<Sale>, key: Sale -> K)
    ensures Seqs.SumOf(GroupBy(sales, key), BucketRevenue) == Revenue(sales)
    ensures Seqs.SumOf(GroupBy(sales, key), BucketQuantity) == Quantity(sales)
    ensures Seqs.SumOf(GroupBy(sales, key), BucketSales) == |sales|
    decreases |sales|
  {
    if |sales| > 0 {
      var k := key(sales[0]);
      var rest := WithoutKey(sales, key, k);
      GroupByConserves(rest, key);
      GroupSplitsTotals(sales, key, k);
      var r := GroupBy(sales, key);
      assert r[1..] == GroupBy(rest, key);
    }
  }

  /**
   * GROUP BY followed by ORDER BY `score` DESC: the grouped rows, rearranged so
   * that scores never increase, still one row per key and still adding up to
   * the totals of the sales grouped.
   */
  function RankedGroups<K(==)>(sales: seq<Sale>, key: Sale -> K, score: Bucket<K> -> int): (r: seq<Bucket<K>>)
    ensures forall i :: 0 <= i < |r| ==> r[i] == BucketOf(sales, key, r[i].key) && r[i].totalSales > 0
    ensures forall i, j :: 0 <= i < j < |r| ==> r[i].key != r[j].key
    ensures Sorting.SortedDesc(r, score)
    ensures Seqs.SumOf(r, BucketRevenue) == Revenue(sales)
    ensures Seqs.SumOf(r, BucketQuantity) == Quantity(sales)
    ensures Seqs.SumOf(r, BucketSales) == |sales|
  {
    var groups := GroupBy(sales, key);
    var rows := Sorting.SortDesc(groups, score);
    RearrangedRows(sales, key, groups, rows);
    GroupByConserves(sales, key);
    RearrangedTotals(groups, rows);
    rows
  }

  /** Every grouped sale's key has its row after the ordering. */
  lemma RankedGroupsCoverEveryKey<K>(sales: seq<Sale>, key: Sale -> K, score: Bucket<K> -> int, j: nat)
    returns (i: nat)
    requires j < |sales|
    ensures i < |RankedGroups(sales, key, score)| && RankedGroups(sales, key, score)[i].key == key(sales[j])
  {
    var groups := GroupBy(sales, key);
    var rows := RankedGroups(sales, key, score);
    GroupByCoversEveryKey(sales, key, j);
    var g :| 0 <= g < |groups| && groups[g].key == key(sales[j]);
    assert multiset(rows) == multiset(groups);
    assert groups[g] in multiset(rows);
    i :| 0 <= i < |rows| && rows[i] == groups[g];
  }

  /** Rearranged GROUP BY rows are still one row per key, each aggregating its key's sales. */
  lemma RearrangedRows<K>(sales: seq<Sale>, key: Sale -> K, groups: seq<Bucket<K>>, rows: seq<Bucket<K>>)
    requires groups == GroupBy(sales, key)
    requires multiset(rows) == multiset(groups)
    ensures forall i :: 0 <= i < |rows| ==> rows[i] == BucketOf(sales, key, rows[i].key) && rows[i].totalSales > 0
    ensures forall i, j :: 0 <= i < j < |rows| ==> rows[i].key != rows[j].key
  {
    forall i | 0 <= i < |rows|
      ensures rows[i] == BucketOf(sales, key, rows[i].key) && rows[i].totalSales > 0
    {
      assert rows[i] in multiset(groups);
    }
    forall i, j | 0 <= i < j < |rows|
      ensures rows[i].key != rows[j].key
    {
      DistinctAfterRearranging(groups, rows, i, j);
    }
  }

  lemma RearrangedTotals<K>(groups: seq<Bucket<K>>, rows: seq<Bucket<K>>)
    requires multiset(rows) == multiset(groups)
    ensures Seqs.SumOf(rows, BucketRevenue) == Seqs.SumOf(groups, BucketRevenue)
    ensures Seqs.SumOf(rows, BucketQuantity) == Seqs.SumOf(groups, BucketQuantity)
    ensures Seqs.SumOf(rows, BucketSales) == Seqs.SumOf(groups, BucketSales)
  {
    Seqs.SumOfPermutation(rows, groups, BucketRevenue);
    Seqs.SumOfPermutation(rows, groups, BucketQuantity);
    Seqs.SumOfPermutation(rows, groups, BucketSales);
  }

  /** The key of an integer-keyed row, as an ORDER BY score. */
  function KeyScore(b: Bucket<int>): int {
    b.key
  }

  /** Ordered by key, rows with pairwise distinct keys are strictly descending. */
  lemma StrictlyDescending(rows: seq<Bucket<int>>)
    requires forall i, j :: 0 <= i < j < |rows| ==> rows[i].key != rows[j].key
    requires Sorting.SortedDesc(rows, KeyScore)
    ensures forall i, j :: 0 <= i < j < |rows| ==> rows[i].key > rows[j].key
  {
    forall i, j | 0 <= i < j < |rows|
      ensures rows[i].key > rows[j].key
    {
      assert KeyScore(rows[i]) >= KeyScore(rows[j]);
    }
  }

  /** A rearrangement of rows with pairwise distinct keys has pairwise distinct keys. */
  lemma DistinctAfterRearranging<K>(groups: seq<Bucket<K>>, rows: seq<Bucket<K>>, i: nat, j: nat)
    requires forall a, b :: 0 <= a < b < |groups| ==> groups[a].key != groups[b].key
    requires multiset(rows) == multiset(groups)
    requires i < j < |rows|
    ensures rows[i].key != rows[j].key
  {
    assert rows[i] in multiset(groups) && rows[j] in multiset(groups);
    var a :| 0 <= a < |groups| && groups[a] == rows[i];
    var b :| 0 <= b < |groups| && groups[b] == rows[j];
    OccursOnce(groups, a);
    OnceMeansUnique(rows, i, j);
    if a < b {
      assert groups[a].key != groups[b].key;
    } else {
      assert groups[b].key != groups[a].key;
    }
  }

  /** A value occurring once in a sequence is at no second position. */
  lemma OnceMeansUnique<T>(xs: seq<T>, i: nat, j: nat)
    requires i < j < |xs| && multiset(xs)[xs[i]] == 1
    ensures xs[i] != xs[j]
  {
    var x := xs[i];
    assert xs == xs[..j] + [xs[j]] + xs[j + 1..];
    assert x in xs[..j];
    assert multiset(xs)[x] == multiset(xs[..j])[x] + multiset([xs[j]])[x] + multiset(xs[j + 1..])[x];
  }

  /** In rows with pairwise distinct keys, each row occurs once. */
  lemma {:induction false} OccursOnce<K>(groups: seq<Bucket<K>>, a: nat)
    requires forall x, y :: 0 <= x < y < |groups| ==> groups[x].key != groups[y].key
    requires a < |groups|
    ensures multiset(groups)[groups[a]] == 1
    decreases |groups|
  {
    var g := groups[a];
    var front := groups[..|groups| - 1];
    var last := groups[|groups| - 1];
    assert groups == front + [last];
    if a == |groups| - 1 {
      assert g !in front by {
        forall x | 0 <= x < |front| ensures front[x] != g {
          assert groups[x].key != groups[a].key;
        }
      }
    } else {
      OccursOnce(front, a);
      assert last != g by {
        assert groups[a].key != groups[|groups| - 1].key;
      }
    }
  }
}
