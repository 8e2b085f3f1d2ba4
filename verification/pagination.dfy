/**
 * Offset pagination as both list endpoints compute it: `skip = (page - 1) *
 * limit`, `take(limit)`, and `totalPages = Math.ceil(total / limit)`.
 */
module Pagination {

  /** The `pagination` object of a list response. */
  datatype Info = Info(page: int, limit: int, total: nat, totalPages: nat)

  /** Rows skipped before the requested page; pages are numbered from 1. */
  function Skip(page: int, limit: int): (r: nat)
    requires 1 <= page && 1 <= limit
    ensures r % limit == 0 && r / limit == page - 1
  {
    DivMul(page - 1, limit);
    (page - 1) * limit
  }

  lemma DivMul(k: nat, limit: int)
    requires 1 <= limit
    ensures (k * limit) % limit == 0 && (k * limit) / limit == k
  {
    DivUnique(k * limit, limit, k, 0);
  }

  /** Euclidean division has exactly one quotient and remainder. */
  lemma DivUnique(a: int, d: int, q: int, m: int)
    requires 1 <= d && 0 <= m < d && a == q * d + m
    ensures a / d == q && a % d == m
  {
    var q', m' := a / d, a % d;
    assert q' * d + m' == q * d + m;
    if q' < q {
      MulMono(q' + 1, q, d);
      assert false;
    } else if q < q' {
      MulMono(q + 1, q', d);
      assert false;
    }
  }

  lemma MulMono(a: int, b: int, d: int)
    requires a <= b && 0 <= d
    ensures a * d <= b * d
  {
  }

  /** Math.ceil(total / limit): the fewest pages of `limit` rows that hold `total` rows. */
  function TotalPages(total: nat, limit: int): (r: nat)
    requires 1 <= limit
    ensures r * limit >= total
    ensures r == 0 || (r - 1) * limit < total
    ensures total == 0 <==> r == 0
  {
    var q := (total + limit - 1) / limit;
    var m := (total + limit - 1) % limit;
    assert total + limit - 1 == q * limit + m;
    assert q * limit >= total by {
      assert m <= limit - 1;
    }
    assert q == 0 || (q - 1) * limit < total by {
      assert (q - 1) * limit == q * limit - limit;
    }
    q
  }

  /** `skip(…).take(limit)` over the ordered, filtered rows. */
  function PageOf<T>(items: seq<T>, page: int, limit: int): (r: seq<T>)
    requires 1 <= page && 1 <= limit
    ensures |r| <= limit
    ensures Skip(page, limit) < |items| ==> 0 < |r|
    ensures forall j :: 0 <= j < |r| ==> Skip(page, limit) + j < |items| && r[j] == items[Skip(page, limit) + j]
    ensures Skip(page, limit) + limit <= |items| ==> |r| == limit
    ensures Skip(page, limit) < |items| < Skip(page, limit) + limit ==> |r| == |items| - Skip(page, limit)
  {
    var skip := Skip(page, limit);
    if skip >= |items| then []
    else if skip + limit <= |items| then items[skip..skip + limit]
    else items[skip..]
  }

  /** The rows of the requested page together with the pagination summary. */
  function Paginate<T>(items: seq<T>, page: int, limit: int): (r: (seq<T>, Info))
    requires 1 <= page && 1 <= limit
    ensures r.0 == PageOf(items, page, limit)
    ensures r.1 == Info(page, limit, |items|, TotalPages(|items|, limit))
  {
    (PageOf(items, page, limit), Info(page, limit, |items|, TotalPages(|items|, limit)))
  }

  /**
   * Every row is reachable: row `i` is at position `i % limit` of page
   * `i / limit + 1`, and that page is within `totalPages`.
   */
  lemma ItemOnItsPage<T>(items: seq<T>, limit: int, i: nat) returns (page: int, pos: nat)
    requires 1 <= limit && i < |items|
    ensures page == i / limit + 1 && pos == i % limit
    ensures 1 <= page <= TotalPages(|items|, limit)
    ensures pos < |PageOf(items, page, limit)| && PageOf(items, page, limit)[pos] == items[i]
  {
    var q := i / limit;
    page, pos := q + 1, i % limit;
    var skip := Skip(page, limit);
    assert skip == q * limit;
    assert i == skip + pos;
    var n := TotalPages(|items|, limit);
    if n <= q {
      MulMono(n, q, limit);
      assert false;
    }
  }

  /** Pages past `totalPages` are empty. */
  lemma PastLastPageEmpty<T>(items: seq<T>, page: int, limit: int)
    requires 1 <= page && 1 <= limit
    requires page > TotalPages(|items|, limit)
    ensures PageOf(items, page, limit) == []
  {
    var n := TotalPages(|items|, limit);
    assert Skip(page, limit) == (page - 1) * limit;
    assert (page - 1) * limit >= n * limit;
  }
}
