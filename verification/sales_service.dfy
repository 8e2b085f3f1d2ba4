/**
 * The sales service: recording a sale as a store transition, the sales
 * listing, and the three analytics reports (revenue by period, revenue by
 * category, period-over-period comparison) as pure functions of the store.
 */
module SalesService {
  import opened Wrappers
  import opened Entities
  import opened Errors
  import opened Aggregation
  import ProductService
  import Seqs
  import Sorting
  import Pagination

  type Step<T> = ProductService.Step<T>

  /**
   * `createSale`: an unknown product is rejected, then a quantity above the
   * stock; otherwise the sale is saved with `totalPrice = price × quantity`
   * and `reduceStock` is called with reason "Sale". An error from that call
   * would surface after the sale row was saved.
   */
  function CreateSale(s: Store, productId: Id, quantity: int, now: int): (r: Step<Sale>)
    ensures productId !in s.products ==> r.outcome == Err(ProductNotFound(Some(NumId(productId))))
    ensures productId in s.products && s.products[productId].stock < quantity ==>
      r.outcome == Err(InsufficientStock(s.products[productId].stock, quantity, Some(s.products[productId].name)))
    ensures r.outcome.Ok? <==> productId in s.products && quantity <= s.products[productId].stock
    ensures r.outcome.Err? ==> r.store == s
  {
    if productId !in s.products then
      ProductService.Step(s, Err(ProductNotFound(Some(NumId(productId)))))
    else
      var p := s.products[productId];
      if p.stock < quantity then
        ProductService.Step(s, Err(InsufficientStock(p.stock, quantity, Some(p.name))))
      else
        var sale := Sale(|s.sales| + 1, productId, quantity, p.price * quantity, now);
        var saved := s.(sales := s.sales + [sale]);
        var reduced := ProductService.ReduceStock(saved, productId, quantity, Some(ProductService.SaleReason));
        match reduced.outcome
        case Ok(_) => ProductService.Step(reduced.store, Ok(sale))
        case Err(e) => ProductService.Step(reduced.store, Err(e))
  }

  /**
   * In the sequential model the stock decrement that follows a saved sale
   * always succeeds: the sale passed the same stock check against the same
   * product, and saving the sale row does not touch products.
   */
  lemma SaleDecrementCannotFail(s: Store, productId: Id, quantity: int, sale: Sale)
    requires productId in s.products && quantity <= s.products[productId].stock
    ensures ProductService.ReduceStock(s.(sales := s.sales + [sale]), productId, quantity,
                                       Some(ProductService.SaleReason)).outcome.Ok?
  {
  }

  /**
   * A successful sale records exactly one sale row priced at the current
   * price, lowers only that product's stock by the quantity and logs exactly
   * one "Sale" row of `-quantity`.
   */
  lemma CreateSaleEffect(s: Store, productId: Id, quantity: int, now: int)
    requires productId in s.products && quantity <= s.products[productId].stock
    ensures var r := CreateSale(s, productId, quantity, now);
      var p := s.products[productId];
      && r.outcome.Ok?
      && r.outcome.value == Sale(|s.sales| + 1, productId, quantity, p.price * quantity, now)
      && r.store.sales == s.sales + [r.outcome.value]
      && productId in r.store.products
      && r.store.products[productId] == p.(stock := p.stock - quantity)
      && (forall other :: other != productId ==> (other in r.store.products <==> other in s.products))
      && (forall other :: other in s.products && other != productId ==> r.store.products[other] == s.products[other])
      && r.store.changes == s.changes + [InventoryChange(productId, -quantity, ProductService.SaleReason)]
  {
    var sale := Sale(|s.sales| + 1, productId, quantity, s.products[productId].price * quantity, now);
    var saved := s.(sales := s.sales + [sale]);
    SaleDecrementCannotFail(s, productId, quantity, sale);
    var after := ProductService.Adjust(saved, productId, -quantity, ProductService.SaleReason);
    assert after.changes == s.changes + [InventoryChange(productId, -quantity, ProductService.SaleReason)];
  }

  lemma CreateSaleKeepsValid(s: Store, productId: Id, quantity: int, now: int)
    requires Valid(s)
    ensures Valid(CreateSale(s, productId, quantity, now).store)
  {
    if productId in s.products && quantity <= s.products[productId].stock {
      var sale := Sale(|s.sales| + 1, productId, quantity, s.products[productId].price * quantity, now);
      var saved := s.(sales := s.sales + [sale]);
      assert Valid(saved);
      ProductService.AdjustKeepsValid(saved, productId, -quantity, ProductService.SaleReason);
      CreateSaleEffect(s, productId, quantity, now);
    }
  }

  // ---------------------------------------------------------------------------
  // Date filters

  /**
   * `getSales`' date filter: both bounds select the inclusive range, one bound
   * selects one side, no bound selects everything.
   */
  predicate InListingWindow(t: int, start: Option<int>, end: Option<int>) {
    if start.Some? && end.Some? then start.value <= t <= end.value
    else if start.Some? then start.value <= t
    else if end.Some? then t <= end.value
    else true
  }

  /** The analytics' date filter: applied only when both bounds are given. */
  predicate InAnalyticsWindow(t: int, start: Option<int>, end: Option<int>) {
    if start.Some? && end.Some? then start.value <= t <= end.value else true
  }

  /**
   * The two filters agree when both bounds are present; with a single bound
   * the analytics keep every sale while the listing drops those on the wrong
   * side of it.
   */
  lemma WindowsDifferOnlyOnSingleBound(t: int, start: Option<int>, end: Option<int>)
    ensures start.Some? && end.Some? ==> (InListingWindow(t, start, end) <==> InAnalyticsWindow(t, start, end))
    ensures start.Some? != end.Some? ==> InAnalyticsWindow(t, start, end)
    ensures start.Some? && end.None? ==> (InListingWindow(t, start, end) <==> start.value <= t)
    ensures start.None? && end.Some? ==> (InListingWindow(t, start, end) <==> t <= end.value)
    ensures start.None? && end.None? ==> InListingWindow(t, start, end) && InAnalyticsWindow(t, start, end)
  {
  }

  // ---------------------------------------------------------------------------
  // Sales listing

  /** The sales listing's filters; each absent one selects everything. */
  datatype SalesFilter = SalesFilter(
    startDate: Option<int>,
    endDate: Option<int>,
    productId: Option<Id>,
    categoryId: Option<Id>)

  /** The sales listing request after the query defaults (page 1, limit 10). */
  datatype SalesQuery = SalesQuery(page: int, limit: int, filter: SalesFilter)

  /** The category a sale joins to through its product, if both rows exist. */
  function SaleCategory(s: Store, sale: Sale): (c: Option<Id>)
    ensures c.Some? ==> sale.productId in s.products && c.value == s.products[sale.productId].categoryId
    ensures c.Some? ==> c.value in s.categories
    ensures sale.productId in s.products && s.products[sale.productId].categoryId in s.categories ==>
      c == Some(s.products[sale.productId].categoryId)
  {
    if sale.productId in s.products && s.products[sale.productId].categoryId in s.categories then
      Some(s.products[sale.productId].categoryId)
    else None
  }

  /** The listing's WHERE clause; product and category are matched through the joins. */
  predicate SaleMatches(s: Store, sale: Sale, f: SalesFilter) {
    && InListingWindow(sale.soldAt, f.startDate, f.endDate)
    && (f.productId.Some? ==> sale.productId in s.products && sale.productId == f.productId.value)
    && (f.categoryId.Some? ==> SaleCategory(s, sale) == Some(f.categoryId.value))
  }

  function SoldAt(sale: Sale): int {
    sale.soldAt
  }

  /** The sales passing the listing's filters, in insertion order. */
  function SelectedSales(s: Store, f: SalesFilter): seq<Sale> {
    Seqs.Filter(s.sales, (sale: Sale) => SaleMatches(s, sale, f))
  }

  /** ORDER BY soldAt DESC over the selected sales. */
  function SalesListing(s: Store, f: SalesFilter): (r: seq<Sale>)
    ensures forall i :: 0 <= i < |r| ==> r[i] in s.sales && SaleMatches(s, r[i], f)
    ensures forall i, j :: 0 <= i < j < |r| ==> r[i].soldAt >= r[j].soldAt
    ensures multiset(r) == multiset(SelectedSales(s, f))
    ensures |r| == |SelectedSales(s, f)|
  {
    var selected := SelectedSales(s, f);
    var listing := Sorting.SortDesc(selected, SoldAt);
    forall k | 0 <= k < |listing|
      ensures listing[k] in s.sales && SaleMatches(s, listing[k], f)
    {
      assert listing[k] in multiset(selected);
    }
    forall i, j | 0 <= i < j < |listing|
      ensures listing[i].soldAt >= listing[j].soldAt
    {
      assert SoldAt(listing[i]) >= SoldAt(listing[j]);
    }
    listing
  }

  /**
   * `getSales`: one page of the sales that pass the date, product and category
   * filters, newest first, with the match count and page count.
   */
  function GetSales(s: Store, q: SalesQuery): (r: (seq<Sale>, Pagination.Info))
    requires 1 <= q.page && 1 <= q.limit
    ensures |r.0| <= q.limit
    ensures forall i :: 0 <= i < |r.0| ==> r.0[i] in s.sales && SaleMatches(s, r.0[i], q.filter)
    ensures forall i, j :: 0 <= i < j < |r.0| ==> r.0[i].soldAt >= r.0[j].soldAt
    ensures r.0 == Pagination.PageOf(SalesListing(s, q.filter), q.page, q.limit)
    ensures r.1.page == q.page && r.1.limit == q.limit
    ensures r.1.total == |SelectedSales(s, q.filter)|
    ensures r.1.totalPages == Pagination.TotalPages(r.1.total, q.limit)
    ensures r.1.totalPages * q.limit >= r.1.total
  {
    var listing := SalesListing(s, q.filter);
    var r := Pagination.Paginate(listing, q.page, q.limit);
    var skip := Pagination.Skip(q.page, q.limit);
    assert forall i :: 0 <= i < |r.0| ==> r.0[i] == listing[skip + i];
    r
  }

  /** Every stored sale passing the filters is in the ordered listing. */
  lemma MatchingSaleIsListed(s: Store, f: SalesFilter, k: nat) returns (i: nat)
    requires k < |s.sales| && SaleMatches(s, s.sales[k], f)
    ensures i < |SalesListing(s, f)| && SalesListing(s, f)[i] == s.sales[k]
  {
    var listing := SalesListing(s, f);
    assert s.sales[k] in SelectedSales(s, f);
    assert s.sales[k] in multiset(listing);
    i :| 0 <= i < |listing| && listing[i] == s.sales[k];
  }

  /** Every selected sale appears on the page its rank gives it. */
  lemma GetSalesListsEverySelected(s: Store, f: SalesFilter, limit: int, i: nat) returns (page: int, pos: nat)
    requires 1 <= limit && i < |SalesListing(s, f)|
    ensures 1 <= page <= GetSales(s, SalesQuery(page, limit, f)).1.totalPages
    ensures var shown := GetSales(s, SalesQuery(page, limit, f)).0;
      pos < |shown| && shown[pos] == SalesListing(s, f)[i]
  {
    page, pos := Pagination.ItemOnItsPage(SalesListing(s, f), limit, i);
  }

  // ---------------------------------------------------------------------------
  // Revenue by period

  /** The time buckets of the revenue report. */
  datatype Granularity = Daily | Weekly | Monthly | Annual

  /** The `period` switch: the four known names, and daily grouping for anything else. */
  function GroupingOf(period: string): (g: Granularity)
    ensures g == Weekly <==> period == "weekly"
    ensures g == Monthly <==> period == "monthly"
    ensures g == Annual <==> period == "annual"
    ensures g == Daily <==> period !in {"weekly", "monthly", "annual"}
  {
    match period
    case "daily" => Daily
    case "weekly" => Weekly
    case "monthly" => Monthly
    case "annual" => Annual
    case _ => Daily
  }

  function PeriodName(g: Granularity): string {
    match g
    case Daily => "daily"
    case Weekly => "weekly"
    case Monthly => "monthly"
    case Annual => "annual"
  }

  /** Each accepted period name selects its own grouping. */
  lemma GroupingOfName(g: Granularity)
    ensures GroupingOf(PeriodName(g)) == g
  {
  }

  /**
   * The key of a sale's bucket under granularity `g`. `bucketKey` stands for
   * the database's DATE / YEARWEEK / DATE_FORMAT(…, "%Y-%m") / YEAR of the sale
   * time, encoded as an integer that orders as the period values do.
   */
  function PeriodKey(bucketKey: (Granularity, int) -> int, g: Granularity): Sale -> int {
    (sale: Sale) => bucketKey(g, sale.soldAt)
  }

  /** The sales the analytics look at. */
  function AnalyticsSelection(s: Store, start: Option<int>, end: Option<int>): seq<Sale> {
    Seqs.Filter(s.sales, (sale: Sale) => InAnalyticsWindow(sale.soldAt, start, end))
  }

  /** The report summary. */
  datatype Summary = Summary(totalRevenue: int, totalQuantity: int, totalSales: int, averageOrderValue: real)

  /** Totals over the returned rows; the average is 0 when there were no sales. */
  function Summarize<K>(rows: seq<Bucket<K>>): (r: Summary)
    ensures r.totalRevenue == Seqs.SumOf(rows, BucketRevenue)
    ensures r.totalQuantity == Seqs.SumOf(rows, BucketQuantity)
    ensures r.totalSales == Seqs.SumOf(rows, BucketSales)
    ensures r.totalSales > 0 ==> r.averageOrderValue * r.totalSales as real == r.totalRevenue as real
    ensures r.totalSales <= 0 ==> r.averageOrderValue == 0.0
  {
    var revenue := Seqs.SumOf(rows, BucketRevenue);
    var count := Seqs.SumOf(rows, BucketSales);
    Summary(revenue, Seqs.SumOf(rows, BucketQuantity), count,
            if count > 0 then revenue as real / count as real else 0.0)
  }

  datatype RevenueReport = RevenueReport(period: string, analytics: seq<Bucket<int>>, summary: Summary)

  /**
   * `getRevenueAnalytics`: the selected sales grouped by period bucket, newest
   * bucket first, with totals and the average order value.
   */
  function GetRevenueAnalytics(s: Store, period: Option<string>, start: Option<int>, end: Option<int>,
                               bucketKey: (Granularity, int) -> int): (r: RevenueReport)
    ensures r.period == period.GetOr("daily")
    ensures var key := PeriodKey(bucketKey, GroupingOf(period.GetOr("daily")));
      var selected := AnalyticsSelection(s, start, end);
      && (forall i :: 0 <= i < |r.analytics| ==> r.analytics[i] == BucketOf(selected, key, r.analytics[i].key))
      && (forall i :: 0 <= i < |r.analytics| ==> r.analytics[i].totalSales > 0)
      && (forall i, j :: 0 <= i < j < |r.analytics| ==> r.analytics[i].key > r.analytics[j].key)
      && r.summary.totalRevenue == Revenue(selected)
      && r.summary.totalQuantity == Quantity(selected)
      && r.summary.totalSales == |selected|
    ensures r.summary == Summarize(r.analytics)
  {
    var name := period.GetOr("daily");
    var rows := RankedGroups(AnalyticsSelection(s, start, end), PeriodKey(bucketKey, GroupingOf(name)), KeyScore);
    StrictlyDescending(rows);
    RevenueReport(name, rows, Summarize(rows))
  }

  /** Every sale in the date window is counted in the row of its period. */
  lemma EverySaleHasItsPeriod(s: Store, period: Option<string>, start: Option<int>, end: Option<int>,
                              bucketKey: (Granularity, int) -> int, k: nat) returns (i: nat)
    requires k < |s.sales| && InAnalyticsWindow(s.sales[k].soldAt, start, end)
    ensures var r := GetRevenueAnalytics(s, period, start, end, bucketKey);
      i < |r.analytics| && r.analytics[i].key == bucketKey(GroupingOf(period.GetOr("daily")), s.sales[k].soldAt)
  {
    var selected := AnalyticsSelection(s, start, end);
    var key := PeriodKey(bucketKey, GroupingOf(period.GetOr("daily")));
    assert s.sales[k] in selected;
    var j :| 0 <= j < |selected| && selected[j] == s.sales[k];
    i := RankedGroupsCoverEveryKey(selected, key, KeyScore, j);
  }

  // ---------------------------------------------------------------------------
  // Revenue by category

  /** `category.id, category.name` of a sale, both NULL when the join finds no category. */
  function CategoryOf(s: Store, sale: Sale): (Option<Id>, Option<string>) {
    match SaleCategory(s, sale)
    case Some(c) => (Some(c), Some(s.categories[c]))
    case None => (None, None)
  }

  function CategoryKey(s: Store): Sale -> (Option<Id>, Option<string>) {
    (sale: Sale) => CategoryOf(s, sale)
  }

  /**
   * `getSalesByCategory`: the selected sales grouped by category, highest
   * revenue first. The revenue over all rows is the revenue of all selected
   * sales.
   */
  function GetSalesByCategory(s: Store, start: Option<int>, end: Option<int>): (r: seq<Bucket<(Option<Id>, Option<string>)>>)
    ensures var selected := AnalyticsSelection(s, start, end);
      && (forall i :: 0 <= i < |r| ==> r[i] == BucketOf(selected, CategoryKey(s), r[i].key))
      && (forall i, j :: 0 <= i < j < |r| ==> r[i].revenue >= r[j].revenue)
      && (forall i, j :: 0 <= i < j < |r| ==> r[i].key != r[j].key)
      && Seqs.SumOf(r, BucketRevenue) == Revenue(selected)
      && Seqs.SumOf(r, BucketSales) == |selected|
  {
    var rows := RankedGroups(AnalyticsSelection(s, start, end), CategoryKey(s), BucketRevenue);
    RevenueOrder(rows);
    rows
  }

  lemma RevenueOrder<K>(rows: seq<Bucket<K>>)
    requires Sorting.SortedDesc(rows, BucketRevenue)
    ensures forall i, j :: 0 <= i < j < |rows| ==> rows[i].revenue >= rows[j].revenue
  {
    forall i, j | 0 <= i < j < |rows|
      ensures rows[i].revenue >= rows[j].revenue
    {
      assert BucketRevenue(rows[i]) >= BucketRevenue(rows[j]);
    }
  }

  // ---------------------------------------------------------------------------
  // Period comparison

  /** One aggregate row as the database returns it: SUM of no rows is NULL, COUNT is 0. */
  datatype RawTotals = RawTotals(revenue: Option<int>, totalQuantity: Option<int>, totalSales: nat)

  /** The sales in the inclusive range `[start, end]`. */
  function InRange(s: Store, start: int, end: int): (r: seq<Sale>)
    ensures forall i :: 0 <= i < |r| ==> r[i] in s.sales && start <= r[i].soldAt <= end
    ensures forall k :: 0 <= k < |s.sales| && start <= s.sales[k].soldAt <= end ==> s.sales[k] in r
    ensures forall x :: multiset(r)[x] == if start <= x.soldAt <= end then multiset(s.sales)[x] else 0
  {
    Seqs.Filter(s.sales, (sale: Sale) => start <= sale.soldAt <= end)
  }

  function RawTotalsOf(sales: seq<Sale>): (r: RawTotals)
    ensures r.totalSales == |sales|
    ensures r.revenue.None? <==> |sales| == 0
    ensures r.revenue.Some? ==> r.revenue.value == Revenue(sales) && r.totalQuantity == Some(Quantity(sales))
  {
    if |sales| == 0 then RawTotals(None, None, 0)
    else RawTotals(Some(Revenue(sales)), Some(Quantity(sales)), |sales|)
  }

  /** A NULL aggregate reads as 0, both in arithmetic and in the reported totals. */
  function OrZero(x: Option<int>): int {
    x.GetOr(0)
  }

  /**
   * The percentage change from `previous` to `current`, defined as 0 when the
   * previous value is not positive.
   */
  function PercentChange(current: int, previous: int): (r: real)
    ensures previous > 0 ==> r * previous as real == (current - previous) as real * 100.0
    ensures previous <= 0 ==> r == 0.0
  {
    if previous > 0 then (current - previous) as real / previous as real * 100.0 else 0.0
  }

  /**
   * With a positive previous value, the change is positive exactly when the
   * value grew, zero exactly when it stayed, and applying it to the previous
   * value gives back the current one.
   */
  lemma PercentChangeMeaning(current: int, previous: int)
    requires previous > 0
    ensures PercentChange(current, previous) > 0.0 <==> current > previous
    ensures PercentChange(current, previous) == 0.0 <==> current == previous
    ensures previous as real + previous as real * PercentChange(current, previous) / 100.0 == current as real
  {
    var c := PercentChange(current, previous);
    var p := previous as real;
    assert c * p == (current - previous) as real * 100.0;
    if c > 0.0 {
      assert c * p > 0.0;
    } else if c < 0.0 {
      assert c * p < 0.0;
    }
  }

  datatype PeriodReport = PeriodReport(startDate: int, endDate: int, revenue: int, totalQuantity: int, totalSales: int)

  datatype Comparison = Comparison(
    currentPeriod: PeriodReport,
    previousPeriod: PeriodReport,
    revenueChange: real,
    quantityChange: real,
    salesChange: real)

  function Report(start: int, end: int, t: RawTotals): PeriodReport {
    PeriodReport(start, end, OrZero(t.revenue), OrZero(t.totalQuantity), t.totalSales)
  }

  /**
   * `getSalesComparison`: totals of the two inclusive ranges (0 where the
   * database returns NULL) and the percentage change of each.
   */
  function GetSalesComparison(s: Store, currentStart: int, currentEnd: int,
                              previousStart: int, previousEnd: int): (r: Comparison)
    ensures var cur := InRange(s, currentStart, currentEnd);
      var prev := InRange(s, previousStart, previousEnd);
      && r.currentPeriod == PeriodReport(currentStart, currentEnd, Revenue(cur), Quantity(cur), |cur|)
      && r.previousPeriod == PeriodReport(previousStart, previousEnd, Revenue(prev), Quantity(prev), |prev|)
      && r.revenueChange == PercentChange(Revenue(cur), Revenue(prev))
      && r.quantityChange == PercentChange(Quantity(cur), Quantity(prev))
      && r.salesChange == PercentChange(|cur|, |prev|)
  {
    var cur := RawTotalsOf(InRange(s, currentStart, currentEnd));
    var prev := RawTotalsOf(InRange(s, previousStart, previousEnd));
    Comparison(
      Report(currentStart, currentEnd, cur),
      Report(previousStart, previousEnd, prev),
      PercentChange(OrZero(cur.revenue), OrZero(prev.revenue)),
      PercentChange(OrZero(cur.totalQuantity), OrZero(prev.totalQuantity)),
      PercentChange(cur.totalSales, prev.totalSales))
  }

  /**
   * A period with no sales reads as zero revenue, and a comparison against it
   * reports no change, not a division by zero.
   */
  lemma EmptyPreviousPeriodReportsNoChange(s: Store, currentStart: int, currentEnd: int,
                                           previousStart: int, previousEnd: int)
    requires InRange(s, previousStart, previousEnd) == []
    ensures var r := GetSalesComparison(s, currentStart, currentEnd, previousStart, previousEnd);
      && r.previousPeriod.revenue == 0 && r.previousPeriod.totalSales == 0
      && r.revenueChange == 0.0 && r.quantityChange == 0.0 && r.salesChange == 0.0
  {
  }
}
