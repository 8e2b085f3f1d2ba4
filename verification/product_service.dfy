/**
 * The product service: creating products, manual inventory adjustments and
 * stock reduction as guarded transitions of the store, plus the product
 * listing and the inventory status report as pure queries.
 */
module ProductService {
  import opened Wrappers
  import opened Entities
  import opened Errors
  import Seqs
  import Sorting
  import Pagination

  /**
   * One service call: the store afterwards and what the call returned or
   * threw. A thrown error may in principle follow writes that already
   * happened, so the store is kept on both paths.
   */
  datatype Step<T> = Step(store: Store, outcome: Result<T, ApiError>)

  /** The fields `createProduct` receives. */
  datatype ProductInput = ProductInput(
    name: string,
    description: Option<string>,
    price: int,
    sku: string,
    stock: int,
    categoryId: Id)

  /** What `updateInventory` returns. */
  datatype InventoryUpdate = InventoryUpdate(
    productId: Id,
    previousStock: int,
    newStock: int,
    changeAmount: int,
    reason: string)

  const InitialStockReason := "Initial stock"
  const ManualAdjustmentReason := "Manual adjustment"
  const SaleReason := "Sale"

  /** Whether some product already uses `sku` (the `findOne({ where: { sku } })` lookup). */
  predicate SkuTaken(products: map<Id, Product>, sku: string) {
    exists id :: id in products && products[id].sku == sku
  }

  /**
   * The write pair shared by every stock mutation: store the new stock, then
   * log exactly one row carrying the signed delta.
   */
  function Adjust(s: Store, id: Id, delta: int, reason: string): (r: Store)
    requires id in s.products
    ensures id in r.products && r.products[id].stock == s.products[id].stock + delta
    ensures forall other :: other != id ==> (other in r.products <==> other in s.products)
    ensures forall other :: other in s.products && other != id ==> r.products[other] == s.products[other]
    ensures r.products[id] == s.products[id].(stock := s.products[id].stock + delta)
    ensures |r.changes| == |s.changes| + 1 && r.changes[..|s.changes|] == s.changes
    ensures r.changes[|s.changes|] == InventoryChange(id, delta, reason)
    ensures r.categories == s.categories && r.sales == s.sales && r.nextProductId == s.nextProductId
  {
    var p := s.products[id];
    var saved := s.(products := s.products[id := p.(stock := p.stock + delta)]);
    var r := saved.(changes := saved.changes + [InventoryChange(id, delta, reason)]);
    assert r.changes[..|s.changes|] == s.changes;
    r
  }

  /**
   * `createProduct`: a taken SKU is rejected first, then an unknown category;
   * otherwise the product gets the next id and its initial stock is logged as
   * one "Initial stock" row.
   */
  function CreateProduct(s: Store, input: ProductInput): (r: Step<(Id, Product)>)
    ensures r.outcome.Err? ==> r.store == s
    ensures SkuTaken(s.products, input.sku) ==> r.outcome == Err(DuplicateSku(input.sku))
    ensures !SkuTaken(s.products, input.sku) && input.categoryId !in s.categories ==>
      r.outcome == Err(CategoryNotFound(Some(NumId(input.categoryId))))
    ensures r.outcome.Ok? <==> !SkuTaken(s.products, input.sku) && input.categoryId in s.categories
    ensures r.outcome.Ok? ==>
      var id := r.outcome.value.0;
      var p := r.outcome.value.1;
      && p.name == input.name && p.description == input.description && p.price == input.price
      && p.sku == input.sku && p.stock == input.stock && p.categoryId == input.categoryId
      && id in r.store.products && r.store.products[id] == p
      && (forall other :: other != id ==> (other in r.store.products <==> other in s.products))
      && (forall other :: other in s.products && other != id ==> r.store.products[other] == s.products[other])
      && |r.store.changes| == |s.changes| + 1 && r.store.changes[..|s.changes|] == s.changes
      && r.store.changes[|s.changes|] == InventoryChange(id, input.stock, InitialStockReason)
      && r.store.sales == s.sales && r.store.categories == s.categories
      && id == s.nextProductId && r.store.nextProductId == id + 1
  {
    if SkuTaken(s.products, input.sku) then
      Step(s, Err(DuplicateSku(input.sku)))
    else if input.categoryId !in s.categories then
      Step(s, Err(CategoryNotFound(Some(NumId(input.categoryId)))))
    else
      var id := s.nextProductId;
      var p := Product(input.name, input.description, input.price, input.sku, input.stock, input.categoryId);
      var saved := s.(products := s.products[id := p], nextProductId := id + 1);
      var r := saved.(changes := saved.changes + [InventoryChange(id, input.stock, InitialStockReason)]);
      assert r.changes[..|s.changes|] == s.changes;
      Step(r, Ok((id, p)))
  }

  /** `reason || 'Manual adjustment'`: an absent or empty reason takes the default. */
  function ReasonOrDefault(reason: Option<string>): (r: string)
    ensures r != ""
    ensures TextGiven(reason) ==> r == reason.value
    ensures !TextGiven(reason) ==> r == ManualAdjustmentReason
  {
    if TextGiven(reason) then reason.value else ManualAdjustmentReason
  }

  function Abs(x: int): (r: nat)
    ensures r == x || r == -x
  {
    if x < 0 then -x else x
  }

  /**
   * `updateInventory`: an unknown id is rejected, then a change that would take
   * stock below zero; otherwise the signed change is applied and logged, even
   * when it is zero.
   */
  function UpdateInventory(s: Store, id: Id, changeAmount: int, reason: Option<string>): (r: Step<InventoryUpdate>)
    ensures r.outcome.Err? ==> r.store == s
    ensures id !in s.products ==> r.outcome == Err(ProductNotFound(Some(NumId(id))))
    ensures id in s.products && s.products[id].stock + changeAmount < 0 ==>
      r.outcome == Err(InsufficientStock(s.products[id].stock, Abs(changeAmount), Some(s.products[id].name)))
    ensures r.outcome.Err? && r.outcome.error.InsufficientStock? ==>
      r.outcome.error.requestedQuantity > r.outcome.error.availableStock
    ensures r.outcome.Ok? <==> id in s.products && s.products[id].stock + changeAmount >= 0
    ensures r.outcome.Ok? ==>
      var u := r.outcome.value;
      && u.productId == id && u.changeAmount == changeAmount && u.reason == ReasonOrDefault(reason)
      && u.previousStock == s.products[id].stock
      && u.newStock == u.previousStock + changeAmount >= 0
      && r.store == Adjust(s, id, changeAmount, u.reason)
  {
    if id !in s.products then
      Step(s, Err(ProductNotFound(Some(NumId(id)))))
    else
      var p := s.products[id];
      var newStock := p.stock + changeAmount;
      if newStock < 0 then
        Step(s, Err(InsufficientStock(p.stock, Abs(changeAmount), Some(p.name))))
      else
        var why := ReasonOrDefault(reason);
        Step(Adjust(s, id, changeAmount, why), Ok(InventoryUpdate(id, p.stock, newStock, changeAmount, why)))
  }

  /**
   * `reduceStock`: an unknown id is rejected, then a quantity above the stock;
   * otherwise stock drops by the quantity and one row of `-quantity` is
   * logged. The reason defaults to "Sale" only when it is not passed at all.
   */
  function ReduceStock(s: Store, id: Id, quantity: int, reason: Option<string>): (r: Step<Product>)
    ensures r.outcome.Err? ==> r.store == s
    ensures id !in s.products ==> r.outcome == Err(ProductNotFound(Some(NumId(id))))
    ensures id in s.products && s.products[id].stock < quantity ==>
      r.outcome == Err(InsufficientStock(s.products[id].stock, quantity, Some(s.products[id].name)))
    ensures r.outcome.Ok? <==> id in s.products && quantity <= s.products[id].stock
    ensures r.outcome.Ok? ==>
      && r.outcome.value.stock == s.products[id].stock - quantity
      && r.store == Adjust(s, id, -quantity, reason.GetOr(SaleReason))
      && r.outcome.value == r.store.products[id]
  {
    if id !in s.products then
      Step(s, Err(ProductNotFound(Some(NumId(id)))))
    else
      var p := s.products[id];
      if p.stock < quantity then
        Step(s, Err(InsufficientStock(p.stock, quantity, Some(p.name))))
      else
        var after := Adjust(s, id, -quantity, reason.GetOr(SaleReason));
        Step(after, Ok(after.products[id]))
  }

  /** Any delta that keeps the stock non-negative preserves the store invariant. */
  lemma AdjustKeepsValid(s: Store, id: Id, delta: int, reason: string)
    requires Valid(s) && id in s.products
    requires s.products[id].stock + delta >= 0
    ensures Valid(Adjust(s, id, delta, reason))
    ensures LedgerSum(Adjust(s, id, delta, reason).changes, id) == LedgerSum(s.changes, id) + delta
  {
    var r := Adjust(s, id, delta, reason);
    var row := InventoryChange(id, delta, reason);
    assert r.changes == s.changes + [row];
    forall other | other in r.products
      ensures r.products[other].stock == LedgerSum(r.changes, other)
    {
      LedgerSumAppend(s.changes, row, other);
    }
    LedgerSumAppend(s.changes, row, id);
  }

  /**
   * A product created from input that passed the product schema (stock ≥ 0,
   * price > 0) keeps the invariant: its id is fresh and its ledger sum is
   * exactly its initial stock.
   */
  lemma CreateProductKeepsValid(s: Store, input: ProductInput)
    requires Valid(s) && input.stock >= 0 && input.price > 0
    ensures Valid(CreateProduct(s, input).store)
    ensures var r := CreateProduct(s, input);
      r.outcome.Ok? ==>
        && r.outcome.value.0 !in s.products
        && LedgerSum(r.store.changes, r.outcome.value.0) == input.stock
  {
    var r := CreateProduct(s, input);
    if r.outcome.Ok? {
      var id := r.outcome.value.0;
      var row := InventoryChange(id, input.stock, InitialStockReason);
      assert id == s.nextProductId;
      assert r.store.changes == s.changes + [row];
      LedgerSumUnmentioned(s.changes, id);
      forall other | other in r.store.products
        ensures r.store.products[other].stock == LedgerSum(r.store.changes, other)
      {
        LedgerSumAppend(s.changes, row, other);
      }
      forall a, b | a in r.store.products && b in r.store.products && a != b
        ensures r.store.products[a].sku != r.store.products[b].sku
      {
        if a == id {
          assert r.store.products[b] == s.products[b];
        } else if b == id {
          assert r.store.products[a] == s.products[a];
        }
      }
    }
  }

  lemma UpdateInventoryKeepsValid(s: Store, id: Id, changeAmount: int, reason: Option<string>)
    requires Valid(s)
    ensures Valid(UpdateInventory(s, id, changeAmount, reason).store)
  {
    if id in s.products && s.products[id].stock + changeAmount >= 0 {
      AdjustKeepsValid(s, id, changeAmount, ReasonOrDefault(reason));
    }
  }

  lemma ReduceStockKeepsValid(s: Store, id: Id, quantity: int, reason: Option<string>)
    requires Valid(s)
    ensures Valid(ReduceStock(s, id, quantity, reason).store)
  {
    var r := ReduceStock(s, id, quantity, reason);
    if r.outcome.Ok? {
      AdjustKeepsValid(s, id, -quantity, reason.GetOr(SaleReason));
    }
  }

  // ---------------------------------------------------------------------------
  // Queries

  /** A product is low on stock when its stock is strictly below the threshold. */
  predicate IsLowStock(p: Product, threshold: int) {
    p.stock < threshold
  }

  /** The ids below `n` that name products, highest first. */
  function IdsBelow(products: map<Id, Product>, n: nat): (r: seq<Id>)
    ensures forall i :: 0 <= i < |r| ==> r[i] in products && r[i] < n
    ensures forall i, j :: 0 <= i < j < |r| ==> r[i] > r[j]
    ensures forall id :: id in products && id < n ==> id in r
    decreases n
  {
    if n == 0 then []
    else if n - 1 in products then [n - 1] + IdsBelow(products, n - 1)
    else IdsBelow(products, n - 1)
  }

  /**
   * Every product with its id, newest first. Ids are handed out in creation
   * order, so this is the `createdAt DESC` order of the listing.
   */
  function NewestFirst(s: Store): (r: seq<(Id, Product)>)
    ensures forall i :: 0 <= i < |r| ==> r[i].0 in s.products && r[i].1 == s.products[r[i].0]
    ensures forall i, j :: 0 <= i < j < |r| ==> r[i].0 > r[j].0
    ensures IdsIssued(s) ==> forall id :: id in s.products ==> (id, s.products[id]) in r
  {
    var ids := IdsBelow(s.products, s.nextProductId);
    var r := seq(|ids|, i requires 0 <= i < |ids| => (ids[i], s.products[ids[i]]));
    assert IdsIssued(s) ==> forall id :: id in s.products ==> id in ids;
    assert forall id :: id in ids ==> (id, s.products[id]) in r by {
      forall id | id in ids ensures (id, s.products[id]) in r {
        var i :| 0 <= i < |ids| && ids[i] == id;
        assert r[i] == (id, s.products[id]);
      }
    }
    r
  }

  /** The listing filters after the query string defaults have been applied. */
  datatype ProductFilters = ProductFilters(category: Option<Id>, lowStock: bool, lowStockThreshold: int)

  /** A listing request: the page wanted, its size and the filters. */
  datatype ProductQuery = ProductQuery(page: int, limit: int, filters: ProductFilters)

  /** `getProducts` destructures with page 1, limit 10, lowStock false and threshold 10. */
  function ProductQueryWithDefaults(page: Option<int>, limit: Option<int>, category: Option<Id>,
                                    lowStock: Option<bool>, lowStockThreshold: Option<int>): (q: ProductQuery)
    ensures q.page == page.GetOr(1) && q.limit == limit.GetOr(10)
    ensures q.filters.category == category
    ensures q.filters.lowStock <==> lowStock == Some(true)
    ensures q.filters.lowStockThreshold == if lowStockThreshold.Some? then lowStockThreshold.value else 10
  {
    ProductQuery(page.GetOr(1), limit.GetOr(10),
                 ProductFilters(category, lowStock.GetOr(false), lowStockThreshold.GetOr(10)))
  }

  predicate Matches(p: Product, f: ProductFilters) {
    && (f.category.Some? ==> p.categoryId == f.category.value)
    && (f.lowStock ==> IsLowStock(p, f.lowStockThreshold))
  }

  /** `a` was created after `b`. */
  predicate NewerThan(a: (Id, Product), b: (Id, Product)) {
    a.0 > b.0
  }

  /** All products the filters select, newest first, before pagination. */
  function Listing(s: Store, f: ProductFilters): (r: seq<(Id, Product)>)
    ensures forall k :: 0 <= k < |r| ==> r[k].0 in s.products && r[k].1 == s.products[r[k].0] && Matches(r[k].1, f)
    ensures IdsIssued(s) ==> forall id :: id in s.products && Matches(s.products[id], f) ==> (id, s.products[id]) in r
    ensures forall i, j :: 0 <= i < j < |r| ==> r[i].0 > r[j].0
  {
    var rows := NewestFirst(s);
    var r := Seqs.Filter(rows, (row: (Id, Product)) => Matches(row.1, f));
    Seqs.FilterKeepsOrder(rows, (row: (Id, Product)) => Matches(row.1, f), NewerThan);
    forall k | 0 <= k < |r|
      ensures r[k].0 in s.products && r[k].1 == s.products[r[k].0]
    {
      var j :| 0 <= j < |rows| && rows[j] == r[k];
    }
    r
  }

  /**
   * `getProducts`: one page of the products matching the category and
   * low-stock filters, with the match count and page count.
   */
  function GetProducts(s: Store, q: ProductQuery): (r: (seq<(Id, Product)>, Pagination.Info))
    requires 1 <= q.page && 1 <= q.limit
    ensures |r.0| <= q.limit
    ensures forall i :: 0 <= i < |r.0| ==>
      r.0[i].0 in s.products && r.0[i].1 == s.products[r.0[i].0] && Matches(r.0[i].1, q.filters)
    ensures r.0 == Pagination.PageOf(Listing(s, q.filters), q.page, q.limit)
    ensures r.1.page == q.page && r.1.limit == q.limit && r.1.total == |Listing(s, q.filters)|
    ensures r.1.totalPages == Pagination.TotalPages(r.1.total, q.limit)
    ensures r.1.totalPages * q.limit >= r.1.total
  {
    Pagination.Paginate(Listing(s, q.filters), q.page, q.limit)
  }

  /**
   * Every product the filters select is listed on some page within
   * `totalPages`: the lemma names the page and the position on it.
   */
  lemma GetProductsListsEveryMatch(s: Store, f: ProductFilters, limit: int, id: Id) returns (page: int, pos: nat)
    requires IdsIssued(s) && 1 <= limit
    requires id in s.products && Matches(s.products[id], f)
    ensures 1 <= page <= GetProducts(s, ProductQuery(page, limit, f)).1.totalPages
    ensures var shown := GetProducts(s, ProductQuery(page, limit, f)).0;
      pos < |shown| && shown[pos] == (id, s.products[id])
  {
    var listing := Listing(s, f);
    var k :| 0 <= k < |listing| && listing[k] == (id, s.products[id]);
    page, pos := Pagination.ItemOnItsPage(listing, limit, k);
  }

  /** `getInventoryStatus`'s report. */
  datatype InventoryStatus = InventoryStatus(
    totalProducts: nat,
    lowStockProducts: nat,
    lowStockThreshold: int,
    totalInventoryValue: int,
    products: seq<(Id, Product)>,
    lowStockAlerts: seq<(Id, Product)>)

  /** Stock value of one product row, in cents. */
  function StockValue(row: (Id, Product)): int {
    row.1.stock * row.1.price
  }

  /** `ORDER BY stock ASC` as a descending order on the negated stock. */
  function StockAscending(row: (Id, Product)): int {
    -row.1.stock
  }

  /** The rows in ascending stock order. */
  function ByStock(rows: seq<(Id, Product)>): (r: seq<(Id, Product)>)
    ensures multiset(r) == multiset(rows) && |r| == |rows|
    ensures forall i, j :: 0 <= i < j < |r| ==> r[i].1.stock <= r[j].1.stock
  {
    var r := Sorting.SortDesc(rows, StockAscending);
    forall i, j | 0 <= i < j < |r|
      ensures r[i].1.stock <= r[j].1.stock
    {
      assert StockAscending(r[i]) >= StockAscending(r[j]);
    }
    r
  }

  /** The rows whose stock is below the threshold, in their order. */
  function LowStockRows(rows: seq<(Id, Product)>, threshold: int): (r: seq<(Id, Product)>)
    ensures |r| <= |rows|
    ensures forall i :: 0 <= i < |r| ==> IsLowStock(r[i].1, threshold) && r[i] in rows
    ensures forall i :: 0 <= i < |rows| && IsLowStock(rows[i].1, threshold) ==> rows[i] in r
    ensures forall x :: multiset(r)[x] == if IsLowStock(x.1, threshold) then multiset(rows)[x] else 0
    ensures (forall i, j :: 0 <= i < j < |rows| ==> rows[i].1.stock <= rows[j].1.stock) ==>
      forall i, j :: 0 <= i < j < |r| ==> r[i].1.stock <= r[j].1.stock
  {
    var low := (row: (Id, Product)) => IsLowStock(row.1, threshold);
    var r := Seqs.Filter(rows, low);
    assert Seqs.Ordered(rows, NoMoreStock) ==> Seqs.Ordered(r, NoMoreStock) by {
      if Seqs.Ordered(rows, NoMoreStock) {
        Seqs.FilterKeepsOrder(rows, low, NoMoreStock);
      }
    }
    r
  }

  /** `a` holds no more stock than `b`. */
  predicate NoMoreStock(a: (Id, Product), b: (Id, Product)) {
    a.1.stock <= b.1.stock
  }

  /**
   * `getInventoryStatus`: every product in ascending stock order, the
   * low-stock alerts among them, their counts and the total stock value.
   */
  function GetInventoryStatus(s: Store, threshold: int): (r: InventoryStatus)
    ensures multiset(r.products) == multiset(NewestFirst(s))
    ensures forall i, j :: 0 <= i < j < |r.products| ==> r.products[i].1.stock <= r.products[j].1.stock
    ensures r.totalProducts == |r.products| && r.lowStockThreshold == threshold
    ensures forall i :: 0 <= i < |r.lowStockAlerts| ==> IsLowStock(r.lowStockAlerts[i].1, threshold)
    ensures forall i :: 0 <= i < |r.products| && IsLowStock(r.products[i].1, threshold) ==>
      r.products[i] in r.lowStockAlerts
    ensures forall i :: 0 <= i < |r.lowStockAlerts| ==> r.lowStockAlerts[i] in r.products
    ensures forall x :: multiset(r.lowStockAlerts)[x] == if IsLowStock(x.1, threshold) then multiset(r.products)[x] else 0
    ensures forall i, j :: 0 <= i < j < |r.lowStockAlerts| ==> r.lowStockAlerts[i].1.stock <= r.lowStockAlerts[j].1.stock
    ensures r.lowStockProducts == |r.lowStockAlerts| <= r.totalProducts
    ensures r.totalInventoryValue == Seqs.SumOf(NewestFirst(s), StockValue)
  {
    var rows := ByStock(NewestFirst(s));
    var alerts := LowStockRows(rows, threshold);
    Seqs.SumOfPermutation(rows, NewestFirst(s), StockValue);
    InventoryStatus(|rows|, |alerts|, threshold, Seqs.SumOf(rows, StockValue), rows, alerts)
  }

  lemma {:induction false} SumOfNonNegative(rows: seq<(Id, Product)>)
    requires forall i :: 0 <= i < |rows| ==> rows[i].1.stock >= 0 && rows[i].1.price > 0
    ensures Seqs.SumOf(rows, StockValue) >= 0
    decreases |rows|
  {
    if |rows| > 0 {
      SumOfNonNegative(rows[1..]);
    }
  }

  /** In a valid store the inventory is never worth less than nothing. */
  lemma InventoryValueNonNegative(s: Store, threshold: int)
    requires Valid(s)
    ensures GetInventoryStatus(s, threshold).totalInventoryValue >= 0
  {
    var rows := NewestFirst(s);
    forall i | 0 <= i < |rows|
      ensures rows[i].1.stock >= 0 && rows[i].1.price > 0
    {
      assert rows[i].0 in s.products;
    }
    SumOfNonNegative(rows);
    assert GetInventoryStatus(s, threshold).totalInventoryValue == Seqs.SumOf(rows, StockValue);
  }
}
