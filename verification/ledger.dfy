/**
 * Sequences of stock mutations run one after another against the store:
 * the invariants hold after any such run, each successful mutation adds
 * exactly one ledger row, and the worked scenarios come out as described.
 */
module Ledger {
  import opened Wrappers
  import opened Entities
  import ProductService
  import SalesService
  import Errors

  /** One mutating service call. */
  datatype Command =
    | CreateProduct(input: ProductService.ProductInput)
    | UpdateInventory(id: Id, changeAmount: int, reason: Option<string>)
    | ReduceStock(id: Id, quantity: int, reason: Option<string>)
    | CreateSale(productId: Id, quantity: int, soldAt: int)

  /**
   * What the request validation lets through to the service: a new product
   * has a positive price and a non-negative stock.
   */
  predicate Admissible(c: Command) {
    c.CreateProduct? ==> c.input.price > 0 && c.input.stock >= 0
  }

  /** The store after the call and whether it succeeded. */
  function Execute(s: Store, c: Command): (r: (Store, bool))
    ensures !r.1 ==> r.0 == s
    ensures r.1 ==> |r.0.changes| == |s.changes| + 1 && r.0.changes[..|s.changes|] == s.changes
  {
    match c
    case CreateProduct(input) =>
      var r := ProductService.CreateProduct(s, input);
      (r.store, r.outcome.Ok?)
    case UpdateInventory(id, amount, reason) =>
      var r := ProductService.UpdateInventory(s, id, amount, reason);
      (r.store, r.outcome.Ok?)
    case ReduceStock(id, quantity, reason) =>
      var r := ProductService.ReduceStock(s, id, quantity, reason);
      (r.store, r.outcome.Ok?)
    case CreateSale(productId, quantity, soldAt) =>
      var r := SalesService.CreateSale(s, productId, quantity, soldAt);
      if r.outcome.Ok? then
        SalesService.CreateSaleEffect(s, productId, quantity, soldAt);
        (r.store, true)
      else (r.store, false)
  }

  lemma ExecuteKeepsValid(s: Store, c: Command)
    requires Valid(s) && Admissible(c)
    ensures Valid(Execute(s, c).0)
  {
    match c
    case CreateProduct(input) => ProductService.CreateProductKeepsValid(s, input);
    case UpdateInventory(id, amount, reason) => ProductService.UpdateInventoryKeepsValid(s, id, amount, reason);
    case ReduceStock(id, quantity, reason) => ProductService.ReduceStockKeepsValid(s, id, quantity, reason);
    case CreateSale(productId, quantity, soldAt) => SalesService.CreateSaleKeepsValid(s, productId, quantity, soldAt);
  }

  /** Runs the calls in order; returns the final store and how many succeeded. */
  function Run(s: Store, cmds: seq<Command>): (r: (Store, nat))
    ensures |r.0.changes| == |s.changes| + r.1
    ensures r.0.changes[..|s.changes|] == s.changes
    ensures r.1 <= |cmds|
    decreases |cmds|
  {
    if |cmds| == 0 then (s, 0)
    else
      var first := Execute(s, cmds[0]);
      var rest := Run(first.0, cmds[1..]);
      assert rest.0.changes[..|s.changes|] == first.0.changes[..|s.changes|];
      (rest.0, rest.1 + if first.1 then 1 else 0)
  }

  /**
   * After any run of admissible calls from a valid store, every stock is
   * non-negative and equals the sum of its ledger rows, and SKUs are distinct.
   */
  lemma {:induction false} RunKeepsValid(s: Store, cmds: seq<Command>)
    requires Valid(s)
    requires forall i :: 0 <= i < |cmds| ==> Admissible(cmds[i])
    ensures Valid(Run(s, cmds).0)
    ensures forall id :: id in Run(s, cmds).0.products ==>
      Run(s, cmds).0.products[id].stock >= 0
      && Run(s, cmds).0.products[id].stock == LedgerSum(Run(s, cmds).0.changes, id)
    decreases |cmds|
  {
    if |cmds| > 0 {
      ExecuteKeepsValid(s, cmds[0]);
      RunKeepsValid(Execute(s, cmds[0]).0, cmds[1..]);
    }
  }

  // ---------------------------------------------------------------------------
  // Worked scenarios

  /**
   * A product created with stock 20, then adjusted by +5 ("restock") and by -3
   * ("sale"), ends with stock 22; its ledger rows are +20, +5 and -3, the two
   * adjustments netting +2.
   */
  lemma RestockThenSellScenario(s: Store, input: ProductService.ProductInput)
    requires Valid(s) && input.stock == 20 && input.price > 0
    requires !ProductService.SkuTaken(s.products, input.sku) && input.categoryId in s.categories
    ensures var created := ProductService.CreateProduct(s, input);
      var id := created.outcome.value.0;
      var up := ProductService.UpdateInventory(created.store, id, 5, Some("restock"));
      var down := ProductService.UpdateInventory(up.store, id, -3, Some("sale"));
      && created.outcome.Ok? && up.outcome.Ok? && down.outcome.Ok?
      && down.store.products[id].stock == 22
      && down.store.changes == s.changes + [InventoryChange(id, 20, ProductService.InitialStockReason),
                                            InventoryChange(id, 5, "restock"),
                                            InventoryChange(id, -3, "sale")]
      && LedgerSum(down.store.changes, id) == 22
  {
    var created := ProductService.CreateProduct(s, input);
    var id := created.outcome.value.0;
    var up := ProductService.UpdateInventory(created.store, id, 5, Some("restock"));
    var down := ProductService.UpdateInventory(up.store, id, -3, Some("sale"));
    assert created.store.changes == s.changes + [InventoryChange(id, 20, ProductService.InitialStockReason)];
    assert up.store.changes == created.store.changes + [InventoryChange(id, 5, "restock")];
    assert down.store.changes == up.store.changes + [InventoryChange(id, -3, "sale")];
    assert id !in s.products;
    LedgerSumUnmentioned(s.changes, id);
    LedgerSumAppend(s.changes, InventoryChange(id, 20, ProductService.InitialStockReason), id);
    LedgerSumAppend(created.store.changes, InventoryChange(id, 5, "restock"), id);
    LedgerSumAppend(up.store.changes, InventoryChange(id, -3, "sale"), id);
  }

  /**
   * A product priced 10.00 (1000 cents) with stock 5 sells 3: the sale totals
   * 30.00, the stock becomes 2 and one row of -3 is logged.
   */
  lemma SaleScenario(s: Store, id: Id, soldAt: int)
    requires id in s.products && s.products[id].price == 1000 && s.products[id].stock == 5
    ensures var r := SalesService.CreateSale(s, id, 3, soldAt);
      && r.outcome.Ok? && r.outcome.value.totalPrice == 3000
      && r.store.products[id].stock == 2
      && r.store.changes == s.changes + [InventoryChange(id, -3, ProductService.SaleReason)]
  {
    SalesService.CreateSaleEffect(s, id, 3, soldAt);
  }

  /** A sale larger than the stock fails with the stock untouched. */
  lemma OversizedSaleScenario(s: Store, id: Id, soldAt: int)
    requires id in s.products && s.products[id].stock == 5
    ensures var r := SalesService.CreateSale(s, id, 6, soldAt);
      && r.outcome == Err(Errors.InsufficientStock(5, 6, Some(s.products[id].name)))
      && r.store == s
  {
  }
}
