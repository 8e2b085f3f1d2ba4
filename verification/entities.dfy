/**
 * The persisted entities (categories, products, sales and the inventory-change
 * log) held in memory as one immutable store. Identifiers are the
 * auto-increment primary keys; timestamps are integers.
 */
module Entities {
  import opened Wrappers

  type Id = nat

  /** A product row. `price` is in integer cents (the column is DECIMAL(10,2)). */
  datatype Product = Product(
    name: string,
    description: Option<string>,
    price: int,
    sku: string,
    stock: int,
    categoryId: Id)

  /** One row of the append-only inventory log: a signed stock delta and its reason. */
  datatype InventoryChange = InventoryChange(productId: Id, changeAmount: int, reason: string)

  /** A sale row; `totalPrice` (cents) is the price × quantity snapshot taken when it was recorded. */
  datatype Sale = Sale(id: Id, productId: Id, quantity: int, totalPrice: int, soldAt: int)

  /**
   * The whole database: categories by id (their names), products by id, the
   * next product id the auto-increment will hand out, the inventory log and
   * the sales table, both in insertion order.
   */
  datatype Store = Store(
    categories: map<Id, string>,
    products: map<Id, Product>,
    nextProductId: Id,
    changes: seq<InventoryChange>,
    sales: seq<Sale>)

  /** The sum of the logged deltas for product `id`. */
  function LedgerSum(changes: seq<InventoryChange>, id: Id): int
    decreases |changes|
  {
    if |changes| == 0 then 0
    else
      var last := changes[|changes| - 1];
      LedgerSum(changes[..|changes| - 1], id) + (if last.productId == id then last.changeAmount else 0)
  }

  /** Appending a row moves only its own product's sum, by exactly its delta. */
  lemma LedgerSumAppend(changes: seq<InventoryChange>, row: InventoryChange, id: Id)
    ensures LedgerSum(changes + [row], id)
         == LedgerSum(changes, id) + (if row.productId == id then row.changeAmount else 0)
  {
    assert (changes + [row])[..|changes|] == changes;
  }

  /** A product no row mentions has a ledger sum of zero. */
  lemma {:induction false} LedgerSumUnmentioned(changes: seq<InventoryChange>, id: Id)
    requires forall i :: 0 <= i < |changes| ==> changes[i].productId != id
    ensures LedgerSum(changes, id) == 0
    decreases |changes|
  {
    if |changes| > 0 {
      LedgerSumUnmentioned(changes[..|changes| - 1], id);
    }
  }

  /** SKUs are pairwise distinct across products. */
  ghost predicate SkusDistinct(products: map<Id, Product>) {
    forall a, b :: a in products && b in products && a != b ==> products[a].sku != products[b].sku
  }

  /** Every product id was handed out by the auto-increment counter, which starts at 1. */
  ghost predicate IdsIssued(s: Store) {
    && 0 < s.nextProductId
    && (forall id :: id in s.products ==> 0 < id < s.nextProductId)
  }

  /**
   * The store invariant: ids come from the auto-increment counter, every
   * product belongs to a known category and has a positive price, stock is
   * never negative and equals the sum of the product's logged deltas, log and
   * sales rows reference existing products, sale ids are their insertion
   * positions, and SKUs are unique.
   */
  ghost predicate Valid(s: Store) {
    && IdsIssued(s)
    && (forall id :: id in s.products ==> s.products[id].categoryId in s.categories)
    && (forall id :: id in s.products ==> s.products[id].price > 0)
    && (forall id :: id in s.products ==> s.products[id].stock >= 0)
    && (forall id :: id in s.products ==> s.products[id].stock == LedgerSum(s.changes, id))
    && (forall i :: 0 <= i < |s.changes| ==> s.changes[i].productId in s.products)
    && (forall i :: 0 <= i < |s.sales| ==> s.sales[i].productId in s.products && s.sales[i].id == i + 1)
    && SkusDistinct(s.products)
  }

  /** A fresh database holding only categories. */
  function Initial(categories: map<Id, string>): (s: Store)
    ensures Valid(s)
    ensures s.products == map[] && s.changes == [] && s.sales == []
  {
    Store(categories, map[], 1, [], [])
  }
}
