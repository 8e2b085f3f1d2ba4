/**
 * The service's error taxonomy: every error is an ApiError carrying an HTTP
 * status code, a message computed when it is constructed, and the
 * `isOperational` mark; the subclasses add their own fields.
 */
module Errors {
  import opened Wrappers
  import Decimal
  import Schema

  /** The argument of the not-found errors, typed `number | string` in the source. */
  datatype IdArg = NumId(n: int) | TextId(text: string)

  /** One field-level validation failure as sent to the client; `value` is the offending input, if any. */
  datatype Detail = Detail(field: string, message: string, value: Option<Schema.Value>)

  /** The constructor arguments of each error class; the message and status are derived from them. */
  datatype ApiError =
    | Plain(text: string, status: int)
    | ValidationError(text: string, details: Option<seq<Detail>>)
    | ProductNotFound(productId: Option<IdArg>)
    | CategoryNotFound(categoryId: Option<IdArg>)
    | InsufficientStock(availableStock: int, requestedQuantity: int, productName: Option<string>)
    | DuplicateSku(sku: string)

  /** JavaScript truthiness of an optional id: absent, 0 and "" are falsy. */
  predicate IdGiven(id: Option<IdArg>) {
    match id
    case None => false
    case Some(NumId(n)) => n != 0
    case Some(TextId(t)) => t != ""
  }

  /** JavaScript truthiness of an optional string: absent and "" are falsy. */
  predicate TextGiven(text: Option<string>) {
    text.Some? && text.value != ""
  }

  /** How `${id}` prints the id. */
  function IdText(id: IdArg): string {
    match id
    case NumId(n) => Decimal.IntToString(n)
    case TextId(t) => t
  }

  /** The HTTP status each error class passes to the ApiError constructor. */
  function StatusCode(e: ApiError): (r: int)
    ensures e.ValidationError? || e.InsufficientStock? ==> r == 400
    ensures e.ProductNotFound? || e.CategoryNotFound? ==> r == 404
    ensures e.DuplicateSku? ==> r == 409
    ensures e.Plain? ==> r == e.status
  {
    match e
    case Plain(_, status) => status
    case ValidationError(_, _) => 400
    case ProductNotFound(_) => 404
    case CategoryNotFound(_) => 404
    case InsufficientStock(_, _, _) => 400
    case DuplicateSku(_) => 409
  }

  /**
   * The ApiError constructor sets `isOperational` for every error it builds,
   * and no subclass clears it, so the flag is true for all of them.
   */
  predicate IsOperational(e: ApiError) {
    true
  }

  /** "<Entity> with ID <id> not found" when the id is truthy, "<Entity> not found" otherwise. */
  function NotFoundMessage(entity: string, id: Option<IdArg>): (r: string)
  {
    if IdGiven(id) then entity + " with ID " + IdText(id.value) + " not found"
    else entity + " not found"
  }

  function ProductClause(name: Option<string>): string {
    if TextGiven(name) then " for product \"" + name.value + "\"" else ""
  }

  /** The message the constructor passes to `super`. */
  function Message(e: ApiError): (r: string)
  {
    match e
    case Plain(text, _) => text
    case ValidationError(text, _) => text
    case ProductNotFound(id) => NotFoundMessage("Product", id)
    case CategoryNotFound(id) => NotFoundMessage("Category", id)
    case InsufficientStock(available, requested, name) =>
      "Insufficient stock" + ProductClause(name) + ". Available: " + Decimal.IntToString(available)
      + ", Requested: " + Decimal.IntToString(requested)
    case DuplicateSku(sku) => "Product with SKU \"" + sku + "\" already exists"
  }

  /**
   * A not-found message names the id exactly when the id is truthy, and
   * different numeric ids give different messages.
   */
  lemma NotFoundNamesId(entity: string, a: int, b: int)
    ensures NotFoundMessage(entity, Some(NumId(a))) == entity + " not found" <==> a == 0
    ensures a != 0 && b != 0 ==>
      (NotFoundMessage(entity, Some(NumId(a))) == NotFoundMessage(entity, Some(NumId(b))) <==> a == b)
    ensures NotFoundMessage(entity, None) == entity + " not found"
  {
    var short := entity + " not found";
    var ma := NotFoundMessage(entity, Some(NumId(a)));
    if a != 0 {
      assert |ma| > |short|;
    }
    if a != 0 && b != 0 && ma == NotFoundMessage(entity, Some(NumId(b))) {
      var mb := NotFoundMessage(entity, Some(NumId(b)));
      var sa := Decimal.IntToString(a);
      var sb := Decimal.IntToString(b);
      var k := |entity + " with ID "|;
      assert |sa| == |sb|;
      assert ma[k..k + |sa|] == sa;
      assert mb[k..k + |sb|] == sb;
      Decimal.IntToStringInjective(a, b);
    }
  }

  /** The product clause appears exactly when a non-empty product name is given. */
  lemma InsufficientStockNamesProduct(available: int, requested: int, name: Option<string>)
    ensures var m := Message(InsufficientStock(available, requested, name));
      var k := |"Insufficient stock"|;
      && m[..k] == "Insufficient stock"
      && (TextGiven(name) ==> m[k..k + |name.value| + 15] == " for product \"" + name.value + "\"")
      && (!TextGiven(name) ==> m[k..k + 12] == ". Available:")
  {
  }
}
