/**
 * The request schemas of the product and sales endpoints, each stated twice:
 * as the field list Joi runs, and as a plain predicate on the input. The
 * lemmas show the two agree, pin down the custom messages, and connect what
 * validation lets through to what the services need.
 */
module RequestSchemas {
  import opened Wrappers
  import opened Schema
  import opened Entities
  import ProductService
  import SalesService
  import Ledger

  // ---------------------------------------------------------------------------
  // Product schemas

  const NameField := Field("name", StringKind(false), true, [MinLength(2), MaxLength(100)],
    map["string.min" := "Product name must be at least 2 characters long",
        "string.max" := "Product name must not exceed 100 characters",
        "any.required" := "Product name is required"])
  const DescriptionField := Field("description", StringKind(true), false, [MaxLength(500)],
    map["string.max" := "Description must not exceed 500 characters"])
  /** `precision(2)`: Joi rounds the price to cents before `positive()` runs. */
  const PriceField := Field("price", RoundedNumber(2), true, [Positive],
    map["number.positive" := "Price must be a positive number",
        "any.required" := "Price is required"])
  const SkuField := Field("sku", StringKind(false), true, [MinLength(3), MaxLength(50), WordChars],
    map["string.min" := "SKU must be at least 3 characters long",
        "string.max" := "SKU must not exceed 50 characters",
        "string.pattern.base" := "SKU can only contain letters, numbers, hyphens, and underscores",
        "any.required" := "SKU is required"])
  const StockField := Field("stock", NumberKind, true, [Integer, AtLeast(0)],
    map["number.integer" := "Stock must be an integer",
        "number.min" := "Stock must be non-negative",
        "any.required" := "Stock is required"])
  const CategoryIdField := Field("categoryId", NumberKind, true, [Integer, Positive],
    map["number.integer" := "Category ID must be an integer",
        "number.positive" := "Category ID must be positive",
        "any.required" := "Category ID is required"])

  const ProductFields: seq<Field> :=
    [NameField, DescriptionField, PriceField, SkuField, StockField, CategoryIdField]

  const ChangeAmountField := Field("changeAmount", NumberKind, true, [Integer],
    map["number.integer" := "Change amount must be an integer",
        "any.required" := "Change amount is required"])
  const ReasonField := Field("reason", StringKind(false), false, [MaxLength(200)],
    map["string.max" := "Reason must not exceed 200 characters"])

  const InventoryUpdateFields: seq<Field> := [ChangeAmountField, ReasonField]

  const PageField := Field("page", NumberKind, false, [Integer, AtLeast(1)],
    map["number.integer" := "Page must be an integer",
        "number.min" := "Page must be at least 1"])
  const LimitField := Field("limit", NumberKind, false, [Integer, AtLeast(1), AtMost(100)],
    map["number.integer" := "Limit must be an integer",
        "number.min" := "Limit must be at least 1",
        "number.max" := "Limit must not exceed 100"])
  const CategoryFilterField := Field("category", NumberKind, false, [Integer, Positive], map[])
  const LowStockField := Field("lowStock", BooleanKind, false, [], map[])
  const SearchField := Field("search", StringKind(false), false, [], map[])
  const ThresholdField := Field("lowStockThreshold", NumberKind, false, [Integer, AtLeast(1)], map[])

  const ProductQueryFields: seq<Field> :=
    [PageField, LimitField, CategoryFilterField, LowStockField, SearchField, ThresholdField]

  // ---------------------------------------------------------------------------
  // Sales schemas

  const SaleProductField := Field("productId", NumberKind, true, [Integer, Positive],
    map["number.integer" := "Product ID must be an integer",
        "number.positive" := "Product ID must be positive",
        "any.required" := "Product ID is required"])
  const QuantityField := Field("quantity", NumberKind, true, [Integer, Positive],
    map["number.integer" := "Quantity must be an integer",
        "number.positive" := "Quantity must be positive",
        "any.required" := "Quantity is required"])

  const SaleFields: seq<Field> := [SaleProductField, QuantityField]

  const StartDateField := Field("startDate", DateKind, false, [],
    map["date.format" := "Start date must be a valid ISO 8601 date"])
  const EndDateField := Field("endDate", DateKind, false, [],
    map["date.format" := "End date must be a valid ISO 8601 date"])
  const ProductFilterField := Field("productId", NumberKind, false, [Integer, Positive], map[])
  const CategoryIdFilterField := Field("categoryId", NumberKind, false, [Integer, Positive], map[])
  const SalesPageField := Field("page", NumberKind, false, [Integer, AtLeast(1)], map[])
  const SalesLimitField := Field("limit", NumberKind, false, [Integer, AtLeast(1), AtMost(100)], map[])

  const SalesQueryFields: seq<Field> :=
    [StartDateField, EndDateField, ProductFilterField, CategoryIdFilterField, SalesPageField, SalesLimitField]

  const CurrentStartField := Field("currentStartDate", DateKind, true, [],
    map["date.format" := "Current start date must be a valid ISO 8601 date",
        "any.required" := "Current start date is required"])
  const CurrentEndField := Field("currentEndDate", DateKind, true, [],
    map["date.format" := "Current end date must be a valid ISO 8601 date",
        "any.required" := "Current end date is required"])
  const PreviousStartField := Field("previousStartDate", DateKind, true, [],
    map["date.format" := "Previous start date must be a valid ISO 8601 date",
        "any.required" := "Previous start date is required"])
  const PreviousEndField := Field("previousEndDate", DateKind, true, [],
    map["date.format" := "Previous end date must be a valid ISO 8601 date",
        "any.required" := "Previous end date is required"])

  const SalesComparisonQueryFields: seq<Field> :=
    [CurrentStartField, CurrentEndField, PreviousStartField, PreviousEndField]

  const PeriodNames: seq<string> := ["daily", "weekly", "monthly", "annual"]

  const PeriodField := Field("period", Choice(PeriodNames), false, [], map[])
  const AnalyticsStartField := Field("startDate", DateKind, false, [], map[])
  const AnalyticsEndField := Field("endDate", DateKind, false, [], map[])

  const RevenueAnalyticsQueryFields: seq<Field> := [PeriodField, AnalyticsStartField, AnalyticsEndField]

  const IdField := Field("id", NumberKind, true, [Integer, Positive],
    map["number.integer" := "ID must be an integer",
        "number.positive" := "ID must be positive",
        "any.required" := "ID is required"])

  const IdParamFields: seq<Field> := [IdField]

  // ---------------------------------------------------------------------------
  // The same constraints in plain terms

  /** A text whose JavaScript length, in UTF-16 code units, is within `lo..hi`. */
  predicate TextBetween(v: Option<Value>, lo: nat, hi: nat) {
    v.Some? && v.value.Text? && lo <= Utf16Length(v.value.text) <= hi
  }

  /** A whole number within Joi's safe range. */
  predicate WholeNumber(v: Option<Value>) {
    v.Some? && v.value.Number? && IsWhole(v.value.number) && IsSafe(v.value.number)
  }

  predicate PositiveWhole(v: Option<Value>) {
    WholeNumber(v) && v.value.number > 0.0
  }

  /**
   * A product body: name of 2..100 characters; description absent or at
   * most 500 characters, possibly empty; a price within the safe range that is
   * still positive once rounded to cents; an SKU of 3..50
   * letters, digits, hyphens and underscores; a whole stock of at least 0; a
   * positive whole category id; nothing else.
   */
  predicate ProductBodyOk(input: Input) {
    && TextBetween(Lookup(input, "name"), 2, 100)
    && DescriptionOk(Lookup(input, "description"))
    && PriceOk(Lookup(input, "price"))
    && SkuOk(Lookup(input, "sku"))
    && StockOk(Lookup(input, "stock"))
    && PositiveWhole(Lookup(input, "categoryId"))
    && KeysDeclared(input, ["name", "description", "price", "sku", "stock", "categoryId"])
  }

  predicate DescriptionOk(v: Option<Value>) {
    v.None? || TextBetween(v, 0, 500)
  }

  predicate PriceOk(v: Option<Value>) {
    v.Some? && v.value.Number? && IsSafe(v.value.number) && RoundTo(v.value.number, 2) > 0.0
  }

  predicate SkuOk(v: Option<Value>) {
    TextBetween(v, 3, 50) && WordCharsOnly(v.value.text)
  }

  predicate StockOk(v: Option<Value>) {
    WholeNumber(v) && v.value.number >= 0.0
  }

  /** `FieldsAccept` on `ProductFields`, one declared field at a time. */
  lemma ProductFieldsEach(input: Input)
    ensures Keys(ProductFields) == ["name", "description", "price", "sku", "stock", "categoryId"]
    ensures FieldsAccept(ProductFields, input) <==>
      && FieldAccepts(NameField, Lookup(input, "name"))
      && FieldAccepts(DescriptionField, Lookup(input, "description"))
      && FieldAccepts(PriceField, Lookup(input, "price"))
      && FieldAccepts(SkuField, Lookup(input, "sku"))
      && FieldAccepts(StockField, Lookup(input, "stock"))
      && FieldAccepts(CategoryIdField, Lookup(input, "categoryId"))
  {
    assert |ProductFields| == 6
      && ProductFields[0] == NameField
      && ProductFields[1] == DescriptionField
      && ProductFields[2] == PriceField
      && ProductFields[3] == SkuField
      && ProductFields[4] == StockField
      && ProductFields[5] == CategoryIdField;
    if FieldAccepts(NameField, Lookup(input, "name"))
      && FieldAccepts(DescriptionField, Lookup(input, "description"))
      && FieldAccepts(PriceField, Lookup(input, "price"))
      && FieldAccepts(SkuField, Lookup(input, "sku"))
      && FieldAccepts(StockField, Lookup(input, "stock"))
      && FieldAccepts(CategoryIdField, Lookup(input, "categoryId")) {
      forall i | 0 <= i < 6 ensures FieldAccepts(ProductFields[i], Lookup(input, ProductFields[i].key)) {
        if i == 0 { } else if i == 1 { } else if i == 2 { } else if i == 3 { } else if i == 4 { } else { }
      }
    }
  }

  lemma ProductSchemaMeaning(input: Input)
    ensures Validate(ProductFields, input).None? <==> ProductBodyOk(input)
  {
    ProductTextFieldsMeaning(Lookup(input, "name"), Lookup(input, "description"), Lookup(input, "sku"));
    ProductNumberFieldsMeaning(Lookup(input, "price"), Lookup(input, "stock"), Lookup(input, "categoryId"));
    ProductFieldsEach(input);
  }

  /** The text fields of a product body, each in plain terms. */
  lemma ProductTextFieldsMeaning(name: Option<Value>, description: Option<Value>, sku: Option<Value>)
    ensures FieldAccepts(NameField, name) <==> TextBetween(name, 2, 100)
    ensures FieldAccepts(DescriptionField, description) <==> DescriptionOk(description)
    ensures FieldAccepts(SkuField, sku) <==> SkuOk(sku)
  {
    assert FieldAccepts(NameField, name) <==> TextBetween(name, 2, 100) by {
      assert |NameField.rules| == 2 && NameField.rules[0] == MinLength(2) && NameField.rules[1] == MaxLength(100);
    }
    assert FieldAccepts(DescriptionField, description) <==> DescriptionOk(description) by {
      assert |DescriptionField.rules| == 1 && DescriptionField.rules[0] == MaxLength(500);
    }
    assert FieldAccepts(SkuField, sku) <==> SkuOk(sku) by {
      assert |SkuField.rules| == 3
        && SkuField.rules[0] == MinLength(3)
        && SkuField.rules[1] == MaxLength(50)
        && SkuField.rules[2] == WordChars;
    }
  }

  /** The number fields of a product body, each in plain terms. */
  lemma ProductNumberFieldsMeaning(price: Option<Value>, stock: Option<Value>, category: Option<Value>)
    ensures FieldAccepts(PriceField, price) <==> PriceOk(price)
    ensures FieldAccepts(StockField, stock) <==> StockOk(stock)
    ensures FieldAccepts(CategoryIdField, category) <==> PositiveWhole(category)
  {
    assert FieldAccepts(PriceField, price) <==> PriceOk(price) by {
      assert |PriceField.rules| == 1 && PriceField.rules[0] == Positive;
    }
    assert FieldAccepts(StockField, stock) <==> StockOk(stock) by {
      assert |StockField.rules| == 2 && StockField.rules[0] == Integer && StockField.rules[1] == AtLeast(0);
    }
    assert FieldAccepts(CategoryIdField, category) <==> PositiveWhole(category) by {
      assert |CategoryIdField.rules| == 2 && CategoryIdField.rules[0] == Integer && CategoryIdField.rules[1] == Positive;
    }
  }

  /**
   * An inventory update: a whole change amount of any sign, zero included; a
   * reason, if given, of 1..200 characters (an empty reason is rejected).
   */
  predicate InventoryUpdateOk(input: Input) {
    var reason := Lookup(input, "reason");
    && WholeNumber(Lookup(input, "changeAmount"))
    && (reason.None? || TextBetween(reason, 1, 200))
    && KeysDeclared(input, ["changeAmount", "reason"])
  }

  /** `FieldsAccept` on `InventoryUpdateFields`, one declared field at a time. */
  lemma InventoryUpdateFieldsEach(input: Input)
    ensures Keys(InventoryUpdateFields) == ["changeAmount", "reason"]
    ensures FieldsAccept(InventoryUpdateFields, input) <==>
      && FieldAccepts(ChangeAmountField, Lookup(input, "changeAmount"))
      && FieldAccepts(ReasonField, Lookup(input, "reason"))
  {
    assert |InventoryUpdateFields| == 2
      && InventoryUpdateFields[0] == ChangeAmountField
      && InventoryUpdateFields[1] == ReasonField;
    if FieldAccepts(ChangeAmountField, Lookup(input, "changeAmount"))
      && FieldAccepts(ReasonField, Lookup(input, "reason")) {
      forall i | 0 <= i < 2 ensures FieldAccepts(InventoryUpdateFields[i], Lookup(input, InventoryUpdateFields[i].key)) {
        if i == 0 { } else { }
      }
    }
  }

  lemma InventoryUpdateSchemaMeaning(input: Input)
    ensures Validate(InventoryUpdateFields, input).None? <==> InventoryUpdateOk(input)
  {
    var amount, reason := Lookup(input, "changeAmount"), Lookup(input, "reason");
    assert FieldAccepts(ChangeAmountField, amount) <==> WholeNumber(amount) by {
      assert |ChangeAmountField.rules| == 1 && ChangeAmountField.rules[0] == Integer;
    }
    assert FieldAccepts(ReasonField, reason) <==> reason.None? || TextBetween(reason, 1, 200) by {
      assert |ReasonField.rules| == 1 && ReasonField.rules[0] == MaxLength(200);
    }
    InventoryUpdateFieldsEach(input);
  }

  /** A sale: positive whole product id and quantity, nothing else. */
  predicate SaleBodyOk(input: Input) {
    && PositiveWhole(Lookup(input, "productId"))
    && PositiveWhole(Lookup(input, "quantity"))
    && KeysDeclared(input, ["productId", "quantity"])
  }

  /** `FieldsAccept` on `SaleFields`, one declared field at a time. */
  lemma SaleFieldsEach(input: Input)
    ensures Keys(SaleFields) == ["productId", "quantity"]
    ensures FieldsAccept(SaleFields, input) <==>
      && FieldAccepts(SaleProductField, Lookup(input, "productId"))
      && FieldAccepts(QuantityField, Lookup(input, "quantity"))
  {
    assert |SaleFields| == 2 && SaleFields[0] == SaleProductField && SaleFields[1] == QuantityField;
    if FieldAccepts(SaleProductField, Lookup(input, "productId"))
      && FieldAccepts(QuantityField, Lookup(input, "quantity")) {
      forall i | 0 <= i < 2 ensures FieldAccepts(SaleFields[i], Lookup(input, SaleFields[i].key)) {
        if i == 0 { } else { }
      }
    }
  }

  lemma SaleSchemaMeaning(input: Input)
    ensures Validate(SaleFields, input).None? <==> SaleBodyOk(input)
  {
    var product, quantity := Lookup(input, "productId"), Lookup(input, "quantity");
    assert FieldAccepts(SaleProductField, product) <==> PositiveWhole(product) by {
      assert |SaleProductField.rules| == 2
        && SaleProductField.rules[0] == Integer
        && SaleProductField.rules[1] == Positive;
    }
    assert FieldAccepts(QuantityField, quantity) <==> PositiveWhole(quantity) by {
      assert |QuantityField.rules| == 2
        && QuantityField.rules[0] == Integer
        && QuantityField.rules[1] == Positive;
    }
    SaleFieldsEach(input);
  }

  predicate OptionalDate(v: Option<Value>) {
    v.None? || v.value.IsoDate?
  }

  predicate OptionalPositiveWhole(v: Option<Value>) {
    v.None? || PositiveWhole(v)
  }

  /** A page number, if given, is a whole number of at least 1. */
  predicate PageOk(v: Option<Value>) {
    v.None? || (WholeNumber(v) && v.value.number >= 1.0)
  }

  /** A page size, if given, is a whole number within 1..100. */
  predicate LimitOk(v: Option<Value>) {
    v.None? || (WholeNumber(v) && 1.0 <= v.value.number <= 100.0)
  }

  /** The product listing query. */
  predicate ProductQueryOk(input: Input) {
    var lowStock := Lookup(input, "lowStock");
    var search := Lookup(input, "search");
    var threshold := Lookup(input, "lowStockThreshold");
    && PageOk(Lookup(input, "page"))
    && LimitOk(Lookup(input, "limit"))
    && OptionalPositiveWhole(Lookup(input, "category"))
    && (lowStock.None? || lowStock.value.Flag?)
    && (search.None? || (search.value.Text? && search.value.text != ""))
    && (threshold.None? || (WholeNumber(threshold) && threshold.value.number >= 1.0))
    && KeysDeclared(input, ["page", "limit", "category", "lowStock", "search", "lowStockThreshold"])
  }

  /** `FieldsAccept` on `ProductQueryFields`, one declared field at a time. */
  lemma ProductQueryFieldsEach(input: Input)
    ensures Keys(ProductQueryFields) == ["page", "limit", "category", "lowStock", "search", "lowStockThreshold"]
    ensures FieldsAccept(ProductQueryFields, input) <==>
      && FieldAccepts(PageField, Lookup(input, "page"))
      && FieldAccepts(LimitField, Lookup(input, "limit"))
      && FieldAccepts(CategoryFilterField, Lookup(input, "category"))
      && FieldAccepts(LowStockField, Lookup(input, "lowStock"))
      && FieldAccepts(SearchField, Lookup(input, "search"))
      && FieldAccepts(ThresholdField, Lookup(input, "lowStockThreshold"))
  {
    assert |ProductQueryFields| == 6
      && ProductQueryFields[0] == PageField
      && ProductQueryFields[1] == LimitField
      && ProductQueryFields[2] == CategoryFilterField
      && ProductQueryFields[3] == LowStockField
      && ProductQueryFields[4] == SearchField
      && ProductQueryFields[5] == ThresholdField;
    if FieldAccepts(PageField, Lookup(input, "page"))
      && FieldAccepts(LimitField, Lookup(input, "limit"))
      && FieldAccepts(CategoryFilterField, Lookup(input, "category"))
      && FieldAccepts(LowStockField, Lookup(input, "lowStock"))
      && FieldAccepts(SearchField, Lookup(input, "search"))
      && FieldAccepts(ThresholdField, Lookup(input, "lowStockThreshold")) {
      forall i | 0 <= i < 6 ensures FieldAccepts(ProductQueryFields[i], Lookup(input, ProductQueryFields[i].key)) {
        if i == 0 { } else if i == 1 { } else if i == 2 { } else if i == 3 { } else if i == 4 { } else { }
      }
    }
  }

  lemma ProductQuerySchemaMeaning(input: Input)
    ensures Validate(ProductQueryFields, input).None? <==> ProductQueryOk(input)
  {
    PagingFieldsMeaning(Lookup(input, "page"), Lookup(input, "limit"));
    ProductFilterFieldsMeaning(Lookup(input, "category"), Lookup(input, "lowStock"),
                               Lookup(input, "search"), Lookup(input, "lowStockThreshold"));
    ProductQueryFieldsEach(input);
  }

  /** Page and page size, with the product listing's custom messages or the sales listing's none. */
  lemma PagingFieldsMeaning(page: Option<Value>, limit: Option<Value>)
    ensures FieldAccepts(PageField, page) <==> PageOk(page)
    ensures FieldAccepts(LimitField, limit) <==> LimitOk(limit)
    ensures FieldAccepts(SalesPageField, page) <==> PageOk(page)
    ensures FieldAccepts(SalesLimitField, limit) <==> LimitOk(limit)
  {
    assert |PageField.rules| == 2 && PageField.rules[0] == Integer && PageField.rules[1] == AtLeast(1);
    assert |SalesPageField.rules| == 2 && SalesPageField.rules[0] == Integer && SalesPageField.rules[1] == AtLeast(1);
    assert |LimitField.rules| == 3
      && LimitField.rules[0] == Integer
      && LimitField.rules[1] == AtLeast(1)
      && LimitField.rules[2] == AtMost(100);
    assert |SalesLimitField.rules| == 3
      && SalesLimitField.rules[0] == Integer
      && SalesLimitField.rules[1] == AtLeast(1)
      && SalesLimitField.rules[2] == AtMost(100);
  }

  /** The product listing's filters, each in plain terms. */
  lemma ProductFilterFieldsMeaning(category: Option<Value>, lowStock: Option<Value>,
                                   search: Option<Value>, threshold: Option<Value>)
    ensures FieldAccepts(CategoryFilterField, category) <==> OptionalPositiveWhole(category)
    ensures FieldAccepts(LowStockField, lowStock) <==> lowStock.None? || lowStock.value.Flag?
    ensures FieldAccepts(SearchField, search) <==> search.None? || (search.value.Text? && search.value.text != "")
    ensures FieldAccepts(ThresholdField, threshold) <==> PageOk(threshold)
  {
    assert FieldAccepts(CategoryFilterField, category) <==> OptionalPositiveWhole(category) by {
      assert |CategoryFilterField.rules| == 2
        && CategoryFilterField.rules[0] == Integer
        && CategoryFilterField.rules[1] == Positive;
    }
    assert |LowStockField.rules| == 0 && |SearchField.rules| == 0;
    assert FieldAccepts(ThresholdField, threshold) <==> PageOk(threshold) by {
      assert |ThresholdField.rules| == 2 && ThresholdField.rules[0] == Integer && ThresholdField.rules[1] == AtLeast(1);
    }
  }

  /** The sales listing query. */
  predicate SalesQueryOk(input: Input) {
    && OptionalDate(Lookup(input, "startDate"))
    && OptionalDate(Lookup(input, "endDate"))
    && OptionalPositiveWhole(Lookup(input, "productId"))
    && OptionalPositiveWhole(Lookup(input, "categoryId"))
    && PageOk(Lookup(input, "page"))
    && LimitOk(Lookup(input, "limit"))
    && KeysDeclared(input, ["startDate", "endDate", "productId", "categoryId", "page", "limit"])
  }

  /** `FieldsAccept` on `SalesQueryFields`, one declared field at a time. */
  lemma SalesQueryFieldsEach(input: Input)
    ensures Keys(SalesQueryFields) == ["startDate", "endDate", "productId", "categoryId", "page", "limit"]
    ensures FieldsAccept(SalesQueryFields, input) <==>
      && FieldAccepts(StartDateField, Lookup(input, "startDate"))
      && FieldAccepts(EndDateField, Lookup(input, "endDate"))
      && FieldAccepts(ProductFilterField, Lookup(input, "productId"))
      && FieldAccepts(CategoryIdFilterField, Lookup(input, "categoryId"))
      && FieldAccepts(SalesPageField, Lookup(input, "page"))
      && FieldAccepts(SalesLimitField, Lookup(input, "limit"))
  {
    assert |SalesQueryFields| == 6
      && SalesQueryFields[0] == StartDateField
      && SalesQueryFields[1] == EndDateField
      && SalesQueryFields[2] == ProductFilterField
      && SalesQueryFields[3] == CategoryIdFilterField
      && SalesQueryFields[4] == SalesPageField
      && SalesQueryFields[5] == SalesLimitField;
    if FieldAccepts(StartDateField, Lookup(input, "startDate"))
      && FieldAccepts(EndDateField, Lookup(input, "endDate"))
      && FieldAccepts(ProductFilterField, Lookup(input, "productId"))
      && FieldAccepts(CategoryIdFilterField, Lookup(input, "categoryId"))
      && FieldAccepts(SalesPageField, Lookup(input, "page"))
      && FieldAccepts(SalesLimitField, Lookup(input, "limit")) {
      forall i | 0 <= i < 6 ensures FieldAccepts(SalesQueryFields[i], Lookup(input, SalesQueryFields[i].key)) {
        if i == 0 { } else if i == 1 { } else if i == 2 { } else if i == 3 { } else if i == 4 { } else { }
      }
    }
  }

  lemma SalesQuerySchemaMeaning(input: Input)
    ensures Validate(SalesQueryFields, input).None? <==> SalesQueryOk(input)
  {
    SalesFilterFieldsMeaning(Lookup(input, "startDate"), Lookup(input, "endDate"),
                             Lookup(input, "productId"), Lookup(input, "categoryId"));
    PagingFieldsMeaning(Lookup(input, "page"), Lookup(input, "limit"));
    SalesQueryFieldsEach(input);
  }

  /** The sales listing's filters, each in plain terms. */
  lemma SalesFilterFieldsMeaning(start: Option<Value>, end: Option<Value>,
                                 product: Option<Value>, category: Option<Value>)
    ensures FieldAccepts(StartDateField, start) <==> OptionalDate(start)
    ensures FieldAccepts(EndDateField, end) <==> OptionalDate(end)
    ensures FieldAccepts(ProductFilterField, product) <==> OptionalPositiveWhole(product)
    ensures FieldAccepts(CategoryIdFilterField, category) <==> OptionalPositiveWhole(category)
  {
    assert |StartDateField.rules| == 0 && |EndDateField.rules| == 0;
    assert FieldAccepts(ProductFilterField, product) <==> OptionalPositiveWhole(product) by {
      assert |ProductFilterField.rules| == 2
        && ProductFilterField.rules[0] == Integer
        && ProductFilterField.rules[1] == Positive;
    }
    assert FieldAccepts(CategoryIdFilterField, category) <==> OptionalPositiveWhole(category) by {
      assert |CategoryIdFilterField.rules| == 2
        && CategoryIdFilterField.rules[0] == Integer
        && CategoryIdFilterField.rules[1] == Positive;
    }
  }

  predicate IsDate(v: Option<Value>) {
    v.Some? && v.value.IsoDate?
  }

  /** A comparison request: all four dates present and ISO 8601, nothing else. */
  predicate ComparisonQueryOk(input: Input) {
    && IsDate(Lookup(input, "currentStartDate"))
    && IsDate(Lookup(input, "currentEndDate"))
    && IsDate(Lookup(input, "previousStartDate"))
    && IsDate(Lookup(input, "previousEndDate"))
    && KeysDeclared(input, ["currentStartDate", "currentEndDate", "previousStartDate", "previousEndDate"])
  }

  /** `FieldsAccept` on `SalesComparisonQueryFields`, one declared field at a time. */
  lemma ComparisonQueryFieldsEach(input: Input)
    ensures Keys(SalesComparisonQueryFields) == ["currentStartDate", "currentEndDate", "previousStartDate", "previousEndDate"]
    ensures FieldsAccept(SalesComparisonQueryFields, input) <==>
      && FieldAccepts(CurrentStartField, Lookup(input, "currentStartDate"))
      && FieldAccepts(CurrentEndField, Lookup(input, "currentEndDate"))
      && FieldAccepts(PreviousStartField, Lookup(input, "previousStartDate"))
      && FieldAccepts(PreviousEndField, Lookup(input, "previousEndDate"))
  {
    assert |SalesComparisonQueryFields| == 4
      && SalesComparisonQueryFields[0] == CurrentStartField
      && SalesComparisonQueryFields[1] == CurrentEndField
      && SalesComparisonQueryFields[2] == PreviousStartField
      && SalesComparisonQueryFields[3] == PreviousEndField;
    if FieldAccepts(CurrentStartField, Lookup(input, "currentStartDate"))
      && FieldAccepts(CurrentEndField, Lookup(input, "currentEndDate"))
      && FieldAccepts(PreviousStartField, Lookup(input, "previousStartDate"))
      && FieldAccepts(PreviousEndField, Lookup(input, "previousEndDate")) {
      forall i | 0 <= i < 4 ensures FieldAccepts(SalesComparisonQueryFields[i], Lookup(input, SalesComparisonQueryFields[i].key)) {
        if i == 0 { } else if i == 1 { } else if i == 2 { } else { }
      }
    }
  }

  lemma ComparisonQuerySchemaMeaning(input: Input)
    ensures Validate(SalesComparisonQueryFields, input).None? <==> ComparisonQueryOk(input)
  {
    var cs, ce := Lookup(input, "currentStartDate"), Lookup(input, "currentEndDate");
    var ps, pe := Lookup(input, "previousStartDate"), Lookup(input, "previousEndDate");
    assert FieldAccepts(CurrentStartField, cs) <==> IsDate(cs) by {
      assert |CurrentStartField.rules| == 0;
    }
    assert FieldAccepts(CurrentEndField, ce) <==> IsDate(ce) by {
      assert |CurrentEndField.rules| == 0;
    }
    assert FieldAccepts(PreviousStartField, ps) <==> IsDate(ps) by {
      assert |PreviousStartField.rules| == 0;
    }
    assert FieldAccepts(PreviousEndField, pe) <==> IsDate(pe) by {
      assert |PreviousEndField.rules| == 0;
    }
    ComparisonQueryFieldsEach(input);
  }

  /** A revenue analytics request: a period, if given, is one of the four names. */
  predicate RevenueAnalyticsQueryOk(input: Input) {
    var period := Lookup(input, "period");
    && (period.None? || (period.value.Text? && period.value.text in PeriodNames))
    && OptionalDate(Lookup(input, "startDate"))
    && OptionalDate(Lookup(input, "endDate"))
    && KeysDeclared(input, ["period", "startDate", "endDate"])
  }

  /** `FieldsAccept` on `RevenueAnalyticsQueryFields`, one declared field at a time. */
  lemma RevenueAnalyticsQueryFieldsEach(input: Input)
    ensures Keys(RevenueAnalyticsQueryFields) == ["period", "startDate", "endDate"]
    ensures FieldsAccept(RevenueAnalyticsQueryFields, input) <==>
      && FieldAccepts(PeriodField, Lookup(input, "period"))
      && FieldAccepts(AnalyticsStartField, Lookup(input, "startDate"))
      && FieldAccepts(AnalyticsEndField, Lookup(input, "endDate"))
  {
    assert |RevenueAnalyticsQueryFields| == 3
      && RevenueAnalyticsQueryFields[0] == PeriodField
      && RevenueAnalyticsQueryFields[1] == AnalyticsStartField
      && RevenueAnalyticsQueryFields[2] == AnalyticsEndField;
    if FieldAccepts(PeriodField, Lookup(input, "period"))
      && FieldAccepts(AnalyticsStartField, Lookup(input, "startDate"))
      && FieldAccepts(AnalyticsEndField, Lookup(input, "endDate")) {
      forall i | 0 <= i < 3 ensures FieldAccepts(RevenueAnalyticsQueryFields[i], Lookup(input, RevenueAnalyticsQueryFields[i].key)) {
        if i == 0 { } else if i == 1 { } else { }
      }
    }
  }

  lemma RevenueAnalyticsQuerySchemaMeaning(input: Input)
    ensures Validate(RevenueAnalyticsQueryFields, input).None? <==> RevenueAnalyticsQueryOk(input)
  {
    var period, start, end := Lookup(input, "period"), Lookup(input, "startDate"), Lookup(input, "endDate");
    assert FieldAccepts(PeriodField, period) <==> period.None? || (period.value.Text? && period.value.text in PeriodNames) by {
      assert |PeriodField.rules| == 0;
    }
    assert FieldAccepts(AnalyticsStartField, start) <==> OptionalDate(start) by {
      assert |AnalyticsStartField.rules| == 0;
    }
    assert FieldAccepts(AnalyticsEndField, end) <==> OptionalDate(end) by {
      assert |AnalyticsEndField.rules| == 0;
    }
    RevenueAnalyticsQueryFieldsEach(input);
  }

  /** A route id: a positive whole number, nothing else. */
  predicate IdParamOk(input: Input) {
    PositiveWhole(Lookup(input, "id")) && KeysDeclared(input, ["id"])
  }

  /** `FieldsAccept` on `IdParamFields`, one declared field at a time. */
  lemma IdParamFieldsEach(input: Input)
    ensures Keys(IdParamFields) == ["id"]
    ensures FieldsAccept(IdParamFields, input) <==>
      && FieldAccepts(IdField, Lookup(input, "id"))
  {
    assert |IdParamFields| == 1 && IdParamFields[0] == IdField;
    if FieldAccepts(IdField, Lookup(input, "id")) {
      forall i | 0 <= i < 1 ensures FieldAccepts(IdParamFields[i], Lookup(input, IdParamFields[i].key)) {
      }
    }
  }

  lemma IdParamSchemaMeaning(input: Input)
    ensures Validate(IdParamFields, input).None? <==> IdParamOk(input)
  {
    assert FieldAccepts(IdField, Lookup(input, "id")) <==> PositiveWhole(Lookup(input, "id")) by {
      assert |IdField.rules| == 2 && IdField.rules[0] == Integer && IdField.rules[1] == Positive;
    }
    IdParamFieldsEach(input);
  }

  // ---------------------------------------------------------------------------
  // Which message the client sees

  /**
   * The name is checked first; its three custom messages, and Joi's text for
   * "". Lengths count UTF-16 code units, as JavaScript's `length` does.
   */
  lemma ProductNameMessages(input: Input)
    ensures var name := Lookup(input, "name");
      && (name.None? ==>
            Validate(ProductFields, input) == Some(Violation(["name"], "any.required", Some("Product name is required"), None)))
      && (name == Some(Text("")) ==>
            Validate(ProductFields, input) == Some(Violation(["name"], "string.empty", None, name)))
      && (name.Some? && name.value.Text? && Utf16Length(name.value.text) == 1 ==>
            Validate(ProductFields, input)
            == Some(Violation(["name"], "string.min", Some("Product name must be at least 2 characters long"), name)))
      && (name.Some? && name.value.Text? && Utf16Length(name.value.text) > 100 ==>
            Validate(ProductFields, input)
            == Some(Violation(["name"], "string.max", Some("Product name must not exceed 100 characters"), name)))
  {
    var name := Lookup(input, "name");
    assert |ProductFields| == 6 && ProductFields[0] == NameField;
    NameCodes(name);
    if name.None? || name == Some(Text("")) || (name.value.Text? && (Utf16Length(name.value.text) == 1 || Utf16Length(name.value.text) > 100)) {
      ReportsFirstFailingField(ProductFields, input, 0);
    }
  }

  /** The error code the name field reports for each kind of bad name. */
  lemma NameCodes(name: Option<Value>)
    ensures name.None? ==> CheckField(NameField, name) == Some("any.required")
    ensures name == Some(Text("")) ==> CheckField(NameField, name) == Some("string.empty")
    ensures name.Some? && name.value.Text? && Utf16Length(name.value.text) == 1 ==> CheckField(NameField, name) == Some("string.min")
    ensures name.Some? && name.value.Text? && Utf16Length(name.value.text) > 100 ==> CheckField(NameField, name) == Some("string.max")
  {
    assert |NameField.rules| == 2 && NameField.rules[0] == MinLength(2) && NameField.rules[1] == MaxLength(100);
  }

  /**
   * With a good name and description, a missing price, a price outside the
   * safe range, and a price that is not positive once rounded to cents each
   * get their message; the last reports the rounded price.
   */
  lemma ProductPriceMessages(input: Input)
    requires FieldAccepts(NameField, Lookup(input, "name"))
    requires FieldAccepts(DescriptionField, Lookup(input, "description"))
    ensures var price := Lookup(input, "price");
      && (price.None? ==>
            Validate(ProductFields, input) == Some(Violation(["price"], "any.required", Some("Price is required"), None)))
      && (price.Some? && price.value.Number? && !IsSafe(price.value.number) ==>
            Validate(ProductFields, input) == Some(Violation(["price"], "number.unsafe", None, price)))
      && (price.Some? && price.value.Number? && IsSafe(price.value.number) && RoundTo(price.value.number, 2) <= 0.0 ==>
            Validate(ProductFields, input)
            == Some(Violation(["price"], "number.positive", Some("Price must be a positive number"),
                              Some(Number(RoundTo(price.value.number, 2))))))
  {
    var price := Lookup(input, "price");
    assert |ProductFields| == 6 && ProductFields[0] == NameField && ProductFields[1] == DescriptionField;
    assert ProductFields[2] == PriceField;
    PriceCodes(price);
    if CheckField(PriceField, price).Some? {
      ReportsFirstFailingField(ProductFields, input, 2);
    }
  }

  /** The error code the price field reports for a missing, unsafe or non-positive price. */
  lemma PriceCodes(price: Option<Value>)
    ensures price.None? ==> CheckField(PriceField, price) == Some("any.required")
    ensures price.Some? && price.value.Number? && !IsSafe(price.value.number) ==>
      CheckField(PriceField, price) == Some("number.unsafe")
    ensures price.Some? && price.value.Number? && IsSafe(price.value.number) && RoundTo(price.value.number, 2) <= 0.0 ==>
      && CheckField(PriceField, price) == Some("number.positive")
      && Converted(PriceField.kind, price.value) == Number(RoundTo(price.value.number, 2))
  {
    assert |PriceField.rules| == 1 && PriceField.rules[0] == Positive;
  }

  /**
   * With the fields before it good, an SKU of acceptable length holding a
   * character other than a letter, digit, hyphen or underscore gets the
   * pattern message.
   */
  lemma SkuPatternMessage(input: Input)
    requires FieldAccepts(NameField, Lookup(input, "name"))
    requires FieldAccepts(DescriptionField, Lookup(input, "description"))
    requires FieldAccepts(PriceField, Lookup(input, "price"))
    ensures var sku := Lookup(input, "sku");
      sku.Some? && sku.value.Text? && 3 <= Utf16Length(sku.value.text) <= 50 && !WordCharsOnly(sku.value.text) ==>
        Validate(ProductFields, input)
        == Some(Violation(["sku"], "string.pattern.base",
                          Some("SKU can only contain letters, numbers, hyphens, and underscores"), sku))
  {
    var sku := Lookup(input, "sku");
    if sku.Some? && sku.value.Text? && 3 <= Utf16Length(sku.value.text) <= 50 && !WordCharsOnly(sku.value.text) {
      SkuPatternViolation(sku.value.text);
      SkuReportedFirst(input);
    }
  }

  /** With the first three product fields good, a failing SKU is what the product body reports. */
  lemma SkuReportedFirst(input: Input)
    requires FieldAccepts(NameField, Lookup(input, "name"))
    requires FieldAccepts(DescriptionField, Lookup(input, "description"))
    requires FieldAccepts(PriceField, Lookup(input, "price"))
    requires !FieldAccepts(SkuField, Lookup(input, "sku"))
    ensures Validate(ProductFields, input) == Some(FieldViolation(SkuField, Lookup(input, "sku")))
  {
    assert |ProductFields| == 6 && ProductFields[0] == NameField && ProductFields[1] == DescriptionField;
    assert ProductFields[2] == PriceField && ProductFields[3] == SkuField;
    ReportsFirstFailingField(ProductFields, input, 3);
  }

  /** The violation a badly spelled SKU of acceptable length produces. */
  lemma SkuPatternViolation(t: string)
    requires 3 <= Utf16Length(t) <= 50 && !WordCharsOnly(t)
    ensures !FieldAccepts(SkuField, Some(Text(t)))
    ensures FieldViolation(SkuField, Some(Text(t)))
            == Violation(["sku"], "string.pattern.base",
                         Some("SKU can only contain letters, numbers, hyphens, and underscores"), Some(Text(t)))
  {
    SkuPatternCode(t);
    assert MessageFor(SkuField, "string.pattern.base")
           == Some("SKU can only contain letters, numbers, hyphens, and underscores");
  }

  /** An SKU of acceptable length with a forbidden character breaks only the pattern rule. */
  lemma SkuPatternCode(t: string)
    requires 3 <= Utf16Length(t) <= 50 && !WordCharsOnly(t)
    ensures CheckField(SkuField, Some(Text(t))) == Some("string.pattern.base")
  {
    assert |SkuField.rules| == 3 && SkuField.rules[0] == MinLength(3) && SkuField.rules[1] == MaxLength(50);
    assert SkuField.rules[2] == WordChars;
    assert Converted(SkuField.kind, Text(t)) == Text(t);
    assert FirstBrokenRule(SkuField.rules, Text(t)) == Some(2);
  }

  /** A product body whose fields are all good but which carries another key is rejected for that key. */
  lemma ProductUnknownKeyMessage(input: Input, j: nat)
    requires FieldsAccept(ProductFields, input)
    requires j < |input| && input[j].0 !in ["name", "description", "price", "sku", "stock", "categoryId"]
    requires forall k :: 0 <= k < j ==> input[k].0 in ["name", "description", "price", "sku", "stock", "categoryId"]
    ensures Validate(ProductFields, input) == Some(Violation([input[j].0], "object.unknown", None, Some(input[j].1)))
  {
    ProductFieldsEach(input);
    ReportsUnknownKey(ProductFields, input, j);
  }

  /**
   * A comparison request is checked from the current start date on: its
   * absence and a non-ISO value each get their own message.
   */
  lemma ComparisonStartMessages(input: Input)
    ensures var start := Lookup(input, "currentStartDate");
      && (start.None? ==>
            Validate(SalesComparisonQueryFields, input)
            == Some(Violation(["currentStartDate"], "any.required", Some("Current start date is required"), None)))
      && (start.Some? && start.value.Text? ==>
            Validate(SalesComparisonQueryFields, input)
            == Some(Violation(["currentStartDate"], "date.format",
                              Some("Current start date must be a valid ISO 8601 date"), start)))
  {
    var start := Lookup(input, "currentStartDate");
    assert |SalesComparisonQueryFields| == 4 && SalesComparisonQueryFields[0] == CurrentStartField;
    if start.None? || start.value.Text? {
      ReportsFirstFailingField(SalesComparisonQueryFields, input, 0);
    }
  }

  /** A page number below 1 is the first thing the product listing query reports. */
  lemma ProductPageBelowOneMessage(input: Input)
    requires Lookup(input, "page") == Some(Number(0.0))
    ensures Validate(ProductQueryFields, input)
            == Some(Violation(["page"], "number.min", Some("Page must be at least 1"), Some(Number(0.0))))
  {
    assert |ProductQueryFields| == 6 && ProductQueryFields[0] == PageField;
    assert PageField.rules[0] == Integer && PageField.rules[1] == AtLeast(1);
    ReportsFirstFailingField(ProductQueryFields, input, 0);
  }

  /**
   * The sales listing query checks its filters first, then the page; its
   * schema sets no message, so a page below 1 gets Joi's built-in text.
   */
  lemma SalesPageBelowOneMessage(input: Input)
    requires Lookup(input, "page") == Some(Number(0.0))
    requires OptionalDate(Lookup(input, "startDate")) && OptionalDate(Lookup(input, "endDate"))
    requires OptionalPositiveWhole(Lookup(input, "productId")) && OptionalPositiveWhole(Lookup(input, "categoryId"))
    ensures Validate(SalesQueryFields, input) == Some(Violation(["page"], "number.min", None, Some(Number(0.0))))
  {
    SalesFilterFieldsMeaning(Lookup(input, "startDate"), Lookup(input, "endDate"),
                             Lookup(input, "productId"), Lookup(input, "categoryId"));
    PagingFieldsMeaning(Lookup(input, "page"), Lookup(input, "limit"));
    assert |SalesQueryFields| == 6
      && SalesQueryFields[0] == StartDateField
      && SalesQueryFields[1] == EndDateField
      && SalesQueryFields[2] == ProductFilterField
      && SalesQueryFields[3] == CategoryIdFilterField
      && SalesQueryFields[4] == SalesPageField;
    PageBelowOneCode();
    var page := Some(Number(0.0));
    assert !FieldAccepts(SalesPageField, page);
    assert forall j :: 0 <= j < 4 ==> FieldAccepts(SalesQueryFields[j], Lookup(input, SalesQueryFields[j].key)) by {
      assert FieldAccepts(StartDateField, Lookup(input, "startDate"));
      assert FieldAccepts(EndDateField, Lookup(input, "endDate"));
      assert FieldAccepts(ProductFilterField, Lookup(input, "productId"));
      assert FieldAccepts(CategoryIdFilterField, Lookup(input, "categoryId"));
    }
    ReportsFirstFailingField(SalesQueryFields, input, 4);
    assert MessageFor(SalesPageField, "number.min") == None;
    assert Shown(SalesPageField, page, "number.min") == page;
  }

  /** Page 0 is whole and safe, so it breaks the minimum rule. */
  lemma PageBelowOneCode()
    ensures CheckField(SalesPageField, Some(Number(0.0))) == Some("number.min")
  {
    assert SalesPageField.rules[0] == Integer && SalesPageField.rules[1] == AtLeast(1);
    assert IsSafe(0.0) && IsWhole(0.0);
    assert Converted(SalesPageField.kind, Number(0.0)) == Number(0.0);
  }

  // ---------------------------------------------------------------------------
  // What validation guarantees the services

  /** A number the schema accepted as whole, as the integer it is. */
  function WholeOf(v: Option<Value>): (r: Option<int>)
    ensures r.Some? <==> v.Some? && v.value.Number?
    ensures r.Some? && IsWhole(v.value.number) ==> r.value as real == v.value.number
  {
    if v.Some? && v.value.Number? then Some(v.value.number.Floor) else None
  }

  /** An id the schema accepted as a positive whole number. */
  function IdOf(v: Option<Value>): (r: Option<Id>)
    requires OptionalPositiveWhole(v)
    ensures r.Some? <==> v.Some?
    ensures r.Some? ==> r.value >= 1 && r.value as real == v.value.number
  {
    if v.Some? then Some(v.value.number.Floor) else None
  }

  function DateOf(v: Option<Value>): (r: Option<int>)
    ensures r.Some? <==> v.Some? && v.value.IsoDate?
    ensures r.Some? ==> v == Some(IsoDate(r.value))
  {
    if v.Some? && v.value.IsoDate? then Some(v.value.time) else None
  }

  /** The boolean Joi converted a query flag to. */
  function FlagOf(v: Option<Value>): (r: Option<bool>)
    ensures r.Some? <==> v.Some? && v.value.Flag?
    ensures r.Some? ==> r.value == v.value.flag
  {
    if v.Some? && v.value.Flag? then Some(v.value.flag) else None
  }

  /**
   * The listing request the product controller builds from a validated query
   * string. It reads the raw query, not Joi's converted values: `lowStock` is
   * on only when it was written exactly "true", and `lowStockThreshold` is
   * never passed on, so the service's default of 10 always applies.
   */
  function ProductQueryOf(input: Input): (q: ProductService.ProductQuery)
    requires ProductQueryOk(input)
    ensures q.page == WholeOf(Lookup(input, "page")).GetOr(1)
    ensures q.limit == WholeOf(Lookup(input, "limit")).GetOr(10)
    ensures q.filters.category == IdOf(Lookup(input, "category"))
    ensures var f := Lookup(input, "lowStock");
      q.filters.lowStock <==> f.Some? && f.value.Flag? && f.value.written == "true"
    ensures q.filters.lowStockThreshold == 10
  {
    var f := Lookup(input, "lowStock");
    ProductService.ProductQueryWithDefaults(
      WholeOf(Lookup(input, "page")), WholeOf(Lookup(input, "limit")), IdOf(Lookup(input, "category")),
      Some(f.Some? && f.value.Flag? && f.value.written == "true"), None)
  }

  /**
   * The listing request the query string asks for: Joi's boolean decides
   * `lowStock`, and an accepted threshold reaches the service.
   */
  function IntendedProductQueryOf(input: Input): (q: ProductService.ProductQuery)
    requires ProductQueryOk(input)
    ensures q.page == ProductQueryOf(input).page && q.limit == ProductQueryOf(input).limit
    ensures q.filters.category == ProductQueryOf(input).filters.category
    ensures q.filters.lowStock <==> FlagOf(Lookup(input, "lowStock")) == Some(true)
    ensures q.filters.lowStockThreshold == WholeOf(Lookup(input, "lowStockThreshold")).GetOr(10)
  {
    ProductService.ProductQueryWithDefaults(
      WholeOf(Lookup(input, "page")), WholeOf(Lookup(input, "limit")), IdOf(Lookup(input, "category")),
      FlagOf(Lookup(input, "lowStock")), WholeOf(Lookup(input, "lowStockThreshold")))
  }

  /**
   * A query string the product schema accepts yields a page of at least 1
   * and a page size within 1..100, equal to the values given, so the listing
   * can be served. The controller's threshold is always 10; the intended
   * request carries the accepted threshold, which is at least 1.
   */
  lemma ValidatedProductQueryServes(input: Input)
    requires Validate(ProductQueryFields, input).None?
    ensures ProductQueryOk(input)
    ensures var q := ProductQueryOf(input);
      && 1 <= q.page && 1 <= q.limit <= 100 && q.filters.lowStockThreshold == 10
      && (Lookup(input, "page").Some? ==> q.page as real == Lookup(input, "page").value.number)
      && (Lookup(input, "limit").Some? ==> q.limit as real == Lookup(input, "limit").value.number)
    ensures var t := Lookup(input, "lowStockThreshold");
      && 1 <= IntendedProductQueryOf(input).filters.lowStockThreshold
      && (t.Some? ==> IntendedProductQueryOf(input).filters.lowStockThreshold as real == t.value.number)
  {
    ProductQuerySchemaMeaning(input);
  }

  /** `?lowStock=true&lowStockThreshold=50`: accepted, yet the listing filters on stock below 10. */
  const ThresholdQuery: Input := [("lowStock", Flag(true, "true")), ("lowStockThreshold", Number(50.0))]

  lemma ThresholdIsIgnored()
    ensures Validate(ProductQueryFields, ThresholdQuery).None?
    ensures ProductQueryOf(ThresholdQuery).filters.lowStock
    ensures ProductQueryOf(ThresholdQuery).filters.lowStockThreshold == 10
    ensures IntendedProductQueryOf(ThresholdQuery).filters.lowStockThreshold == 50
  {
    assert Lookup(ThresholdQuery, "lowStockThreshold") == Some(Number(50.0));
    assert Lookup(ThresholdQuery, "lowStock") == Some(Flag(true, "true"));
    assert KeysDeclared(ThresholdQuery, ["page", "limit", "category", "lowStock", "search", "lowStockThreshold"]);
    ProductQuerySchemaMeaning(ThresholdQuery);
  }

  /** `?lowStock=TRUE`: Joi accepts it as true, yet the listing is not filtered. */
  const UpperCaseQuery: Input := [("lowStock", Flag(true, "TRUE"))]

  lemma UpperCaseTrueIsIgnored()
    ensures Validate(ProductQueryFields, UpperCaseQuery).None?
    ensures !ProductQueryOf(UpperCaseQuery).filters.lowStock
    ensures IntendedProductQueryOf(UpperCaseQuery).filters.lowStock
  {
    assert Lookup(UpperCaseQuery, "lowStock") == Some(Flag(true, "TRUE"));
    assert KeysDeclared(UpperCaseQuery, ["page", "limit", "category", "lowStock", "search", "lowStockThreshold"]);
    ProductQuerySchemaMeaning(UpperCaseQuery);
  }

  /**
   * The listing request the sales controller builds from a validated query
   * string: `Number(page)`, `Number(limit)` with defaults 1 and 10, and each
   * filter passed on as given.
   */
  function SalesQueryOf(input: Input): (q: SalesService.SalesQuery)
    requires SalesQueryOk(input)
    ensures q.page == WholeOf(Lookup(input, "page")).GetOr(1)
    ensures q.limit == WholeOf(Lookup(input, "limit")).GetOr(10)
    ensures q.filter.startDate == DateOf(Lookup(input, "startDate"))
    ensures q.filter.endDate == DateOf(Lookup(input, "endDate"))
    ensures q.filter.productId == IdOf(Lookup(input, "productId"))
    ensures q.filter.categoryId == IdOf(Lookup(input, "categoryId"))
  {
    SalesService.SalesQuery(
      WholeOf(Lookup(input, "page")).GetOr(1), WholeOf(Lookup(input, "limit")).GetOr(10),
      SalesService.SalesFilter(DateOf(Lookup(input, "startDate")), DateOf(Lookup(input, "endDate")),
                               IdOf(Lookup(input, "productId")), IdOf(Lookup(input, "categoryId"))))
  }

  /**
   * A query string the sales schema accepts yields a page and page size the
   * listing accepts, and every filter given arrives.
   */
  lemma ValidatedSalesQueryServes(input: Input)
    requires Validate(SalesQueryFields, input).None?
    ensures SalesQueryOk(input)
    ensures var q := SalesQueryOf(input);
      && 1 <= q.page && 1 <= q.limit <= 100
      && (q.filter.startDate.Some? <==> Lookup(input, "startDate").Some?)
      && (q.filter.endDate.Some? <==> Lookup(input, "endDate").Some?)
      && (q.filter.productId.Some? <==> Lookup(input, "productId").Some?)
      && (q.filter.categoryId.Some? <==> Lookup(input, "categoryId").Some?)
  {
    SalesQuerySchemaMeaning(input);
  }

  /**
   * A price in cents as the DECIMAL(10,2) column stores it: the raw body
   * value rounded to two decimals, halves up, the same rounding Joi applies
   * before `positive()`.
   */
  function Cents(price: real): (c: int)
    ensures c as real / 100.0 == RoundTo(price, 2)
  {
    assert Pow10(2) == 100.0;
    (price * 100.0 + 0.5).Floor
  }

  /** The `createProduct` input the controller passes on from a validated body. */
  function ProductInputOf(input: Input): (p: ProductService.ProductInput)
    requires ProductBodyOk(input)
    ensures p.name == Lookup(input, "name").value.text && p.sku == Lookup(input, "sku").value.text
    ensures p.description.Some? <==> Lookup(input, "description").Some?
    ensures p.description.Some? ==> p.description.value == Lookup(input, "description").value.text
    ensures p.price == Cents(Lookup(input, "price").value.number)
    ensures p.stock as real == Lookup(input, "stock").value.number
    ensures p.categoryId as real == Lookup(input, "categoryId").value.number
  {
    var d := Lookup(input, "description");
    ProductService.ProductInput(
      Lookup(input, "name").value.text,
      if d.Some? then Some(d.value.text) else None,
      Cents(Lookup(input, "price").value.number),
      Lookup(input, "sku").value.text,
      Lookup(input, "stock").value.number.Floor,
      Lookup(input, "categoryId").value.number.Floor)
  }

  /**
   * A product body the schema accepts becomes a `createProduct` call with a
   * positive price in cents and a non-negative stock, the condition under
   * which every run of mutations keeps the store invariant.
   */
  lemma ValidatedProductIsAdmissible(input: Input)
    requires Validate(ProductFields, input).None?
    ensures ProductBodyOk(input)
    ensures var p := ProductInputOf(input);
      p.price >= 1 && p.stock >= 0 && Ledger.Admissible(Ledger.CreateProduct(p))
  {
    ProductSchemaMeaning(input);
    var price := Lookup(input, "price").value.number;
    assert Cents(price) as real / 100.0 > 0.0;
  }

  /** An accepted period name selects the grouping of the same name. */
  lemma ValidatedPeriodSelectsItsGrouping(input: Input)
    requires Validate(RevenueAnalyticsQueryFields, input).None?
    requires Lookup(input, "period").Some?
    ensures var p := Lookup(input, "period").value;
      p.Text? && SalesService.PeriodName(SalesService.GroupingOf(p.text)) == p.text
  {
    RevenueAnalyticsQuerySchemaMeaning(input);
  }

  /**
   * An accepted comparison query carries all four dates, so the check for a
   * missing date that follows validation never fires.
   */
  lemma ValidatedComparisonHasAllDates(input: Input)
    requires Validate(SalesComparisonQueryFields, input).None?
    ensures DateOf(Lookup(input, "currentStartDate")).Some?
    ensures DateOf(Lookup(input, "currentEndDate")).Some?
    ensures DateOf(Lookup(input, "previousStartDate")).Some?
    ensures DateOf(Lookup(input, "previousEndDate")).Some?
  {
    ComparisonQuerySchemaMeaning(input);
  }

  /** An accepted sale body names a product id of at least 1 and a quantity of at least 1. */
  lemma ValidatedSaleIsPositive(input: Input)
    requires Validate(SaleFields, input).None?
    ensures var id, quantity := IdOf(Lookup(input, "productId")), IdOf(Lookup(input, "quantity"));
      id.Some? && id.value >= 1 && quantity.Some? && quantity.value >= 1
  {
    SaleSchemaMeaning(input);
  }
}
