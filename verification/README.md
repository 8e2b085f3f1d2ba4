# Inventory and sales core of ecommerce-backend-api, in Dafny

This project models the core of a small e-commerce backend:

- **Product service.** It creates products, adjusts inventory by hand and reduces stock. Each stock change is written to the product row and also logged as one signed row in the inventory-change ledger.
- **Sales service.** It records sales. It also serves a paginated sales listing and three analytics reports: revenue by period, revenue by category, and a period-over-period comparison.
- **Request schemas.** These are the Joi object schemas that guard every endpoint.
- **Validation middlewares.** Each one turns a schema failure into a `ValidationError` whose message begins with the request part's prefix.
- **Error taxonomy and error handler.** The handler maps every thrown error to an HTTP status and a JSON body. A fallback answers 404 for unknown routes.

The database is an immutable in-memory `Store`: categories, products, the ledger and the sales table. Every mutating service call is a pure function that returns the new store together with either a result or an `ApiError`. Queries are pure functions of the store. SQL aggregation (`SUM`, `COUNT`, `GROUP BY`, `ORDER BY`, `skip`/`take`) is given its meaning over sequences.

Money is held in integer cents. Times are integers. Averages and percentage changes are exact `real`s.

Modules, one per file:

| module | file | models |
|---|---|---|
| `Wrappers` | wrappers.dfy | `Option` and `Result` |
| `Decimal` | decimal.dfy | how `${n}` prints an integer inside an error message |
| `Errors` | errors.dfy | `src/errors/index.ts` |
| `Entities` | entities.dfy | the four tables and the ledger sum |
| `Seqs`, `Sorting`, `Text` | seqs.dfy, sorting.dfy, text.dfy | `reduce`/`filter`, `ORDER BY … DESC`, `join`/`split` |
| `Pagination` | pagination.dfy | `skip`/`take`/`Math.ceil(total / limit)` |
| `Aggregation` | aggregation.dfy | `SUM`/`COUNT … GROUP BY` |
| `ProductService` | product_service.dfy | `src/services/product.ts` |
| `SalesService` | sales_service.dfy | `src/services/sales.ts` |
| `Ledger` | ledger.dfy | runs of mutations and worked scenarios |
| `Schema` | schema.dfy | the part of Joi object validation the schemas use |
| `RequestSchemas` | request_schemas.dfy | `src/schemas/*.ts` |
| `ValidationMiddleware` | validation.dfy | `src/middleware/validation.ts` |
| `ErrorHandler` | error_handler.dfy | `src/middleware/errorHandler.ts` |

The store invariant `Entities.Valid` says:

- Every product id is positive and below the next id the counter will issue.
- Every product belongs to a stored category and has a positive price.
- Every stock is non-negative.
- Every stock equals the sum of that product's ledger rows.
- Every ledger row and every sale refers to a stored product.
- Every sale's id is its position in the sales table, counting from 1.
- SKUs are distinct.

Every successful mutation preserves this invariant and appends exactly one ledger row. A failed mutation leaves the store unchanged.

## Model

| member | source | states |
|---|---|---|
| `Errors.StatusCode` | src/errors/index.ts:1-70 | ValidationError and InsufficientStock answer 400; the two not-found errors answer 404; DuplicateSku answers 409; a plain ApiError keeps its own status |
| `Errors.NotFoundNamesId` | src/errors/index.ts:28-46 | A not-found message names the id exactly when the id is truthy. Different non-zero ids give different messages. No id gives "<Entity> not found" |
| `Errors.InsufficientStockNamesProduct` | src/errors/index.ts:48-60 | The message starts "Insufficient stock". The quoted product clause follows exactly when a non-empty name is given; otherwise ". Available:" follows directly |
| `Decimal.ParseIntRoundTrip` | src/errors/index.ts:30-32 | Printing an integer id into a message loses nothing: parsing the printed text gives the integer back |
| `Decimal.IntToStringInjective` | src/errors/index.ts:52-53 | Two integers print the same exactly when they are equal |
| `Entities.LedgerSumAppend` | src/services/product.ts:199-206 | Logging a row moves only its own product's ledger sum, and by exactly its delta |
| `Entities.LedgerSumUnmentioned` | src/services/product.ts:199-206 | A product that no ledger row mentions has ledger sum 0 |
| `ProductService.Adjust` | src/services/product.ts:131-134 | The shared write pair: only that product's stock changes, by the delta; exactly one row (id, delta, reason) is appended; nothing else changes |
| `ProductService.CreateProduct` | src/services/product.ts:73-112 | A taken SKU gives DuplicateSku first, then an unknown category gives CategoryNotFound(id). Success happens exactly when neither applies: the product gets the next id with the given fields, and exactly one "Initial stock" row of the initial stock is logged. On error the store is unchanged |
| `ProductService.ReasonOrDefault` | src/services/product.ts:134-141 | An absent or empty reason becomes "Manual adjustment"; any other reason is kept; the result is never empty |
| `ProductService.UpdateInventory` | src/services/product.ts:114-143 | An unknown id gives ProductNotFound(id). A change that would make stock negative gives InsufficientStock(stock, abs(change), name), whose request exceeds what is available. Success happens exactly otherwise, zero changes included: it applies and logs the signed change and reports the previous and new stock |
| `ProductService.ReduceStock` | src/services/product.ts:178-197 | An unknown id gives ProductNotFound; a quantity above stock gives InsufficientStock(stock, quantity, name). Success happens exactly otherwise: stock drops by the quantity and one row of -quantity is logged, with reason "Sale" when none is passed. The updated product is returned |
| `ProductService.AdjustKeepsValid` | src/services/product.ts:123-134 | A stock write plus its ledger row keeps stock equal to the ledger sum; the product's sum moves by the delta |
| `ProductService.CreateProductKeepsValid` | src/services/product.ts:99-109 | A product created with stock ≥ 0 and price > 0 keeps the invariant. Its id is fresh, and its ledger sum equals its initial stock |
| `ProductService.UpdateInventoryKeepsValid` | src/services/product.ts:114-143 | `updateInventory` preserves the store invariant whatever it is called with |
| `ProductService.ReduceStockKeepsValid` | src/services/product.ts:178-197 | `reduceStock` preserves the store invariant whatever it is called with |
| `ProductService.NewestFirst` | src/services/product.ts:58 | Listing rows are the stored products with their ids, in strictly decreasing id (creation) order. When ids come from the auto-increment counter, every product appears |
| `ProductService.ProductQueryWithDefaults` | src/services/product.ts:25-32 | Page defaults to 1 and limit to 10. The low-stock filter is on exactly when `true` is passed. The threshold is the one passed, or 10 when none is. The category filter is passed through |
| `ProductService.Listing` | src/services/product.ts:40-58 | Every listed row is a stored product matching the category and low-stock filters, and every matching product is listed. Ids strictly decrease, so the listing is newest first with no product twice |
| `ProductService.GetProducts` | src/services/product.ts:55-70 | The rows are the `skip((page-1)*limit).take(limit)` slice of the newest-first listing. The pagination echoes page and limit; `total` is the number of matching products and `totalPages` is `Math.ceil(total / limit)` |
| `ProductService.GetProductsListsEveryMatch` | src/services/product.ts:55-68 | Every matching product is on some page numbered 1..totalPages, at a named position |
| `ProductService.ByStock` | src/services/product.ts:157 | `ORDER BY stock ASC`: a permutation of the rows with stock non-decreasing |
| `ProductService.LowStockRows` | src/services/product.ts:160-162 | The alerts hold each row with stock strictly below the threshold exactly as often as the input does, and no other row; input in ascending stock order stays in that order |
| `ProductService.GetInventoryStatus` | src/services/product.ts:145-176 | Every product exactly once, in ascending stock order. The alerts are the low-stock products, each exactly once, still in ascending stock order. The counts match the lists. The total value is Σ stock × price over all products, in any order |
| `ProductService.InventoryValueNonNegative` | src/services/product.ts:164-166 | In a valid store the total inventory value is never negative |
| `Seqs.Filter` | src/services/product.ts:160-162 | `Array.filter`: each element satisfying the predicate is kept exactly as often as it occurs in the input, and no other element is kept |
| `Seqs.FilterKeepsOrder` | src/services/product.ts:160-162 | `Array.filter` keeps the survivors in their original order: a relation from every element to every later one still holds afterwards |
| `Seqs.SumOfPermutation` | src/services/product.ts:164-166 | A `reduce` sum does not depend on the order of its terms |
| `Sorting.SortDesc` | src/services/sales.ts:68 | `ORDER BY … DESC`: a permutation of the input, sorted by non-increasing score |
| `Pagination.Skip` | src/services/product.ts:55 | `(page - 1) * limit` is a whole number of pages: divisible by limit with quotient page - 1 |
| `Pagination.TotalPages` | src/services/product.ts:68 | `Math.ceil(total / limit)`: the fewest pages that hold all rows; 0 exactly when there are no rows |
| `Pagination.PageOf` | src/services/product.ts:55-56 | `skip(…).take(limit)`: at most `limit` rows, each the row `skip + j` of the ordered input. A page is full when enough rows remain, shorter on the last page, and non-empty whenever `skip` is inside the input |
| `Pagination.ItemOnItsPage` | src/services/sales.ts:63-79 | Row i is at position `i % limit` of page `i / limit + 1`, and that page is within `totalPages` |
| `Pagination.PastLastPageEmpty` | src/services/sales.ts:63-79 | Pages past `totalPages` are empty |
| `Aggregation.WithoutKey` | src/services/sales.ts:154 | Removing one key's sales keeps every sale with another key and only those |
| `Aggregation.GroupSplitsTotals` | src/services/sales.ts:150-152 | One key's group and the rest split the revenue, the quantity and the count |
| `Aggregation.GroupBy` | src/services/sales.ts:146-155 | `GROUP BY`: distinct keys, each row aggregating exactly the sales with its key, and no empty row |
| `Aggregation.GroupByCoversEveryKey` | src/services/sales.ts:146-155 | Every sale's key has a row |
| `Aggregation.GroupByConserves` | src/services/sales.ts:168-170 | The rows' revenue, quantity and count add up to those of all grouped sales |
| `Aggregation.RankedGroups` | src/services/sales.ts:154-155 | Grouped rows sorted by a score keep distinct keys, exact per-key aggregates and the conserved totals |
| `Aggregation.RankedGroupsCoverEveryKey` | src/services/sales.ts:154-155 | After sorting, every sale's key still has its row |
| `Aggregation.StrictlyDescending` | src/services/sales.ts:155 | Distinct period keys sorted descending are strictly descending |
| `SalesService.CreateSale` | src/services/sales.ts:83-112 | An unknown product gives ProductNotFound(id), then a quantity above stock gives InsufficientStock(stock, quantity, name). Success happens exactly otherwise. On error the store is unchanged |
| `SalesService.SaleDecrementCannotFail` | src/services/sales.ts:94-109 | The `reduceStock` that follows a saved sale always succeeds, because it repeats a check that just passed |
| `SalesService.CreateSaleEffect` | src/services/sales.ts:98-111 | A successful sale saves one row priced at price × quantity and lowers only that product's stock, by the quantity. It logs exactly one "Sale" row of -quantity |
| `SalesService.CreateSaleKeepsValid` | src/services/sales.ts:83-112 | `createSale` preserves the store invariant |
| `SalesService.WindowsDifferOnlyOnSingleBound` | src/services/sales.ts:38-51 | The listing's and the analytics' date filters agree when both bounds are given. With one bound, the listing filters on that side while the analytics keep everything |
| `SalesService.SaleCategory` | src/services/sales.ts:32-35 | A sale joins to its category exactly when its product exists and that product's category exists; the category found is the product's |
| `SalesService.SalesListing` | src/services/sales.ts:37-68 | Exactly the sales passing the date, product and category filters, newest first |
| `SalesService.GetSales` | src/services/sales.ts:15-81 | The page is `skip`/`take` of the filtered listing ordered newest first, so it holds at most `limit` stored, matching sales. Page and limit are echoed. `total` counts all matches and `totalPages` is `ceil(total / limit)` |
| `SalesService.MatchingSaleIsListed` | src/services/sales.ts:53-61 | Every stored sale that passes the filters is in the ordered listing |
| `SalesService.GetSalesListsEverySelected` | src/services/sales.ts:63-79 | Every listed sale appears on some page within `totalPages`, at a named position |
| `SalesService.GroupingOf` | src/services/sales.ts:124-144 | "weekly", "monthly" and "annual" select their grouping; every other string, "daily" included, groups by day |
| `SalesService.GroupingOfName` | src/services/sales.ts:124-140 | Each grouping's own name selects that grouping |
| `SalesService.Summarize` | src/services/sales.ts:167-180 | Totals are the sums over the rows. The average times the count equals the revenue when there were sales, and is 0 otherwise |
| `SalesService.GetRevenueAnalytics` | src/services/sales.ts:114-182 | Rows have distinct periods, strictly newest first, and each aggregates exactly its period's sales in the window; no row is empty. The period defaults to "daily". Summary totals equal those of all selected sales, and the summary is that of the returned rows, so its average follows the average law of `Summarize` |
| `SalesService.EverySaleHasItsPeriod` | src/services/sales.ts:146-163 | Every sale inside the window is counted in the row of its period |
| `SalesService.GetSalesByCategory` | src/services/sales.ts:184-210 | Rows have distinct categories (the NULL category counts as one), highest revenue first, and each is exact for its category. Revenue and count over the rows equal those of all selected sales |
| `SalesService.RevenueOrder` | src/services/sales.ts:199 | Rows sorted by revenue descending have non-increasing revenue |
| `SalesService.InRange` | src/services/sales.ts:233-236 | `BETWEEN start AND end` keeps each stored sale inside the inclusive range exactly as often as it is stored, and nothing else |
| `SalesService.RawTotalsOf` | src/services/sales.ts:226-237 | The count is the number of sales. SUM is NULL exactly when there are no sales; otherwise it is the revenue and the quantity |
| `SalesService.PercentChange` | src/services/sales.ts:253-264 | With a positive previous value, change × previous = (current - previous) × 100; otherwise the change is 0 |
| `SalesService.PercentChangeMeaning` | src/services/sales.ts:253-264 | The change is positive exactly when the value grew and zero exactly when it stayed; applying it to the previous value gives back the current one |
| `SalesService.GetSalesComparison` | src/services/sales.ts:212-287 | Each period reports its range's revenue, quantity and count, NULL read as 0. The three changes are the percentage changes between them |
| `SalesService.EmptyPreviousPeriodReportsNoChange` | src/services/sales.ts:254-279 | An empty previous period reads as zero and reports no change rather than dividing by zero |
| `Ledger.Execute` | src/services/product.ts:73-197 | A failed call leaves the store unchanged; a successful one appends exactly one ledger row |
| `Ledger.ExecuteKeepsValid` | src/services/product.ts:114-197 | Each mutation allowed through validation preserves the store invariant |
| `Ledger.Run` | src/services/product.ts:199-206 | After any sequence of calls the ledger has grown by exactly the number of successes, and its old rows are untouched |
| `Ledger.RunKeepsValid` | src/services/product.ts:123-134 | After any sequence of allowed calls every stock is non-negative and equals its ledger sum |
| `Ledger.RestockThenSellScenario` | src/services/product.ts:114-143 | Stock 20, then +5 "restock", then -3 "sale", ends at 22. The ledger rows are +20, +5, -3 and sum to 22 |
| `Ledger.SaleScenario` | src/services/sales.ts:94-109 | A product at 10.00 with stock 5 sells 3: the total is 30.00, the stock becomes 2, and one row of -3 is logged |
| `Ledger.OversizedSaleScenario` | src/services/sales.ts:94-96 | Selling 6 of 5 fails with InsufficientStock(5, 6, name) and changes nothing |
| `Schema.Lookup` | src/middleware/validation.ts:7 | A key's value is present exactly when the input has the key, and the value is the one stored under it |
| `Schema.FirstBrokenRule` | src/schemas/product.ts:17-22 | A field's rules are checked in order: the first one broken is reported, and none is reported exactly when all hold |
| `Schema.CheckField` | src/schemas/product.ts:5-16 | A field reports an error exactly when its order-free acceptance predicate fails. A missing value errs exactly when required. `allow('')` accepts "". A number outside ±(2^53 − 1) is "number.unsafe". Rules see the value after `precision` rounding |
| `Schema.RoundTo` | src/schemas/product.ts:13 | Rounding to `p` decimals, halves up, moves a value by at most half a unit in the last place |
| `Schema.Utf16Length` | src/schemas/product.ts:5 | A string's length in UTF-16 code units is between its character count and twice that, and 0 only for "" |
| `Schema.FirstFailingField` | src/schemas/product.ts:4-33 | Declared fields are checked in order, and the first failing one is reported |
| `Schema.FirstUnknownKey` | src/schemas/product.ts:4-33 | The first input key the schema does not declare is reported |
| `Schema.Validate` | src/middleware/validation.ts:7 | Under `abortEarly`, no violation exactly when every field accepts and every key is declared. An unknown key is reported only after all fields passed |
| `Schema.ReportsFirstFailingField` | src/middleware/validation.ts:7 | With every earlier field accepting, the violation reported is the failing field's |
| `Schema.ReportsUnknownKey` | src/middleware/validation.ts:7 | With every field accepting, the first undeclared key is reported as "object.unknown" with Joi's own text |
| `RequestSchemas.ProductFieldsEach` | src/schemas/product.ts:4-33 | The product schema declares name, description, price, sku, stock and categoryId, and accepts field by field |
| `RequestSchemas.ProductTextFieldsMeaning` | src/schemas/product.ts:5-22 | Name is 2..100 UTF-16 code units. Description is absent or up to 500 code units, "" included. SKU is 3..50 code units of letters, digits, '-' and '_' |
| `RequestSchemas.ProductNumberFieldsMeaning` | src/schemas/product.ts:13-32 | Every number is within ±(2^53 − 1). Price is positive once rounded to cents; stock is a whole number ≥ 0; categoryId is a positive whole number |
| `RequestSchemas.ProductSchemaMeaning` | src/schemas/product.ts:4-33 | The product schema accepts a body exactly when the plain product-body predicate holds, safe range and UTF-16 lengths included |
| `RequestSchemas.InventoryUpdateFieldsEach` | src/schemas/product.ts:35-43 | The update schema declares changeAmount and reason and accepts field by field |
| `RequestSchemas.InventoryUpdateSchemaMeaning` | src/schemas/product.ts:35-43 | Accepted exactly when changeAmount is a safe whole number (any sign, zero included) and the reason is absent or 1..200 UTF-16 code units |
| `RequestSchemas.ProductQueryFieldsEach` | src/schemas/product.ts:45-58 | The listing query schema declares its six keys and accepts field by field |
| `RequestSchemas.PagingFieldsMeaning` | src/schemas/product.ts:46-55 | Page is absent or a safe whole number ≥ 1; limit is absent or whole within 1..100. The same holds in both listings |
| `RequestSchemas.ProductFilterFieldsMeaning` | src/schemas/product.ts:55-58 | Category is a positive safe whole number, lowStock a boolean, search a non-empty string, threshold a safe whole number ≥ 1; each may be absent |
| `RequestSchemas.ProductQuerySchemaMeaning` | src/schemas/product.ts:45-58 | The product listing query is accepted exactly when the plain query predicate holds, safe range included |
| `RequestSchemas.SaleFieldsEach` | src/schemas/sales.ts:3-14 | The sale schema declares productId and quantity and accepts field by field |
| `RequestSchemas.SaleSchemaMeaning` | src/schemas/sales.ts:3-14 | A sale body is accepted exactly when productId and quantity are positive safe whole numbers and nothing else is sent |
| `RequestSchemas.SalesQueryFieldsEach` | src/schemas/sales.ts:16-27 | The sales query schema declares its six keys and accepts field by field |
| `RequestSchemas.SalesFilterFieldsMeaning` | src/schemas/sales.ts:17-24 | Each date is absent or ISO 8601; productId and categoryId are absent or positive safe whole numbers |
| `RequestSchemas.SalesQuerySchemaMeaning` | src/schemas/sales.ts:16-27 | The sales listing query is accepted exactly when the plain query predicate holds, safe range included |
| `RequestSchemas.ComparisonQueryFieldsEach` | src/schemas/sales.ts:29-46 | The comparison schema declares its four dates and accepts field by field |
| `RequestSchemas.ComparisonQuerySchemaMeaning` | src/schemas/sales.ts:29-46 | A comparison query is accepted exactly when all four dates are present and ISO 8601 and nothing else is sent |
| `RequestSchemas.RevenueAnalyticsQueryFieldsEach` | src/schemas/sales.ts:48-52 | The analytics schema declares period, startDate and endDate and accepts field by field |
| `RequestSchemas.RevenueAnalyticsQuerySchemaMeaning` | src/schemas/sales.ts:48-52 | Accepted exactly when the period is absent or one of daily/weekly/monthly/annual and the dates are absent or ISO 8601 |
| `RequestSchemas.IdParamFieldsEach` | src/schemas/common.ts:3-9 | The id schema declares only id |
| `RequestSchemas.IdParamSchemaMeaning` | src/schemas/common.ts:3-9 | Route parameters are accepted exactly when id is a positive safe whole number and nothing else is sent |
| `RequestSchemas.ProductNameMessages` | src/schemas/product.ts:5-9 | The name is checked first. Missing gives "Product name is required"; one UTF-16 code unit gives "…at least 2 characters long"; over 100 gives "…must not exceed 100 characters"; "" gets Joi's own "string.empty" text |
| `RequestSchemas.NameCodes` | src/schemas/product.ts:5-9 | The error code of each kind of bad name |
| `RequestSchemas.ProductPriceMessages` | src/schemas/product.ts:13-16 | After a good name and description: a missing price gives "Price is required"; an unsafe number gives Joi's "number.unsafe"; one that rounds to ≤ 0 cents gives "Price must be a positive number" and shows the rounded value |
| `RequestSchemas.PriceCodes` | src/schemas/product.ts:13-16 | The error code of a missing, unsafe and non-positive price, and the rounded value a rule sees |
| `RequestSchemas.SkuPatternMessage` | src/schemas/product.ts:17-22 | After good earlier fields, an SKU of legal length with a forbidden character gets the pattern message |
| `RequestSchemas.SkuReportedFirst` | src/schemas/product.ts:4-22 | With name, description and price good, a failing SKU is the violation the body reports |
| `RequestSchemas.SkuPatternViolation` | src/schemas/product.ts:17-22 | An SKU of legal length with a forbidden character is rejected with the pattern message and shown as sent |
| `RequestSchemas.SkuPatternCode` | src/schemas/product.ts:17-22 | Such an SKU breaks only the pattern rule |
| `RequestSchemas.ProductUnknownKeyMessage` | src/schemas/product.ts:4-33 | A body whose fields are all good but which has an extra key is rejected for that key, with Joi's own text |
| `RequestSchemas.ComparisonStartMessages` | src/schemas/sales.ts:30-33 | A missing current start date gives "Current start date is required"; a non-ISO one gives "…must be a valid ISO 8601 date" |
| `RequestSchemas.ProductPageBelowOneMessage` | src/schemas/product.ts:46-49 | Page 0 on the product listing gives "Page must be at least 1" |
| `RequestSchemas.SalesPageBelowOneMessage` | src/schemas/sales.ts:16-27 | Page 0 on the sales listing, after good filters, gets Joi's own "number.min" text, because that schema sets no messages |
| `RequestSchemas.PageBelowOneCode` | src/schemas/sales.ts:17 | Page 0 breaks the sales page field's minimum |
| `RequestSchemas.WholeOf` | src/controllers/product.ts:17-18 | `Number(page)` of an accepted whole number is that number |
| `RequestSchemas.IdOf` | src/services/sales.ts:54-61 | An accepted id filter becomes an id ≥ 1 of the same value |
| `RequestSchemas.DateOf` | src/services/sales.ts:38-51 | An accepted ISO date becomes its time, and only ISO dates do |
| `RequestSchemas.FlagOf` | src/schemas/product.ts:56 | A value is read as a flag exactly when Joi accepted it as a boolean, and it is that boolean |
| `RequestSchemas.ValidatedProductQueryServes` | src/controllers/product.ts:7-22 | A query string that passes the schema gives page ≥ 1 and limit within 1..100, equal to the values given. As written the threshold is always 10; the intended mapping gives the threshold sent, which is ≥ 1 |
| `RequestSchemas.ProductQueryOf` | src/controllers/product.ts:7-22 | The controller's mapping as written: page and limit are the values sent or 1 and 10; lowStock holds exactly when the raw value was the string "true"; the threshold is never passed, so it is 10 |
| `RequestSchemas.IntendedProductQueryOf` | src/controllers/product.ts:7-22 | The corrected mapping: the same page, limit and category, lowStock exactly when Joi read `true`, and the threshold sent or 10 |
| `RequestSchemas.ThresholdIsIgnored` | src/schemas/product.ts:58 | `?lowStock=true&lowStockThreshold=50` passes validation, yet the listing filters with threshold 10; the corrected mapping uses 50 |
| `RequestSchemas.UpperCaseTrueIsIgnored` | src/controllers/product.ts:20 | `?lowStock=TRUE` passes validation as `true`, yet the low-stock filter stays off; the corrected mapping turns it on |
| `RequestSchemas.SalesQueryOf` | src/controllers/sales.ts:8-25 | The sales controller's mapping: page and limit are the values sent or 1 and 10, and each date and id filter is passed on as sent |
| `RequestSchemas.Cents` | src/entity/product.ts:17-18 | A price stored in the DECIMAL(10,2) column, in cents, is the body price rounded to cents as Joi rounds it |
| `RequestSchemas.ProductInputOf` | src/controllers/product.ts:31-41 | The `createProduct` input carries the body's name, description, SKU, stock and category, and its price in stored cents |
| `RequestSchemas.ValidatedProductIsAdmissible` | src/schemas/product.ts:13-27 | A body the product schema accepts yields a price of at least one cent and a non-negative stock, so the resulting `createProduct` is one that `Ledger.ExecuteKeepsValid` covers |
| `RequestSchemas.ValidatedSalesQueryServes` | src/schemas/sales.ts:16-27 | A query that passes gives page ≥ 1 and limit within 1..100, and every filter given arrives at the service |
| `RequestSchemas.ValidatedPeriodSelectsItsGrouping` | src/schemas/sales.ts:49 | An accepted period name selects the grouping of that name |
| `RequestSchemas.ValidatedComparisonHasAllDates` | src/controllers/sales.ts:87 | A comparison query that passes the schema carries all four dates, so the controller's missing-date check never fires |
| `RequestSchemas.ValidatedSaleIsPositive` | src/schemas/sales.ts:3-14 | An accepted sale body names a product id ≥ 1 and a quantity ≥ 1 |
| `ValidationMiddleware.PrefixIdentifiesPart` | src/middleware/validation.ts:18 | No prefix begins another, so a message's prefix tells which middleware threw it |
| `ValidationMiddleware.Details` | src/middleware/validation.ts:10-14 | One detail per violation, in order, with field `path.join('.')`, the message, and the offending value |
| `ValidationMiddleware.Messages` | src/middleware/validation.ts:16 | The messages are the details' messages, in order |
| `ValidationMiddleware.Check` | src/middleware/validation.ts:5-60 | The request goes on exactly when the schema accepts. Otherwise a 400 ValidationError names the part by its prefix and carries the single `abortEarly` violation; its message is prefix + that violation's message |
| `ValidationMiddleware.ReportKeepsEveryMessage` | src/middleware/validation.ts:16-17 | Every violation's message appears in the thrown message after the prefix, in order |
| `ValidationMiddleware.ReportNamesPart` | src/middleware/validation.ts:16-18 | Whatever the violations, the thrown error is a 400 whose message names the part and whose details are the violations' details |
| `ValidationMiddleware.FieldGivesBackPath` | src/middleware/validation.ts:11 | Splitting a detail's field on "." gives back the path when no key contains a dot |
| `ValidationMiddleware.PartsDifferOnlyInPrefix` | src/middleware/validation.ts:5-60 | The three middlewares reject the same inputs with the same details; their messages differ only in the prefix |
| `Text.JoinKeepsParts` | src/middleware/validation.ts:16 | Every part occurs in `join(sep)` at its offset |
| `Text.JoinKeepsSeparators` | src/middleware/validation.ts:16 | The separator sits between every two neighbouring parts |
| `Text.SplitJoin` | src/middleware/validation.ts:11 | Splitting a join on its one-character separator gives back the parts when none contains it |
| `ErrorHandler.Handle` | src/middleware/errorHandler.ts:4-32 | Every response has `success: false`. An ApiError answers its own status and message. Details appear exactly for a ValidationError that has them. Anything else answers 500 with the fixed message |
| `ErrorHandler.UnexpectedErrorsLookAlike` | src/middleware/errorHandler.ts:26-31 | Every unexpected error gets the same 500 response, so nothing about it leaks |
| `ErrorHandler.NotFound` | src/middleware/errorHandler.ts:34-37 | The unknown-route error is a 404 whose message is "Not found - " followed by the URL |
| `ErrorHandler.NotFoundNamesUrl` | src/middleware/errorHandler.ts:34-37 | The unknown-route response is a 404 without details, and the requested URL can be read back from its message |
| `ErrorHandler.RejectedRequestResponse` | src/middleware/errorHandler.ts:10-17 | A request rejected by validation is answered 400, with a message naming the request part and exactly one detail |

## Left out

- I/O and the database driver. TypeORM, MySQL and the repository calls are replaced by the in-memory `Store`. The two writes of each mutation (save the row, then log the change) are modelled as one atomic step. Concurrency between requests, and the chance that the stock check in `createSale` races with another sale, are not modelled.
- `createSale` in a concurrent setting: in the source, the sale row is saved before `reduceStock` runs. `SalesService.SaleDecrementCannotFail` shows that in the sequential model the second step cannot fail, so the saved-sale-without-decrement path never arises here.
- Timestamps. `createdAt` is not stored. The listing's `createdAt DESC` order is modelled as descending product id, because ids are issued in creation order. `soldAt` is a caller-supplied integer rather than the database clock.
- MySQL's date functions. `DATE`, `YEARWEEK`, `DATE_FORMAT(…, "%Y-%m")` and `YEAR` are a parameter `bucketKey` of `GetRevenueAnalytics`, assumed to encode each period as an integer that orders as the period values do. The unused `dateFormat` strings are not modelled.
- The `search` filter of `getProducts`. SQL `LIKE` matching with its collation is not modelled: the query schema accepts `search`, but the model's listing ignores it.
- Collation of the SKU uniqueness lookup. SKUs are compared as exact strings, not under MySQL's case-insensitive collation.
- Floating point. Prices and revenues are integer cents, and averages and percentage changes are exact reals. `toFixed(2)` rounding and `parseFloat`/`parseInt` of the driver's string results are not modelled. The `DECIMAL(10,2)` rounding of a stored price is stated once, by `RequestSchemas.Cents`, where a validated body becomes a service input.
- Joi's built-in messages. When a schema sets no custom message for a code, the violation carries `None`, and the middleware takes the text from a `builtIn` parameter. Joi's conversion of query strings is also not modelled: query values arrive already converted to numbers, booleans and ISO dates, and anything unconvertible stays text. A boolean keeps the text it was written as, because the product controller reads that raw text.
- Numeric strings in JSON bodies. Joi converts `"5"` to 5 for validation, but the service would receive the original string. A body that sends numbers as strings is outside the model: body numbers arrive as numbers.
- `NaN` and non-numeric thresholds on the inventory status endpoint. The controller parses the threshold itself, and the model takes any integer.
- Controllers, routes, the seed script, the data source and `src/index.ts`. Three controller steps are modelled: the product listing's query mapping (`RequestSchemas.ProductQueryOf`), the sales listing's (`RequestSchemas.SalesQueryOf`) and `createProduct`'s body mapping (`RequestSchemas.ProductInputOf`). The comparison controller's missing-date check is shown never to fire after validation. The other controllers pass request values straight to the services.
- `ProductService.CreateProduct`: MySQL's column ranges are not modelled. A price beyond `DECIMAL(10,2)` (99999999.99) or a stock beyond a signed 32-bit `INT` makes the save throw a driver error, which the source answers with 500; the model stores any integer.
- `ProductService.UpdateInventory`: the same for a stock or `changeAmount` beyond a signed 32-bit `INT`; the model adds unbounded integers.
- `SalesService.CreateSale`: the same for a quantity beyond a signed 32-bit `INT` or a total price beyond `DECIMAL(10,2)`; the model stores any integer.
- Logging (`console.error`) in the error handler.

## Findings

| source | as written | input that shows it | evidently intended | confidence | as-written member | corrected member |
|---|---|---|---|---|---|---|
| src/controllers/product.ts:16-22 | The query schema accepts `lowStockThreshold`, but the controller never passes it to `getProducts`, so the service default of 10 always applies | `?lowStock=true&lowStockThreshold=50` lists products with stock below 10 | Products with stock below 50 | high, from reading the code (not executed) | `RequestSchemas.ThresholdIsIgnored` | `RequestSchemas.IntendedProductQueryOf` |
| src/controllers/product.ts:20 | `lowStock === 'true'` compares the raw query text, while Joi accepts `TRUE` and other spellings as `true` | `?lowStock=TRUE` passes validation and lists every product | Only products below the threshold | medium, from reading the code (not executed) | `RequestSchemas.UpperCaseTrueIsIgnored` | `RequestSchemas.IntendedProductQueryOf` |
