# Inventory API: products core

A model of the product side of an Express/Mongoose inventory backend. It covers:

- the product record;
- the listing engine (filters, sort option, pager);
- the low-stock and category listings;
- the dashboard aggregation;
- the by-id create/read/update/delete operations and the stock adjustment;
- the body validators, route table and role table of the product router.

The module layout follows the repository:

| file | module | what it models |
|---|---|---|
| `wrappers.dfy` | `Wrappers` | `Option` and `Result` |
| `text.dfy` | `Text` | `trim`, JavaScript's UTF-16 `length`, ASCII `toUpperCase`/`toLowerCase`, case-insensitive containment, `split`/`join` on one character, binary string order |
| `product.dfy` | `ProductModel` | the schema of `models/Product.js`: enums, constraints (`Valid`), defaults, setters (trim, upper-cased SKU), the `profitMargin` and `isLowStock` virtuals, and how a body becomes a new record (`CreateRecord`) or an updated one (`UpdateRecord`) |
| `sequences.dfy` | `Sequences` | what the document store does with a collection: select, count, stable sort, sum |
| `query.dfy` | `Query` | `getProducts`' predicate builder, sort composer (an object whose keys are assigned in a loop) and pager arithmetic |
| `listing.dfy` | `Listing` | `getProducts`, `getLowStockProducts`, `getProductsByCategory` as functions of the store's documents |
| `dashboard.dfy` | `Dashboard` | `getDashboardStats` as folds over the store's documents |
| `store.dfy` | `Store` | class `Inventory`: the collection as a `map<Id, Product>` with the by-id handlers and `updateStock` as methods that change it |
| `routes.dfy` | `Routes` | `productValidation`, `updateStockValidation`, the ordered route table with first-match dispatch, and the middleware order (`protect`, `authorize`, validators, `validate`) |

The clock is a parameter `now` (milliseconds). User ids are opaque numbers. The request's
query string and body arrive already parsed, as `Option` values.

## Model

| member | source | states |
|---|---|---|
| ProductModel.ParseCategory | models/Product.js:24-35 | a string is accepted as a category exactly when it is one of the seven names, and then names that category |
| ProductModel.ParseUnit | models/Product.js:58-63 | a string is accepted as a unit exactly when it is one of the six names |
| ProductModel.EnumNamesRoundTrip | models/Product.js:27-35 | every category and unit survives the trip to its stored name and back |
| ProductModel.NormalizeSku | models/Product.js:12-18 | the stored SKU is trimmed, upper-case and no longer than the input |
| ProductModel.NormalizedSkuFixed | models/Product.js:12-18 | a trimmed upper-case SKU is stored unchanged |
| ProductModel.NormalizeSkuIdempotent | models/Product.js:12-18 | normalising a SKU twice gives the same result as normalising it once |
| ProductModel.NormalizeSkuOrderFree | models/Product.js:16-17 | trimming then upper-casing gives the same result as upper-casing then trimming, so the order of the two setters does not matter |
| ProductModel.ProfitMargin | models/Product.js:98-101 | the margin is 0 when the cost is 0; otherwise margin × cost = (price − cost) × 100; with a positive cost it is non-negative exactly when price ≥ cost |
| ProductModel.ProfitMarginExample | models/Product.js:98-101 | price 150 and cost 100 give a margin of 50 |
| ProductModel.CreateRecord | models/Product.js:5-91 | creation succeeds exactly when the body meets every schema constraint (name and description lengths counted in UTF-16 units), and fails with a validation error otherwise. The new record is valid, carries the given id, and is stamped with the creator and the time. Every supplied field is stored as its setter leaves it: trimmed name, description and supplier strings, normalised SKU, and category, price, cost, stock, minStock, unit and isActive as given. Missing fields take the defaults: stock 0, minStock 10, unit pcs, isActive true and an empty supplier |
| ProductModel.DraftValidity | models/Product.js:5-91 | the record built from a complete body passes the schema exactly when the body's name, SKU, description, price, cost, stock and minStock are in range |
| ProductModel.PatchedValid | models/Product.js:5-91 | an acceptable update keeps a valid record valid |
| ProductModel.UpdateRecord | controllers/productController.js:167-173 | an update succeeds exactly when the supplied fields pass the schema validators. The result is valid, keeps id, creator and creation time, is stamped with the editor and the time, takes each supplied field (after the setters: trimmed name and description, normalised SKU, trimmed supplier strings; category, price, cost, stock, minStock, unit and isActive as given), and keeps every field not supplied |
| Text.Trim | models/Product.js:8 | the trimmed string has no whitespace at either end and is no longer than the input |
| Text.Utf16Length | models/Product.js:9-10 | JavaScript's `length` counts an astral character twice, so it lies between the character count and twice it |
| Text.Utf16LengthPlanes | models/Product.js:9-10 | the UTF-16 length equals the character count when no astral character occurs, and is twice it when every character is astral |
| Text.TrimIsSlice | models/Product.js:8 | the trimmed string is the piece of the input left after cutting off only leading and trailing whitespace |
| Text.TrimIdempotent | routes/products.js:21-26 | trimming twice gives the same result as trimming once, so the validator's trim followed by the schema's trim is one trim |
| Text.JoinSplit | controllers/productController.js:61 | joining the parts of `split(',')` back together gives the original string |
| Text.SplitJoin | controllers/productController.js:61 | splitting the join of separator-free parts gives those parts back |
| Text.StrCmpZero | controllers/productController.js:82 | two strings compare equal exactly when they are equal |
| Text.StrCmpTransitive | controllers/productController.js:82 | the binary string order used by the sort is transitive |
| Sequences.CountIsFilterLength | controllers/productController.js:87 | `countDocuments` with a predicate equals the number of documents `find` returns with that predicate |
| Sequences.SortBy | controllers/productController.js:82 | the sort stage returns a permutation of its input |
| Sequences.SortBySorted | controllers/productController.js:82 | under a total preorder, the sort stage's output is ordered |
| Sequences.SortByMembers | controllers/productController.js:82 | the sort stage neither adds nor drops documents |
| Query.BuildQueryMeaning | controllers/productController.js:23-56 | a product matches the built query exactly when it meets every supplied parameter: category equality; inclusive price bounds; inclusive stock bounds; `isActive` tri-state (absent means no constraint, "true" means active, any other value means inactive); and, for a non-empty search, a case-insensitive hit in name, SKU or description |
| Query.NoFiltersMatchAll | controllers/productController.js:23 | with no parameters every product matches |
| Query.ParseSortFieldInverse | controllers/productController.js:63-67 | a leading `-` is stripped and means descending, anything else is ascending, and nothing is lost: writing the parsed rule back gives the piece, and every descending rule, and every ascending rule whose field does not start with `-`, is read back from its written form |
| Query.AssignReplaces | controllers/productController.js:64-66 | assigning a field the sort object already has replaces that entry's direction in its original position |
| Query.AssignAppends | controllers/productController.js:64-66 | assigning a field the sort object lacks appends it at the end |
| Query.AssignKeeps | controllers/productController.js:64-66 | after an assignment the assigned rule is present, every rule for another field survives, and no other rule is new |
| Query.AssignKeepsDistinct | controllers/productController.js:64-66 | the sort object never holds two entries for one field; after an assignment every entry is the new rule or an earlier rule for another field |
| Query.ComposeSort | controllers/productController.js:59-71 | the loop over the comma pieces builds exactly the sort option `SortSpec`, which is never empty |
| Query.SortSpecDefault | controllers/productController.js:69-70 | an absent or empty `sort` gives exactly [(createdAt, desc)] |
| Query.AssignAllDistinct | controllers/productController.js:61-68 | when the pieces name distinct fields, each piece yields one rule, in left-to-right order |
| Query.AssignAllFields | controllers/productController.js:61-68 | a field is in the sort option exactly when some piece names it |
| Query.AssignAllCovers | controllers/productController.js:61-68 | every piece's field is in the sort option |
| Query.AssignAllSound | controllers/productController.js:61-68 | every field in the sort option comes from some piece |
| Query.AssignAllLastWins | controllers/productController.js:62-68 | the last piece that names a field decides that field's direction |
| Query.SortSpecExample | controllers/productController.js:59-71 | "-stock,name" gives [(stock, desc), (name, asc)] |
| Query.CmpKeyOrder | controllers/productController.js:82 | the store's value order (missing < numbers < strings < booleans) is antisymmetric and transitive, and compares equal only for equal values |
| Query.PrecedesByTotalPreorder | controllers/productController.js:82 | a multi-field sort option orders products by a total preorder |
| Query.PrecedesByStock | controllers/productController.js:221 | the `{ stock: 1 }` order compares stock |
| Query.PrecedesByName | controllers/productController.js:243 | the `{ name: 1 }` order compares names by code point |
| Query.CeilDiv | controllers/productController.js:92 | the page count is the least number of `limit`-sized pages that holds `total`; it is 0 exactly when total is 0 |
| Query.PageShows | controllers/productController.js:75-83 | over one fixed order of the matches, paging loses nothing: the item at position j of that order appears on page j div limit + 1, at position j mod limit |
| Query.Window | controllers/productController.js:83-84 | the page is the slice [skip, skip + limit) of the ordered matches, cut at the end, and holds at most `limit` items |
| Listing.GetProducts | controllers/productController.js:6-106 | the page is the window at (page − 1) × limit of the matches in sort order, and count is its length (≤ limit). totalProducts counts all matches on every page, totalPages is the ceiling of totalProducts / limit, and every returned product is a stored product that matches the filters |
| Listing.GetProductsSorted | controllers/productController.js:79-84 | every page is in the order the sort option asks for |
| Listing.PageSizes | controllers/productController.js:74-95 | pages before the last are full, pages past the last are empty, and every page up to the last holds something |
| Listing.LowStockListing | controllers/productController.js:214-231 | the low-stock list holds exactly the active products with stock ≤ minStock (the `isLowStock` virtual of models/Product.js:104-106, `ProductModel.IsLowStock`), each as often as the store holds it, in ascending stock order |
| Listing.CategoryListing | controllers/productController.js:236-253 | the category list holds exactly the active products of that category, in ascending name order; a name that is not a category gives an empty list |
| Dashboard.DashboardCounts | controllers/productController.js:261-267 | totalProducts counts the active products; lowStockCount is the length of the low-stock list and never exceeds totalProducts; recentProducts never exceeds totalProducts |
| Dashboard.BreakdownPresence | controllers/productController.js:281-291 | the breakdown has a row for a category exactly when an active product of that category exists |
| Dashboard.BreakdownRows | controllers/productController.js:281-289 | each row carries its category's count of active products and their total stock, and no category has two rows |
| Dashboard.BreakdownSums | controllers/productController.js:281-289 | the row counts sum to totalProducts, and the row stocks sum to the active stock total |
| Dashboard.BreakdownOrdered | controllers/productController.js:290 | rows come in non-increasing order of count |
| Dashboard.StockValueNonNegative | controllers/productController.js:270-278 | over valid records the stock value is non-negative |
| Dashboard.NoActiveProducts | controllers/productController.js:302-310 | with no active product every statistic is 0, including a stock value of 0, and the breakdown is empty |
| Store.StockChange | controllers/productController.js:333-348 | add raises the stock by the quantity. Subtracting more than the stock fails with insufficient stock, and any other subtraction lowers the stock by the quantity and leaves it ≥ 0. Any other operation fails as invalid |
| Store.StockChangeExamples | controllers/productController.js:333-348 | stock 5: subtracting 5 leaves 0, subtracting 6 is refused, adding 3 gives 8, and an unknown operation is refused |
| Store.SubtractsNeverOverdraw | controllers/productController.js:335-342 | from stock k, n ≥ k one-unit subtractions run one after another succeed exactly k times and end at 0 |
| Store.PutKeepsValid | models/Product.js:15 | storing a valid record whose SKU no other record uses keeps every record valid and every SKU unique |
| Store.Inventory.GetProduct | controllers/productController.js:111-131 | returns the record stored under the id, or not found |
| Store.Inventory.CreateProduct | controllers/productController.js:136-151 | on success, the record CreateRecord built with the actor as creator is stored under a fresh id. A body that fails the schema is refused, and a SKU already in use is refused as a duplicate; in both cases the store and the id counter are unchanged. Conversely, a body CreateRecord accepts whose SKU is free is always stored, under the counter's id, and a validation refusal happens only when CreateRecord refuses the body. Record validity and SKU uniqueness are kept |
| Store.Inventory.UpdateProduct | controllers/productController.js:156-183 | a missing id gives not found; otherwise the record becomes UpdateRecord's result, stamped with the actor as editor, and nothing else changes; a failure leaves the store unchanged. A validation refusal happens exactly when UpdateRecord refuses the body; a duplicate-SKU refusal exactly when UpdateRecord accepts it and another record holds the new SKU; not found exactly when the id is missing; an accepted update whose SKU no other record holds always succeeds |
| Store.Inventory.DeleteProduct | controllers/productController.js:188-209 | removes exactly that id and nothing else; a missing id gives not found and leaves the store unchanged |
| Store.Inventory.UpdateStock | controllers/productController.js:320-361 | a missing id gives not found. Otherwise the outcome is StockChange's: a refusal leaves the store unchanged; a success stores the record with only the new stock, the editor and the time changed. The stored stock is always ≥ 0, and a negative result of `add` is refused by the schema on save |
| Routes.ProductValidationMeaning | routes/products.js:20-58 | the product validator collects no error exactly when name is 3–100 characters after trimming, SKU is 3–20 characters after trimming, category and unit are in their enums, price and cost are ≥ 0, stock is present and ≥ 0, and minStock is absent or ≥ 0 |
| Routes.ValidatedBodyCreates | routes/products.js:20-58 | a body the validator accepts, if its name and description fit the schema's bounds in UTF-16 units, is accepted by the schema: creation succeeds with the trimmed name, the normalised SKU and the actor as creator |
| Routes.ValidatedBodyUpdates | routes/products.js:20-58 | a body the validator accepts, if its name and description fit the schema's bounds in UTF-16 units, passes the update validators |
| Routes.AstralNameRefused | routes/products.js:21-24 | the validator and the schema count a name's length in different units: a name of sixty emoji passes the route's 3–100 rule and is refused by the schema's 100-unit `maxlength` |
| Routes.SkuRuleStricterThanSchema | routes/products.js:25-30 | a stored valid SKU longer than 20 characters is refused by the route's SKU rule, which is stricter than the schema |
| Routes.QuantityValue | routes/products.js:61-63 | an accepted quantity stands for a number ≥ 1 |
| Routes.ValidatedStockChange | routes/products.js:60-67 | a stock request the validator accepts never reaches the invalid-operation branch. From a non-negative stock it can be refused only for insufficient stock on subtract, and otherwise leaves a non-negative stock; add always succeeds and raises the stock |
| Routes.AddAsWrittenConcatenates | controllers/productController.js:334 | a quantity sent as a digit string is appended to the stock's decimal form: the result is stock × 10^digits + quantity |
| Routes.AddAsWrittenCounterexample | controllers/productController.js:334 | stock 10 with the accepted body `{"quantity": "5", "operation": "add"}` becomes 105, not 15 |
| Routes.AddCorrectedIsStockChange | controllers/productController.js:333-334 | the intended addition is StockChange's add of the quantity's numeric value, whatever form the quantity took; it raises the stock and agrees with the code for numeric quantities |
| Routes.FirstMatch | routes/products.js:69-88 | dispatch picks a matching route with no matching route before it, or reports that none matches |
| Routes.GetProductShadowed | routes/products.js:69-84 | `GET /<x>` reaches getProduct exactly when x is one non-empty segment that does not spell `low-stock` (in any case) |
| Routes.LiteralRoutesWin | routes/products.js:69-72 | `/low-stock`, `/stats/dashboard` and `/category/<c>` reach their own handlers, never getProduct |
| Routes.RoleTable | routes/products.js:74-88 | every handler needs a signed-in caller. Create, update and the stock change need role admin or staff, and delete needs admin. A body reaches create, update or the stock change only after passing its validator. Conversely, every signed-in user reaches the five read routes, and a signed-in caller with the route's role (admin or staff for create, update and the stock change; admin for delete) and a body its validator accepts always reaches the route's handler |

## Left out

- Persistence, `populate` (a join with the user collection, which is not part of this model) and the HTTP response shapes and status codes. Outcomes are `Result` values whose failure kinds are not found, insufficient stock, invalid operation, validation failed and duplicate SKU.
- Concurrency. `updateStock` is an unguarded read-then-save, so concurrent requests can race. The model is sequential and states per-call properties only.
- Search as a regular expression. The term is modelled as case-insensitive substring containment of name, SKU or description; pattern metacharacters are not modelled.
- Query-string parsing (`Number`, `parseInt`, NaN) and floating point. Filter bounds, `page` and `limit` arrive parsed; prices and costs are exact reals; `profitMargin` is exact division.
- Listing.GetProducts: requires page ≥ 1 and limit ≥ 1, because the code does no clamping and a limit of 0 or a negative page makes the skip and `Math.ceil` degenerate.
- Query.SortSpec: a sort piece that is not a valid field path (empty, as the trailing piece of `sort=name,`; a lone `-`; a path starting with `$`; a path with an empty segment such as `a..b`) makes the store refuse the query, and `getProducts` then answers through its error handler (controllers/productController.js:103-104). The model keeps such a piece as a rule and orders it as a missing key.
- Case mapping and whitespace are ASCII-only for upper/lower case. Trimming uses the common whitespace characters (ASCII space, tab, line breaks, vertical tab, form feed, no-break space, line and paragraph separators, byte-order mark), not every Unicode space.
- The seven-day window is a fixed span of milliseconds before `now`, not a calendar subtraction across daylight-saving changes.
- Order among documents the sort option ranks equal. The store's order for ties is unspecified; the model uses a stable sort.
- Query.PageShows: holds over the model's one fixed order only. The code sorts without a unique tie-breaker such as `_id`, and every page is a separate query, so under a sort key with ties (`sort=category`, say) the store may show a product on two pages or on none.
- Valid field paths other than the product's own fields (including the supplier object as a whole, as opposed to `supplier.name` and `supplier.contact`) compare as missing. Ids and dates compare as numbers; in the store they have ranks of their own, which matter only against missing values, since every record holds the same type in a field. Object keys that look like integers are enumerated first by JavaScript; that reordering of the sort option is not modelled.
- ProductModel.CreateRecord: a client-sent `updatedBy`, `_id` or timestamp is not modelled. The controller forces only `createdBy` (controllers/productController.js:139), so the code stores a body's `updatedBy` and `_id` as sent; the model always leaves the editor empty, takes the id from the store's counter and stamps `now`.
- ProductModel.UpdateRecord: a client-sent `createdBy`, `_id` or timestamp is not modelled. The controller forces only `updatedBy` (controllers/productController.js:168), so in the code a body's `createdBy` replaces the record's creator; the model always keeps the creator and the creation time.
- Routing details: trailing slashes, URL decoding, `HEAD` requests served by `GET` routes, and ids that are not well-formed object ids (the real store then raises a cast error).
- The `protect`, `authorize` and `validate` middlewares: middleware/auth.js and middleware/validation.js are not part of this model. They are taken to admit, respectively, any signed-in user, a user whose role is in the route's list, and a request whose validator chain collected no error.
- The application-wide middlewares registered in server.js:46-54: the rate limiter and `sanitizeInput` (from middleware/validation.js, not part of this model), which runs on every request before the product router. The model takes the query string and body as they reach the router, whatever that sanitizer has rewritten.
- Routes.ValidatedBodyCreates: holds only for a name and description that fit the schema's bounds in UTF-16 units. The validator counts a character outside the Basic Multilingual Plane once and the schema counts it twice, so a name of 51 to 100 such characters passes the route and is refused on create (Routes.AstralNameRefused).
- Routes.ValidatedBodyUpdates: holds only under the same UTF-16 condition on name and description, for the same reason.
- Routes.ProductValidationMeaning: the validator's name length counts every code point. Recent versions of the validator library also leave out the variation selectors U+FE0E and U+FE0F; the library's version is not part of this model.
- Routes.QuantityOk: a quantity string with a leading sign (`"+5"`), or a non-integral number, is not modelled. The validator accepts only digit strings and integers here.
- Body field types other than the ones declared (a number where a string is expected, and so on) are not modelled.

## Findings

| source | as written | input that shows it | evidently intended | confidence | as-written member | corrected member |
|---|---|---|---|---|---|---|
| controllers/productController.js:334 | `product.stock += quantity` with the quantity taken straight from the body; `isInt({ min: 1 })` accepts the string `"5"`, so JavaScript concatenates `10 + "5"` to `"105"`, and saving casts it to 105 | stock 10, body `{"quantity": "5", "operation": "add"}` | the stock rises by the quantity's value, to 15 | high for a string quantity; not executed | Routes.AddAsWrittenCounterexample | Routes.AddCorrectedIsStockChange |
