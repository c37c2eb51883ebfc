# Retail inventory backend: a Dafny model of its three controllers

This project models the request handlers of a retail inventory and
waste-management backend:

- the **carbon calculator** (`CarbonCalculator`): it looks up emission factors for
  a material and a transport method, with fallbacks for unknown keys. It returns
  manufacturing, transport and packaging emissions and their total, and appends
  every calculation to a process-wide history log that a clear operation empties;
- the **inventory table** (`Inventory`): an upsert keyed by (product, store)
  that derives the `fresh`/`expired` status from the expiry date. It also has a
  filtered, paginated listing, delete by product, an update of the waste
  prediction fields, and a bulk sweep that re-derives every status;
- the **product table** (`Products`): creation with required-field validation
  and a `shelfLife` default, plus a listing filtered by category and by a
  case-insensitive name search. It also has find, update and delete by id, each
  with a not-found path.

Shared pieces:

- `Api`: JavaScript truthiness of request values, and the response envelope
  with the 400/404/500 error kinds.
- `Paging`: `skip = (page - 1) * limit`, the store's skip/limit window and
  `totalPages = Math.ceil(total / limit)`.
- `Collections`: filter, reverse, first match and removal, which stand for the
  document store's queries.
- `Text`: JavaScript `trim` and substring search.

Each collection is a class over a `seq` field, kept in creation order. A row's
id is also its creation order, so "sorted by `createdAt` descending" is the
reverse of the stored order. Each handler that can fail is a method that returns a `Response` (success
with its status code, or `BadRequest`, `NotFound`, `Internal`). The handlers
that cannot fail return their payload directly: `CalculateCarbon` its
estimate, `GetCalculationHistory` and `ClearHistory` the history list, and
`RefreshExpiryStatus` the refreshed rows. The
clock (`new Date()`) is a parameter: `now` for the inventory, `date` for a
history record.

The model follows what the handlers do:

- The carbon calculator does no input validation. A missing number becomes
  NaN; no 400 error is raised.
- The history log is unbounded.
- The status type has only `fresh` and `expired`. A `near expiry` filter value,
  offered by the frontend, selects nothing (`UnknownStatusSelectsNothing`).
- A page number that makes the skip negative is refused by MongoDB, and the
  handler then answers 500 (`Paging.Paginate`).

## Model

| member | source | states |
|---|---|---|
| `CarbonCalculator.MaterialFactor` | backend/src/controllers/carbonCalculator.controller.js:18-36 | a material in the table gets its table entry, one not in it gets 1; the factor lies between 0.2 and 8.1 |
| `CarbonCalculator.TransportFactor` | backend/src/controllers/carbonCalculator.controller.js:28-37 | a method in the table gets its table entry, an unknown method the road factor 0.0001; the factor lies between 0.00003 and 0.0015 |
| `CarbonCalculator.Calculate` | backend/src/controllers/carbonCalculator.controller.js:36-39 | the total is the sum of the manufacturing, transport and packaging figures of the breakdown (the components are stated by the three lemmas below) |
| `CarbonCalculator.ManufacturingComponent` | backend/src/controllers/carbonCalculator.controller.js:36 | manufacturing = weight × the material's factor, and = weight for an unknown material |
| `CarbonCalculator.TransportComponent` | backend/src/controllers/carbonCalculator.controller.js:37 | transport = weight × distance × the method's factor, with 0.0001 for an unknown method |
| `CarbonCalculator.PackagingIndependent` | backend/src/controllers/carbonCalculator.controller.js:38 | packaging = packagingWeight × 1.5, the same for any material, distance or method |
| `CarbonCalculator.TotalBoundsComponents` | backend/src/controllers/carbonCalculator.controller.js:36-39 | total = the sum of the three components; with non-negative inputs each component is ≥ 0 and ≤ total |
| `CarbonCalculator.WorkedExample` | backend/src/controllers/carbonCalculator.controller.js:18-39 | 10 kg plastic, 100 km by road, 2 kg packaging gives 34 + 0.1 + 3 = 37.1 |
| `CarbonCalculator.CalculationLog.constructor` | backend/src/controllers/carbonCalculator.controller.js:5 | the log starts empty |
| `CarbonCalculator.CalculationLog.CalculateCarbon` | backend/src/controllers/carbonCalculator.controller.js:41-52 | returns the estimate; the log grows by exactly one record at the end, earlier entries unchanged, carrying the returned figures and the date |
| `CarbonCalculator.CalculationLog.GetCalculationHistory` | backend/src/controllers/carbonCalculator.controller.js:55-57 | returns the log; the method has no frame, so the log is not modified |
| `CarbonCalculator.CalculationLog.ClearHistory` | backend/src/controllers/carbonCalculator.controller.js:59-62 | the log is empty afterwards and the answer is an empty list, whatever the log held, so a second clear changes nothing |
| `Inventory.StatusAt` | backend/src/controllers/inventoryItem.controller.js:21 | `expired` exactly when the expiry is before now, `fresh` exactly when it is not |
| `Inventory.MissingRequiredField` | backend/src/controllers/inventoryItem.controller.js:12 | a falsy quantity (absent, empty or 0), an empty product or store, or no expiry date counts as missing; a truthy quantity with product, store and expiry date present does not |
| `Inventory.ExpiryAtNowIsFresh` | backend/src/controllers/inventoryItem.controller.js:21 | an expiry date equal to now gives `fresh` |
| `Inventory.ExpiredStaysExpired` | backend/src/controllers/inventoryItem.controller.js:21 | a row expired at some instant is expired at every later instant |
| `Inventory.InventoryTable.UpsertInventoryItem` | backend/src/controllers/inventoryItem.controller.js:9-27 | 400 and no change when product, store, quantity (including 0) or expiry date is falsy; otherwise status is `expired` iff expiry < now, an existing (product, store) row is rewritten in place (quantity, expiry, status), a new key appends one row; keys stay unique |
| `Inventory.UpdateInPlaceKeepsWellFormed` | backend/src/controllers/inventoryItem.controller.js:16-24 | rewriting a row with the same id and key keeps ids ordered and keys unique |
| `Inventory.InsertKeepsWellFormed` | backend/src/controllers/inventoryItem.controller.js:16-24 | inserting a row with a fresh id and an absent key keeps at most one row per key |
| `Inventory.InventoryTable.GetInventoryItems` | backend/src/controllers/inventoryItem.controller.js:30-55 | absent page and limit default to 1 and 10; the answer is `Paginate` of the newest-first matches: fails (500) iff (page−1)×limit < 0; every returned row is stored and matches the store/status filters; total counts all matches; at most `limit` rows for a positive limit; totalPages = ceil(total / limit) for a non-zero limit; newest first |
| `Inventory.Matches` | backend/src/controllers/inventoryItem.controller.js:33-35 | no store and no status match every row; with no status filter a row matches iff the store filter is empty or names its store; status `fresh` or `expired` keeps only rows with that status; any other status matches nothing |
| `Inventory.UnknownStatusSelectsNothing` | backend/src/controllers/inventoryItem.controller.js:35 | a status filter other than `fresh`/`expired` (such as `near expiry`) selects no rows |
| `Inventory.InventoryTable.DeleteInventoryItem` | backend/src/controllers/inventoryItem.controller.js:59-65 | 404 iff no row has that product; otherwise removes and returns the first such row, every other row (other stores' rows of that product included) remains |
| `Inventory.InventoryTable.UpdateWastePrediction` | backend/src/controllers/inventoryItem.controller.js:68-80 | 404 iff no row has that id; otherwise only wastePrediction and recommendation of that row change |
| `Inventory.InventoryTable.RefreshExpiryStatus` | backend/src/controllers/inventoryItem.controller.js:83-98 | afterwards every row's status is `expired` iff its expiry < the single `now`; only statuses change, the row count is kept, the refreshed rows are returned |
| `Inventory.Refreshed` | backend/src/controllers/inventoryItem.controller.js:88-95 | same length; each row's status is `expired` iff its expiry is before `now`, and each row differs from the old one at most in its status |
| `Inventory.RefreshIdempotent` | backend/src/controllers/inventoryItem.controller.js:86-95 | refreshing twice at the same `now` equals refreshing once |
| `Inventory.RefreshKeepsWellFormed` | backend/src/controllers/inventoryItem.controller.js:86-95 | the sweep keeps ids ordered and each (product, store) key on a single row |
| `Inventory.LaterRefreshKeepsExpired` | backend/src/controllers/inventoryItem.controller.js:88-95 | a row one sweep marks expired is marked expired by every later sweep |
| `Paging.QueryInt` | backend/src/controllers/product.controller.js:46 | a query parameter given is used as is, an absent one takes its default (page 1, limit 10) |
| `Paging.Skip` | backend/src/controllers/product.controller.js:51 | page 1 starts at offset 0; for a positive limit the offset is negative exactly for a page below 1, for a negative limit exactly for a page above 1 |
| `Paging.TotalPages` | backend/src/controllers/product.controller.js:64 | null exactly for limit 0; for a positive limit, the least non-negative integer whose multiple of limit reaches total |
| `Paging.CeilDiv` | backend/src/controllers/inventoryItem.controller.js:52 | the result is the least integer not below total / limit (for either sign of limit) |
| `Paging.Window` | backend/src/controllers/inventoryItem.controller.js:40-44 | the window starts at position skip, is a contiguous run of the input, and holds min(remaining, abs(limit)) rows (all remaining for limit 0) |
| `Paging.Paginate` | backend/src/controllers/product.controller.js:51-64 | fails (500) iff the skip is negative; otherwise reports page, limit and total = number of matches; the items are the window at offset (page−1)×limit (at most abs(limit), all drawn from the matches); totalPages = ceil(total / limit) for a non-zero limit and null for limit 0 |
| `Paging.PageBeyondLastIsEmpty` | backend/src/controllers/product.controller.js:51-64 | a page past totalPages returns no items and no error |
| `Paging.PageOfPosition` | backend/src/controllers/product.controller.js:51-56 | the match at position k is item k mod limit of page k div limit + 1, and that page is within totalPages |
| `Paging.PagesUpToIsPrefix` | backend/src/controllers/product.controller.js:51-56 | pages 1..n concatenated are the first min(n×limit, total) matches |
| `Paging.PagesCoverAllMatches` | backend/src/controllers/product.controller.js:51-64 | pages 1..totalPages concatenated are exactly the matches, each once, in order |
| `Paging.WindowKeepsDecreasing` | backend/src/controllers/product.controller.js:53-56 | a page of a newest-first listing is itself newest first |
| `Collections.Reverse` | backend/src/controllers/product.controller.js:54 | the reverse has the same length and position k holds the element at length−1−k |
| `Collections.ReverseKeepsElements` | backend/src/controllers/product.controller.js:54 | sorting newest first keeps exactly the same documents |
| `Collections.ReverseOfIncreasing` | backend/src/controllers/product.controller.js:54 | keys increasing in creation order decrease in the sorted listing |
| `Collections.Filter` | backend/src/controllers/product.controller.js:47-49 | at most as many documents as stored; every selected document is in the collection and satisfies the query, and every stored document satisfying it is selected (multiplicity and order: `FilterCounts`, `FilterOfConcat`) |
| `Collections.FilterCounts` | backend/src/controllers/product.controller.js:47-49 | each document is selected exactly as many times as it is stored if it satisfies the query, and never otherwise |
| `Collections.FilterOfConcat` | backend/src/controllers/product.controller.js:47-54 | selection keeps storage order: selecting from a + b is selecting from a, then from b |
| `Collections.FilterSelectsNothing` | backend/src/controllers/inventoryItem.controller.js:33-35 | a query no stored document satisfies selects nothing |
| `Collections.FilterKeepsIncreasing` | backend/src/controllers/product.controller.js:53-54 | a filtered view keeps creation order |
| `Collections.FilterKeysAbove` | backend/src/controllers/product.controller.js:53 | a lower bound on every key of the collection bounds every key of a filtered view |
| `Collections.FirstWhere` | backend/src/controllers/product.controller.js:71 | the index found satisfies the query and no earlier document does; none is found only when no document does |
| `Collections.RemoveAt` | backend/src/controllers/product.controller.js:102 | deletion removes exactly the document at that position, keeping the others in order (as a multiset, the collection minus that document) |
| `Text.IsWhiteSpace` | backend/src/controllers/product.controller.js:21 | space, tab, line feed and carriage return are white space; ASCII letters and digits are not |
| `Text.TrimStart` | backend/src/controllers/product.controller.js:21 | the result is a suffix of the input, everything cut off is white space, and it does not start with white space |
| `Text.TrimEnd` | backend/src/controllers/product.controller.js:21 | the result is a prefix of the input, everything cut off is white space, and it does not end with white space |
| `Text.Trim` | backend/src/controllers/product.controller.js:21 | the result occurs in the input with white space alone before and after it, and unless empty it neither starts nor ends with white space (empty exactly for a blank input: `TrimEmptyIffBlank`) |
| `Text.TrimEmptyIffBlank` | backend/src/controllers/product.controller.js:21 | trim gives "" exactly when every character is white space |
| `Text.Contains` | backend/src/controllers/product.controller.js:49 | true exactly when the pattern occurs at some position of the text |
| `Text.Lower` | backend/src/controllers/product.controller.js:49 | same length; each ASCII upper-case letter becomes its lower-case letter (32 code points above), no upper-case ASCII letter is left and every other character is kept |
| `Text.LowerEqualIffSameIgnoringCase` | backend/src/controllers/product.controller.js:49 | two strings lower-case to the same string exactly when they have the same length and agree character by character up to ASCII case |
| `Text.ContainsIgnoringCase` | backend/src/controllers/product.controller.js:49 | true exactly when the search equals, ignoring case, the slice of the name at some position; so an empty search matches every name and a match needs a name at least as long as the search |
| `Text.ExactOccurrenceFound` | backend/src/controllers/product.controller.js:49 | the case-insensitive search finds every exact occurrence |
| `Text.SearchIgnoresPatternCase` | backend/src/controllers/product.controller.js:49 | lower-casing the search text does not change the result |
| `Api.Or` | backend/src/controllers/product.controller.js:37 | JavaScript's `v or fallback`: v itself when v is truthy, otherwise the fallback; truthy whenever the fallback is |
| `Api.StatusCode` | backend/src/controllers/inventoryItem.controller.js:13 | a bad request answers 400, a missing document 404, an internal failure 500 |
| `Products.BlankWhenPresent` | backend/src/controllers/product.controller.js:19-24 | a value trips the check exactly when it is a text made only of white space |
| `Products.HasBlankRequiredField` | backend/src/controllers/product.controller.js:19-24 | only a text field can make creation fail, and a blank name alone does |
| `Products.ValidationRejectsBlankText` | backend/src/controllers/product.controller.js:19-24 | creation is refused iff one of name, category, packaging, unit, country, region, price is a text made only of white space |
| `Products.AbsentFieldsPass` | backend/src/controllers/product.controller.js:19-24 | absent or numeric required fields never trip the check |
| `Products.WithDefaults` | backend/src/controllers/product.controller.js:37 | a falsy shelfLife is stored as 0, a truthy one as given; the other fields are stored as given |
| `Products.Matches` | backend/src/controllers/product.controller.js:47-49 | no category and no search match every product; a matching product has the category, and its name is a text containing the search ignoring case; a product with the category whose name contains the search ignoring case matches, and so does one whose name contains the search when no category is given, or one with the category when no search is given |
| `Products.ProductTable.CreateProduct` | backend/src/controllers/product.controller.js:11-43 | 400 and no change on a blank required field; otherwise 201 with a new product appended under a fresh id, holding the given fields with the shelfLife default |
| `Products.ProductTable.GetAllProducts` | backend/src/controllers/product.controller.js:45-67 | absent page and limit default to 1 and 10; the answer is `Paginate` of the newest-first matches: fails (500) iff (page−1)×limit < 0; every returned product is stored, has the category and contains the search in its name ignoring case; total counts all matches; at most `limit` items for a positive limit; totalPages = ceil(total / limit) for a non-zero limit; newest first |
| `Products.ProductTable.GetProductById` | backend/src/controllers/product.controller.js:69-80 | 404 iff no product has that id; otherwise the stored product with that id; nothing changes |
| `Products.ProductTable.UpdateProduct` | backend/src/controllers/product.controller.js:82-98 | 404 and no change for an unknown id; otherwise only that product changes, by the patch, and it is returned |
| `Products.ApplyPatch` | backend/src/controllers/product.controller.js:86 | an update that supplies nothing changes nothing, and one that supplies no required field keeps the required fields (field by field: `PatchOverwritesOnlySupplied`) |
| `Products.LaterPatchOverrides` | backend/src/controllers/product.controller.js:86 | an update that supplies every field an earlier one supplied erases the earlier one: the last write wins field by field |
| `Products.PatchIdempotent` | backend/src/controllers/product.controller.js:86 | applying the same update twice equals applying it once |
| `Products.PatchOverwritesOnlySupplied` | backend/src/controllers/product.controller.js:86 | each supplied field takes the supplied value and each field left out keeps its value |
| `Products.ProductTable.DeleteProduct` | backend/src/controllers/product.controller.js:100-111 | 404 and no change for an unknown id; otherwise returns the product with that id and removes exactly it, every other product remains |

## Left out

- The `toFixed(2)` rounding of the calculator's figures is left out: it is
  binary floating-point formatting. Figures are exact reals, and the rounded
  total need not equal the sum of the rounded components.
- The calculator's NaN arithmetic on missing or non-numeric inputs is not
  modelled. Inputs are reals.
- The calculator's factor lookup goes through JavaScript objects. An inherited
  key such as `constructor` or `toString` would yield NaN instead of the
  fallback factor. Only the tables' own keys are modelled.
- Concurrent requests racing on the history log are not modelled; requests are
  sequential method calls.
- The bulk refresh is not atomic in the store, and a save can fail part-way
  through the loop. Neither is modelled: the sweep is one method call.
- The store's internals are not part of this model:
  - schema casting, schema defaults and `runValidators`;
  - ObjectId casting (a malformed id answers 500 in the handlers; ids are
    naturals here);
  - `populate("product")` on the inventory listing;
  - automatic `createdAt` timestamps, which are replaced by creation order.
- A new inventory row gets no waste prediction and no recommendation. The
  schema's defaults are not part of this model.
- `$regex` semantics are not modelled: the search is a literal substring
  match. Case is ignored for ASCII letters only.
- Query strings are taken as already parsed integers, or absent (then the
  defaults page 1 and limit 10 apply). `parseInt` yielding NaN, and repeated
  query parameters, are not modelled.
- A limit of 0 is read as "no limit", following MongoDB; `totalPages` then
  becomes Infinity or NaN, which JSON writes as null. A negative limit returns
  at most |limit| documents, and `totalPages` is then the finite, non-positive
  `Math.ceil(total / limit)`.
- Request bodies hold only absent values, text and numbers. Booleans, arrays
  and objects are left out: an empty array prints as "" and would fail the
  blank check.
- In an upsert, an absent product or store is the empty string; both are
  falsy, so both are refused alike. The expiry date is the parsed time; date
  string parsing is left out. A numeric expiry date of 0 is falsy and the
  handler refuses it with 400; the model's `Some(0)` stands for a present date
  and is accepted, so that case is not captured.
- `getAllStores` and the product option lookups (`getAllCategory`,
  `getAllPackagingOption`, `getAllRegionOPtion`, `getAllCountry`,
  `getAllUnit`) return constant lists. Those constants files are not part of
  this model.
- Response messages and the `{ statusCode, data, message, success }` envelope
  are reduced to `Response`.
- `backend/src/controllers/user.controller.js` (authentication, tokens,
  cookies), the routes, the server bootstrap and the frontend are not part of
  this model.
