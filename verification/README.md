# Café ordering page: a Dafny model

This project models the state logic of a small café ordering page
(`script.js`) and the two decisions of its booking server (`server.js`)
that are more than plumbing.

- **Cart.** A dictionary from menu id to `{item, qty}`, changed in place by
  the `+`/`−` buttons (`changeQty`) and emptied by the clear button. The cart
  panel shows two totals: the item count and the amount.
- **Checkout.** Two guards: an empty cart, and a cancelled or blank name.
  Then one `POST /api/bookings` per cart line, awaited one after another, in
  the order `for…in` visits the cart's keys. For integer-like keys that is
  ascending numeric order, whatever the insertion order. The handler never
  looks at `res.ok`. Only a thrown network error ends the loop, with "Failed
  to save booking". The cart is then kept, and the bodies already posted stay
  posted. Otherwise the bookings are reloaded and the cart is emptied.
- **Booking table.** `loadBooking` replaces the cached list wholesale on an ok
  response. The filter button narrows a copy of that cache by three chained
  filters:
  - a trimmed, lowercased text query against either name;
  - an inclusive from-day bound;
  - an inclusive to-day bound.

  The clear button shows the cache unfiltered. Every name is put through
  `escapeHtml`.
- **Helpers.** `getPriceByName`, and the menu category buttons.
- **Server.** `POST /api/bookings` reads snake_case or camelCase field names,
  with `||` fallback. It answers 400 without touching the database when a
  name is falsy or the price is `null`/missing, 201 with the inserted row, or
  500 when the insert throws. At start-up, `fixColumnName` renames a legacy
  `date` column to `time`. If either of its statements throws, the error is
  only logged and the columns stay as they were.

Modules, one file each:

- `Wrappers`: `Option` and `Result`.
- `Strings`: `trim`, ASCII `toLowerCase`, `includes`.
- `Seqs`: `find`, `filter`, subsequences.
- `PropertyKeys`: array-index keys and the `for…in` order.
- `Catalog`: `MENU`, the lookups, the category filter.
- `Cart`: the cart value, its invariant and its totals.
- `Checkout`: the checkout handler on values.
- `Bookings`: the table filter.
- `Session`: the page object. Its `cart` and `latestBookings` fields are
  updated in place by methods.
- `Html`: `escapeHtml`.
- `Server`: the POST handler and the column fix.

The network is a parameter everywhere:

- `replies(i)` is how the i-th order POST ended: some status, or a thrown
  error.
- A `FetchReply` is how the bookings reload ended.
- A `DbReply` is what the insert did.
- `prompt` is modelled by its result: `None` when the dialog is cancelled.
- Timestamps are integers in milliseconds. `None` stands for an unparsable
  time (NaN). The from/to fields arrive already converted to day bounds.

A 4xx or 5xx reply does not fail a checkout: the handler never reads
`res.ok` (script.js:163-172), so only a thrown error does.
`CheckoutIgnoresStatus` proves that statuses never matter.

## Model

| member | source | states |
|---|---|---|
| Catalog.MenuIsCatalogOk | script.js:4-14 | every id of `MENU` is an array-index key, so the cart's keys are visited in numeric order |
| Catalog.FindById | script.js:73 | `MENU.find` by id: `None` exactly when no item has the id, otherwise an item of the menu with that id |
| Catalog.FindByIdIsFind | script.js:73 | the id lookup equals `find` with the test "has this id" |
| Catalog.FindByIdFirst | script.js:73 | the item found is the first one with that id |
| Catalog.GetPriceByName | script.js:216-219 | price of the first item with that name; 0 when no item has it |
| Catalog.MenuForFilter | script.js:196-197 | "all" shows the whole menu; any other value shows, in menu order, exactly the items of that category |
| Seqs.Find | script.js:217 | `find` returns the first element passing the test, `None` when none does |
| Seqs.Where | script.js:300 | `filter` keeps only passing elements and keeps every passing element |
| Seqs.WhereIsSubsequence | script.js:297-310 | `filter` keeps the order of what it keeps |
| Cart.WellFormed | script.js:72-82 | the cart invariant `changeQty` keeps: every stored line has qty > 0 and holds the catalog item of its id (definition; kept by `ChangedWellFormed`) |
| Cart.TotalQty | script.js:87-88 | the item count shown: Σ qty over the lines (definition; order-independence in `SumByRemove`) |
| Cart.TotalAmount | script.js:91-96 | the amount shown: Σ price × qty over the lines (definition; computed by `Session.Totals`) |
| Cart.Changed | script.js:72-82 | unknown id, or an id with no line and delta ≤ 0, leave the cart unchanged; otherwise the id has a line iff old qty (0 if none) + delta > 0, with that quantity and the catalog item |
| Cart.ChangedOnlyAt | script.js:76-82 | `changeQty(id, …)` leaves every other id's line untouched |
| Cart.ChangedWellFormed | script.js:76-82 | every stored line keeps qty > 0 and holds the catalog item of its id |
| Cart.SumByRemove | script.js:88 | a total does not depend on the visiting order: any line can be taken out first |
| Cart.ChangedTotals | script.js:81-96 | after a change both totals move by exactly the change of that one line |
| Cart.TotalQtyBounds | script.js:88 | with positive quantities the item count is at least the number of lines, and 0 exactly for the empty cart |
| PropertyKeys.SortedKeys | script.js:94 | the `for…in` order over array-index keys: same size as the key set and holding exactly its keys, smallest first |
| PropertyKeys.IndexKeyInjective | script.js:94 | two array-index keys with the same numeric value are the same key |
| PropertyKeys.SortedKeysAscending | script.js:94 | the `for…in` order lists the keys in strictly ascending numeric order |
| PropertyKeys.AscendingListingIsSortedKeys | script.js:161 | any strictly ascending listing of exactly the keys is the `for…in` order |
| PropertyKeys.KeysInOrder | script.js:161 | the `for…in` walk over the cart visits exactly its keys, smallest first, i.e. returns the `for…in` order |
| Session.Session.constructor | script.js:19 | a fresh page has an empty, well-formed cart and an empty cache |
| Session.Session.Totals | script.js:87-96 | the loop over the lines computes Σ qty and Σ price × qty |
| Session.ChangeLines | script.js:72-82 | the steps of `changeQty` (two early returns, create at 0, add, delete at ≤ 0) compute `Changed`; `handled` is false exactly on the early returns |
| Session.Session.ChangeQty | script.js:72-85 | the cart becomes `Changed(old cart)` and stays valid; totals are shown unless an early return was taken |
| Session.Session.ClearCart | script.js:145-148 | the cart is emptied and the totals shown are 0 and 0 |
| Session.Reloaded | script.js:254-264 | an ok response replaces the cache; a non-ok status or a thrown error keeps it |
| Session.Session.LoadBooking | script.js:254-264 | `latestBookings` becomes `Reloaded(old cache, reply)`; the cart is untouched |
| Checkout.Precheck | script.js:155-158 | empty cart: "Cart is empty"; cancelled or all-whitespace name: "Name is required"; otherwise the trimmed, non-empty name |
| Strings.Trim | script.js:158 | `String.prototype.trim` with JavaScript's WhiteSpace and LineTerminator sets: leading, then trailing whitespace dropped (definition; meaning in the next rows) |
| Strings.TrimEnds | script.js:158 | a non-empty trimmed string neither starts nor ends with whitespace |
| Strings.TrimEmptyIffBlank | script.js:158 | a name trims to "" exactly when all its characters are whitespace |
| Strings.TrimStartIsSuffix | script.js:158 | what survives leading-whitespace removal is a suffix of the input |
| Strings.TrimSurrounded | script.js:158 | `trim` removes exactly the whitespace around a core whose ends are not blank |
| Checkout.RequestFor | script.js:167-171 | one POST body: `{trimmed name, item name, price × qty}` of a line (definition) |
| Checkout.OrderPlan | script.js:161-171 | the bodies of the whole loop, one per key in `for…in` order (definition; meaning in `OrderPlanOnePerLine`) |
| Checkout.RequestsIndex | script.js:161-171 | the i-th body is `{trimmed name, item name, price × qty}` of the line at the i-th key |
| Checkout.OrderPlanOnePerLine | script.js:161-171 | one body per line, in strictly ascending key order, each carrying that line's name, item and price × qty |
| Checkout.FirstNetworkError | script.js:160-173 | the index of the first thrown request, with none thrown before it, or the request count |
| Session.PostLines | script.js:160-173 | the loop walks the cart keys in `for…in` order and posts exactly the order plan, stopping right after the first request that throws; `threw` says whether one did |
| Session.PlaceOrder | script.js:155-173 | guards, then the loop: the run equals `CheckoutSpec` |
| Checkout.CheckoutSpec | script.js:154-186 | the whole checkout on values: the guards, then the plan up to and including the first thrown request, saved iff none threw (definition; meaning in `GuardsSendNothing`, `CheckoutSendsPlanPrefix`) |
| Checkout.GuardsSendNothing | script.js:155-158 | an empty cart or a missing/blank name sends no request, with the matching alert |
| Checkout.CheckoutSendsPlanPrefix | script.js:160-185 | past the guards, a non-empty prefix of the plan is sent; the order is saved iff no request threw, and then the whole plan was sent; on failure the last body sent is the one that threw |
| Checkout.CheckoutIgnoresStatus | script.js:163-172 | HTTP statuses never matter: runs whose requests throw at the same places are identical |
| Checkout.RetryResendsAttempted | script.js:160-185 | nothing is rolled back: after a failed checkout, a retry that goes through posts again every body already sent |
| Checkout.AshaExample | script.js:154-179 | " Asha " ordering 2 × Elaichi Cappuccino sends one body `{"Asha", "Elaichi Cappuccino", 340}` and saves |
| Session.AfterCheckout | script.js:176-185 | a saved order empties the cart and reloads the cache from the refresh reply; any other outcome leaves both as they were |
| Session.Session.Checkout | script.js:154-186 | the run is `CheckoutSpec(old cart, …)`, the page becomes `AfterCheckout(old page, outcome, refresh)`, and the cart stays valid |
| Strings.ToLower | script.js:294 | same length, each character lowered by `LowerChar` |
| Strings.Contains | script.js:300 | `includes` holds iff the query occurs at some position |
| Bookings.NormalizedQuery | script.js:294 | the compared query is at most as long as the typed text, and empty, so the text filter is skipped, exactly when that text is blank |
| Bookings.TextMatches | script.js:300 | either name, lowercased with null read as "", contains the query (definition) |
| Bookings.Passes | script.js:297-309 | a row passes when every filled-in criterion holds: text, on or after the from-day, on or before the to-day (definition) |
| Bookings.FilterBookings | script.js:293-310 | the filter button: a copy of the cache narrowed by text, from-day and to-day, each only when filled in (definition; meaning in `FilterIsConjunction`, `FilterSound`) |
| Bookings.FilterIsStages | script.js:297-309 | the button's chained `if … filter` steps equal three unconditional filters by tests that pass everything when their field is empty |
| Bookings.FilterIsConjunction | script.js:297-309 | the chained filters equal one filter by the conjunction of the present criteria |
| Bookings.FilterSound | script.js:297-310 | the shown rows are a subsequence of the cache, each passes every present criterion, and every passing row is shown |
| Bookings.NoCriteriaKeepsAll | script.js:297-310 | a blank query and no dates show the cache exactly |
| Bookings.ClearedCriteria | script.js:313-318 | the cleared form selects every row of any cache |
| Bookings.TextOnly | script.js:294-301 | with only a query, a row is shown iff one of its lowercased names (null as "") contains the trimmed, lowercased query |
| Bookings.PassesDays | script.js:302-309 | with both days set, a row passes iff its time is valid and `fromStart ≤ time ≤ toEnd` |
| Bookings.DayRange | script.js:302-309 | with both days set, the shown rows are exactly those with a valid time inside the inclusive range |
| Bookings.LatteMatches | script.js:300 | the query "latte" matches a booking whose drink is "Turmeric Latte (Haldi Doodh)", its capital `L` folded by the lowercasing |
| Bookings.LatteQuery | script.js:294 | the typed " Latte" is compared as "latte" |
| Html.EscapeHtml | script.js:290 | the escaped text holds no raw `<`, `>`, `"` or `'` |
| Html.EscapeAppend | script.js:290 | escaping works character by character: it distributes over concatenation |
| Html.EscapeIdentity | script.js:290 | text comes out unchanged iff it holds none of the five special characters |
| Html.UnescapeEscape | script.js:290 | reading the entities back returns the original text |
| Html.EscapeInjective | script.js:290 | two texts that escape alike are equal |
| Server.Truthy | server.js:168-172 | JavaScript truthiness: `undefined`, `null`, `false`, `0` and `""` are falsy (definition) |
| Server.IsNullish | server.js:170-172 | `price == null` holds for `null` and a missing field only (definition) |
| Server.CustomerName | server.js:168 | `customer_name \|\| customerName` (definition) |
| Server.DrinkName | server.js:169 | `drink_name \|\| drinkName` (definition) |
| Server.Or | server.js:168-169 | `a \|\| b` is `a` when truthy, else `b`; truthy iff either is |
| Server.ParseBooking | server.js:168-175 | refused iff a resolved name is falsy or the price is nullish; otherwise the insert arguments are the resolved names and the price |
| Server.PostBooking | server.js:166-189 | 400 "Missing booking details" with no insert; else one insert of the parsed fields, answered 201 with the row or 500 "Error creating booking" |
| Server.SnakeAndCamelAgree | server.js:168-169 | the same fields under snake_case or camelCase keys lead to the same insert and answer |
| Server.EmptyFieldFallsBack | server.js:168 | an empty `customer_name` falls back to `customerName` |
| Server.PriceZeroAccepted | server.js:170-172 | a price of 0 is accepted, a null price is refused |
| Server.RefusalIgnoresDatabase | server.js:172-175 | a refused body answers 400 whatever the database would do |
| Server.FixColumns | server.js:124-141 | `date` becomes `time` exactly when the column query and the `ALTER TABLE` both go through and the columns hold `date` but not `time`; a thrown error is only logged and keeps the columns |
| Server.FixColumnsSettles | server.js:124-141 | after a fix whose statements went through, a table that had `date` or `time` has `time`, and a later run changes nothing whatever its outcomes |
| Server.FailedRenameRetried | server.js:124-141 | a rename that threw leaves the table needing the fix, and the next successful run adds `time` |

## Left out

- DOM rendering:
  - `renderMenu`, `renderBookingTable`, `updateCartUI`'s markup;
  - the cart panel, dark mode, `populateBookingSelect`;
  - the alerts. These are modelled only as the `CheckoutOutcome` a run ends with.
- The manual booking form (script.js:221-246): a single POST followed by a reload. Only `getPriceByName`, which it calls, is modelled.
- `fetch` and the server round trip: replies are parameters. A failed reload is modelled by its effect only: the cache is kept.
- The 5-second polling (script.js:321) and interleaving between handlers. A checkout click while another checkout is in flight, and last-response-wins between reloads, are not modelled. Each handler runs to completion.
- JavaScript `Date`: parsing, local time zones, `setHours` and `toLocaleString`. Times and day bounds are given integers, and an unparsable time is `None`.
- Strings.ToLower: folds ASCII `A`–`Z` only, not the full Unicode case mapping of `toLowerCase`.
- Catalog.CatalogOk: assumes every menu id is an array-index key, which holds for `MENU`. For other keys, `for…in` insertion order is not modelled.
- JSON numbers are `real`, and prices in the client are `int`. Floating-point rounding is not modelled.
- server.js infrastructure: environment loading, database and table creation, the pool, express, `GET /api/bookings`, and the server start. What the insert did, and whether the column query and the `ALTER TABLE` of the column fix went through or threw, are parameters.
- booking-api/server.js is not part of this model: it is thin CRUD over a document store with no logic of its own.
