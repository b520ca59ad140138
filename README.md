# Distribution ordering backend — a Dafny model

This project models the core of a distributor/shop ordering backend written in
Rust on actix-web and PostgreSQL. Shops order products through distributors.
The core is:

- **order placement with stock reservation** (`add_order`). It runs a
  validate loop over the order lines, then a transaction that inserts the
  order header, decrements stock, snapshots prices and discounts into detail
  rows, and recomputes the total. It ends with the new order id, the
  "not available" sentinel 0, or an error;
- **the order-list filter composer** (`get_orders`). It builds its `WHERE`
  clauses and their `$k` parameters one step at a time;
- **the catalogue tables the order workflow reads and writes**: the price
  ledger (`product_prices`), discounts with their `product_discounts` links,
  and products with their `product_categories` links. Rows are soft-deleted,
  and a link set is replaced by "delete all, then re-insert";
- **the request gates and reply mapping** of the order, price, discount and
  auth endpoints. A gate reads the Bearer header, verifies the token, splits
  the `sub` claim into exactly three comma fields, and checks the role.
  Model results then map to status codes. The price endpoints and the
  token-verify endpoint are defined in the source but not registered in
  its routing table (src/api.rs), so as written no route reaches them.

The database is one class, `Store.Database`, with one field per table and per
serial column. Each model function of the source is a method on it with a
`modifies` frame naming the tables it writes. The order transaction works on
its own copy of the tables, which becomes the store's state only at commit
(`Orders.Transact`). The CRUD operations are not wrapped in transactions:
each statement takes effect on its own. A failure of the database or of the
client is a parameter:

- `faults` names the failing steps of `add_order`;
- `fault` is the index of the first statement that fails in a multi-statement
  operation;
- `fails` stands for a single failing statement;
- `queryFails` stands for a by-id read whose query fails, which the source
  turns into "not found" like a missing row.

Reads of a listing return the row set the query admits, each row once, with
the paging fields.

Handlers are modelled as methods when they call a model method, and as
functions otherwise. Token verification, password hashing, token signing and
the clock are parameters (`verify`, `checkPassword`, `sign`, `now`). A failed
`unwrap()` is the reply `Panicked`.

## Model

| member | source | states |
|---|---|---|
| Orders.AddOrder | src/models/order.rs:22-99 | The result reports `PlaceOutcome` of the starting state. On placement, every listing's stock is `StockAfter` the lines, one detail row per line is appended in request order, and one order row (shop, user, "Pending", total of the lines) is added under the next serial id. On the sentinel 0 or an error, prices, orders and details are unchanged. The serial advances exactly when the header insert ran |
| Orders.CheckStock | src/models/order.rs:29-43 | The validate loop's verdict is `Validation`: a failed or missing read is an error, and a line asking for more than its stored stock stops the loop as "short" |
| Orders.Transact | src/models/order.rs:45-98 | On the transaction's view of the tables: when placed, the header, stock and detail tables are `PlacedTables`; otherwise the view is dropped unchanged. The serial advances only once the header insert ran |
| Orders.CommitLines | src/models/order.rs:54-88 | The commit loop succeeds exactly when every statement of every line does. It then leaves the stock decremented line by line and the detail rows appended in order |
| Orders.PlaceOutcome | src/models/order.rs:22-99 | An order is placed only when every line names a stored listing and the header insert ran. The sentinel comes exactly when validation finds a short line and the rollback succeeds |
| Orders.ValidationPass | src/models/order.rs:30-43 | Validation passes if and only if every stock read succeeds and every line fits the stock read for it |
| Orders.StockConservation | src/models/order.rs:55-62 | After the first k decrements, each listing has lost exactly the summed quantity of those lines naming it |
| Orders.PlacedStock | src/models/order.rs:55-62 | On success, each listing's stock drops by the total quantity of the lines naming it; listings no line names are unchanged |
| Orders.DistinctNeverOversell | src/models/order.rs:30-62 | With pairwise distinct price ids, a placed order leaves no touched stock below zero |
| Orders.DuplicateLinesOversell | src/models/order.rs:30-62 | Two lines of 3 for one listing holding 5 both pass validation, and the placed order leaves that stock at -1 |
| Orders.ShortLineNeverPlaced | src/models/order.rs:38-42 | A line asking for more than its live listing's stock means the order is never placed |
| Orders.ShortLineUnavailable | src/models/order.rs:38-42 | When the lines before the short one fit and nothing fails, the result is the sentinel |
| Orders.MissingPriceNeverPlaced | src/models/order.rs:31-36 | A line naming a missing or soft-deleted listing means the order is never placed |
| Orders.MissingPriceFails | src/models/order.rs:27-36 | When the lines before it fit, a missing or soft-deleted listing makes the stock read fail, and the result is an error |
| Orders.NewDetailsAt | src/models/order.rs:76-87 | Detail row i records line i: its price id, its quantity, the stored price and the discount of the single live link |
| Orders.PlacedDetails | src/models/order.rs:64-87 | Each placed line's `price_at_order` is the listing's stored price. Its discount is set exactly when one live link names the listing, and is then that link's discount |
| Orders.OrderTotal | src/models/order.rs:90-95 | The recomputed total of the new order is the sum of price × quantity over its own detail rows; earlier orders' rows do not count |
| Orders.EmptyOrderTotal | src/models/order.rs:90-95 | An order with no lines has total 0 |
| Orders.TransactValid | src/models/order.rs:45-98 | A placement keeps the store invariant: live stock in the i32 range, ids below their serials, details naming existing orders |
| OrderList.ComposeOrderFilter | src/models/order.rs:127-158 | The composed conditions admit a row if and only if it is `Wanted`: live, scoped to the caller under the role "Disributor", within both dates when both are given, within both amounts when both are given, and of the status when one is given. Every clause names its parameters by their `$k` positions, and a user clause is present if and only if the role is "Disributor". A date clause is present if and only if both dates are given |
| OrderList.ScopeClause | src/models/order.rs:132-135 | Adds one user clause, naming the newly pushed user id, exactly when the role is the literal "Disributor". Afterwards the clauses admit exactly the live rows in the caller's scope, and stay numbered |
| OrderList.DateClause | src/models/order.rs:137-145 | Adds one date clause, naming the two newly pushed dates, exactly when both dates are given. Afterwards the clauses also demand the creation date between them |
| OrderList.AmountClause | src/models/order.rs:147-153 | Adds one amount clause, written into the query text and pushing no parameter, exactly when both amounts are given. Afterwards the clauses also demand the total between them |
| OrderList.StatusClause | src/models/order.rs:155-158 | Adds one status clause, naming the newly pushed status, exactly when a status is given. Afterwards the clauses also demand that status |
| OrderList.HoldsLater | src/models/order.rs:132-158 | Pushing more parameters never changes what an earlier clause admits |
| OrderList.AdmitsAppend | src/models/order.rs:132-158 | Appending a clause with its new parameters admits exactly the rows the old filter and the new clause both admit |
| OrderList.NumberedAppend | src/models/order.rs:132-158 | A clause naming the newest parameters keeps every clause numbered by its push position |
| OrderList.ClauseKinds | src/models/order.rs:132-158 | Clauses are grown in the order user, dates, amounts, status. The result holds a user clause if and only if the role is "Disributor", and a date clause if and only if both dates are given |
| OrderList.Kept | src/models/order.rs:114-227 | The listed rows are exactly the rows of the join the request wants |
| OrderList.Selected | src/models/order.rs:160-194 | The row query returns exactly the joined rows the composed clauses admit |
| OrderList.SelectedIsKept | src/models/order.rs:127-194 | Because the composed clauses admit exactly the wanted rows, the query returns exactly the rows the request keeps, in table order |
| OrderList.SelectRows | src/models/order.rs:192-218 | The row loop pushes exactly the admitted rows, in order |
| OrderList.GetOrders | src/models/order.rs:114-227 | Lists exactly the wanted rows with the paging fields, or fails |
| OrderList.ScopedCallerSeesOwnOrders | src/models/order.rs:132-135 | A listed row is live, and under the role "Disributor" it belongs to the caller |
| OrderList.DistributorNotScoped | src/models/order.rs:132 | A caller with the correctly spelled role "Distributor" is shown another user's live orders |
| Paging.PageCount | src/models/product_price.rs:54 | The page count is the least number of pages of `per_page` rows holding `total` rows. It is 0 exactly for no rows, and `usize::MAX` for a page size of 0 and some rows |
| Paging.PageFields | src/models/product_price.rs:48-55 | `current_page`, `per_page` and `page_counts` are all 0 unless both page and per_page are given, and are then the request's values and the page count |
| Paging.PagedResult | src/models/product_price.rs:45-82 | All matching rows, their number as the total; page, page size and page count all 0 unless both page and page size are given, and then the requested page and size and the fewest pages of that size holding the total (0 for no rows and `usize::MAX` for rows at page size 0) |
| Paging.RowsOnPages | src/models/product_price.rs:54 | Every matching row falls on one of the counted pages |
| Store.InsertLinks | src/models/discount.rs:135-138 | The insert loop appends one live link per member, in order, up to the first failing insert. It reports success exactly when none fails |
| Store.ScanIds | src/models/product_price.rs:57-59 | The rows a query returns are the admitted ids, each exactly once |
| Links.ReplaceExact | src/models/discount.rs:218-226 | After delete-all-then-insert, the owner's links are exactly the new members, in order. Every other owner's links are as before |
| Links.ReplaceIdempotent | src/models/discount.rs:218-226 | Replacing twice with the same members gives the same links as replacing once |
| Links.SoleOwner | src/models/order.rs:65-74 | The discount lookup returns a value exactly when one live link names the listing, and that value is the link's discount |
| Prices.GetPriceById | src/models/product_price.rs:108-132 | None if and only if the listing is missing or soft-deleted or the query fails (every `query_one` error is None); otherwise the stored fields |
| Prices.AddPrice | src/models/product_price.rs:94-106 | Inserts exactly the request's values, with no range checks, under the next serial id, and fails only on a store error or an exhausted serial |
| Prices.UpdatePrice | src/models/product_price.rs:134-148 | On success, the row is `Overwritten`: price, type, package size and stock are replaced and the product is kept. On failure nothing changes |
| Prices.DeletePrice | src/models/product_price.rs:150-162 | On success, only the deleted marker is set |
| Prices.GetPrices | src/models/product_price.rs:21-83 | Lists exactly the live listings of the product, each once and as stored, with the paging fields |
| Prices.AddedPriceReads | src/models/product_price.rs:94-132 | A new listing reads back as exactly the request's values |
| Prices.UpdatedPriceReads | src/models/product_price.rs:134-148 | After an update, a live listing reads back with the new values and its old product, a deleted one stays hidden, and every other listing reads as before |
| Prices.UpdateReachesDeletedRows | src/models/product_price.rs:139 | The update has no `deleted_at` condition: it rewrites a soft-deleted row, which stays deleted |
| Prices.DeletedPriceHidden | src/models/product_price.rs:150-162 | After a delete the listing is hidden from the by-id read and from every product's listing. Other listings read as before, and no row is removed |
| Prices.DeletedPriceRefusesOrders | src/models/order.rs:31-36 | After a delete, no order naming the listing is placed |
| Discounts.AddDiscount | src/models/discount.rs:122-140 | Inserts the discount under the next serial id, then one link per price id in order. A failing link insert keeps the discount and the earlier links. The result is Ok exactly when every statement ran |
| Discounts.LinkedPricesAre | src/models/discount.rs:144-160 | The link join lists the discount's linked listings, in link order, whose listing and product rows exist, each with its own product |
| Discounts.LinkedPrices | src/models/discount.rs:144-160 | The link join gives at most one entry per link; Discounts.LinkedPricesAre states which |
| Discounts.GetDiscountById | src/models/discount.rs:142-194 | None if and only if the discount is missing or soft-deleted or its query fails. Otherwise it holds the stored fields and its joined linked listings, each entry carrying its listing's stored `product_id` and that product's name, or an empty list when the link query fails |
| Discounts.UpdateDiscount | src/models/discount.rs:196-227 | Rewrites the scalar fields with no `deleted_at` condition, deletes the links, and re-inserts them up to the first failure. On success the links are `Replace`d |
| Discounts.DeleteDiscount | src/models/discount.rs:229-246 | Sets the deleted marker, then removes every link of the discount; a failure of the second statement keeps the marker |
| Paging.RoleOrder | src/models/discount.rs:44-48 | Discounts, and products (src/models/product.rs:45-49), are sorted by name if and only if the role is "Distributor", and newest first otherwise |
| Discounts.GetDiscounts | src/models/discount.rs:33-106 | Lists exactly the live discounts, each once and without linked listings, with the paging fields and the role's sort order |
| Discounts.UpdatedDiscountLinks | src/models/discount.rs:200-226 | After an update, the discount's links are exactly `price_ids` and other discounts' links are untouched. A read shows all seven rewritten fields and exactly the requested listings whose rows exist, joined with their products, and every other discount reads as before |
| Discounts.LinkedPricesOwned | src/models/discount.rs:144-160 | The link join depends on the links only through the discount's own linked listing ids, in link order |
| Discounts.DeletedDiscountNotSnapshot | src/models/order.rs:65-74 | After a delete, an order line gets the discount of the listing's one remaining live link, or NULL. It never gets the deleted discount, and gets NULL when that discount was the only link |
| Discounts.DeletedDiscountHidden | src/models/discount.rs:229-246 | After a delete the discount is no longer found |
| Products.AddProduct | src/models/product.rs:157-177 | Inserts the product under the next serial id, then one category link per entry in order, up to the first failure |
| Products.Cleanup | src/models/product.rs:207-223 | No file is removed when the image is unchanged; otherwise the old image and its `_original` companion are |
| Products.UpdateProduct | src/models/product.rs:179-229 | Overwrites name, image and brand, deletes the links, and re-inserts them up to the first failure. On success the links are `Replace`d. File removal is tried only after every statement succeeded, and never changes the result |
| Products.DeleteProduct | src/models/product.rs:231-240 | Only sets the deleted marker; the category links stay |
| Products.LinkedCategories | src/models/product.rs:116-125 | Exactly one entry per link of the product to a stored category, in link order (its ids are `Stored(OwnedBy(links, id))`), each with that category's name |
| Products.GetProductById | src/models/product.rs:107-147 | None if and only if the product is missing, soft-deleted or without its brand row, or the query fails. Otherwise it holds the stored fields, the brand name and the categories, or none when the category query fails |
| Products.ProductRows | src/models/product.rs:76-96 | One product per returned id, in order, each as the by-id read shows it |
| Products.GetProducts | src/models/product.rs:27-105 | Lists exactly the live products with a brand row and at least one category link, each once. The category and brand filters apply only when given, and every row is as the by-id read shows it |
| Products.UpdatedProductReads | src/models/product.rs:185-205 | After an update, the product's category links are exactly `categories` and other products' links are untouched. A read shows the new name, image and brand, and exactly the requested categories that are stored, in request order |
| Products.DeletedProductHidden | src/models/product.rs:231-240 | After a delete the product is neither found nor listed |
| Products.LastIndex | src/models/product.rs:213-221 | The last occurrence of a character, if any, has none after it |
| Products.LastDot | src/models/product.rs:213-221 | In "{a}.{e}" with no dot in e, the last dot is the one after a |
| Products.LastComponent | src/models/product.rs:213-221 | The name after the last slash is the path's file name |
| Products.OriginalNameDropsDirectory | src/models/product.rs:213-223 | For "{dir}/{stem}.{ext}", the companion name is "{stem}_original.{ext}", built from the last component only and without the directory |
| Products.OriginalNameNoExtension | src/models/product.rs:213-223 | A file name without a dot gives "{name}_original." |
| Products.OriginalNameOfNothing | src/models/product.rs:213-223 | An empty path and the root path give "_original." |
| Products.OriginalName | src/models/product.rs:213-223 | The `_original` companion name never contains a slash, whatever the path: it is built from the last path component only |
| Text.Split | src/api/order.rs:56 | `split(',')` always yields at least one piece |
| Text.SplitCount | src/api/order.rs:56-57 | There is one more piece than there are separators |
| Text.JoinSplit | src/api/order.rs:56 | Joining the pieces with the separator gives the string back |
| Text.SplitAround | src/api/order.rs:56 | Splitting "{a},{b}" splits a and b independently |
| Text.SplitNoSep | src/api/order.rs:56 | A string without the separator is one piece |
| Text.Words | src/api/order.rs:27 | `split_whitespace` yields non-empty pieces with no white space in them, and no piece exactly when the string is all white space |
| Text.BearerWords | src/api/order.rs:27-28 | "Bearer {t}" splits into "Bearer" and t |
| Text.WordsCons | src/api/order.rs:27 | A word followed by nothing or white space comes out first, and the rest splits on its own |
| Text.WordsAfterBlank | src/api/order.rs:27 | Leading white space does not change the pieces |
| Text.WordsHead | src/api/order.rs:27 | Conversely, a string with a first piece is white space, that piece, and a rest starting with white space that holds the other pieces |
| Text.BearerSplit | src/api/order.rs:27-28 | "Bearer" and a word with white space before, between (at least one) and after split into exactly those two words |
| Text.BearerShape | src/api/order.rs:27-28 | Conversely, a string that splits into "Bearer" and one word has exactly that shape |
| Text.ParseFormat | src/api/order.rs:64 | An i32 printed with `{}` parses back as the same i32 |
| Text.ParseI32 | src/api/order.rs:64 | A parsed number comes from an optional sign and decimal digits; it is negative only after a "-" |
| Text.ParsePlusAndZeros | src/api/order.rs:64 | A leading "+" or a leading zero does not change the parse: "+7" and "007" parse as "7" does |
| Text.HeaderText | src/api/order.rs:27 | The header text is the value itself exactly when it is visible ASCII, and "" otherwise |
| Text.FormatIntHasNoComma | src/api/auth.rs:44 | A printed integer contains no comma |
| Http.TokenOf | src/api/order.rs:25-43 | A token is found only in a present header, and is then a non-empty word with no white space (both directions of the header shape are Http.BearerHeaderForms and Http.TokenShape) |
| Http.Authenticate | src/api/order.rs:25-62 | The gate answers, in order: 401 for a missing header, 400 for a malformed one, 401 for a rejected token, and 500 for a `sub` that does not hold exactly two commas. Otherwise it passes the three fields, which join back into the `sub` |
| Http.Admit | src/api/product_price.rs:74-79 | A role outside the allow-list ends the request with 401 "Unauthorized!"; anything else is passed on unchanged |
| Http.BearerHeaderAccepted | src/api/order.rs:27-30 | A "Bearer {t}" header with a visible, space-free token yields t |
| Http.BearerHeaderForms | src/api/order.rs:25-30 | "Bearer" and a token with any white space before, between (at least one) and after, in a visible ASCII header, yield the token |
| Http.TokenShape | src/api/order.rs:25-30 | Conversely, a header that yields a token is visible ASCII of exactly that shape |
| Http.NonTextHeaderMalformed | src/api/order.rs:27 | A header value that is not visible ASCII gets 400, whatever the token |
| Auth.Login | src/api/auth.rs:29-68 | Unknown user 401 "Invalid username!", wrong password 401 "Invalid password!", a hashing or signing error panics. A correct password with a signed token gives 200 with that token, the user name and the role, over `sub` = "{id},{role}" and `exp` = now + 86400, and only then is the reply 200 |
| Auth.VerifyToken | src/api/auth.rs:102-128 | Rejected token 401, a `sub` that is not three fields 500, a first field that does not parse as an i32 panics; a first field that parses gives 200 with that number as the room, and only then is the reply 200 |
| Auth.LoginSubCommas | src/api/auth.rs:44 | A login `sub` has one comma more than its role name |
| Auth.LoginSubFields | src/api/auth.rs:44 | A login `sub` splits into two more fields than its role name has commas |
| Auth.LoginTokenFailsVerify | src/api/auth.rs:114-120 | `verify_token` answers 500 to every token a login issued for a role name without commas |
| Auth.LoginTokenFailsGate | src/api/order.rs:55-62 | Every handler gate answers 500 to such a token |
| Auth.OnlyLoginTokensNeverGranted | src/api/order.rs:55-62 | When every accepted token carries a login `sub`, no request passes the gate |
| Auth.RoomIsUserId | src/api/auth.rs:122-127 | A three-field `sub` whose first field is a printed user id verifies, and the room is that id |
| OrderApi.Identify | src/api/order.rs:24-64 | After the gate, the caller is identified if and only if the first field parses as an i32 (a panic otherwise), and is then that number with the role in the second field |
| OrderApi.IdentifiesSubject | src/api/order.rs:55-64 | A token with `sub` "{id},{role},{rest}" identifies user id with that role |
| OrderApi.AddOrderReply | src/api/order.rs:67-91 | A placed order gives 200 with its non-zero id, the sentinel gives 400 with data 0 and the apology, and an error gives 500 |
| OrderApi.PlaceOrder | src/api/order.rs:18-92 | A refused or crashed request changes nothing. An identified caller's order is placed for their own user id at the body's shop whatever their role, and the reply follows the placement outcome. On placement the order row, the stock and the appended detail rows are those of `AddOrder`; otherwise prices, orders and details are unchanged. The order serial advances exactly when the header insert ran |
| OrderApi.ListOrders | src/api/order.rs:107-190 | The caller's id and role reach the model unchanged; the reply is 200 with the wanted rows and paging fields, or 500 |
| OrderApi.ListingScope | src/api/order.rs:145-168 | A caller whose token role is "Disributor" is shown only their own orders |
| PriceApi.Gate | src/api/product_price.rs:74-79 | Passes exactly the authenticated requests whose role is in the endpoint's allow-list |
| PriceApi.PriceTypeError | src/api/product_price.rs:167-179 | The type is accepted if and only if it is "single_item" or "package". An empty type gets "Product Type must not be empty!" first, and any other type "Invalid Product Type!" |
| PriceApi.WriteCheck | src/api/product_price.rs:158-179 | Before any store call: the gate's refusal, then 401 for a role other than "Admin", then 400 for a bad type |
| PriceApi.RoleBeforeBody | src/api/product_price.rs:158-179 | A non-Admin caller gets 401 whatever the body holds |
| PriceApi.ListPrices | src/api/product_price.rs:25-108 | Readers (Admin, Distributor) get 200 with exactly the product's live listings, each once and as stored, and the paging fields, or 500 |
| PriceApi.FetchPrice | src/api/product_price.rs:197-264 | Readers get 200 with the stored listing, or 404 "Price not found!" for a missing or deleted one or a failed read |
| PriceApi.CreatePrice | src/api/product_price.rs:111-194 | After the checks, 201 exactly when the insert succeeds, the row then being the request's values under the next serial id, a fresh key; else 500 with nothing changed. A refused request writes nothing |
| PriceApi.ChangePrice | src/api/product_price.rs:267-357 | After the checks, 404 with no write for a missing or deleted listing or a failed read; otherwise 200 with the row overwritten, or 500 with nothing changed |
| PriceApi.RemovePrice | src/api/product_price.rs:360-435 | Admin only. 404 with no write for a missing or deleted listing or a failed read; otherwise HTTP 200 with body code 204 and the row soft-deleted, or 500 with nothing changed |
| PriceApi.DeletedPriceNotFound | src/api/product_price.rs:253-263 | After a delete, fetching the listing answers 404 |
| DiscountApi.Gate | src/api/discount.rs:73-78 | Passes exactly the authenticated requests whose role is "Admin" |
| DiscountApi.WriteCheck | src/api/discount.rs:158-170 | Before any store call: the gate's refusal, then 400 for an empty name |
| DiscountApi.ListDiscounts | src/api/discount.rs:25-107 | Admin gets 200 with exactly the live discounts, each once, with their stored fields and no linked listings, and the paging fields, or 500. Because the role passed on is always "Admin", the order is always newest first |
| DiscountApi.FetchDiscount | src/api/discount.rs:219-286 | Admin gets 200 with the by-id read, or 404 "Discount not found!" for a missing or deleted discount or a failed read |
| DiscountApi.CreateDiscount | src/api/discount.rs:110-216 | After the checks, 201 exactly when the discount and all its links are in, else 500. Once the insert ran, the discount is under the next serial id, a fresh key, and the links inserted before any failing one are kept; when it did not, nothing changes |
| DiscountApi.ChangeDiscount | src/api/discount.rs:289-372 | After the checks, 404 with no write for a missing or deleted discount or a failed read. Otherwise 200 exactly when every statement ran, with the fields rewritten and the links replaced, or 500 with the statements before the failing one applied |
| DiscountApi.RemoveDiscount | src/api/discount.rs:375-450 | Admin only. 404 with no write for a missing or deleted discount or a failed read. Otherwise HTTP 200 with body code 204, with the discount soft-deleted and its links removed, or 500, keeping the marker when only the link removal failed |
| DiscountApi.AdminOnly | src/api/discount.rs:73-78 | Every discount endpoint answers 401 to any role but "Admin", "Distributor" included, before looking at the body |

## Left out

- Concurrency: the `FOR UPDATE` row locks and the mutex around the single
  database client. Each call is one sequential step.
- SQL text and the pagination helper `generate_pagination_query`, which is
  not part of this model. Its `search` narrowing and its row order are left
  out. Its LIMIT/OFFSET page window is left out too: a listing returns every
  matching row, and the sort order is reported as a `SortKey`.
- Prices.GetPrices, Discounts.GetDiscounts and Products.GetProducts: the
  model's scan yields rows in ascending id order, and their contracts state
  only which rows appear, each once. The `ORDER BY` the source requests is
  recorded as a `SortKey`, not enforced.
- OrderList.GetOrders: rows come back in the order of the `views` join
  given to it. The `ORDER BY` of the pagination helper is not applied.
- Discounts.LinkedPricesAre, Discounts.GetDiscountById,
  Discounts.UpdatedDiscountLinks, Products.LinkedCategories and
  Products.UpdatedProductReads: join rows come back in link-table order in
  the model. The source's link joins (src/models/discount.rs:145-150,
  src/models/product.rs:80 and 116-118) have no `ORDER BY`, so only which
  rows appear comes from the source; the order these contracts state is the
  model's choice.
- Floating point: prices, amounts and discount values are integers (fixed
  point). The float formatting of amounts into the SQL text is left out.
- Dates are day numbers; `created_at` timestamps and their ordering are left
  out.
- Token signing and verification (JWT), bcrypt and the clock are
  parameters. Their errors are `None`.
- File removal is I/O. The model names the files `update_product` tries to
  remove, but not whether removal succeeds, which the source only prints.
- JSON body extraction and path parsing by the web framework, which answer
  before a handler runs, are left out.
- Logging with `println!`.
- A serial id consumed by a single-row insert that fails is not modelled: a
  failed insert leaves the serial as it was.
- The shop, user, brand and category tables are modelled only as far as the
  joins read them; their CRUD endpoints are not part of this model.
- The routing table (src/api.rs) is not part of this model. As written it
  neither declares the `product_price` handler module nor registers
  `auth::verify_token`, so no route reaches the PriceApi handlers or
  Auth.VerifyToken; they are modelled as their source defines them.
- Products.GetProducts: a category query failing for one row is folded into
  the single `fails` parameter.
