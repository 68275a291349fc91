# Cart and checkout service of a minimal storefront

The storefront server keeps a read-only product catalog and one cart that every
client shares. Its handlers add a product to the cart, list the cart with line
totals and a grand total, change a row's quantity, delete a row, and check out.
Checking out validates the customer, takes a snapshot of the cart, builds a
receipt and empties the cart. This project models those handlers in Dafny. The
HTTP and SQLite layers are removed, so each handler becomes a pure function from
a store (catalog and cart) and its request fields to a new store and a reply.

Modules, leaves first:

- `Wrappers`: optional request fields, and `Present`, the JavaScript `!field`
  test on a string field (absent or `""` fails it).
- `Products`: the `products` table as a map from product id to product. Prices
  are integer cents. `Seeded` holds the eight products the server inserts into
  an empty table.
- `CartStore`: the `cart_items` table as a sequence of rows in scan order. It
  gives the meaning of each SQL statement the handlers run: the first-row
  lookup by product, the UPDATEs keyed by product and by id, and the DELETE by
  id. It also holds the per-product counts and quantities used to state the
  one-row-per-product invariant.
- `CartView`: GET /api/cart. This is the inner join of rows with products, the
  line total `quantity × price`, and the sum of line totals. `CartValue` is an
  independent reference total, summed directly over the rows.
- `ShopState`: the store, the error replies with their HTTP status, the
  `Step` outcome (the store afterwards plus a reply), and the invariant
  `Valid`. `Valid` says that row ids are unique, that no product has two rows,
  and that every row names a catalog product.
- `CartService`: POST /api/cart (`Add`), PUT /api/cart/:id (`UpdateQuantity`)
  and DELETE /api/cart/:id (`Remove`), with lemmas about each.
- `OrderIds`: `ORD-` followed by the decimal millisecond clock. Distinct
  clock values give distinct ids.
- `CheckoutService`: POST /api/checkout.
- `Session`: runs any sequence of requests from a store and proves the
  invariant for every run. It also holds the two end-to-end scenarios.

Modelling choices:

- Rows are kept in insertion order. The queries have no ORDER BY. The model
  assumes that rows come back in `cart_items` rowid order, so an UPDATE keeps a
  row in place, an INSERT appends one, and a DELETE closes the gap. This is
  what SQLite does for the single-table lookup by product. For the two joins,
  the row order is the query planner's choice, so insertion order is a
  modelling assumption there.
- Each handler's SQL is modelled as written. Add's increment runs `UPDATE …
  WHERE productId = ?`, which changes every row of that product. Update and
  Remove change every row with the given id. The lemmas then show that in a
  valid store exactly one row is touched.
- The product in Add and the customer name and email in Checkout are checked
  with JavaScript truthiness. A missing field and an empty string both fail.
- `quantity` in Add defaults to 1 only when the field is absent. No other check
  is made on it, so a row can hold zero or a negative quantity.
- The cart query is an inner join. A row whose product is missing from the
  catalog would produce no line. Checkout's "cart is empty" test is made on the
  join result. In a valid store no row is dropped.

Two facts about the handlers shape what the model claims:

- Add never checks `quantity`. A row may therefore hold zero or a negative
  quantity, and no positivity invariant is claimed.
- The handlers answer 400 for a missing product id, a non-positive quantity,
  bad customer info and an empty cart. They answer 404 for an unknown product
  or cart item. Each `ShopState.Error` value carries its status in a comment.

## Model

| member | source | states |
|---|---|---|
| Wrappers.Present | server.js:155 | Definition: a string field passes the `!field` test exactly when it is present and not the empty string. |
| CartStore.SetQuantityWhereProduct | server.js:177-179 | Definition: the product-keyed UPDATE gives every row of the product the new quantity and leaves the other rows as they were, in place. |
| CartStore.SetQuantityWhereId | server.js:282-284 | Definition: the id-keyed UPDATE gives every row with the id the new quantity and leaves the other rows as they were, in place. |
| CartView.Total | server.js:142 | Definition: the sum of the line totals, starting from 0. |
| CartService.QuantityOrDefault | server.js:153 | Definition: an absent quantity is 1; a given one is used unchecked. |
| CheckoutService.ValidCustomer | server.js:224 | Definition: customer info is present, and its name and email both pass the `!field` test. |
| CartStore.FindByProduct | server.js:169 | The lookup finds nothing exactly when no row has the product. Otherwise it returns the first row that has it. |
| CartStore.DeleteWhereId | server.js:209 | The DELETE keeps exactly the rows whose id differs, never grows the cart, and leaves the cart unchanged when no row has the id. |
| CartStore.UniqueProductsCount | server.js:169-199 | A cart with one row per product has at most one row for any product. |
| CartStore.SetQuantityWhereProductUnique | server.js:177-179 | When products are unique, the product-keyed UPDATE changes only the product's own row. |
| CartStore.SetQuantityWhereIdUnique | server.js:282-284 | When ids are unique, the id-keyed UPDATE changes only the row with that id. |
| CartStore.DeleteWhereIdUnique | server.js:209 | When ids are unique, the DELETE removes exactly the row with that id and keeps the others in order. |
| CartView.Lines | server.js:124-135 | Every joined line carries its product's name, price and image, and a line total of quantity × price. When every row names a catalog product, there is one line per row with the row's id, product and quantity. The join is empty exactly when no row names a catalog product. |
| CartView.TotalIsCartValue | server.js:142 | The sum of the line totals equals the sum over rows of quantity × price. |
| CartView.ViewOf | server.js:123-149 | The reported total is the cart's value. Each line is joined from the catalog. A cart whose rows all name catalog products shows one line per row. An empty cart shows no items and a total of 0. |
| CartService.Add | server.js:152-203 | A missing or empty product id fails with ProductIdRequired. A product not in the catalog fails with ProductNotFound. In both cases the store is unchanged. On success, a new row is created exactly when the product had no row: it has the fresh id, the product and the quantity (default 1), and it is appended. Otherwise the reply names the first existing row, and the product's rows get that row's quantity plus the added one. |
| CartService.AddToExistingRow | server.js:169-186 | When products are unique, adding a product already in the cart answers 200 with the existing row's id. Only that row changes, to old quantity plus the added quantity. No row is created. |
| CartService.AddNewRow | server.js:187-199 | Adding a product with no row answers 201 with the fresh id. It appends exactly one row with that id, the product, and the quantity (default 1). |
| CartService.AddTalliesOwn | server.js:169-199 | After a successful add the product has exactly one row, and its quantity grew by the added amount. |
| CartService.AddTalliesOther | server.js:169-199 | A successful add leaves every other product's row count and quantity unchanged. |
| CartService.AddTwice | server.js:176 | Two adds of the same product leave one row under the same id. Its quantity is the earlier quantity plus both added amounts. |
| CartService.AddValue | server.js:174-199 | A successful add raises the cart value by the added quantity × the product's price. |
| CartService.AddPreservesValid | server.js:169-199 | Add keeps ids unique, one row per product, and every row in the catalog. |
| CartService.UpdateQuantity | server.js:274-295 | A quantity ≤ 0 fails with QuantityNotPositive. An id with no row fails with CartItemNotFound. In both cases the store is unchanged. Otherwise the rows with that id get the new quantity and every other row is unchanged. |
| CartService.UpdateOneRow | server.js:282-292 | When ids are unique, a positive update of a row's id succeeds and sets exactly that row's quantity. |
| CartService.UpdateValue | server.js:282-292 | A successful update changes the cart value by (new − old quantity) × the row's price. |
| CartService.UpdatePreservesValid | server.js:274-295 | Update keeps the cart invariant. |
| CartService.Remove | server.js:206-218 | An id with no row fails with CartItemNotFound and the store is unchanged. Otherwise the id is gone, the cart is shorter, and exactly the rows with other ids remain. |
| CartService.RemoveOneRow | server.js:209-216 | When ids are unique, removing a row's id succeeds and deletes exactly that row, keeping the order of the rest. |
| CartService.RemoveTwice | server.js:213-214 | A second remove of the same id fails with CartItemNotFound and changes nothing. |
| CartService.RemoveValue | server.js:209-216 | A successful remove lowers the cart value by the removed row's quantity × price. |
| CartService.RemovePreservesValid | server.js:206-218 | Remove keeps the cart invariant. |
| OrderIds.Decimal | server.js:249 | The clock is written as a non-empty string of digits, with no leading zero unless the value is 0. |
| OrderIds.ParseDecimalOfDecimal | server.js:249 | Reading the decimal numeral back gives the clock value. |
| OrderIds.OrderId | server.js:249 | An order id is `ORD-` followed by digits. |
| OrderIds.OrderIdInjective | server.js:249 | Two order ids are equal exactly when their clock values are equal. |
| CheckoutService.Checkout | server.js:221-271 | Missing customer info, or an empty name or email, fails with CustomerInfoRequired before the cart is read. A join with no lines fails with CartEmpty. In both cases the store is unchanged. Checkout succeeds exactly when the customer is valid and some row joins. On success the cart is empty, and the receipt has status "confirmed", the order id for the clock, the given timestamp and customer, and a total equal to the cart's value. Each receipt line is joined from the catalog, with line total quantity × price. For a cart whose rows all name catalog products, the receipt has the rows' ids, products and quantities, in order. |
| CheckoutService.CheckoutEmptyCart | server.js:224-246 | On an empty cart checkout fails and the cart stays empty. The error is CustomerInfoRequired for bad customer info, CartEmpty otherwise. |
| CheckoutService.CheckoutOfValidStore | server.js:228-269 | In a valid store checkout succeeds exactly when the customer is valid and the cart is non-empty. The receipt total equals the total the cart view reported just before. Afterwards the view is empty and the invariant still holds. |
| CheckoutService.DistinctOrderIds | server.js:249 | Checkouts at different clock readings give receipts with different order ids. |
| Session.ApplyPreservesValid | server.js:152-295 | Every handler keeps the cart invariant and leaves the catalog untouched. |
| Session.RunPreservesValid | server.js:152-295 | Any sequence of requests from a valid store ends in a valid store with the same catalog. |
| Session.OneRowPerProduct | server.js:169-199 | From an empty cart, any sequence of requests leaves at most one row per product, and the cart view shows every row. |
| Session.AddTwiceThenCheckout | server.js:152-271 | Adding product 1 with quantity 2 and then 1 gives one row of quantity 3. Checkout then returns a receipt totalling 3 × its price, and the cart view is empty afterwards. |
| Session.AddUpdateRemove | server.js:152-295 | Adding product 2, setting its quantity to 5 and removing it gives a view total of 5 × its price after the update and an empty view after the remove. |

## Left out

- App.js, the React client, is not part of this model. It is presentation only.
- GET /api/products (server.js:112-120) only returns the catalog, so it is not modelled as a handler.
- The table creation and seeding (server.js:14-108) are run-once SQLite I/O. `Products.Seeded` gives the seeded data as a constant.
- Express routing, CORS, JSON parsing and response plumbing are left out. Replies are values, and errors are the `ShopState.Error` enum.
- Every `500` store-error branch is left out. The model assumes SQLite statements succeed, and that clearing the cart at checkout succeeds, so the logged clear failure is not modelled.
- uuid generation is a parameter, `freshId`. Add requires it not to be a row id already; a collision would be a primary-key error, which is one of the omitted 500 branches.
- `Date.now()` and the ISO-8601 timestamp are parameters (`now`, `timestamp`). Two checkouts in the same millisecond would share an order id; a sequential model has no clock to rule that out.
- Prices are integer cents, not SQLite REAL values. So `toFixed(2)`/`parseFloat` rounding is the identity and is not modelled.
- Request values of other JSON types are not modelled: a numeric or null product id, a string or null quantity, a missing update quantity. Quantities are absent-or-integer and ids are strings.
- Integers are unbounded. The 64-bit SQLite INTEGER and JavaScript double ranges are not modelled.
- The `addedAt` column is never read, so it is not modelled.
- Concurrency is left out. This includes the read-then-write race between two adds of one product and checkout's clear racing with other writes. The model is sequential.
- CartView.Lines: when some row names a product missing from the catalog, the contract does not say which rows produce lines. It only says that there are no more lines than rows, that each line is correctly joined, and when the join is empty.
- CheckoutService.Checkout: the one-to-one link between receipt lines and cart rows is stated only for carts whose rows all name catalog products, for the same reason.
