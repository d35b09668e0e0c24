# Festival order backend: order placement, replenishment and catalog rules

This project models the business rules of the festival delivery backend's
request handlers (`server.js`). Tents order products. Couriers deliver orders
and ask for stock. Admins and operators run the catalog. The PostgreSQL tables
become an in-memory store: a class `Store.Store` holds products, tents, orders,
order items, inventory requests and messages. Each handler is one method. It
runs as a single atomic step and leaves every table unchanged when it fails.

- **Order placement** (`POST /api/orders`). The handler resolves an active
  tent. It then checks every cart line and collects one error per refused
  line instead of stopping at the first. When no line is refused, it inserts
  the order at the computed total. It writes one item per line, with the
  product's stored price copied into the item, and decrements each product's
  stock. The validation loop (`CheckCart`) and the insertion loop
  (`WriteItems`) are methods proved against specification functions
  (`StockErrors`, `CartTotal`, `Snapshot`, `Decremented`). Lemmas state what
  those functions mean.
- **Inventory requests**. A request is created `pending`. Approving it adds
  the approved quantity to the product's stock. Rejecting it stores a note.
  Both apply only to a pending request.
- **Order status**. Any caller may set any status. A courier who sets
  `in_delivery` becomes the order's courier, which hides the order from
  every other courier's list.
- **Catalog and tents**. Stock patches and product updates clamp stock at
  zero. Products and tents can be toggled active or inactive. A tent that
  has orders cannot be deleted. A message can be soft-deleted by staff or by
  its sender.

The store's invariant (`Store.Consistent`) covers the table constraints the
handlers rely on: unique tent numbers, foreign keys and serial ids. It also
covers the property the order total is meant to have: every order's total
equals the sum of its stored items' unit price times quantity. Every handler preserves it.

Money is in integer cents. Stock and price are unbounded integers. The
`products` table has no check constraint, so neither value is forced to be
non-negative.

Three handlers write a string from the request body into a `VARCHAR` column:
the product name (`VARCHAR(100)`), the order status and the payment method
(both `VARCHAR(20)`). PostgreSQL's assignment cast stores a value longer than
the column cut to the width when everything past the width is spaces. Any
other longer value makes the statement fail with an internal error
(`ConstraintViolation`, `Columns.ColumnValue`). The cast of a bound parameter
is evaluated when the statement is planned, so the two `UPDATE`s fail on a
value that does not fit even when no row matches the id, before they could
answer 404.

In four places the code lets through what a nearby check of its own guards
against. The model follows the code:
- Order placement checks stock before it writes anything, which guards
  against overselling. But the code checks each line against the stock as it
  stood before the order and then
  decrements without a condition. A cart that names one product on two lines
  can therefore drive its stock negative (`DuplicateLinesOversell`,
  `Scenarios.OrderDuplicateLines`). Non-negative stock after an order is
  proved only for carts whose lines name distinct products
  (`NoOversellWhenDistinct`).
- The order listing hides an order claimed by one courier from every other
  courier (server.js:640-641). But a courier's `in_delivery` sets the courier
  whatever the order's current courier is, so a second courier takes over an
  order already claimed (`LastClaimWins`).
- Order placement answers a refused line with a 400. A non-positive quantity
  is not checked there: it reaches the `order_items` check constraint, the
  insert fails and the transaction rolls back as an internal error
  (`ConstraintViolation`).
- Order placement runs in a transaction. Approval does not: the code runs two separate updates
  without a transaction and does not clamp the result: a negative approved
  quantity lowers the stock. The model treats the two updates as one step.

## Model

| member | source | states |
|---|---|---|
| `OrderPlacement.LineCheck` | server.js:677-693 | a line passes exactly when its product exists, is active and has at least the requested quantity in stock; a missing or inactive product, and only that, is refused as unavailable; an active product short of stock is refused with its stock and the requested quantity |
| `OrderPlacement.StockErrors` | server.js:674-701 | at most one error per line; the list is empty exactly when every line passes, so the order proceeds only then |
| `OrderPlacement.CheckCart` | server.js:674-696 | the validation loop returns exactly the collected errors and the total of the accepted lines |
| `OrderPlacement.StockErrorsAppend` | server.js:677-693 | errors are collected line by line without short-circuit: the errors of a concatenated cart are the errors of each part, in order |
| `OrderPlacement.StockErrorsExact` | server.js:683-693 | an error is reported exactly when some line is refused with that error |
| `OrderPlacement.WriteItems` | server.js:710-723 | the insertion loop succeeds exactly when every inserted row meets the `order_items` constraints (positive quantity, non-negative price), and then writes the snapshot items and the decremented catalog |
| `OrderPlacement.Snapshot` | server.js:710-716 | every written item belongs to the new order and refers to an existing product |
| `OrderPlacement.SnapshotMatchesCart` | server.js:710-716 | for an accepted cart there is exactly one item per line, in cart order, with the line's product and quantity and the product's stored price |
| `OrderPlacement.TotalMatchesItems` | server.js:695-716 | the order total computed during validation equals the sum of unit price times quantity over the items written |
| `OrderPlacement.Decremented` | server.js:718-721 | the decrement keeps every product row and changes nothing but stock |
| `OrderPlacement.DecrementedStock` | server.js:718-721 | each product's stock drops by exactly the total quantity the cart names it with |
| `OrderPlacement.UnreferencedProductUntouched` | server.js:710-723 | a product no line names keeps its whole row |
| `OrderPlacement.NoOversellWhenDistinct` | server.js:690-721 | for an accepted cart naming each product once, every named product ends with non-negative stock and no product's stock turns negative |
| `OrderPlacement.DuplicateLinesOversell` | server.js:690-721 | two lines of 2 for a product with 3 in stock pass validation and the constraints, and leave stock -1 |
| `OrderPlacement.PubliclyListedIsOrderable` | server.js:302-303 | a product the public listing shows passes order validation for one unit |
| `OrderPlacement.ItemsOfAppend` | server.js:713-716 | the items of an order over two stretches of the item table are the items of each stretch |
| `Catalog.ProductListed` | server.js:302-303 | staff see every product; every viewer who is not staff, logged in or not, sees exactly the active products in stock; an inactive or sold-out product is shown to staff only |
| `OrderStatus.OrderListed` | server.js:640-641 | admins and operators see every order; a courier sees exactly the unassigned orders and their own |
| `Messaging.MessageListed` | server.js:780-781 | a deleted message is never listed; a live one is listed exactly to its sender, its receiver and, when broadcast, everyone |
| `Messaging.CanDeleteMessage` | server.js:829-830 | staff may delete any message; anyone else exactly the messages they sent |
| `Inventory.CanRequest` | server.js:852 | every known role (courier, admin, operator) may file a request, and no other |
| `Columns.ColumnValue` | server.js:95-97 | for `orders.status` and `orders.payment_method` here, and `products.name` (server.js:62) alike: a value fits the column exactly when every character past the width is a space; a value within the width is stored as is, a longer one cut to exactly the width and a prefix of what was sent |
| `Catalog.Clamp` | server.js:346 | the clamped stock is the least non-negative value not below the given one |
| `Catalog.PatchedStock` | server.js:371-382 | only `set`, `add` and `subtract` are accepted; the result is never negative; `set` clamps the new value, `add` and `subtract` clamp the old stock plus or minus the amount |
| `Catalog.AddThenSubtractRestores` | server.js:374-379 | subtracting what was added restores a non-negative stock |
| `OrderStatus.StatusUpdated` | server.js:745-751 | only status changes, except that a courier setting `in_delivery` becomes the courier; after a claim the order is listed to that courier and hidden from every other courier, and after any other update every caller's list is as before |
| `OrderStatus.LastClaimWins` | server.js:748-751 | of two couriers claiming one order in turn, the later one holds it |
| `Inventory.ApprovedQuantity` | server.js:910 | the approver's quantity unless absent or zero, otherwise the requested quantity; positive for a positive request and a non-negative given value |
| `Inventory.RejectionNote` | server.js:951 | the given reason unless absent or empty, otherwise the default note; never empty |
| `Inventory.DecidedIsTerminal` | server.js:900-906 | a lifecycle step from an approved or rejected request changes nothing; `CreateRequest`, `ApproveRequest` and `RejectRequest` ensure every stored request takes only lifecycle steps, so a decided request is never changed again |
| `Store.CommitKeepsConsistent` | server.js:703-723 | inserting the order, its items and the decremented catalog keeps unique tent numbers, the foreign keys, the serial ids and every order's total |
| `Store.CommitKeepsTotals` | server.js:703-716 | a new order whose items sum to its total keeps every order's total equal to the sum of its items |
| `Store.Store.constructor` | server.js:58-178 | a store over a seeded catalog, tents and messages starts with no orders, items or requests and satisfies the table constraints |
| `Store.Store.UpdateProduct` | server.js:335-358 | staff only; a name that does not fit `VARCHAR(100)` fails before the row is looked up; 404 for a missing product; otherwise the row takes the given fields, with the name as the column stores it and the stock clamped at zero, and keeps its active flag |
| `Store.Store.PatchStock` | server.js:360-395 | staff only; an unknown operation is refused before the product is looked up; on success only that product's stock changes, to the patched, non-negative value |
| `Store.Store.ToggleProduct` | server.js:397-425 | staff only; 404 for a missing product; otherwise only the active flag flips |
| `Store.Store.ToggleTent` | server.js:556-584 | staff only; 404 for a missing tent; otherwise only the active flag flips |
| `Store.Store.DeleteTent` | server.js:586-614 | admins only; refused while any order refers to the tent; 404 for a missing tent; otherwise only that tent is removed, and every order still refers to an existing tent |
| `Store.Store.PlaceOrder` | server.js:657-738 | not-found exactly when no active tent has the number; all per-line errors when some line is refused; a constraint failure when the payment method does not fit `VARCHAR(20)` or an item row is invalid; every failure leaves all tables unchanged; on success one new order at the computed total on that tent, with the payment method as the column stores it, the snapshot items appended and the catalog decremented, nothing else changed |
| `Store.Store.UpdateOrderStatus` | server.js:740-764 | a status that does not fit `VARCHAR(20)` fails before the order is looked up; 404 for a missing order; otherwise only that order changes, as `StatusUpdated` says with the stored status, and the courier claim is decided on the status as sent |
| `OrderStatus.StoredStatusClaims` | server.js:748 | cutting a status to the column width never turns it into `in_delivery` or out of it, so the claim test agrees on the sent and the stored status |
| `Store.Store.CreateRequest` | server.js:850-868 | couriers, admins and operators only; a non-positive quantity or a missing product breaks a table constraint; otherwise one new pending request for the caller, nothing else changed; every existing request is kept as it was |
| `Store.Store.ApproveRequest` | server.js:891-938 | staff only; 404 unless the request exists and is pending; otherwise it becomes approved with the approved quantity and that product's stock grows by exactly that amount; no other request changes |
| `Store.Store.RejectRequest` | server.js:940-966 | staff only; 404 unless the request exists and is pending; otherwise it becomes rejected with the note, stock is untouched and no other request changes |
| `Store.Store.DeleteMessage` | server.js:814-847 | 404 for a missing message; refused unless the caller is staff or the sender; otherwise the message is marked deleted by the caller and no viewer's list shows it (server.js:780-781) |
| `Store.ApproveTwice` | server.js:900-920 | a second approval of the same request is refused, and the stock has grown exactly once |
| `Scenarios.OrderWithinStock` | server.js:657-738 | tent A-01, 3 units at 500.00 with 10 in stock: the order is accepted with total 1500.00 and 7 are left |
| `Scenarios.OrderBeyondStock` | server.js:674-701 | 5 units with 2 in stock: one insufficient-stock error, no order, stock still 2 |
| `Scenarios.OrderDuplicateLines` | server.js:690-721 | two lines of 2 with 3 in stock: the order is accepted and stock ends at -1 |
| `Scenarios.ApproveReplenishment` | server.js:891-938 | a request for 50 approved at 40 adds 40 to stock; approving it again is refused |

## Left out

- Authentication: bearer-token parsing, JWT verification and signing, bcrypt and login (server.js:30-41, 247-283). The caller is a given `(id, role)` value, and roles other than admin, operator and courier are one `Unknown` role. The 401 and 403 answers of the token middleware are not modelled.
- Schema creation, column migration and seed data (server.js:44-244). The store's constructor takes the initial catalog, tents and messages.
- Handlers outside this model: creating and deleting products, listing, creating and updating tents (including QR code generation), posting messages and listing inventory requests. The order listing's join and `json_agg` row shaping and the `ORDER BY` clauses are also left out. Only the visibility conditions of the product, order and message listings are modelled, as predicates.
- The payment pages and the `payment_status := 'paid'` callback (server.js:969-1008). The `payment_url` in the order response is also left out.
- Concurrency and transaction isolation. Each handler is one sequential step. The race between two orders on the same product and between two courier claims is not modelled. `LastClaimWins` covers only claims made one after the other.
- Store.Store.ApproveRequest: the two updates of the source are not in a transaction. The model applies them as one step and does not model a failure between them.
- Store.Store.PlaceOrder: PostgreSQL does not roll back serial sequences, so an order that fails after its insert still uses up an id. The model restores `nextOrderId` on rollback.
- Timestamps (`created_at`, `updated_at`, `deleted_at`). A clock is outside the model.
- Money and integer widths: prices are integer cents rather than `DECIMAL(10,2)`. Overflow of `DECIMAL(10,2)` and of 32-bit `INTEGER` columns is not modelled.
- Dynamically typed request bodies: missing fields, strings where numbers are expected and `NaN` from `Math.max(0, undefined)`. Inputs are typed values. Absent optional fields (`approved_quantity`, `reason`) are `None`.
- Error message text. Only the error kinds are kept. An insufficient-stock error carries the product id, the stock and the requested quantity instead of the product's name.
