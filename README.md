# ShopKit order engine: a verified Dafny model

ShopKit is the backend of a two-sided marketplace. Customers place orders for products
that sellers list. This project models the part of the backend that has real invariants
and proves properties of it:

- **the order transaction engine** (`createOrder`). It checks each requested item against
  the current stock, decrements the stock, copies the product's price into an order line
  and keeps a running total. Then it creates the order, asks the payment service for an
  outcome, and either marks the order PAID with a SUCCESS transaction or rolls the whole
  attempt back;
- **the fulfilment state machine** (`shipOrder`). A seller moves a PAID order that holds
  one of their products to SHIPPED;
- around them, the listings (`getMyOrders`, `getSellerOrders`, `getAllProducts`), the
  product catalogue, registration and login, the request gates, the error handler and
  the dummy payment gateway.

## Layout

| file | module | source |
|---|---|---|
| wrappers.dfy | `Wrappers` | `Option` and `Result` |
| strings.dfy | `Strings` | number formatting in messages, `split(' ')`, JavaScript truthiness of a string field |
| errors.dfy | `Errors` | `AppError` and `errorHandler` |
| payment.dfy | `PaymentService` | `paymentService.js` |
| auth_middleware.dfy | `AuthMiddleware` | `middleware/auth.js` |
| store.dfy | `Store`, `Listing` | the database tables as one `Database` object with its invariant; `orderBy created_at desc` |
| order_controller.dfy | `OrderController` | `orderController.js` |
| seller_controller.dfy | `SellerController` | `sellerController.js` |
| product_controller.dfy | `ProductController` | `productController.js` |
| auth_controller.dfy | `AuthController` | `authController.js` |

The database (Prisma over PostgreSQL in the source) is the class `Store.Database`. It
holds users, products (a map from id to row), orders (in creation order, each with its
items) and transactions, and an id counter. `Valid()` is its invariant:

- emails are unique and roles are CUSTOMER or SELLER;
- products are keyed by their own id;
- no stored order is PENDING;
- every order's total is the sum of its lines;
- order ids increase in creation order;
- every transaction is a SUCCESS record for a stored order's total.

Every state-changing controller is a method that takes the database, keeps `Valid()`, and
states its whole new state.

`createOrder` is modelled as the source structures it. The empty-list check comes first.
Then `CreateOrder` snapshots the tables it may write, which is the start of the database
transaction. `RunOrderTransaction` runs the callback body: the item loop (`ReserveItems`,
which decrements stock in place as it goes), the PENDING order, the payment and the PAID
update. If the callback fails, `CreateOrder` restores the snapshot, which is the rollback.
The loop is proved against `Checkout`, a function that takes the items in input order.
A later item that names the same product is checked against the stock the earlier items
left. The lemmas about `Checkout` give the properties:

- it succeeds exactly when the summed demand per product fits the stock;
- the stock falls by exactly that demand;
- the lines copy the prices the products had when the order started;
- the total is the sum of the lines;
- no stock goes negative;
- the first failing item determines the error.

Routes decide who may call what, and the model makes each rule a precondition:

- `CreateOrder` and `GetMyOrders` require a CUSTOMER caller (shopkit-backend/src/routes/orders.js:8-9).
- `ShipOrder` and `GetSellerOrders` require a SELLER caller (shopkit-backend/src/routes/seller.js:8-9).
- `CreateProduct`, `UpdateProduct` and `DeleteProduct` require a SELLER caller (shopkit-backend/src/routes/products.js:18-20).

Where the source's own comments and the code differ, the model follows the code:

- The header comment of `createOrder` (shopkit-backend/src/controllers/orderController.js:10-17)
  lists "verify stock for each item" before "deduct stock". The code
  decrements each product inside the loop, right after that item's check. An error
  later in the loop undoes the earlier decrements only through the rollback. The model
  does the same.
- The same comment names only the committed state: order PAID with a SUCCESS transaction.
  The code stores the order as PENDING and
  then updates it to PAID inside the same transaction. The model does the same inside
  `RunOrderTransaction`. No PENDING order survives a call.
- The comment at shopkit-backend/src/controllers/orderController.js:38 speaks of locking the
  product row (`SELECT ... FOR UPDATE`). The code reads each product with a plain `findUnique`.
- `updateProduct` does not re-check that price and stock are non-negative. An update
  can store a negative stock, and the model allows that. The order loop still never
  drives a stock below zero (`CheckoutNeverOversells`).

## Model

| member | source | states |
|---|---|---|
| `Strings.Split` | shopkit-backend/src/middleware/auth.js:18 | `split` on one character gives at least one piece, no piece contains the separator, joining the pieces gives back the input, and an input containing the separator gives at least two pieces |
| `Strings.SplitAfterWord` | shopkit-backend/src/middleware/auth.js:18 | a separator-free word, the separator and a rest split into the word followed by the pieces of the rest |
| `Errors.AppError` | shopkit-backend/src/utils/AppError.js:5-11 | an AppError carries the given message and status code and is always operational |
| `Errors.ErrorHandler` | shopkit-backend/src/middleware/errorHandler.js:8-22 | the body is always `success: false`; the status is the error's own code when it has a non-zero one, and 500 when the code is missing or zero; an operational error shows its own message and any other error shows "Internal Server Error", even when it carries a code |
| `Errors.AppErrorPassesThrough` | shopkit-backend/src/middleware/errorHandler.js:10-21 | every AppError reaches the client with its own status and message, body exactly `{success: false, message}` |
| `Errors.UnexpectedErrorIsOpaque` | shopkit-backend/src/middleware/errorHandler.js:10-21 | an error with no status code that is not operational becomes 500 "Internal Server Error" |
| `PaymentService.ProcessPayment` | shopkit-backend/src/services/paymentService.js:8-17 | the random gateway reports provider "DummyPay", echoes the amount, and succeeds exactly when the random draw does |
| `PaymentService.ProcessPaymentWithOutcome` | shopkit-backend/src/services/paymentService.js:23-29 | the deterministic gateway reports "DummyPay", echoes the amount, and `success` is exactly the forced outcome |
| `AuthMiddleware.Token` | shopkit-backend/src/middleware/auth.js:18 | the token taken from a header that starts with "Bearer " is its second space-separated field and contains no space |
| `AuthMiddleware.TokenIsFirstWordOfCredentials` | shopkit-backend/src/middleware/auth.js:18 | the second space-separated field of "Bearer " + rest is the rest up to its first space |
| `AuthMiddleware.Caught` | shopkit-backend/src/middleware/auth.js:24-28 | JsonWebTokenError and TokenExpiredError become 401 "Invalid or expired token"; every other error passes through unchanged |
| `AuthMiddleware.VerifyToken` | shopkit-backend/src/middleware/auth.js:10-29 | a missing header or one not starting with "Bearer " gives 401 "Access denied. No token provided."; otherwise the token is verified, a decoded payload becomes exactly `{id, role}` and a thrown error goes through `Caught`; success holds exactly when the header has a bearer token that verifies |
| `AuthMiddleware.IsSeller` | shopkit-backend/src/middleware/auth.js:35-40 | passes exactly when the role is SELLER, unchanged; otherwise 403 |
| `AuthMiddleware.IsCustomer` | shopkit-backend/src/middleware/auth.js:46-51 | passes exactly when the role is CUSTOMER, unchanged; otherwise 403 |
| `AuthMiddleware.NoRolePassesBothGates` | shopkit-backend/src/middleware/auth.js:35-51 | no caller passes both role gates |
| `Listing.NewestFirst` | shopkit-backend/src/controllers/orderController.js:131-140 | the result holds exactly the orders the filter keeps, and in a table kept in creation order it lists them newest first |
| `OrderController.Check` | shopkit-backend/src/controllers/orderController.js:34-53 | one item passes exactly when it has a product id and a positive quantity, names an existing product, and that product's current stock covers the quantity; otherwise 400, then 404 naming the id, then 409 naming the product, its current stock and the request, in that order of precedence |
| `OrderController.Checkout` | shopkit-backend/src/controllers/orderController.js:31-70 | the item loop in input order, each item checked against the stock the earlier items left; a success has one line per item and keeps the set of products, and a failure is a 400, 404 or 409 |
| `OrderController.CheckoutStock` | shopkit-backend/src/controllers/orderController.js:47-59 | after a successful loop every product's stock is its old stock minus the summed quantity of the items naming it (duplicate references are sequential decrements), and nothing else about any product changes |
| `OrderController.CheckoutLines` | shopkit-backend/src/controllers/orderController.js:61-69 | a successful loop builds one line per item in input order, each with the item's product and quantity and the price that product had before the order |
| `OrderController.CheckoutTotal` | shopkit-backend/src/controllers/orderController.js:61-76 | the running total equals the sum of unit_price * quantity over the lines |
| `OrderController.CheckoutSucceedsIff` | shopkit-backend/src/controllers/orderController.js:31-59 | the loop gets through exactly when every item is well formed, names an existing product, and each product's summed demand does not exceed its stock |
| `OrderController.CheckoutFailure` | shopkit-backend/src/controllers/orderController.js:31-53 | a failed loop reports the error of the first item whose check fails against the stock left by the items before it |
| `OrderController.CheckoutNeverOversells` | shopkit-backend/src/controllers/orderController.js:47-59 | a successful loop keeps the product set, and every product either ends with a stock of at least zero or is left as it was |
| `OrderController.DemandWitness` | shopkit-backend/src/controllers/orderController.js:31-59 | a product with a nonzero summed demand is named by some well-formed item |
| `OrderController.TestSuiteScenario` | shopkit-backend/tests/orders.test.js:66-120 | stock 10 at 25.00, an order of 3 leaves 7, one line at 25.00 and a total of 75.00; then an order of 20 is refused with 409 naming 7 and 20 |
| `OrderController.Charge` | shopkit-backend/src/controllers/orderController.js:85-93 | whenever an outcome override is supplied the deterministic gateway is used and the result is that outcome; otherwise the random draw decides; the provider is "DummyPay" and the amount is the order total |
| `OrderController.PlaceOrder` | shopkit-backend/src/controllers/orderController.js:23-117 | a missing or empty list is 400 "Items array is required"; otherwise an infeasible order reports the loop's error, and a feasible one succeeds with the loop's draft exactly when the payment is approved and otherwise fails with 402 |
| `OrderController.PlaceOrderFailure` | shopkit-backend/src/controllers/orderController.js:23-117 | every failure of order creation is 400 (missing or empty list, or a malformed item), 404 (an unknown product), 409 (a product whose summed demand exceeds its stock) or 402 (a feasible order whose payment was declined) |
| `OrderController.CreateOrder` | shopkit-backend/src/controllers/orderController.js:19-124 | any failure, including a declined payment after decrements, leaves every table exactly as before; a success returns a PAID order with the next id, the caller as customer, the checkout lines and total; it sets every stock to the checkout result and appends exactly that order and one SUCCESS transaction for the total with provider "DummyPay", and advances the id counter past the two new ids; the database invariant is kept |
| `OrderController.RunOrderTransaction` | shopkit-backend/src/controllers/orderController.js:27-118 | the transaction callback returns the error of the loop or 402 for a declined payment; on success it has written the decremented stock, the order updated from PENDING to PAID and the SUCCESS transaction |
| `OrderController.ReserveItems` | shopkit-backend/src/controllers/orderController.js:31-70 | the in-place item loop returns exactly what `Checkout` gives for the table it started from, and on success leaves the table as `Checkout` describes |
| `OrderController.CommittedOrderKeepsValid` | shopkit-backend/src/controllers/orderController.js:95-113 | a committed order (PAID, total equal to its lines, newest id) and its SUCCESS transaction keep the database invariant |
| `OrderController.GetMyOrders` | shopkit-backend/src/controllers/orderController.js:129-146 | exactly the caller's orders, newest first |
| `SellerController.GetSellerOrders` | shopkit-backend/src/controllers/sellerController.js:8-37 | exactly the orders with at least one line whose product's seller is the caller, newest first; a seller with no such order gets an empty list |
| `SellerController.FindOrder` | shopkit-backend/src/controllers/sellerController.js:50-63 | finds the position of the order with the given id, or reports that no order has it |
| `SellerController.Ship` | shopkit-backend/src/controllers/sellerController.js:65-90 | succeeds exactly when the caller owns a line of the order and the order is PAID, giving the same order with status SHIPPED; a non-owner gets 403 whatever the status; an owner of a non-PAID order gets 400 naming the current status |
| `SellerController.ShippedIsTerminal` | shopkit-backend/src/controllers/sellerController.js:74-80 | a shipped order cannot be shipped again, even by its seller: the answer is "Cannot ship" naming SHIPPED |
| `SellerController.ShipOrder` | shopkit-backend/src/controllers/sellerController.js:44-96 | 404 for an unknown id; otherwise the result of `Ship`; only on success does that one order change, and only its status; no other table changes; the invariant is kept |
| `ProductController.NewProduct` | shopkit-backend/src/controllers/productController.js:9-27 | creation succeeds exactly when a name, a price and a stock are given and neither number is negative; a missing field is 400 "required", any failure is 400; the row has the caller as seller, the given name, price and stock, and a description that defaults to null |
| `ProductController.CreateProduct` | shopkit-backend/src/controllers/productController.js:7-31 | inserts exactly the validated row under the next id, or changes nothing |
| `ProductController.GetProduct` | shopkit-backend/src/controllers/productController.js:54-67 | the stored row exactly when the id exists, otherwise 404 |
| `ProductController.GetAllProducts` | shopkit-backend/src/controllers/productController.js:38-47 | every stored product and nothing else, newest first |
| `ProductController.ProductsBelow` | shopkit-backend/src/controllers/productController.js:40-43 | the products with ids below a bound, each exactly as stored, in strictly descending id order |
| `ProductController.Authorize` | shopkit-backend/src/controllers/productController.js:76-87 | succeeds exactly when the product exists and the caller is its seller; an unknown id gives 404 before ownership is checked, a non-owner gets 403 |
| `ProductController.ApplyUpdate` | shopkit-backend/src/controllers/productController.js:89-99 | an update never changes a product's id or seller |
| `ProductController.UpdateChangesOnlySentFields` | shopkit-backend/src/controllers/productController.js:91-98 | each field that was sent takes the sent value and each field that was not keeps its value |
| `ProductController.UpdateIdempotent` | shopkit-backend/src/controllers/productController.js:91-98 | applying the same update twice equals applying it once, and an empty update changes nothing |
| `ProductController.UpdateProduct` | shopkit-backend/src/controllers/productController.js:74-105 | 404 or 403 leave the table unchanged; the owner's update replaces that one row by the updated row |
| `ProductController.DeleteProduct` | shopkit-backend/src/controllers/productController.js:110-130 | 404 or 403 leave the table unchanged; the owner's delete removes exactly that row, after which reading it gives 404 |
| `AuthController.Session` | shopkit-backend/src/controllers/authController.js:41-53 | the response carries the user's id, email and role, and the token's payload is exactly the id and the role |
| `AuthController.FindUser` | shopkit-backend/src/controllers/authController.js:27-30 | finds a stored user with the given email, or reports that no user has it |
| `AuthController.Register` | shopkit-backend/src/controllers/authController.js:12-57 | 400 when email, password or role is missing; 400 when the role is neither CUSTOMER nor SELLER; 409 for a registered email; otherwise appends exactly one user with the given email and role and the password's hash, and returns its id, email, role and token; emails stay unique |
| `AuthController.Login` | shopkit-backend/src/controllers/authController.js:62-99 | 400 when email or password is missing; succeeds exactly when a user has the email and the password matches its hash, and then answers with that user's session, whose token payload is the user's id and role; an unknown email and a wrong password give the same 401 "Invalid email or password" |
| `AuthController.LoginIdentifiesAccount` | shopkit-backend/src/controllers/authController.js:71-95 | in a table with unique emails a successful login answers for the one account with that email |

## Left out

- The database engine. Prisma, PostgreSQL and the `$transaction` mechanism become
  in-memory tables. Atomicity becomes snapshot-and-restore.
- Concurrency. The model is sequential, so concurrent oversell between two requests is
  not modelled, and neither are the row locks the comment at orderController.js:38 mentions. The code takes no
  lock either.
- Floating point. Prices and totals are integer cents, so the total is an exact sum.
  The code accumulates `Number(price) * quantity` in doubles.
- Randomness. `Math.random() < 0.7` becomes the boolean parameter `draw`. The 70% rate
  is not modelled.
- bcrypt and jsonwebtoken. Hashing and password comparison are function parameters.
  `jwt.verify` is a parameter that either decodes a payload or throws. A signed token is
  represented by its payload. Expiry and the secret are not modelled.
- Generated values. UUIDs and `created_at` timestamps are replaced by one counter.
  "Newest first" is descending id. Ids are natural numbers, so a present but empty
  `product_id` (falsy in JavaScript) cannot be written; a missing one is `None`.
- Joins in responses. The model does not return the extra data the listings and
  lookups include: the seller's email, the customer, product names and transactions.
  Listings return order rows with their items.
- Request typing. Fields are typed (`int`, `string`, optional). JSON coercions are not
  modelled, such as a string quantity, a fractional quantity, or a `null` name or price
  in an update.
- Order items are stored inside their order instead of in a separate table. The order
  owns its items and deletes them with itself.
- Foreign keys. The database schema is not part of this model. If, as is usual, order
  items reference their product with a restricting foreign key, the database refuses to
  delete a product that has been ordered; the model lets `DeleteProduct` remove it, and such a line then
  belongs to no seller. Cascade deletes, and the `tax_rate` and `invoice_url` fields,
  which no code computes, are also left out.
- Express routing, CORS, Swagger, the health and 404 handlers, dotenv and
  `console.error` logging. The role rules from the route files are preconditions.
- The iOS client's Codable structures.
