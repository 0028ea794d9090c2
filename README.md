# simple-online-store: session gate and handler rules in Dafny

This project models two pieces of a small Node/Express e-commerce backend
and proves properties of them.

1. **Session revocation and request gate** (`middleware/auth.js`). An
   in-process map from token to expiry in milliseconds (`tokenBlacklist`)
   is the class `Auth.TokenBlacklist`, with one field `entries`. It has
   three methods:
   - `Cleanup`: lazy eviction of expired entries, as a loop with invariants.
   - `VerifyToken`: cleanup, then four checks in order. The header must be
     present. Split on single spaces, it must be exactly `Bearer <token>`.
     The token must not be blacklisted. Its signature must verify.
   - `Logout`: store the header's second part with the token's expiry.

   Each method is proved against a pure function that specifies it:
   `Unexpired`, `Gate` and `AfterLogout`. The role check `requireRole`
   changes no state, so it is the pure function `Auth.RequireRole`.
2. **Handler rules of `server.js`**. They run over an in-memory store, the
   class `Server.Store`. It keeps the rows of `users`, `products`, `orders`
   and `order_items` as sequences, with one auto-increment counter per
   table. The store models signup, admin product create and delete, and
   order placement. Login and the customer dashboard only read, so they are
   pure functions. The module `Routes` chains each protected route's
   middlewares to its handler.

Foreign calls are parameters. `jwt.verify` is a function from the token to
an optional decoded payload. `jwt.decode` is a function from the blacklist
key to a payload, `null`, or "threw". `bcrypt.hash` is its result string.
`bcrypt.compare` is a boolean function. `Date.now()` is `now`. A
middleware's outcome `Next(u)` means it set `req.user` to `u` and called
`next()` exactly once. `Reject(status, reason)` means it answered with that
status, did not call `next()` and left `req.user` alone.

Prices and quantities are integers (cents). JavaScript truthiness of request
fields is written out:
- `undefined`, `null` and `""` are falsy strings (`JsString.Truthy`);
- `price == null` tests only for absence;
- `stock || 0` turns both absence and `0` into `0`.

Order placement is modelled as the code is written. `server.js:199-218`
has no stock check, no stock decrement, and no transaction around the order
and item inserts. The order row is inserted first, and the line items by a second,
separate statement. `Server.Store.PlaceOrder` takes one flag per statement
saying whether it succeeded. When the second statement fails, the order row
stays without items and the answer is 500. Stock is never read or written.

Two more things the code does not do:
- Login has no role check.
- Signup does not restrict `role`: it stores whatever truthy `role` the
  request body carries, `admin` included. Only a falsy role becomes
  `customer`.

## Model

| member | source | states |
|---|---|---|
| `JsString.OrNull` | server.js:73 | `v \|\| null`: a truthy value is kept, a falsy one becomes NULL, and a stored value is never `""` |
| `JsString.OrElse` | server.js:73 | `v \|\| d`: the field's value when `v \|\| null` keeps it, else the default; with a non-empty default, such as `'customer'`, the result is never falsy, and it is `""` only when both are |
| `JsString.Split` | middleware/auth.js:23 | `split(sep)` always yields at least one part; `JoinSplit` and `SplitPartsFree` are its partners |
| `JsString.JoinSplit` | middleware/auth.js:23 | joining the parts of `split(' ')` with the separator gives back the header |
| `JsString.SplitPartsFree` | middleware/auth.js:23 | no part of `split(sep)` contains `sep` |
| `JsString.SplitFree` | middleware/auth.js:23 | a string without the separator splits into the single part itself |
| `JsString.SplitAfter` | middleware/auth.js:23 | a separator-free prefix followed by the separator splits off as the first part |
| `JsString.SplitTwoIff` | middleware/auth.js:23-24 | `split(sep)` is exactly `[a, t]` iff the string is `a`, `sep`, `t` and neither part holds `sep` (both directions) |
| `Auth.ParseBearer` | middleware/auth.js:23-26 | an accepted header is exactly `"Bearer "` followed by the returned token, and that token holds no space |
| `Auth.ParseBearerCorrect` | middleware/auth.js:23-26 | two parts with the first exactly `Bearer` is accepted iff the header is `"Bearer "` and a space-free token; the token is then everything after the prefix |
| `Auth.DoubleSpaceRefused` | middleware/auth.js:23-24 | `"Bearer  t"` (two spaces) is refused as malformed |
| `Auth.Unexpired` | middleware/auth.js:11-16 | exactly the entries whose expiry lies after `now` are kept, each with its old expiry; cleaning twice is the same as cleaning once |
| `Auth.Gate` | middleware/auth.js:20-33 | the checks in order on the cleaned map: missing header 401, malformed 401, blacklisted token 401 (whatever the signature), bad signature 401; the request passes iff the header is a bearer header of an unrevoked, validly signed token, and `req.user` is then the decoded payload |
| `Auth.RequireRole` | middleware/auth.js:36-42 | no user 401, role not exactly equal 403, otherwise pass with `req.user` untouched; a pure function, so the blacklist cannot change |
| `Auth.Guarded` | middleware/auth.js:18-42 | the chain `verifyToken, requireRole(role)` of server.js:174 and 189: a refusal of `verifyToken` is passed on unchanged; it passes iff `verifyToken` passes with a user of exactly that role, with the same user; a verified user of another role gets 403 |
| `Auth.GuardedPassesIff` | middleware/auth.js:18-42 | behind `verifyToken` and `requireRole(r)` a handler runs iff the token is unrevoked, validly signed and carries role `r`; a valid token of another role gets 403 |
| `Auth.LogoutKey` | middleware/auth.js:48 | `split(' ')[1]` is `undefined` exactly when the header holds no space; otherwise it is the space-free text between the first space and the next space or the end |
| `Auth.ExpiryMs` | middleware/auth.js:51 | a truthy `exp` gives `exp*1000`; no payload, no `exp` or a zero `exp` gives `now + 3600000`; so the stored expiry is already past exactly when a truthy `exp` has `exp*1000 <= now` |
| `Auth.AfterLogout` | middleware/auth.js:45-53 | logout never removes a key, adds at most the header's key, and on a successful decode that key is present |
| `Auth.LogoutKeyOfBearer` | middleware/auth.js:48 | on a header the gate accepts, logout's key `split(' ')[1]` is the token the gate checked |
| `Auth.LogoutTouchesOneKey` | middleware/auth.js:52 | logout leaves every other key's presence and expiry unchanged |
| `Auth.LogoutIdempotent` | middleware/auth.js:51-52 | logging out the same header twice leaves the map as after once, when the stored expiry is the same both times |
| `Auth.ExpClaimFixesExpiry` | middleware/auth.js:51 | with a truthy `exp` claim the stored expiry is `exp*1000`, whatever the clock |
| `Auth.RevokedTokenRefused` | middleware/auth.js:26-27 | a token logged out with an expiry after the later check's clock is refused as revoked, for every signature outcome |
| `Auth.ExpiredRevocationForgotten` | middleware/auth.js:11-27 | cleanup runs before the blacklist check: a revoked token whose stored expiry has passed is judged by its signature alone |
| `Auth.TokenBlacklist.constructor` | middleware/auth.js:8 | the map starts empty |
| `Auth.TokenBlacklist.Cleanup` | middleware/auth.js:11-16 | exactly the entries with expiry > now remain, each with its expiry unchanged |
| `Auth.TokenBlacklist.VerifyToken` | middleware/auth.js:18-34 | the map after the call is the cleaned map, and the outcome is `Gate` on the cleaned map |
| `Auth.TokenBlacklist.Logout` | middleware/auth.js:45-57 | missing header: 400, map unchanged; decode throws: 400, map unchanged; otherwise the key `split(' ')[1]` (or `undefined`) is set to `exp*1000` for a truthy `exp`, else `now+3600000`, and the answer is success |
| `Orders.Total` | server.js:205 | the `reduce` total; it is non-negative when every price and quantity is |
| `Orders.TotalAppend` | server.js:205 | the total of a concatenated cart is the sum of the two totals |
| `Orders.ItemRows` | server.js:211 | one row per cart item, in cart order: `(orderId, item.id, item.qty, item.price)` |
| `Orders.RowsTotalIsOrderTotal` | server.js:205-213 | the line-item subtotals quantity×price add up to the order's stored total |
| `Orders.OwnOrders` | server.js:154-157 | `WHERE user_id = ?`: each order of that user occurs as often as in the table, others not at all |
| `Orders.InsertByDate` | server.js:158 | inserting into a newest-first list keeps it newest first and adds exactly the one row |
| `Orders.SortNewestFirst` | server.js:158 | `ORDER BY order_date DESC`: newest first, and a permutation of the input |
| `Orders.RecentOrders` | server.js:154-160 | the dashboard query returns at most 50 rows, newest first |
| `Orders.RecentOrdersAreOwn` | server.js:154-162 | the dashboard lists only the caller's orders, no row more often than the table holds it |
| `Orders.RecentOrdersSortedAndLimited` | server.js:154-162 | the list is newest first and holds min(50, number of the caller's orders) rows |
| `Orders.RecentOrdersAreNewest` | server.js:158-159 | an order of the caller left off by `LIMIT 50` is no newer than any order shown |
| `Orders.Summaries` | server.js:155 | one summary per row, projecting `id, total_price, order_date, status` |
| `Server.WithEmail` | server.js:67 | `SELECT * FROM users WHERE email = ?`: exactly the rows with that email |
| `Server.WithEmailUnique` | server.js:100-104 | with unique emails the lookup returns exactly the one stored user |
| `Server.Login` | server.js:95-120 | missing email or password 400; no user with that email 401; success only for a stored user with that email whose hash bcrypt accepts, with token claims exactly that user's id, email and role |
| `Server.LoginOfUser` | server.js:100-112 | for a stored user with unique emails, login succeeds iff bcrypt accepts the password |
| `Server.LoginAfterSignup` | server.js:71-112 | after a signup, logging in with that email and a password bcrypt accepts for the stored hash signs the new id, email and defaulted role |
| `Server.NewUser` | server.js:72-73 | the row has the given id, name and email, the bcrypt result as password, `v \|\| null` for address and phone, and `role \|\| 'customer'`: a truthy requested role is stored as sent, a falsy one becomes `customer`, so the stored role is never falsy |
| `Server.OrZero` | server.js:180 | `stock \|\| 0` is 0 exactly when stock is absent or 0, and otherwise the given stock |
| `Server.NewProduct` | server.js:175-180 | rejected iff name is falsy or price is absent; the stored price is the given one, stock defaults to 0, and description, image and category are the given values, or NULL exactly when falsy |
| `Server.ZeroPriceAccepted` | server.js:176-180 | a price of 0 is accepted, with stock 0 and NULL optionals |
| `Server.WithoutProduct` | server.js:191 | `DELETE ... WHERE id = ?`: exactly the rows with another id remain; with no matching row nothing changes, with one the table shrinks |
| `Server.WithoutProductValid` | server.js:191 | deleting keeps the remaining product ids distinct |
| `Server.ItemsOfOrder` | server.js:213 | the `order_items` rows of one order: exactly those with that `order_id` |
| `Server.ItemsOfOrderAppend` | server.js:213 | the rows of one order in a concatenated table are those of each part, in order |
| `Server.Numbered` | server.js:213 | a multi-row insert numbers its rows with consecutive auto-increment ids in the order given |
| `Server.ItemsOfNewOrder` | server.js:210-213 | when no earlier row names the new order, that order's line items are exactly the rows just inserted |
| `Server.Dashboard` | server.js:128-170 | admin role gets the admin branch; any other role gets summaries of its recent orders |
| `Server.Store.constructor` | server.js:7 | the database `db` before any request: the four tables empty and every counter at 1, with the store invariant holding |
| `Server.Store.Signup` | server.js:60-92 | falsy name, email or password: 400 and nothing inserted; taken email: 409 and nothing inserted; otherwise exactly one new row with the next id, the bcrypt hash as password, NULL for falsy address and phone, role or `customer`; token claims and response carry that id, email and role; unique emails are kept |
| `Server.Store.CreateProduct` | server.js:174-186 | 400 and no insert when name is falsy or price absent; otherwise exactly the `NewProduct` row is appended and its id returned |
| `Server.Store.DeleteProduct` | server.js:189-196 | 404 and no change when no product has the id; otherwise those rows are removed; `order_items`, with their recorded prices, are untouched |
| `Server.Store.InsertOrder` | server.js:207 | appends `(next id, user_id, total)` with the default status and the insertion time, and returns the id |
| `Server.Store.InsertOrderItems` | server.js:213 | appends the rows with consecutive ids |
| `Server.Store.RecordItems` | server.js:210-214 | the new order's line items are exactly the rows for the cart, the item counter advances by the cart's length, and the subtotals add up to the cart total |
| `Server.Store.PlaceOrder` | server.js:199-218 | missing or empty cart: 400, nothing inserted; otherwise the order row `(user_id = req.user.id, total = Σ price×qty)` is inserted first; if the items statement then fails the order stays without items (500); on success one line item per cart item in cart order for that order id, with the item counter advanced by the cart's length; users and products, stock included, never change |
| `Routes.LogoutRoute` | server.js:123-125 | logout runs only after `verifyToken` passes, on the token the gate checked; a refused request changes nothing beyond cleanup |
| `Routes.LogoutAfterGate` | middleware/auth.js:48 | a header the gate accepted is truthy and logout's key is the checked token |
| `Routes.DashboardRoute` | server.js:128-130 | the dashboard is computed for `req.user` only after `verifyToken` passes |
| `Routes.CreateProductRoute` | server.js:174-186 | a product is inserted only for an unrevoked, validly signed admin token, otherwise the store is unchanged; past the gate, the 400 or the appended `NewProduct` row with the counter advanced; users, orders, line items and their counters never change |
| `Routes.DeleteProductRoute` | server.js:189-196 | a product is deleted only for an unrevoked, validly signed admin token, otherwise the store is unchanged; past the gate, deleted iff a row has the id, else 404 with nothing removed; every other table and every counter stays the same |
| `Routes.PlaceOrderRoute` | server.js:199-218 | order placement runs only after `verifyToken` passes, for the payload's id, otherwise the store is unchanged; past the gate, an empty cart gets 400 and a failed order insert 500 with nothing stored; else the order row is appended, and either the line items are numbered in cart order or the answer is 500 with none; users, products and their counters never change |

## Left out

- Express wiring, CORS, static files, `app.listen`, and the `/api/test` and `/` routes are left out. They are framework plumbing.
- The public product listing and lookup are left out. They pass a query through unchanged.
- The admin branch of the dashboard is left out: its multi-statement statistics query and the shape of its result. `AdminDashboard` carries no data.
- db/connection.js is not part of this model. It sets up the connection and runs `database.sql`, which is I/O.
- `database.sql` is not part of this model. The following are taken as the schema's defaults: the new-order status `pending`, an `order_date` equal to the insertion time (`now`), MySQL's auto-increment starting at 1, no gap in an auto-increment counter after a failed insert (InnoDB may consume ids in one, so `PlaceOrder`'s failure branches keep `nextOrderId` and `nextOrderItemId` as they were), and no `ON DELETE CASCADE` from `order_items` to `products`, so deleting a product leaves its line items in place. Rows with the same `order_date` come back from `ORDER BY order_date DESC` in no fixed order; `Orders.InsertByDate` picks one, and the dashboard lemmas state only what SQL guarantees. The `:id` route parameter is a string that MySQL converts to a number; `DeleteProduct` takes the converted integer.
- check-db.js, test-order.js and test-methods.js are not part of this model. They are diagnostic scripts.
- The `price`/`unit_price` column-name mismatch between server.js:213 and test-order.js:83 is not modelled. If the column does not exist, the failure is the `itemsInsertOk = false` path of `PlaceOrder`.
- bcrypt and JWT signing, verification and decoding are parameters, because they are foreign cryptographic calls. Token expiry is checked inside the `verify` parameter. The `iat`/`exp` claims that `jwt.sign` adds are not modelled.
- Server.Store.Signup: does not prove the stored password differs from the plaintext. It proves the stored password is exactly the bcrypt result, and inequality is bcrypt's property, not this code's.
- Database errors are modelled only for the two inserts of order placement. The 500 answers of the other queries are not modelled: signup's select and insert, login's select, product insert and delete, and the dashboard query.
- Email matching is exact string equality. MySQL's default collation compares case-insensitively and ignores trailing spaces; that is database semantics outside the model.
- Request fields are modelled as optional strings and integers. JSON values of other types are not modelled, nor cart items with missing fields, which give `NaN` totals in JavaScript.
- Decoded token payloads are limited to `id`, `email`, `role` and an optional integer `exp`. A payload object that lacks `id`, `email` or `role` is represented with arbitrary values for them. Every token this server signs carries all three (server.js:76-80, 108-112), and `requireRole`, the dashboard and order placement read them from `jwt.verify`'s result. The model cannot express a verified token without `role`, which `requireRole` refuses with 403. Only a result of `jwt.decode` that is not an object is `null`.
- JavaScript numbers are unbounded integers here. There is no floating point; prices are in cents.
- The callback and `async` ordering and concurrent requests are left out. Each request is one sequential step.
- The logout route reads the clock twice, once in cleanup and once in `logoutToken`. `Routes.LogoutRoute` uses one `now` for both.
- `logoutToken`'s `catch` is modelled only for a throwing `jwt.decode`. A throw from `res.json` is not modelled.
- No stock validation, stock decrement or transactional rollback is modelled, because the code has none.
