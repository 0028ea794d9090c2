/**
 * The decision logic of the handlers of server.js over an in-memory copy of
 * the four tables it writes: `users`, `products`, `orders` and `order_items`.
 * Each table keeps its rows in insertion order and has its own
 * auto-increment counter, the source of `result.insertId`.
 *
 * bcrypt is outside the model: `hashed` is what `bcrypt.hash(password, 10)`
 * produced, and `compare(p, h)` is `bcrypt.compare(p, h)`. `jwt.sign` is
 * represented by the claims it signs.
 */
module Server {
  import opened Wrappers
  import opened JsString
  import opened Orders
  import Auth

  datatype User = User(id: int, name: string, email: string, password: string,
                       address: Option<string>, phone: Option<string>, role: string)

  datatype Product = Product(id: int, name: string, description: Option<string>, price: int,
                             stock: int, imageUrl: Option<string>, category: Option<string>)

  /** A row of `order_items`: `(order_id, product_id, quantity, price)` plus its own id. */
  datatype OrderItem = OrderItem(id: int, orderId: int, productId: int, quantity: int, price: int)

  /** The claims given to `jwt.sign`: `{ id, email, role }`. */
  datatype Claims = Claims(id: int, email: string, role: string)

  /** The `user` object of the signup and login responses. */
  datatype UserView = UserView(id: int, name: string, email: string, role: string)

  datatype SignupResult = SignedUp(token: Claims, user: UserView) | SignupRejected(status: int)
  datatype LoginResult = LoggedIn(token: Claims, user: UserView) | LoginRejected(status: int)
  datatype ProductResult = ProductCreated(productId: int) | ProductRejected(status: int)
  datatype DeleteResult = ProductDeleted | DeleteRejected(status: int)
  datatype OrderResult = OrderPlaced(orderId: int) | OrderRejected(status: int)
  datatype DashboardView = AdminDashboard | CustomerDashboard(orders: seq<OrderSummary>)

  const DefaultRole: string := "customer"
  const AdminRole: string := "admin"

  /** The `status` column's default for a new order (the schema gives it; server.js does not set it). */
  const NewOrderStatus: string := "pending"

  function ClaimsOf(u: User): Claims
  {
    Claims(u.id, u.email, u.role)
  }

  function ViewOf(u: User): UserView
  {
    UserView(u.id, u.name, u.email, u.role)
  }

  /** `SELECT * FROM users WHERE email = ?`, in table order. */
  function WithEmail(users: seq<User>, email: string): (r: seq<User>)
    ensures forall u :: u in r <==> u in users && u.email == email
    ensures |r| <= |users|
  {
    if |users| == 0 then []
    else (if users[0].email == email then [users[0]] else []) + WithEmail(users[1..], email)
  }

  predicate UniqueEmails(users: seq<User>)
  {
    forall i, j :: 0 <= i < j < |users| ==> users[i].email != users[j].email
  }

  /** With unique emails the lookup finds at most one row. */
  lemma {:induction false} WithEmailUnique(users: seq<User>, u: User)
    requires UniqueEmails(users)
    requires u in users
    ensures WithEmail(users, u.email) == [u]
  {
    if users[0] == u {
      forall v | v in users[1..] ensures v.email != u.email {
        var j :| 0 <= j < |users[1..]| && users[1..][j] == v;
        assert users[j + 1] == v;
      }
      NoneWithEmail(users[1..], u.email);
    } else {
      assert u in users[1..];
      assert users[0].email != u.email by {
        var j :| 0 <= j < |users| && users[j] == u;
        assert j > 0;
      }
      assert UniqueEmails(users[1..]) by {
        forall i, j | 0 <= i < j < |users[1..]| ensures users[1..][i].email != users[1..][j].email {
          assert users[1..][i] == users[i + 1] && users[1..][j] == users[j + 1];
        }
      }
      WithEmailUnique(users[1..], u);
    }
  }

  lemma NoneWithEmail(users: seq<User>, email: string)
    requires forall v :: v in users ==> v.email != email
    ensures WithEmail(users, email) == []
  {
    if WithEmail(users, email) != [] {
      assert WithEmail(users, email)[0] in WithEmail(users, email);
    }
  }

  /** The user row signup inserts: the bcrypt hash as password, falsy optionals as NULL, role defaulting to `customer`. */
  function NewUser(id: int, name: string, email: string, hashed: string,
                   address: Option<string>, phone: Option<string>, role: Option<string>): (u: User)
    ensures u.id == id && u.name == name && u.email == email && u.password == hashed
    ensures u.address == OrNull(address) && u.phone == OrNull(phone)
    ensures Truthy(role) ==> u.role == role.value
    ensures !Truthy(role) ==> u.role == DefaultRole
    ensures u.role != ""
    ensures u.role != DefaultRole ==> role == Some(u.role)
  {
    User(id, name, email, hashed, OrNull(address), OrNull(phone), OrElse(role, DefaultRole))
  }

  /** The `/api/login` handler. */
  function Login(users: seq<User>, email: Option<string>, password: Option<string>,
                 compare: (string, string) -> bool): (r: LoginResult)
    ensures !Truthy(email) || !Truthy(password) ==> r == LoginRejected(400)
    ensures Truthy(email) && Truthy(password) && (forall u :: u in users ==> u.email != email.value)
            ==> r == LoginRejected(401)
    ensures r.LoggedIn? ==> exists u :: u in users && u.email == email.value && compare(password.value, u.password)
                                        && r == LoggedIn(ClaimsOf(u), ViewOf(u))
    ensures r.LoginRejected? ==> r.status in {400, 401}
  {
    if !Truthy(email) || !Truthy(password) then LoginRejected(400)
    else
      var results := WithEmail(users, email.value);
      if |results| == 0 then LoginRejected(401)
      else
        var user := results[0];
        assert user in results;
        if !compare(password.value, user.password) then LoginRejected(401)
        else LoggedIn(ClaimsOf(user), ViewOf(user))
  }

  /**
   * With unique emails, login with the stored email succeeds exactly when
   * bcrypt accepts the password, and signs exactly the stored id, email and role.
   */
  lemma LoginOfUser(users: seq<User>, u: User, password: string, compare: (string, string) -> bool)
    requires UniqueEmails(users)
    requires u in users && u.email != "" && password != ""
    ensures Login(users, Some(u.email), Some(password), compare)
            == if compare(password, u.password) then LoggedIn(ClaimsOf(u), ViewOf(u)) else LoginRejected(401)
  {
    WithEmailUnique(users, u);
  }

  /** `stock || 0`. */
  function OrZero(v: Option<int>): (r: int)
    ensures r == 0 <==> v.None? || v.value == 0
    ensures r != 0 ==> v == Some(r)
  {
    if v.Some? then v.value else 0
  }

  /** The validation and defaults of `/api/admin/products`: `None` is the 400 answer. */
  function NewProduct(id: int, name: Option<string>, description: Option<string>, price: Option<int>,
                      stock: Option<int>, imageUrl: Option<string>, category: Option<string>): (r: Option<Product>)
    ensures r.Some? <==> Truthy(name) && price.Some?
    ensures r.Some? ==> r.value.id == id && r.value.name == name.value && r.value.price == price.value
    ensures r.Some? && stock.None? ==> r.value.stock == 0
    ensures r.Some? && stock.Some? ==> r.value.stock == stock.value
    ensures r.Some? ==> r.value.description == OrNull(description) && r.value.imageUrl == OrNull(imageUrl)
                        && r.value.category == OrNull(category)
  {
    if !Truthy(name) || price.None? then None
    else Some(Product(id, name.value, OrNull(description), price.value, OrZero(stock), OrNull(imageUrl), OrNull(category)))
  }

  /** `price == null` rejects only a missing price: a price of 0 is accepted, and stock defaults to 0. */
  lemma ZeroPriceAccepted(id: int, name: string)
    requires name != ""
    ensures NewProduct(id, Some(name), None, Some(0), None, None, None)
            == Some(Product(id, name, None, 0, 0, None, None))
  {
  }

  /** `DELETE FROM products WHERE id = ?`. */
  function WithoutProduct(products: seq<Product>, id: int): (r: seq<Product>)
    ensures forall p :: p in r <==> p in products && p.id != id
    ensures (forall p :: p in products ==> p.id != id) ==> r == products
    ensures (exists p :: p in products && p.id == id) ==> |r| < |products|
    ensures |r| <= |products|
  {
    if |products| == 0 then []
    else
      assert products[0] in products;
      assert products == [products[0]] + products[1..];
      (if products[0].id == id then [] else [products[0]]) + WithoutProduct(products[1..], id)
  }

  /** The `order_items` rows of one order, in table order. */
  function ItemsOfOrder(items: seq<OrderItem>, orderId: int): (r: seq<OrderItem>)
    ensures forall x :: x in r <==> x in items && x.orderId == orderId
  {
    if |items| == 0 then []
    else (if items[0].orderId == orderId then [items[0]] else []) + ItemsOfOrder(items[1..], orderId)
  }

  lemma {:induction false} ItemsOfOrderAppend(a: seq<OrderItem>, b: seq<OrderItem>, orderId: int)
    ensures ItemsOfOrder(a + b, orderId) == ItemsOfOrder(a, orderId) + ItemsOfOrder(b, orderId)
    decreases |a|
  {
    if |a| == 0 {
      assert a + b == b;
    } else {
      assert (a + b)[1..] == a[1..] + b;
      ItemsOfOrderAppend(a[1..], b, orderId);
    }
  }

  /** One multi-row INSERT: consecutive auto-increment ids from `firstId`, in the order given. */
  function Numbered(firstId: int, rows: seq<ItemRow>): (r: seq<OrderItem>)
    ensures |r| == |rows|
    ensures forall i :: 0 <= i < |rows| ==>
              r[i] == OrderItem(firstId + i, rows[i].orderId, rows[i].productId, rows[i].quantity, rows[i].price)
    decreases |rows|
  {
    if |rows| == 0 then []
    else
      [OrderItem(firstId, rows[0].orderId, rows[0].productId, rows[0].quantity, rows[0].price)]
      + Numbered(firstId + 1, rows[1..])
  }

  /** Rows that all carry `orderId` are kept whole by the filter. */
  lemma {:induction false} ItemsOfOrderAll(items: seq<OrderItem>, orderId: int)
    requires forall i :: 0 <= i < |items| ==> items[i].orderId == orderId
    ensures ItemsOfOrder(items, orderId) == items
    decreases |items|
  {
    if |items| > 0 {
      ItemsOfOrderAll(items[1..], orderId);
    }
  }

  /** Rows none of which carries `orderId` contribute nothing. */
  lemma {:induction false} ItemsOfOrderNone(items: seq<OrderItem>, orderId: int)
    requires forall i :: 0 <= i < |items| ==> items[i].orderId != orderId
    ensures ItemsOfOrder(items, orderId) == []
    decreases |items|
  {
    if |items| > 0 {
      ItemsOfOrderNone(items[1..], orderId);
    }
  }

  /** The customer branch of `/api/dashboard`; the admin branch's statistics are not modelled. */
  function Dashboard(user: Auth.Payload, orders: seq<Order>): (r: DashboardView)
    ensures r.AdminDashboard? <==> user.role == AdminRole
    ensures r.CustomerDashboard? ==> r.orders == Summaries(RecentOrders(orders, user.id))
  {
    if user.role == AdminRole then AdminDashboard
    else CustomerDashboard(Summaries(RecentOrders(orders, user.id)))
  }

  class Store {
    var users: seq<User>
    var products: seq<Product>
    var orders: seq<Order>
    var orderItems: seq<OrderItem>
    var nextUserId: int
    var nextProductId: int
    var nextOrderId: int
    var nextOrderItemId: int

    /** Ids are unique and below their table's counter; emails are unique; every line item names an order id already issued. */
    ghost predicate Valid()
      reads this
    {
      && UsersValid(users, nextUserId)
      && ProductsValid(products, nextProductId)
      && OrdersValid(orders, nextOrderId)
      && OrderItemsValid(orderItems, nextOrderItemId, nextOrderId)
    }

    /** Empty tables; MySQL's auto-increment starts at 1. */
    constructor ()
      ensures Valid()
      ensures users == [] && products == [] && orders == [] && orderItems == []
      ensures nextUserId == 1 && nextProductId == 1 && nextOrderId == 1 && nextOrderItemId == 1
    {
      users, products, orders, orderItems := [], [], [], [];
      nextUserId, nextProductId, nextOrderId, nextOrderItemId := 1, 1, 1, 1;
    }

    /** `/api/signup`. */
    method Signup(name: Option<string>, email: Option<string>, password: Option<string>,
                  address: Option<string>, phone: Option<string>, role: Option<string>,
                  hashed: string) returns (r: SignupResult)
      requires Valid()
      modifies this
      ensures Valid()
      ensures products == old(products) && orders == old(orders) && orderItems == old(orderItems)
      ensures nextProductId == old(nextProductId) && nextOrderId == old(nextOrderId)
      ensures nextOrderItemId == old(nextOrderItemId)
      ensures !(Truthy(name) && Truthy(email) && Truthy(password))
              ==> r == SignupRejected(400) && users == old(users) && nextUserId == old(nextUserId)
      ensures Truthy(name) && Truthy(email) && Truthy(password) && (exists u :: u in old(users) && u.email == email.value)
              ==> r == SignupRejected(409) && users == old(users) && nextUserId == old(nextUserId)
      ensures Truthy(name) && Truthy(email) && Truthy(password) && (forall u :: u in old(users) ==> u.email != email.value)
              ==> var u := NewUser(old(nextUserId), name.value, email.value, hashed, address, phone, role);
                  && users == old(users) + [u]
                  && nextUserId == old(nextUserId) + 1
                  && r == SignedUp(ClaimsOf(u), ViewOf(u))
    {
      if !Truthy(name) || !Truthy(email) || !Truthy(password) {
        return SignupRejected(400);
      }
      var results := WithEmail(users, email.value);
      if |results| > 0 {
        assert results[0] in results;
        return SignupRejected(409);
      }
      var u := NewUser(nextUserId, name.value, email.value, hashed, address, phone, role);
      users := users + [u];
      nextUserId := nextUserId + 1;
      r := SignedUp(ClaimsOf(u), ViewOf(u));
    }

    /** `/api/admin/products` after the middlewares. */
    method CreateProduct(name: Option<string>, description: Option<string>, price: Option<int>,
                         stock: Option<int>, imageUrl: Option<string>, category: Option<string>)
      returns (r: ProductResult)
      requires Valid()
      modifies this
      ensures Valid()
      ensures users == old(users) && orders == old(orders) && orderItems == old(orderItems)
      ensures nextUserId == old(nextUserId) && nextOrderId == old(nextOrderId)
      ensures nextOrderItemId == old(nextOrderItemId)
      ensures !Truthy(name) || price.None?
              ==> r == ProductRejected(400) && products == old(products) && nextProductId == old(nextProductId)
      ensures Truthy(name) && price.Some?
              ==> products == old(products) + [NewProduct(old(nextProductId), name, description, price, stock, imageUrl, category).value]
                  && nextProductId == old(nextProductId) + 1
                  && r == ProductCreated(old(nextProductId))
    {
      var row := NewProduct(nextProductId, name, description, price, stock, imageUrl, category);
      if row.None? {
        return ProductRejected(400);
      }
      products := products + [row.value];
      r := ProductCreated(nextProductId);
      nextProductId := nextProductId + 1;
    }

    /** `/api/admin/products/:id` (DELETE) after the middlewares; line items keep their recorded prices. */
    method DeleteProduct(id: int) returns (r: DeleteResult)
      requires Valid()
      modifies this
      ensures Valid()
      ensures users == old(users) && orders == old(orders) && orderItems == old(orderItems)
      ensures nextUserId == old(nextUserId) && nextProductId == old(nextProductId)
      ensures nextOrderId == old(nextOrderId) && nextOrderItemId == old(nextOrderItemId)
      ensures products == WithoutProduct(old(products), id)
      ensures r == ProductDeleted <==> exists p :: p in old(products) && p.id == id
      ensures r.DeleteRejected? ==> r.status == 404 && products == old(products)
    {
      var remaining := WithoutProduct(products, id);
      if |remaining| == |products| {
        return DeleteRejected(404);
      }
      WithoutProductValid(products, id);
      products := remaining;
      r := ProductDeleted;
    }

    /** `INSERT INTO orders (user_id, total_price) VALUES (?, ?)`; `order_date` is the insertion time. */
    method InsertOrder(userId: int, total: int, now: int) returns (orderId: int)
      requires Valid()
      modifies this`orders, this`nextOrderId
      ensures Valid()
      ensures orderId == old(nextOrderId) && nextOrderId == orderId + 1
      ensures orders == old(orders) + [Order(orderId, userId, total, NewOrderStatus, now)]
    {
      orderId := nextOrderId;
      orders := orders + [Order(orderId, userId, total, NewOrderStatus, now)];
      nextOrderId := nextOrderId + 1;
    }

    /** `INSERT INTO order_items (order_id, product_id, quantity, price) VALUES ?` for one order's rows. */
    method InsertOrderItems(rows: seq<ItemRow>, orderId: int)
      requires Valid()
      requires orderId < nextOrderId
      requires forall i :: 0 <= i < |rows| ==> rows[i].orderId == orderId
      modifies this`orderItems, this`nextOrderItemId
      ensures Valid()
      ensures orderItems == old(orderItems) + Numbered(old(nextOrderItemId), rows)
      ensures nextOrderItemId == old(nextOrderItemId) + |rows|
    {
      var added := Numbered(nextOrderItemId, rows);
      orderItems := orderItems + added;
      nextOrderItemId := nextOrderItemId + |rows|;
    }

    /**
     * `/api/orders` after `verifyToken`, as written: the order row is
     * inserted first and the line items by a second statement; there is no
     * transaction, so a failing second statement leaves the order without
     * items. The flags say whether each statement succeeded. Stock is
     * neither checked nor decremented.
     */
    method PlaceOrder(user: Auth.Payload, items: Option<seq<CartItem>>, now: int,
                      orderInsertOk: bool, itemsInsertOk: bool) returns (r: OrderResult)
      requires Valid()
      modifies this
      ensures Valid()
      ensures users == old(users) && products == old(products)
      ensures nextUserId == old(nextUserId) && nextProductId == old(nextProductId)
      ensures items.None? || |items.value| == 0
              ==> r == OrderRejected(400) && unchanged(this)
      ensures items.Some? && |items.value| > 0 && !orderInsertOk
              ==> r == OrderRejected(500) && unchanged(this)
      ensures items.Some? && |items.value| > 0 && orderInsertOk
              ==> && orders == old(orders) + [Order(old(nextOrderId), user.id, Total(items.value), NewOrderStatus, now)]
                  && nextOrderId == old(nextOrderId) + 1
      ensures items.Some? && |items.value| > 0 && orderInsertOk && !itemsInsertOk
              ==> r == OrderRejected(500) && orderItems == old(orderItems) && nextOrderItemId == old(nextOrderItemId)
      ensures items.Some? && |items.value| > 0 && orderInsertOk && itemsInsertOk
              ==> && r == OrderPlaced(old(nextOrderId))
                  && orderItems == old(orderItems) + Numbered(old(nextOrderItemId), ItemRows(old(nextOrderId), items.value))
                  && nextOrderItemId == old(nextOrderItemId) + |items.value|
                  && ItemsOfOrder(orderItems, old(nextOrderId)) == Numbered(old(nextOrderItemId), ItemRows(old(nextOrderId), items.value))
                  && RowsTotal(ItemRows(old(nextOrderId), items.value)) == orders[|orders| - 1].totalPrice
    {
      if items.None? || |items.value| == 0 {
        return OrderRejected(400);
      }
      var cart := items.value;
      var total := Total(cart);
      if !orderInsertOk {
        return OrderRejected(500);
      }
      var orderId := InsertOrder(user.id, total, now);
      if !itemsInsertOk {
        return OrderRejected(500);
      }
      RecordItems(orderId, cart);
      r := OrderPlaced(orderId);
    }

    /** The second statement of order placement, for the order just inserted. */
    method RecordItems(orderId: int, cart: seq<CartItem>)
      requires Valid()
      requires orderId < nextOrderId
      requires forall i :: 0 <= i < |orderItems| ==> orderItems[i].orderId < orderId
      modifies this`orderItems, this`nextOrderItemId
      ensures Valid()
      ensures orderItems == old(orderItems) + Numbered(old(nextOrderItemId), ItemRows(orderId, cart))
      ensures nextOrderItemId == old(nextOrderItemId) + |cart|
      ensures ItemsOfOrder(orderItems, orderId) == Numbered(old(nextOrderItemId), ItemRows(orderId, cart))
      ensures RowsTotal(ItemRows(orderId, cart)) == Total(cart)
    {
      var before := orderItems;
      var firstItemId := nextOrderItemId;
      InsertOrderItems(ItemRows(orderId, cart), orderId);
      ItemsOfNewOrder(before, orderId, firstItemId, cart);
      RowsTotalIsOrderTotal(orderId, cart);
    }
  }

  predicate DistinctProductIds(products: seq<Product>)
  {
    forall i, j :: 0 <= i < j < |products| ==> products[i].id != products[j].id
  }

  /** User ids are unique and below the counter; emails are unique. */
  ghost predicate UsersValid(users: seq<User>, nextId: int)
  {
    && (forall i :: 0 <= i < |users| ==> users[i].id < nextId)
    && (forall i, j :: 0 <= i < j < |users| ==> users[i].id != users[j].id)
    && UniqueEmails(users)
  }

  ghost predicate ProductsValid(products: seq<Product>, nextId: int)
  {
    (forall i :: 0 <= i < |products| ==> products[i].id < nextId) && DistinctProductIds(products)
  }

  ghost predicate OrdersValid(orders: seq<Order>, nextId: int)
  {
    && (forall i :: 0 <= i < |orders| ==> orders[i].id < nextId)
    && (forall i, j :: 0 <= i < j < |orders| ==> orders[i].id != orders[j].id)
  }

  /** Line-item ids are unique and below the counter; each names an order id already issued. */
  ghost predicate OrderItemsValid(items: seq<OrderItem>, nextId: int, nextOrderId: int)
  {
    && (forall i :: 0 <= i < |items| ==> items[i].id < nextId)
    && (forall i, j :: 0 <= i < j < |items| ==> items[i].id != items[j].id)
    && (forall i :: 0 <= i < |items| ==> items[i].orderId < nextOrderId)
  }

  /** The line items of a freshly numbered order are exactly the rows inserted for it. */
  lemma ItemsOfNewOrder(before: seq<OrderItem>, orderId: int, firstId: int, cart: seq<CartItem>)
    requires forall i :: 0 <= i < |before| ==> before[i].orderId < orderId
    ensures ItemsOfOrder(before + Numbered(firstId, ItemRows(orderId, cart)), orderId)
            == Numbered(firstId, ItemRows(orderId, cart))
  {
    var added := Numbered(firstId, ItemRows(orderId, cart));
    ItemsOfOrderAppend(before, added, orderId);
    ItemsOfOrderNone(before, orderId);
    ItemsOfOrderAll(added, orderId);
  }

  /** Deleting rows keeps the remaining ids unique. */
  lemma {:induction false} WithoutProductValid(products: seq<Product>, id: int)
    requires DistinctProductIds(products)
    ensures DistinctProductIds(WithoutProduct(products, id))
  {
    if |products| > 0 {
      WithoutProductValid(products[1..], id);
      var tail := WithoutProduct(products[1..], id);
      forall k | 0 <= k < |tail| ensures tail[k].id != products[0].id {
        assert tail[k] in tail;
        var j :| 0 <= j < |products[1..]| && products[1..][j] == tail[k];
        assert products[j + 1] == tail[k];
      }
      var r := WithoutProduct(products, id);
      if products[0].id != id {
        assert r == [products[0]] + tail;
        assert r[0] == products[0];
        forall i, j | 0 <= i < j < |r| ensures r[i].id != r[j].id {
          assert r[j] == tail[j - 1];
          if i > 0 {
            assert r[i] == tail[i - 1];
          }
        }
      }
    }
  }

  /**
   * After a successful signup, logging in with the same email and a
   * password bcrypt accepts for the stored hash signs the new row's id,
   * email and role.
   */
  lemma LoginAfterSignup(users: seq<User>, id: int, name: string, email: string, hashed: string,
                         address: Option<string>, phone: Option<string>, role: Option<string>,
                         password: string, compare: (string, string) -> bool)
    requires UniqueEmails(users)
    requires forall u :: u in users ==> u.email != email
    requires email != "" && password != "" && compare(password, hashed)
    ensures var u := NewUser(id, name, email, hashed, address, phone, role);
            Login(users + [u], Some(email), Some(password), compare)
            == LoggedIn(Claims(id, email, OrElse(role, DefaultRole)), UserView(id, name, email, OrElse(role, DefaultRole)))
  {
    var u := NewUser(id, name, email, hashed, address, phone, role);
    var us := users + [u];
    assert UniqueEmails(us) by {
      forall i, j | 0 <= i < j < |us| ensures us[i].email != us[j].email {
        if j == |users| {
          assert us[i] in users;
        }
      }
    }
    LoginOfUser(us, u, password, compare);
  }
}
