/**
 * The protected routes of server.js: the middleware chain that guards each
 * one, then its handler. `gate` is the chain's outcome; `response` is the
 * handler's answer, `None` when the chain refused and the handler never ran.
 */
module Routes {
  import opened Wrappers
  import opened JsString
  import opened Orders
  import opened Auth
  import opened Server

  /** `POST /api/logout`: `verifyToken`, then `logoutToken`. */
  method LogoutRoute(auth: TokenBlacklist, header: Option<string>, now: int,
                     verify: string -> Option<Payload>, decode: TokenKey -> Decoded)
    returns (gate: Gatekeep, response: Option<LogoutResponse>)
    modifies auth
    ensures gate == Gate(Unexpired(old(auth.entries), now), header, verify)
    ensures gate.Reject? ==> response.None? && auth.entries == Unexpired(old(auth.entries), now)
    ensures gate.Next? ==> response.Some?
                           && response.value == (if decode(LogoutKey(header.value)).DecodeThrew? then LogoutError else LoggedOut)
                           && auth.entries == AfterLogout(Unexpired(old(auth.entries), now), header, now, decode)
  {
    response := None;
    gate := auth.VerifyToken(header, now, verify);
    if gate.Next? {
      LogoutAfterGate(header, verify, auth.entries);
      var r := auth.Logout(header, now, decode);
      response := Some(r);
    }
  }

  /** A header the gate accepted is truthy, and logout revokes the very token the gate checked. */
  lemma LogoutAfterGate(header: Option<string>, verify: string -> Option<Payload>, entries: map<TokenKey, int>)
    requires Gate(entries, header, verify).Next?
    ensures Truthy(header) && LogoutKey(header.value) == Token(header.value[|BearerPrefix|..])
  {
    var t := header.value[|BearerPrefix|..];
    assert header.value == BearerPrefix + t;
    LogoutKeyOfBearer(t);
  }

  /** `GET /api/dashboard`: `verifyToken`, then the role branch. */
  method DashboardRoute(auth: TokenBlacklist, store: Store, header: Option<string>, now: int,
                        verify: string -> Option<Payload>)
    returns (gate: Gatekeep, response: Option<DashboardView>)
    modifies auth
    ensures gate == Gate(Unexpired(old(auth.entries), now), header, verify)
    ensures auth.entries == Unexpired(old(auth.entries), now)
    ensures gate.Reject? ==> response.None?
    ensures gate.Next? ==> response == Some(Dashboard(gate.user, store.orders))
  {
    response := None;
    gate := auth.VerifyToken(header, now, verify);
    if gate.Next? {
      response := Some(Dashboard(gate.user, store.orders));
    }
  }

  /** `POST /api/admin/products`: `verifyToken`, `requireRole('admin')`, then the handler. */
  method CreateProductRoute(auth: TokenBlacklist, store: Store, header: Option<string>, now: int,
                            verify: string -> Option<Payload>,
                            name: Option<string>, description: Option<string>, price: Option<int>,
                            stock: Option<int>, imageUrl: Option<string>, category: Option<string>)
    returns (gate: Gatekeep, response: Option<ProductResult>)
    requires store.Valid()
    modifies auth, store
    ensures store.Valid()
    ensures auth.entries == Unexpired(old(auth.entries), now)
    ensures gate == Guarded(Unexpired(old(auth.entries), now), header, verify, AdminRole)
    ensures gate.Reject? ==> response.None? && unchanged(store)
    ensures store.users == old(store.users) && store.orders == old(store.orders)
            && store.orderItems == old(store.orderItems)
    ensures store.nextUserId == old(store.nextUserId) && store.nextOrderId == old(store.nextOrderId)
            && store.nextOrderItemId == old(store.nextOrderItemId)
    ensures gate.Next? && (!Truthy(name) || price.None?)
            ==> response == Some(ProductRejected(400)) && store.products == old(store.products)
                && store.nextProductId == old(store.nextProductId)
    ensures gate.Next? && Truthy(name) && price.Some?
            ==> response == Some(ProductCreated(old(store.nextProductId)))
                && store.products == old(store.products)
                   + [NewProduct(old(store.nextProductId), name, description, price, stock, imageUrl, category).value]
                && store.nextProductId == old(store.nextProductId) + 1
  {
    response := None;
    var verified := auth.VerifyToken(header, now, verify);
    if verified.Reject? {
      return verified, None;
    }
    gate := RequireRole(Some(verified.user), AdminRole);
    if gate.Next? {
      var r := store.CreateProduct(name, description, price, stock, imageUrl, category);
      response := Some(r);
    }
  }

  /** `DELETE /api/admin/products/:id`: `verifyToken`, `requireRole('admin')`, then the handler. */
  method DeleteProductRoute(auth: TokenBlacklist, store: Store, header: Option<string>, now: int,
                            verify: string -> Option<Payload>, id: int)
    returns (gate: Gatekeep, response: Option<DeleteResult>)
    requires store.Valid()
    modifies auth, store
    ensures store.Valid()
    ensures auth.entries == Unexpired(old(auth.entries), now)
    ensures gate == Guarded(Unexpired(old(auth.entries), now), header, verify, AdminRole)
    ensures gate.Reject? ==> response.None? && unchanged(store)
    ensures store.users == old(store.users) && store.orders == old(store.orders)
            && store.orderItems == old(store.orderItems)
    ensures store.nextUserId == old(store.nextUserId) && store.nextProductId == old(store.nextProductId)
            && store.nextOrderId == old(store.nextOrderId) && store.nextOrderItemId == old(store.nextOrderItemId)
    ensures gate.Next? ==> store.products == WithoutProduct(old(store.products), id)
    ensures gate.Next? && (exists p :: p in old(store.products) && p.id == id) ==> response == Some(ProductDeleted)
    ensures gate.Next? && (forall p :: p in old(store.products) ==> p.id != id)
            ==> response == Some(DeleteRejected(404)) && store.products == old(store.products)
  {
    response := None;
    var verified := auth.VerifyToken(header, now, verify);
    if verified.Reject? {
      return verified, None;
    }
    gate := RequireRole(Some(verified.user), AdminRole);
    if gate.Next? {
      var r := store.DeleteProduct(id);
      response := Some(r);
    }
  }

  /** `POST /api/orders`: `verifyToken`, then order placement for `req.user.id`. */
  method PlaceOrderRoute(auth: TokenBlacklist, store: Store, header: Option<string>, now: int,
                         verify: string -> Option<Payload>, items: Option<seq<CartItem>>,
                         orderInsertOk: bool, itemsInsertOk: bool)
    returns (gate: Gatekeep, response: Option<OrderResult>)
    requires store.Valid()
    modifies auth, store
    ensures store.Valid()
    ensures auth.entries == Unexpired(old(auth.entries), now)
    ensures gate == Gate(Unexpired(old(auth.entries), now), header, verify)
    ensures gate.Reject? ==> response.None? && unchanged(store)
    ensures store.users == old(store.users) && store.products == old(store.products)
    ensures store.nextUserId == old(store.nextUserId) && store.nextProductId == old(store.nextProductId)
    ensures gate.Next? && (items.None? || |items.value| == 0)
            ==> response == Some(OrderRejected(400)) && unchanged(store)
    ensures gate.Next? && items.Some? && |items.value| > 0 && !orderInsertOk
            ==> response == Some(OrderRejected(500)) && unchanged(store)
    ensures gate.Next? && items.Some? && |items.value| > 0 && orderInsertOk
            ==> && store.orders == old(store.orders) + [Order(old(store.nextOrderId), gate.user.id, Total(items.value), NewOrderStatus, now)]
                && store.nextOrderId == old(store.nextOrderId) + 1
    ensures gate.Next? && items.Some? && |items.value| > 0 && orderInsertOk && !itemsInsertOk
            ==> response == Some(OrderRejected(500))
                && store.orderItems == old(store.orderItems) && store.nextOrderItemId == old(store.nextOrderItemId)
    ensures gate.Next? && items.Some? && |items.value| > 0 && orderInsertOk && itemsInsertOk
            ==> && response == Some(OrderPlaced(old(store.nextOrderId)))
                && store.orderItems == old(store.orderItems)
                   + Numbered(old(store.nextOrderItemId), ItemRows(old(store.nextOrderId), items.value))
                && store.nextOrderItemId == old(store.nextOrderItemId) + |items.value|
                && ItemsOfOrder(store.orderItems, old(store.nextOrderId))
                   == Numbered(old(store.nextOrderItemId), ItemRows(old(store.nextOrderId), items.value))
  {
    response := None;
    gate := auth.VerifyToken(header, now, verify);
    if gate.Next? {
      var r := store.PlaceOrder(gate.user, items, now, orderInsertOk, itemsInsertOk);
      response := Some(r);
    }
  }
}
