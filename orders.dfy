/**
 * The computations inside the order handlers of server.js: the order total
 * (`items.reduce`), the line-item rows (`items.map`) and the customer
 * dashboard query (`WHERE user_id = ? ORDER BY order_date DESC LIMIT 50`).
 * Prices are integers (cents); dates are integers (a timestamp).
 */
module Orders {

  /** One cart line of the request body: `{ id, qty, price }`. */
  datatype CartItem = CartItem(id: int, qty: int, price: int)

  /** One row of the `values` array: `[orderId, i.id, i.qty, i.price]`. */
  datatype ItemRow = ItemRow(orderId: int, productId: int, quantity: int, price: int)

  /** A row of the `orders` table. */
  datatype Order = Order(id: int, userId: int, totalPrice: int, status: string, orderDate: int)

  /** The columns the customer dashboard selects: `id, total_price, order_date, status`. */
  datatype OrderSummary = OrderSummary(id: int, totalPrice: int, orderDate: int, status: string)

  /** At most this many orders are shown on the dashboard. */
  const DashboardLimit: nat := 50

  /** `items.reduce((sum, i) => sum + i.price * i.qty, 0)`, folded from the left as `reduce` does. */
  function Total(items: seq<CartItem>): (r: int)
    ensures (forall i :: 0 <= i < |items| ==> items[i].price >= 0 && items[i].qty >= 0) ==> r >= 0
  {
    if |items| == 0 then 0
    else Total(items[..|items| - 1]) + items[|items| - 1].price * items[|items| - 1].qty
  }

  /** The total of a concatenated cart is the sum of the totals. */
  lemma {:induction false} TotalAppend(a: seq<CartItem>, b: seq<CartItem>)
    ensures Total(a + b) == Total(a) + Total(b)
    decreases |b|
  {
    if |b| == 0 {
      assert a + b == a;
    } else {
      var c := a + b;
      assert c[..|c| - 1] == a + b[..|b| - 1];
      assert c[|c| - 1] == b[|b| - 1];
      TotalAppend(a, b[..|b| - 1]);
    }
  }

  /** `items.map(i => [orderId, i.id, i.qty, i.price])`. */
  function ItemRows(orderId: int, items: seq<CartItem>): (rows: seq<ItemRow>)
    ensures |rows| == |items|
    ensures forall i :: 0 <= i < |items| ==>
              rows[i] == ItemRow(orderId, items[i].id, items[i].qty, items[i].price)
  {
    if |items| == 0 then []
    else [ItemRow(orderId, items[0].id, items[0].qty, items[0].price)] + ItemRows(orderId, items[1..])
  }

  /** The sum of the line-item subtotals `quantity * price`. */
  function RowsTotal(rows: seq<ItemRow>): int
  {
    if |rows| == 0 then 0 else rows[0].quantity * rows[0].price + RowsTotal(rows[1..])
  }

  /** The stored order total equals the sum of its line-item subtotals. */
  lemma {:induction false} RowsTotalIsOrderTotal(orderId: int, items: seq<CartItem>)
    ensures RowsTotal(ItemRows(orderId, items)) == Total(items)
    decreases |items|
  {
    if |items| > 0 {
      var x := items[0];
      var tail := items[1..];
      assert Total([x]) == x.price * x.qty by {
        assert [x][..0] == [];
      }
      assert [x] + tail == items;
      TotalAppend([x], tail);
      RowsTotalIsOrderTotal(orderId, tail);
      var rows := ItemRows(orderId, items);
      assert rows == [ItemRow(orderId, x.id, x.qty, x.price)] + ItemRows(orderId, tail);
      assert rows[1..] == ItemRows(orderId, tail);
      assert RowsTotal(rows) == x.qty * x.price + RowsTotal(rows[1..]);
    }
  }

  /** `WHERE user_id = ?`, keeping the table's order. */
  function OwnOrders(orders: seq<Order>, userId: int): (r: seq<Order>)
    ensures forall o :: multiset(r)[o] == if o.userId == userId then multiset(orders)[o] else 0
  {
    if |orders| == 0 then []
    else
      assert orders == [orders[0]] + orders[1..];
      (if orders[0].userId == userId then [orders[0]] else []) + OwnOrders(orders[1..], userId)
  }

  predicate NewestFirst(s: seq<Order>)
  {
    forall i, j :: 0 <= i < j < |s| ==> s[i].orderDate >= s[j].orderDate
  }

  /** A row no older than the head of a sorted list can precede it. */
  lemma PrependNewest(x: Order, s: seq<Order>)
    requires NewestFirst(s)
    requires |s| > 0 ==> x.orderDate >= s[0].orderDate
    ensures NewestFirst([x] + s)
  {
    var r := [x] + s;
    forall i, j | 0 <= i < j < |r| ensures r[i].orderDate >= r[j].orderDate {
      if i == 0 && j > 1 {
        assert r[j] == s[j - 1];
      }
    }
  }

  /** Place `o` into a list sorted newest first, after the rows of the same date. */
  function InsertByDate(o: Order, s: seq<Order>): (r: seq<Order>)
    requires NewestFirst(s)
    ensures NewestFirst(r)
    ensures multiset(r) == multiset(s) + multiset{o}
    ensures |r| == |s| + 1 && (r[0] == o || (|s| > 0 && r[0] == s[0]))
  {
    if |s| == 0 then [o]
    else if s[0].orderDate < o.orderDate then
      PrependNewest(o, s);
      [o] + s
    else
      var rest := InsertByDate(o, s[1..]);
      assert s == [s[0]] + s[1..];
      PrependNewest(s[0], rest);
      [s[0]] + rest
  }

  /** `ORDER BY order_date DESC`. */
  function SortNewestFirst(s: seq<Order>): (r: seq<Order>)
    ensures NewestFirst(r)
    ensures multiset(r) == multiset(s)
  {
    if |s| == 0 then []
    else
      assert s == [s[0]] + s[1..];
      InsertByDate(s[0], SortNewestFirst(s[1..]))
  }

  /** The query of the customer branch of `/api/dashboard`. */
  function RecentOrders(orders: seq<Order>, userId: int): (r: seq<Order>)
    ensures |r| <= DashboardLimit
    ensures NewestFirst(r)
  {
    var sorted := SortNewestFirst(OwnOrders(orders, userId));
    if |sorted| <= DashboardLimit then sorted else sorted[..DashboardLimit]
  }

  /** The dashboard shows only the caller's own orders, and no row more often than the table holds it. */
  lemma RecentOrdersAreOwn(orders: seq<Order>, userId: int)
    ensures multiset(RecentOrders(orders, userId)) <= multiset(OwnOrders(orders, userId))
    ensures forall o :: o in RecentOrders(orders, userId) ==> o in orders && o.userId == userId
  {
    var own := OwnOrders(orders, userId);
    var sorted := SortNewestFirst(own);
    var r := RecentOrders(orders, userId);
    assert sorted == r + sorted[|r|..];
    assert multiset(r) <= multiset(own) by {
      assert multiset(sorted) == multiset(r) + multiset(sorted[|r|..]);
    }
    forall o | o in r ensures o in orders && o.userId == userId {
      assert multiset(r)[o] > 0;
      assert multiset(own)[o] > 0;
      assert multiset(orders)[o] > 0;
    }
  }

  /** The dashboard lists newest first, and all of the caller's orders up to 50. */
  lemma RecentOrdersSortedAndLimited(orders: seq<Order>, userId: int)
    ensures NewestFirst(RecentOrders(orders, userId))
    ensures |RecentOrders(orders, userId)|
            == if |OwnOrders(orders, userId)| <= DashboardLimit then |OwnOrders(orders, userId)| else DashboardLimit
  {
    var own := OwnOrders(orders, userId);
    var sorted := SortNewestFirst(own);
    assert |sorted| == |own| by {
      assert |multiset(sorted)| == |multiset(own)|;
    }
  }

  /** In a list sorted newest first, what lies beyond a prefix is no newer than the prefix. */
  lemma DroppedNoNewer(sorted: seq<Order>, k: int, o: Order, i: int)
    requires NewestFirst(sorted)
    requires 0 <= i < k <= |sorted|
    requires o in multiset(sorted) - multiset(sorted[..k])
    ensures o.orderDate <= sorted[i].orderDate
  {
    var rest := sorted[k..];
    assert sorted == sorted[..k] + rest;
    assert multiset(sorted) - multiset(sorted[..k]) == multiset(rest) by {
      assert multiset(sorted) == multiset(sorted[..k]) + multiset(rest);
    }
    assert o in rest;
    var j :| 0 <= j < |rest| && rest[j] == o;
    assert sorted[k + j] == o;
    assert sorted[i].orderDate >= sorted[k + j].orderDate;
  }

  /** An order of the caller that is left off the dashboard is no newer than any order shown. */
  lemma RecentOrdersAreNewest(orders: seq<Order>, userId: int)
    ensures forall o, i ::
              o in multiset(OwnOrders(orders, userId)) - multiset(RecentOrders(orders, userId))
              && 0 <= i < |RecentOrders(orders, userId)|
              ==> o.orderDate <= RecentOrders(orders, userId)[i].orderDate
  {
    var sorted := SortNewestFirst(OwnOrders(orders, userId));
    var r := RecentOrders(orders, userId);
    assert r == sorted[..|r|];
    forall o, i | o in multiset(OwnOrders(orders, userId)) - multiset(r) && 0 <= i < |r|
      ensures o.orderDate <= r[i].orderDate
    {
      DroppedNoNewer(sorted, |r|, o, i);
    }
  }

  /** The selected columns of one order row. */
  function Summary(o: Order): OrderSummary
  {
    OrderSummary(o.id, o.totalPrice, o.orderDate, o.status)
  }

  function Summaries(s: seq<Order>): (r: seq<OrderSummary>)
    ensures |r| == |s|
    ensures forall i :: 0 <= i < |s| ==> r[i] == Summary(s[i])
  {
    if |s| == 0 then [] else [Summary(s[0])] + Summaries(s[1..])
  }
}
