/** The order actions of lib/actions/order.actions.ts: placing an order from
    the caller's cart, settling it (which takes the ordered units out of
    stock), marking it delivered, deleting it, and listing orders a page at a
    time. Orders only move forward: unpaid, then paid, then delivered. */
module OrderActions {

  import opened Common
  import opened Records
  import opened Store
  import CartActions
  import UserActions
  import Paging
  import Sorting

  const NOT_AUTHENTICATED := "User is not authenticated"
  const CART_EMPTY := "Cart is empty"
  const NO_ADDRESS := "No address saved"
  const NO_PAYMENT_METHOD := "No payment method saved"
  const ORDER_NOT_CREATED := "Order not created"
  const ORDER_CREATED := "Order created successfully"
  const ORDER_NOT_FOUND := "Order not found"
  const ALREADY_PAID := "Order is already paid"
  const NOT_PAID := "Order is not paid"
  const MARKED_PAID := "Order marked as paid."
  const MARKED_DELIVERED := "Order marked as delivered."
  const ORDER_DELETED := "Order deleted successfully"
  const NOT_AUTHORIZED := "User is not authorized"

  // ---------------------------------------------------------------------
  // Placing an order
  // ---------------------------------------------------------------------

  /** What `createOrder` hands `insertOrderSchema.parse`. */
  datatype OrderInput = OrderInput(userId: Id, shippingAddress: Address, paymentMethod: string, prices: Prices)

  /** The order row the database creates from it: unpaid, undelivered, no
      payment result yet. */
  function NewOrder(id: Id, input: OrderInput, now: Time): Order {
    Order(id, input.userId, input.shippingAddress, input.paymentMethod, input.prices,
          false, None, false, None, None, now)
  }

  /** The outcome of `createOrder`'s checks: a reply that ends the action, or
      the position of the cart to turn into an order and the order's fields. */
  datatype Checked =
    | Refuse(reply: ActionResult)
    | Proceed(cartIndex: nat, input: OrderInput)

  /** `createOrder`'s checks, in the order the source makes them, the first
      failure winning: a session, a user id, a user with that id, a non-empty
      cart, a saved address, a saved payment method, and an order the schema
      accepts. The order takes its four prices from the cart and its owner,
      address and payment method from the user. */
  function CheckOrder(users: seq<User>, carts: seq<Cart>, session: Option<Session>, cookie: Option<string>,
                      orderSchema: OrderInput -> bool): (r: Checked)
    ensures session.None? ==> r == Refuse(Failed(Thrown(NOT_AUTHENTICATED)))
    ensures session.Some? && !Truthy(SessionUserId(session)) ==> r == Refuse(Failed(Thrown(UserActions.USER_NOT_FOUND)))
    ensures Truthy(SessionUserId(session)) && UserActions.GetUserById(users, SessionUserId(session).value).Err? ==>
      r == Refuse(Failed(Thrown(UserActions.USER_NOT_FOUND)))
    ensures Truthy(SessionUserId(session)) && UserActions.GetUserById(users, SessionUserId(session).value).Ok? ==>
      var user := UserActions.GetUserById(users, SessionUserId(session).value).value;
      var cart := CartActions.GetMyCart(carts, cookie, SessionUserId(session));
      && (cart.None? || cart.value.items == [] ==> r == Refuse(Declined(CART_EMPTY, Some("/cart"))))
      && (cart.Some? && cart.value.items != [] && user.address.None? ==>
            r == Refuse(Declined(NO_ADDRESS, Some("/shipping-address"))))
      && (cart.Some? && cart.value.items != [] && user.address.Some? && !Truthy(user.paymentMethod) ==>
            r == Refuse(Declined(NO_PAYMENT_METHOD, Some("/payment-method"))))
      && (cart.Some? && cart.value.items != [] && user.address.Some? && Truthy(user.paymentMethod) ==>
            var input := OrderInput(user.id, user.address.value, user.paymentMethod.value, cart.value.prices);
            && (!orderSchema(input) ==> r == Refuse(Failed(SchemaRejected)))
            && (orderSchema(input) ==> r.Proceed? && r.input == input))
    ensures r.Proceed? ==>
      && r.cartIndex < |carts|
      && CartActions.MyCartIndex(carts, cookie, SessionUserId(session)) == Some(r.cartIndex)
      && carts[r.cartIndex].items != []
      && r.input.userId == SessionUserId(session).value
  {
    if session.None? then Refuse(Failed(Thrown(NOT_AUTHENTICATED)))
    else
      var found := CartActions.MyCartIndex(carts, cookie, SessionUserId(session));
      var userId := SessionUserId(session);
      if !Truthy(userId) then Refuse(Failed(Thrown(UserActions.USER_NOT_FOUND)))
      else match UserActions.GetUserById(users, userId.value)
        case Err(e) => Refuse(Failed(e))
        case Ok(user) =>
          if found.None? || carts[found.value].items == [] then Refuse(Declined(CART_EMPTY, Some("/cart")))
          else if user.address.None? then Refuse(Declined(NO_ADDRESS, Some("/shipping-address")))
          else if !Truthy(user.paymentMethod) then Refuse(Declined(NO_PAYMENT_METHOD, Some("/payment-method")))
          else
            var input := OrderInput(user.id, user.address.value, user.paymentMethod.value, carts[found.value].prices);
            if !orderSchema(input) then Refuse(Failed(SchemaRejected)) else Proceed(found.value, input)
  }

  /** The order item made from one cart line: the line's fields plus the
      order's id. */
  function OrderLine(orderId: Id, item: CartItem): (r: OrderItem)
    ensures r.orderId == orderId && CartLineOf(r) == item
  {
    OrderItem(orderId, item.productId, item.name, item.slug, item.qty, item.image, item.price)
  }

  /** The cart line an order item was copied from. */
  function CartLineOf(row: OrderItem): CartItem {
    CartItem(row.productId, row.name, row.slug, row.qty, row.image, row.price)
  }

  /** One order item per cart line, in the cart's order. */
  function Snapshot(orderId: Id, items: seq<CartItem>): (r: seq<OrderItem>)
    ensures |r| == |items|
    ensures forall k :: 0 <= k < |items| ==> r[k].orderId == orderId && CartLineOf(r[k]) == items[k]
  {
    seq(|items|, k requires 0 <= k < |items| => OrderLine(orderId, items[k]))
  }

  /** The loop that creates the order items, one `orderItem.create` per
      cart line. */
  method SnapshotLines(orderId: Id, items: seq<CartItem>) returns (rows: seq<OrderItem>)
    ensures rows == Snapshot(orderId, items)
  {
    rows := [];
    for i := 0 to |items|
      invariant rows == Snapshot(orderId, items[..i])
    {
      assert items[..i + 1] == items[..i] + [items[i]];
      rows := rows + [OrderLine(orderId, items[i])];
    }
    assert items[..|items|] == items;
  }

  /** `createOrder`. `orderSchema` stands for `insertOrderSchema`, `newOrderId`
      for the key the database gives the order and `now` for its creation
      time. The order, its items and the emptied cart are written together or
      not at all. */
  method CreateOrder(db: Db, session: Option<Session>, cookie: Option<string>, orderSchema: OrderInput -> bool,
                     newOrderId: Id, now: Time)
    returns (res: ActionResult)
    requires db.Valid()
    modifies db
    ensures db.Valid()
    ensures db.products == old(db.products) && db.users == old(db.users)
    ensures OrdersAdvance(old(db.orders), db.orders)
    ensures CheckOrder(old(db.users), old(db.carts), session, cookie, orderSchema).Refuse? ==>
      && res == CheckOrder(old(db.users), old(db.carts), session, cookie, orderSchema).reply
      && db.orders == old(db.orders) && db.orderItems == old(db.orderItems) && db.carts == old(db.carts)
    ensures CheckOrder(old(db.users), old(db.carts), session, cookie, orderSchema).Proceed? && newOrderId in old(db.orders) ==>
      && res == Failed(StoreRejected)
      && db.orders == old(db.orders) && db.orderItems == old(db.orderItems) && db.carts == old(db.carts)
    ensures CheckOrder(old(db.users), old(db.carts), session, cookie, orderSchema).Proceed? && newOrderId !in old(db.orders) ==>
      var i := CheckOrder(old(db.users), old(db.carts), session, cookie, orderSchema).cartIndex;
      var input := CheckOrder(old(db.users), old(db.carts), session, cookie, orderSchema).input;
      && db.orders == old(db.orders)[newOrderId := NewOrder(newOrderId, input, now)]
      && db.orderItems == old(db.orderItems) + Snapshot(newOrderId, old(db.carts)[i].items)
      && db.carts == old(db.carts)[i := old(db.carts)[i].(items := [], prices := Prices(0, 0, 0, 0))]
      && (newOrderId == "" ==> res == Failed(Thrown(ORDER_NOT_CREATED)))
      && (newOrderId != "" ==> res == Succeeded(ORDER_CREATED, Some("/order/" + newOrderId)))
  {
    var check := CheckOrder(db.users, db.carts, session, cookie, orderSchema);
    if check.Refuse? {
      return check.reply;
    }
    var i, input := check.cartIndex, check.input;
    if newOrderId in db.orders {
      return Failed(StoreRejected);
    }
    var cart := db.carts[i];
    var rows := SnapshotLines(newOrderId, cart.items);
    db.orders := db.orders[newOrderId := NewOrder(newOrderId, input, now)];
    db.orderItems := db.orderItems + rows;
    db.carts := db.carts[i := cart.(items := [], prices := Prices(0, 0, 0, 0))];
    if newOrderId == "" {
      return Failed(Thrown(ORDER_NOT_CREATED));
    }
    res := Succeeded(ORDER_CREATED, Some("/order/" + newOrderId));
  }

  // ---------------------------------------------------------------------
  // Settling an order
  // ---------------------------------------------------------------------

  /** The items of one order (`include: {orderitems: true}`). */
  function ItemsOfOrder(rows: seq<OrderItem>, orderId: Id): (r: seq<OrderItem>)
    ensures forall x :: multiset(r)[x] == if x.orderId == orderId then multiset(rows)[x] else 0
    ensures forall x :: x in r <==> x in rows && x.orderId == orderId
  {
    if rows == [] then []
    else
      assert multiset(rows) == multiset{rows[0]} + multiset(rows[1..]) by {
        assert rows == [rows[0]] + rows[1..];
      }
      if rows[0].orderId == orderId then [rows[0]] + ItemsOfOrder(rows[1..], orderId)
      else ItemsOfOrder(rows[1..], orderId)
  }

  /** How many units of product `id` the rows ask for, all told. */
  function QtyOf(rows: seq<OrderItem>, id: Id): int {
    if rows == [] then 0
    else (if rows[0].productId == id then rows[0].qty else 0) + QtyOf(rows[1..], id)
  }

  /** The stock-decrement loop, one `product.update` per order item in turn;
      an item whose product no longer exists makes the update throw. */
  function Decrement(products: map<Id, Product>, rows: seq<OrderItem>): Option<map<Id, Product>> {
    if rows == [] then Some(products)
    else
      var id := rows[0].productId;
      if id !in products then None
      else Decrement(products[id := products[id].(stock := products[id].stock - rows[0].qty)], rows[1..])
  }

  /** Products no row mentions lose nothing. */
  lemma {:induction false} QtyOfAbsent(rows: seq<OrderItem>, id: Id)
    requires forall k :: 0 <= k < |rows| ==> rows[k].productId != id
    ensures QtyOf(rows, id) == 0
  {
    if rows != [] {
      QtyOfAbsent(rows[1..], id);
    }
  }

  /** The decrement succeeds exactly when every product is still there; it
      then lowers each product's stock by the total quantity ordered of it,
      with no lower bound, and changes nothing else. */
  lemma {:induction false} DecrementEffect(products: map<Id, Product>, rows: seq<OrderItem>)
    ensures Decrement(products, rows).Some? <==> forall k :: 0 <= k < |rows| ==> rows[k].productId in products
    ensures Decrement(products, rows).Some? ==>
      var after := Decrement(products, rows).value;
      && after.Keys == products.Keys
      && forall id :: id in products ==> after[id] == products[id].(stock := products[id].stock - QtyOf(rows, id))
  {
    if rows != [] {
      var id0 := rows[0].productId;
      if id0 in products {
        var next := products[id0 := products[id0].(stock := products[id0].stock - rows[0].qty)];
        DecrementEffect(next, rows[1..]);
        assert forall k :: 1 <= k < |rows| ==> rows[k] == rows[1..][k - 1];
      }
    }
  }

  /** Other products keep their stock. */
  lemma UntouchedProducts(products: map<Id, Product>, rows: seq<OrderItem>, id: Id)
    requires Decrement(products, rows).Some? && id in products
    requires forall k :: 0 <= k < |rows| ==> rows[k].productId != id
    ensures id in Decrement(products, rows).value && Decrement(products, rows).value[id] == products[id]
  {
    DecrementEffect(products, rows);
    QtyOfAbsent(rows, id);
  }

  /** The order items made from a cart with one line per product ask for
      exactly that line's quantity of each product. */
  lemma {:induction false} SnapshotQty(orderId: Id, items: seq<CartItem>, k: nat)
    requires UniqueLines(items) && k < |items|
    ensures QtyOf(Snapshot(orderId, items), items[k].productId) == items[k].qty
  {
    var rows := Snapshot(orderId, items);
    assert rows[1..] == Snapshot(orderId, items[1..]);
    if k == 0 {
      QtyOfAbsent(rows[1..], items[0].productId);
    } else {
      SnapshotQty(orderId, items[1..], k - 1);
    }
  }

  /** The transaction's loop, on a copy of the products that is committed
      only when every update went through. */
  method DecrementStock(products: map<Id, Product>, rows: seq<OrderItem>) returns (r: Option<map<Id, Product>>)
    ensures r == Decrement(products, rows)
  {
    var stock := products;
    for i := 0 to |rows|
      invariant Decrement(products, rows) == Decrement(stock, rows[i..])
    {
      assert rows[i..][1..] == rows[i + 1..];
      var id := rows[i].productId;
      if id !in stock {
        return None;
      }
      stock := stock[id := stock[id].(stock := stock[id].stock - rows[i].qty)];
    }
    r := Some(stock);
  }

  /** The order after settlement: paid now, carrying the payment result if
      one was given (an absent one leaves the field as it was). */
  function Paid(o: Order, paymentResult: Option<PaymentResult>, now: Time): (r: Order)
    ensures r.isPaid && r.paidAt == Some(now)
    ensures r.paymentResult == (if paymentResult.Some? then paymentResult else o.paymentResult)
    ensures r.(isPaid := o.isPaid, paidAt := o.paidAt, paymentResult := o.paymentResult) == o
  {
    o.(isPaid := true, paidAt := Some(now), paymentResult := if paymentResult.Some? then paymentResult else o.paymentResult)
  }

  /** `updateOrderToPaid`. It throws; the callers catch. */
  method UpdateOrderToPaid(db: Db, orderId: Id, paymentResult: Option<PaymentResult>, now: Time)
    returns (outcome: Result<()>)
    requires db.Valid()
    modifies db
    ensures db.Valid()
    ensures db.users == old(db.users) && db.carts == old(db.carts) && db.orderItems == old(db.orderItems)
    ensures OrdersAdvance(old(db.orders), db.orders)
    ensures outcome.Err? ==> db.products == old(db.products) && db.orders == old(db.orders)
    ensures orderId !in old(db.orders) ==> outcome == Err(Thrown(ORDER_NOT_FOUND))
    ensures orderId in old(db.orders) && old(db.orders)[orderId].isPaid ==> outcome == Err(Thrown(ALREADY_PAID))
    ensures orderId in old(db.orders) && !old(db.orders)[orderId].isPaid ==>
      var settled := Decrement(old(db.products), ItemsOfOrder(old(db.orderItems), orderId));
      && (settled.None? ==> outcome == Err(StoreRejected))
      && (settled.Some? ==> outcome == Ok(()))
      && (settled.Some? ==> db.products == settled.value)
      && (settled.Some? ==> db.orders == old(db.orders)[orderId := Paid(old(db.orders)[orderId], paymentResult, now)])
  {
    if orderId !in db.orders {
      return Err(Thrown(ORDER_NOT_FOUND));
    }
    var order := db.orders[orderId];
    if order.isPaid {
      return Err(Thrown(ALREADY_PAID));
    }
    var rows := ItemsOfOrder(db.orderItems, orderId);
    var settled := DecrementStock(db.products, rows);
    if settled.None? {
      return Err(StoreRejected);
    }
    DecrementEffect(db.products, rows);
    db.products := settled.value;
    db.orders := db.orders[orderId := Paid(order, paymentResult, now)];
    outcome := Ok(());
  }

  /** `updateOrderToPaidCOD`: settlement without a payment result, its
      errors turned into a reply. */
  method UpdateOrderToPaidCOD(db: Db, orderId: Id, now: Time) returns (res: ActionResult)
    requires db.Valid()
    modifies db
    ensures db.Valid()
    ensures db.users == old(db.users) && db.carts == old(db.carts) && db.orderItems == old(db.orderItems)
    ensures OrdersAdvance(old(db.orders), db.orders)
    ensures !res.Success() ==> db.products == old(db.products) && db.orders == old(db.orders)
    ensures orderId !in old(db.orders) ==> res == Failed(Thrown(ORDER_NOT_FOUND))
    ensures orderId in old(db.orders) && old(db.orders)[orderId].isPaid ==> res == Failed(Thrown(ALREADY_PAID))
    ensures orderId in old(db.orders) && !old(db.orders)[orderId].isPaid ==>
      var settled := Decrement(old(db.products), ItemsOfOrder(old(db.orderItems), orderId));
      && (settled.None? ==> res == Failed(StoreRejected))
      && (settled.Some? ==> res == Succeeded(MARKED_PAID, None))
    ensures res.Success() ==>
      && res == Succeeded(MARKED_PAID, None)
      && orderId in old(db.orders) && !old(db.orders)[orderId].isPaid
      && db.orders == old(db.orders)[orderId := Paid(old(db.orders)[orderId], None, now)]
      && Decrement(old(db.products), ItemsOfOrder(old(db.orderItems), orderId)) == Some(db.products)
  {
    var outcome := UpdateOrderToPaid(db, orderId, None, now);
    if outcome.Err? {
      return Failed(outcome.error);
    }
    res := Succeeded(MARKED_PAID, None);
  }

  /** `deliverOrder`: only a paid order can be marked delivered. */
  method DeliverOrder(db: Db, orderId: Id, now: Time) returns (res: ActionResult)
    requires db.Valid()
    modifies db
    ensures db.Valid()
    ensures db.products == old(db.products) && db.users == old(db.users)
    ensures db.carts == old(db.carts) && db.orderItems == old(db.orderItems)
    ensures OrdersAdvance(old(db.orders), db.orders)
    ensures !res.Success() ==> db.orders == old(db.orders)
    ensures orderId !in old(db.orders) ==> res == Failed(Thrown(ORDER_NOT_FOUND))
    ensures orderId in old(db.orders) && !old(db.orders)[orderId].isPaid ==> res == Failed(Thrown(NOT_PAID))
    ensures orderId in old(db.orders) && old(db.orders)[orderId].isPaid ==>
      && res == Succeeded(MARKED_DELIVERED, None)
      && db.orders == old(db.orders)[orderId := old(db.orders)[orderId].(isDelivered := true, deliveredAt := Some(now))]
  {
    if orderId !in db.orders {
      return Failed(Thrown(ORDER_NOT_FOUND));
    }
    var order := db.orders[orderId];
    if !order.isPaid {
      return Failed(Thrown(NOT_PAID));
    }
    db.orders := db.orders[orderId := order.(isDelivered := true, deliveredAt := Some(now))];
    res := Succeeded(MARKED_DELIVERED, None);
  }

  /** `deleteOrder`: Prisma's `delete` throws when there is no such row. */
  method DeleteOrder(db: Db, orderId: Id) returns (res: ActionResult)
    requires db.Valid()
    modifies db
    ensures db.Valid()
    ensures db.products == old(db.products) && db.users == old(db.users)
    ensures db.carts == old(db.carts) && db.orderItems == old(db.orderItems)
    ensures OrdersAdvance(old(db.orders), db.orders)
    ensures orderId !in old(db.orders) ==> res == Failed(StoreRejected) && db.orders == old(db.orders)
    ensures orderId in old(db.orders) ==>
      res == Succeeded(ORDER_DELETED, None) && db.orders == old(db.orders) - {orderId}
  {
    if orderId !in db.orders {
      return Failed(StoreRejected);
    }
    db.orders := db.orders - {orderId};
    res := Succeeded(ORDER_DELETED, None);
  }

  // ---------------------------------------------------------------------
  // Listing orders
  // ---------------------------------------------------------------------

  /** A page of rows and the page count. */
  datatype Listing<T> = Listing(data: seq<T>, totalPages: Option<int>)

  predicate NewestFirst(rows: seq<Order>) {
    forall i, j :: 0 <= i < j < |rows| ==> rows[i].createdAt >= rows[j].createdAt
  }

  /** The table as `orderBy: {createdAt: "desc"}` returns it. */
  function Newest(table: seq<Order>): (r: seq<Order>)
    ensures multiset(r) == multiset(table)
    ensures NewestFirst(r)
  {
    Sorting.SortByRank(table, (o: Order) => -o.createdAt)
  }

  /** `where: {userId}`, keeping the table's order. */
  function OrdersOf(rows: seq<Order>, userId: Id): (r: seq<Order>)
    ensures forall x :: multiset(r)[x] == if x.userId == userId then multiset(rows)[x] else 0
    ensures forall x :: x in r <==> x in rows && x.userId == userId
    ensures NewestFirst(rows) ==> NewestFirst(r)
  {
    if rows == [] then []
    else
      var rest := OrdersOf(rows[1..], userId);
      assert multiset(rows) == multiset{rows[0]} + multiset(rows[1..]) by {
        assert rows == [rows[0]] + rows[1..];
      }
      if rows[0].userId == userId then
        NewestHead(rows, rest);
        [rows[0]] + rest
      else rest
  }

  /** The newest row of a newest-first list may precede any selection of
      the others that keeps their order. */
  lemma NewestHead(rows: seq<Order>, rest: seq<Order>)
    requires |rows| > 0
    requires forall x :: x in rest ==> x in rows[1..]
    ensures NewestFirst(rows) && NewestFirst(rest) ==> NewestFirst([rows[0]] + rest)
  {
    var r := [rows[0]] + rest;
    if NewestFirst(rows) && NewestFirst(rest) {
      forall i, j | 0 <= i < j < |r| ensures r[i].createdAt >= r[j].createdAt {
        if i == 0 {
          assert r[j] == rest[j - 1] && rest[j - 1] in rows[1..];
          var m :| 0 <= m < |rows| - 1 && rows[1..][m] == r[j];
          assert rows[m + 1] == r[j];
        } else {
          assert r[i] == rest[i - 1] && r[j] == rest[j - 1];
        }
      }
    }
  }

  /** How many orders a user has does not depend on the order of the
      table. */
  lemma OwnCount(a: seq<Order>, b: seq<Order>)
    requires multiset(a) == multiset(b)
    ensures forall userId :: |OrdersOf(a, userId)| == |OrdersOf(b, userId)|
  {
    forall userId ensures |OrdersOf(a, userId)| == |OrdersOf(b, userId)| {
      assert multiset(OrdersOf(a, userId)) == multiset(OrdersOf(b, userId));
      assert |multiset(OrdersOf(a, userId))| == |OrdersOf(a, userId)|;
      assert |multiset(OrdersOf(b, userId))| == |OrdersOf(b, userId)|;
    }
  }

  /** A page of rows from a newest-first list is newest first and comes
      from the list. */
  lemma PageNewestFirst(rows: seq<Order>, page: int, limit: nat)
    requires Paging.PageOf(rows, page, limit).Ok?
    ensures NewestFirst(rows) ==> NewestFirst(Paging.PageOf(rows, page, limit).value)
    ensures forall x :: x in Paging.PageOf(rows, page, limit).value ==> x in rows
  {
    var p := Paging.PageOf(rows, page, limit).value;
    var s := Paging.Skip(page, limit);
    if NewestFirst(rows) {
      forall i, j | 0 <= i < j < |p| ensures p[i].createdAt >= p[j].createdAt {
        assert p[i] == rows[s + i] && p[j] == rows[s + j];
      }
    }
    forall x | x in p ensures x in rows {
      var k :| 0 <= k < |p| && p[k] == x;
      assert p[k] == rows[s + k];
    }
  }

  /** `getMyOrders`: the caller's orders, newest first, a page at a time,
      and the page count over them. With no session the action throws; a
      session without a user id leaves `where: {userId: undefined}`, which
      Prisma reads as no condition. */
  function GetMyOrders(table: seq<Order>, session: Option<Session>, page: int, limit: nat): (r: Result<Listing<Order>>)
    ensures session.None? ==> r == Err(Thrown(NOT_AUTHORIZED))
    ensures session.Some? ==> (r.Err? <==> Paging.Skip(page, limit) < 0)
    ensures r.Ok? ==> NewestFirst(r.value.data) && forall x :: x in r.value.data ==> x in table
    ensures session.Some? && session.value.userId.Some? ==>
      && (r.Ok? ==> r.value.totalPages == Paging.TotalPages(|OrdersOf(table, session.value.userId.value)|, limit))
      && (r.Ok? ==> forall x :: x in r.value.data ==> x.userId == session.value.userId.value)
    ensures session.Some? && session.value.userId.Some? && r.Ok? ==>
      r.value.data == Paging.PageOf(OrdersOf(Newest(table), session.value.userId.value), page, limit).value
    ensures session.Some? && session.value.userId.None? && r.Ok? ==>
      r.value.totalPages == Paging.TotalPages(|table|, limit)
    ensures session.Some? && session.value.userId.None? && r.Ok? ==>
      r.value.data == Paging.PageOf(Newest(table), page, limit).value
  {
    if session.None? then Err(Thrown(NOT_AUTHORIZED))
    else
      var ordered := Newest(table);
      assert forall x :: x in ordered ==> x in table by {
        forall x | x in ordered ensures x in table {
          assert x in multiset(ordered);
        }
      }
      assert |ordered| == |table| by {
        assert |multiset(ordered)| == |multiset(table)|;
      }
      var rows := if session.value.userId.Some? then OrdersOf(ordered, session.value.userId.value) else ordered;
      OwnCount(ordered, table);
      match Paging.PageOf(rows, page, limit)
      case Err(e) => Err(e)
      case Ok(data) =>
        PageNewestFirst(rows, page, limit);
        Ok(Listing(data, Paging.TotalPages(|rows|, limit)))
  }

  /** `getAllOrders`: every order, newest first, a page at a time. */
  function GetAllOrders(table: seq<Order>, page: int, limit: nat): (r: Result<Listing<Order>>)
    ensures r.Err? <==> Paging.Skip(page, limit) < 0
    ensures r.Ok? ==> r.value.totalPages == Paging.TotalPages(|table|, limit)
    ensures r.Ok? ==> NewestFirst(r.value.data) && forall x :: x in r.value.data ==> x in table
    ensures r.Ok? ==> r.value.data == Paging.PageOf(Newest(table), page, limit).value
  {
    var ordered := Newest(table);
    assert forall x :: x in ordered ==> x in table by {
      forall x | x in ordered ensures x in table {
        assert x in multiset(ordered);
      }
    }
    assert |ordered| == |table| by {
      assert |multiset(ordered)| == |multiset(table)|;
    }
    match Paging.PageOf(ordered, page, limit)
    case Err(e) => Err(e)
    case Ok(data) =>
      PageNewestFirst(ordered, page, limit);
      Ok(Listing(data, Paging.TotalPages(|table|, limit)))
  }
}
