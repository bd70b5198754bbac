/** The database behind the server actions: one object whose tables the
    actions read and overwrite. Products and orders are only ever reached by
    their key, so they are maps; carts, users and order items are also
    searched by other columns with `findFirst`, which returns the first row
    in storage order, so they are sequences of rows. */
module Store {

  import opened Common
  import opened Records

  /** At most one line per product in a cart. */
  predicate UniqueLines(items: seq<CartItem>) {
    forall i, j :: 0 <= i < j < |items| ==> items[i].productId != items[j].productId
  }

  predicate DistinctCartIds(carts: seq<Cart>) {
    forall i, j :: 0 <= i < j < |carts| ==> carts[i].id != carts[j].id
  }

  predicate DistinctUserIds(users: seq<User>) {
    forall i, j :: 0 <= i < j < |users| ==> users[i].id != users[j].id
  }

  /** The order state machine: delivery only ever follows payment. */
  predicate DeliveredOnlyIfPaid(orders: map<Id, Order>) {
    forall id | id in orders :: orders[id].isDelivered ==> orders[id].isPaid
  }

  /** From `before` to `after` no order went back: a paid order is still
      paid, a delivered one still delivered, and what was ordered, by whom,
      to where and for how much is as it was. Orders may be added or removed. */
  predicate OrdersAdvance(before: map<Id, Order>, after: map<Id, Order>) {
    forall id | id in before && id in after ::
      && (before[id].isPaid ==> after[id].isPaid)
      && (before[id].isDelivered ==> after[id].isDelivered)
      && after[id].userId == before[id].userId
      && after[id].shippingAddress == before[id].shippingAddress
      && after[id].paymentMethod == before[id].paymentMethod
      && after[id].prices == before[id].prices
      && after[id].createdAt == before[id].createdAt
  }

  /** Any run of steps that each advance the orders advances them. */
  lemma AdvanceTransitive(a: map<Id, Order>, b: map<Id, Order>, c: map<Id, Order>)
    requires OrdersAdvance(a, b) && OrdersAdvance(b, c)
    requires forall id | id in a && id in c :: id in b
    ensures OrdersAdvance(a, c)
  {
  }

  /** `prisma.cart.findFirst({where: {id}})`. */
  function CartIndex(carts: seq<Cart>, id: Id): (r: Option<nat>)
    requires DistinctCartIds(carts)
    ensures r.Some? <==> exists i :: 0 <= i < |carts| && carts[i].id == id
    ensures r.Some? ==> r.value < |carts| && carts[r.value].id == id
  {
    FindFirst(carts, (c: Cart) => c.id == id)
  }

  /** `prisma.cart.update({where: {id}, data: {items, ...prices}})`: the row
      with that key gets the new lines and prices; no such row is an error. */
  function SetCartContents(carts: seq<Cart>, id: Id, items: seq<CartItem>, prices: Prices): (r: Result<seq<Cart>>)
    requires DistinctCartIds(carts)
    ensures r.Err? <==> forall i :: 0 <= i < |carts| ==> carts[i].id != id
    ensures r.Err? ==> r.error == StoreRejected
    ensures forall i :: 0 <= i < |carts| && carts[i].id == id ==>
      r == Ok(carts[i := carts[i].(items := items, prices := prices)])
  {
    match CartIndex(carts, id)
    case None => Err(StoreRejected)
    case Some(i) => Ok(carts[i := carts[i].(items := items, prices := prices)])
  }

  class Db {
    var products: map<Id, Product>
    var users: seq<User>
    var carts: seq<Cart>
    var orders: map<Id, Order>
    var orderItems: seq<OrderItem>

    /** What every action keeps: keys are the records' own ids and are
        unique, carts hold one line per product, and no order is delivered
        before it is paid. */
    ghost predicate Valid()
      reads this
    {
      && (forall id | id in products :: products[id].id == id)
      && (forall id | id in orders :: orders[id].id == id)
      && DistinctCartIds(carts)
      && DistinctUserIds(users)
      && (forall i | 0 <= i < |carts| :: UniqueLines(carts[i].items))
      && DeliveredOnlyIfPaid(orders)
    }

    /** An empty store. */
    constructor ()
      ensures Valid()
      ensures products == map[] && users == [] && carts == [] && orders == map[] && orderItems == []
    {
      products, users, carts, orders, orderItems := map[], [], [], map[], [];
    }
  }
}
