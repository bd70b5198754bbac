/** The cart: price derivation, the lookup of the caller's cart, and the
    add-one / remove-one edits of its lines (lib/actions/cart.actions.ts). */
module CartActions {

  import opened Common
  import opened Records
  import opened Store
  import Money

  const CART_SESSION_NOT_FOUND := "Cart session not found"
  const PRODUCT_NOT_FOUND := "Product not found"
  const OUT_OF_STOCK := "Product out of stock"
  const CART_NOT_FOUND := "Cart not found"
  const ITEM_NOT_FOUND := "Item not found"

  /** Shipping is free only above $100.00; otherwise it is $10.00. */
  const FREE_SHIPPING_ABOVE := 10000
  const SHIPPING_FEE := 1000
  const TAX_PERCENT := 15

  // ---------------------------------------------------------------------
  // Pricing
  // ---------------------------------------------------------------------

  function LineTotal(item: CartItem): int {
    item.price * item.qty
  }

  /** `items.reduce((acc, item) => acc + price * qty, 0)`, folded from the left. */
  function ItemsPrice(items: seq<CartItem>): int {
    if items == [] then 0 else ItemsPrice(items[..|items| - 1]) + LineTotal(items[|items| - 1])
  }

  /** `calcPrice`: the items total, the shipping fee, 15% tax rounded to the
      nearest cent, and their exact sum. */
  function CalcPrice(items: seq<CartItem>): (r: Prices)
    ensures r.itemsPrice == ItemsPrice(items)
    ensures r.shippingPrice == 0 <==> r.itemsPrice > FREE_SHIPPING_ABOVE
    ensures r.shippingPrice == SHIPPING_FEE <==> r.itemsPrice <= FREE_SHIPPING_ABOVE
    ensures 100 * r.taxPrice - 50 <= TAX_PERCENT * r.itemsPrice < 100 * r.taxPrice + 50
    ensures r.totalPrice == r.itemsPrice + r.shippingPrice + r.taxPrice
  {
    var itemsPrice := ItemsPrice(items);
    var shippingPrice := if itemsPrice > FREE_SHIPPING_ABOVE then 0 else SHIPPING_FEE;
    var taxPrice := Money.RoundToCent(TAX_PERCENT * itemsPrice);
    Prices(itemsPrice, shippingPrice, taxPrice, itemsPrice + shippingPrice + taxPrice)
  }

  /** The threshold is exclusive: exactly $100.00 still pays $10.00 shipping. */
  lemma ShippingBoundary(atHundred: seq<CartItem>, aboveHundred: seq<CartItem>)
    requires ItemsPrice(atHundred) == 10000 && ItemsPrice(aboveHundred) == 10001
    ensures CalcPrice(atHundred).shippingPrice == 1000
    ensures CalcPrice(aboveHundred).shippingPrice == 0
  {
  }

  /** Two worked carts: 2 x $60.00 and 1 x $30.00. */
  lemma PriceExamples()
    ensures CalcPrice([CartItem("p", "n", "s", 2, "i", 6000)]) == Prices(12000, 0, 1800, 13800)
    ensures CalcPrice([CartItem("p", "n", "s", 1, "i", 3000)]) == Prices(3000, 1000, 450, 4450)
  {
    var a := [CartItem("p", "n", "s", 2, "i", 6000)];
    assert a[..0] == [];
    var b := [CartItem("p", "n", "s", 1, "i", 3000)];
    assert b[..0] == [];
  }

  /** Appending a line adds its total. */
  lemma ItemsPriceAppend(items: seq<CartItem>, x: CartItem)
    ensures ItemsPrice(items + [x]) == ItemsPrice(items) + LineTotal(x)
  {
    assert (items + [x])[..|items|] == items;
  }

  /** Changing one line's quantity changes the items total by the unit
      price times the change. */
  lemma {:induction false} ItemsPriceSetQty(items: seq<CartItem>, k: nat, q: int)
    requires k < |items|
    ensures ItemsPrice(items[k := items[k].(qty := q)])
         == ItemsPrice(items) + items[k].price * (q - items[k].qty)
  {
    var n := |items|;
    var edited := items[k := items[k].(qty := q)];
    assert edited[..n - 1] == if k < n - 1 then items[..n - 1][k := items[k].(qty := q)] else items[..n - 1];
    if k < n - 1 {
      ItemsPriceSetQty(items[..n - 1], k, q);
    }
  }

  /** Dropping one line subtracts its total. */
  lemma {:induction false} ItemsPriceRemoveAt(items: seq<CartItem>, k: nat)
    requires k < |items|
    ensures ItemsPrice(items[..k] + items[k + 1..]) == ItemsPrice(items) - LineTotal(items[k])
  {
    var n := |items|;
    if k == n - 1 {
      assert items[..k] + items[k + 1..] == items[..n - 1];
    } else {
      var rest := items[..k] + items[k + 1..];
      assert rest[..|rest| - 1] == items[..n - 1][..k] + items[..n - 1][k + 1..];
      assert rest[|rest| - 1] == items[n - 1];
      ItemsPriceRemoveAt(items[..n - 1], k);
    }
  }

  // ---------------------------------------------------------------------
  // Line edits
  // ---------------------------------------------------------------------

  /** `items.find((x) => x.productId === productId)`, as a position. */
  function LineIndex(items: seq<CartItem>, productId: Id): (r: Option<nat>)
    ensures r.Some? ==> r.value < |items| && items[r.value].productId == productId
    ensures r.None? <==> forall i :: 0 <= i < |items| ==> items[i].productId != productId
    ensures UniqueLines(items) ==>
      forall i :: 0 <= i < |items| && items[i].productId == productId ==> r == Some(i)
  {
    FindFirst(items, (x: CartItem) => x.productId == productId)
  }

  /** What adding `item` does to an existing cart's lines when the product
      has `stock` units: a line already there goes up by exactly one unit
      (if stock allows one more), a new product is appended at the end (if
      any is in stock), and nothing else moves. */
  function AddToLines(items: seq<CartItem>, item: CartItem, stock: int): (r: Result<seq<CartItem>>)
    ensures r.Err? ==> r.error == Thrown(OUT_OF_STOCK)
    ensures UniqueLines(items) ==>
      forall k :: 0 <= k < |items| && items[k].productId == item.productId ==>
        && (r.Ok? <==> stock >= items[k].qty + 1)
        && (r.Ok? ==> r.value == items[k := items[k].(qty := items[k].qty + 1)])
    ensures (forall k :: 0 <= k < |items| ==> items[k].productId != item.productId) ==>
      && (r.Ok? <==> stock >= 1)
      && (r.Ok? ==> r.value == items + [item])
    ensures UniqueLines(items) && r.Ok? ==> UniqueLines(r.value)
  {
    match LineIndex(items, item.productId)
    case Some(k) =>
      if stock < items[k].qty + 1 then Err(Thrown(OUT_OF_STOCK))
      else Ok(items[k := items[k].(qty := items[k].qty + 1)])
    case None =>
      if stock < 1 then Err(Thrown(OUT_OF_STOCK)) else Ok(items + [item])
  }

  /** `items.filter((x) => x.productId !== productId)`. */
  function WithoutProduct(items: seq<CartItem>, productId: Id): (r: seq<CartItem>)
    ensures |r| <= |items|
    ensures forall x :: x in r ==> x in items && x.productId != productId
  {
    if items == [] then []
    else if items[0].productId != productId then [items[0]] + WithoutProduct(items[1..], productId)
    else WithoutProduct(items[1..], productId)
  }

  /** Filtering out a product no line holds changes nothing. */
  lemma {:induction false} WithoutAbsent(items: seq<CartItem>, productId: Id)
    requires forall i :: 0 <= i < |items| ==> items[i].productId != productId
    ensures WithoutProduct(items, productId) == items
  {
    if items != [] {
      WithoutAbsent(items[1..], productId);
    }
  }

  /** Filtering a product out of lines that hold it once removes exactly that line. */
  lemma {:induction false} WithoutUniqueLine(items: seq<CartItem>, k: nat)
    requires UniqueLines(items) && k < |items|
    ensures WithoutProduct(items, items[k].productId) == items[..k] + items[k + 1..]
  {
    var pid := items[k].productId;
    if k == 0 {
      WithoutAbsent(items[1..], pid);
    } else {
      assert items[1..][k - 1] == items[k];
      WithoutUniqueLine(items[1..], k - 1);
      assert items[1..][..k - 1] + items[1..][k..] == items[1..k] + items[k + 1..];
      assert items[..k] + items[k + 1..] == [items[0]] + (items[1..k] + items[k + 1..]);
    }
  }

  /** Dropping a line or changing a quantity keeps one line per product. */
  lemma UniqueAfterEdit(items: seq<CartItem>, k: nat, q: int)
    requires UniqueLines(items) && k < |items|
    ensures UniqueLines(items[..k] + items[k + 1..])
    ensures UniqueLines(items[k := items[k].(qty := q)])
  {
    var rest := items[..k] + items[k + 1..];
    forall i, j | 0 <= i < j < |rest| ensures rest[i].productId != rest[j].productId {
      var i' := if i < k then i else i + 1;
      var j' := if j < k then j else j + 1;
      assert rest[i] == items[i'] && rest[j] == items[j'];
    }
  }

  /** What removing one unit of `productId` does to a cart's lines: a line
      holding one unit disappears, any other line loses one unit, and a
      product without a line is "Item not found". */
  function RemoveFromLines(items: seq<CartItem>, productId: Id): (r: Result<seq<CartItem>>)
    ensures r.Err? <==> forall i :: 0 <= i < |items| ==> items[i].productId != productId
    ensures r.Err? ==> r.error == Thrown(ITEM_NOT_FOUND)
    ensures UniqueLines(items) ==>
      forall k :: 0 <= k < |items| && items[k].productId == productId ==>
        r == Ok(if items[k].qty == 1 then items[..k] + items[k + 1..]
                else items[k := items[k].(qty := items[k].qty - 1)])
    ensures UniqueLines(items) && r.Ok? ==> UniqueLines(r.value)
  {
    match LineIndex(items, productId)
    case None => Err(Thrown(ITEM_NOT_FOUND))
    case Some(k) =>
      if items[k].qty == 1 then
        var kept := WithoutProduct(items, productId);
        if UniqueLines(items) then
          WithoutUniqueLine(items, k);
          UniqueAfterEdit(items, k, 0);
          Ok(kept)
        else
          Ok(kept)
      else
        if UniqueLines(items) then
          UniqueAfterEdit(items, k, items[k].qty - 1);
          Ok(items[k := items[k].(qty := items[k].qty - 1)])
        else
          Ok(items[k := items[k].(qty := items[k].qty - 1)])
  }

  /** Adding a unit and then removing one gives the lines back, both for a
      line already there (holding at least one unit) and for a new line
      added with a quantity of one. */
  lemma AddThenRemoveRestores(items: seq<CartItem>, item: CartItem, stock: int)
    requires UniqueLines(items)
    requires AddToLines(items, item, stock).Ok?
    requires forall k :: 0 <= k < |items| && items[k].productId == item.productId ==> items[k].qty != 0
    requires (forall k :: 0 <= k < |items| ==> items[k].productId != item.productId) ==> item.qty == 1
    ensures RemoveFromLines(AddToLines(items, item, stock).value, item.productId) == Ok(items)
  {
    var added := AddToLines(items, item, stock).value;
    match LineIndex(items, item.productId)
    case Some(k) =>
      assert added == items[k := items[k].(qty := items[k].qty + 1)];
      assert added[k := added[k].(qty := added[k].qty - 1)] == items;
    case None =>
      var n := |items|;
      assert added == items + [item];
      assert added[..n] + added[n + 1..] == items;
  }

  /** Every successful add raises the items total by the unit price of the
      line that went up, or by the new line's total. */
  lemma AddRaisesItemsPrice(items: seq<CartItem>, item: CartItem, stock: int)
    requires UniqueLines(items)
    requires AddToLines(items, item, stock).Ok?
    ensures var r := AddToLines(items, item, stock).value;
      match LineIndex(items, item.productId)
      case Some(k) => ItemsPrice(r) == ItemsPrice(items) + items[k].price
      case None => ItemsPrice(r) == ItemsPrice(items) + LineTotal(item)
  {
    match LineIndex(items, item.productId)
    case Some(k) =>
      ItemsPriceSetQty(items, k, items[k].qty + 1);
      assert items[k].price * (items[k].qty + 1 - items[k].qty) == items[k].price;
    case None => ItemsPriceAppend(items, item);
  }

  /** Every successful removal lowers the items total by exactly the unit
      price of the product removed. */
  lemma RemoveLowersItemsPrice(items: seq<CartItem>, k: nat)
    requires UniqueLines(items) && k < |items|
    ensures RemoveFromLines(items, items[k].productId).Ok?
    ensures ItemsPrice(RemoveFromLines(items, items[k].productId).value) == ItemsPrice(items) - items[k].price
  {
    var edited := RemovedOneUnit(items, k);
    assert RemoveFromLines(items, items[k].productId) == Ok(edited);
  }

  /** The lines after one unit of line `k` is taken away, with the items
      total they then add up to. */
  function RemovedOneUnit(items: seq<CartItem>, k: nat): (r: seq<CartItem>)
    requires k < |items|
    ensures ItemsPrice(r) == ItemsPrice(items) - items[k].price
  {
    if items[k].qty == 1 then
      ItemsPriceRemoveAt(items, k);
      items[..k] + items[k + 1..]
    else
      ItemsPriceSetQty(items, k, items[k].qty - 1);
      assert items[k].price * (items[k].qty - 1 - items[k].qty) == -items[k].price;
      items[k := items[k].(qty := items[k].qty - 1)]
  }

  // ---------------------------------------------------------------------
  // The caller's cart
  // ---------------------------------------------------------------------

  /** `session?.user?.id`, kept only when it is truthy. */
  function SignedInUser(sessionUserId: Option<Id>): Option<Id> {
    if Truthy(sessionUserId) then sessionUserId else None
  }

  /** Where `getMyCart` finds the caller's cart: with no cart cookie there is
      none; a signed-in caller's cart is the first one the user owns; an
      anonymous caller's is the first one with the cookie's session id. */
  function MyCartIndex(carts: seq<Cart>, cookie: Option<string>, sessionUserId: Option<Id>): (r: Option<nat>)
    ensures !Truthy(cookie) ==> r.None?
    ensures r.Some? ==> r.value < |carts|
    ensures Truthy(cookie) && Truthy(sessionUserId) ==>
      && (r.Some? ==> carts[r.value].userId == sessionUserId)
      && (r.Some? ==> forall j :: 0 <= j < r.value ==> carts[j].userId != sessionUserId)
      && (r.None? <==> forall i :: 0 <= i < |carts| ==> carts[i].userId != sessionUserId)
    ensures Truthy(cookie) && !Truthy(sessionUserId) ==>
      && (r.Some? ==> carts[r.value].sessionCartId == cookie.value)
      && (r.Some? ==> forall j :: 0 <= j < r.value ==> carts[j].sessionCartId != cookie.value)
      && (r.None? <==> forall i :: 0 <= i < |carts| ==> carts[i].sessionCartId != cookie.value)
  {
    if !Truthy(cookie) then None
    else if Truthy(sessionUserId) then FindFirst(carts, (c: Cart) => c.userId == sessionUserId)
    else FindFirst(carts, (c: Cart) => c.sessionCartId == cookie.value)
  }

  /** `getMyCart`: the caller's cart, or nothing. */
  function GetMyCart(carts: seq<Cart>, cookie: Option<string>, sessionUserId: Option<Id>): (r: Option<Cart>)
    ensures r.Some? ==> r.value in carts && Truthy(cookie)
    ensures r.Some? && Truthy(sessionUserId) ==> r.value.userId == sessionUserId
    ensures r.Some? && !Truthy(sessionUserId) ==> r.value.sessionCartId == cookie.value
    ensures r.None? <==> MyCartIndex(carts, cookie, sessionUserId).None?
    ensures r.Some? ==> r.value == carts[MyCartIndex(carts, cookie, sessionUserId).value]
  {
    match MyCartIndex(carts, cookie, sessionUserId)
    case None => None
    case Some(i) => Some(carts[i])
  }

  /** The cart `addItemToCart` creates when the caller has none. */
  function NewCart(id: Id, cookie: string, sessionUserId: Option<Id>, item: CartItem): Cart {
    Cart(id, SignedInUser(sessionUserId), cookie, [item], CalcPrice([item]))
  }

  // ---------------------------------------------------------------------
  // The actions
  // ---------------------------------------------------------------------

  /** `prisma.cart.update({where: {id: cart.id}, data: {items, ...calcPrice(items)}})`
      for the caller's cart, found at position `i`. */
  method SaveCartLines(db: Db, i: nat, items: seq<CartItem>)
    requires db.Valid() && i < |db.carts| && UniqueLines(items)
    modifies db
    ensures db.Valid()
    ensures db.carts == old(db.carts)[i := old(db.carts)[i].(items := items, prices := CalcPrice(items))]
    ensures db.products == old(db.products) && db.users == old(db.users)
    ensures db.orders == old(db.orders) && db.orderItems == old(db.orderItems)
  {
    var written := SetCartContents(db.carts, db.carts[i].id, items, CalcPrice(items));
    db.carts := written.value;
  }

  /** `addItemToCart`. `itemSchema` and `cartSchema` stand for Zod's
      `cartItemSchema` and `insertCartSchema`; `newCartId` is the key the
      database would give a new cart. */
  method AddItemToCart(db: Db, cookie: Option<string>, sessionUserId: Option<Id>, data: CartItem,
                       itemSchema: CartItem -> bool, cartSchema: Cart -> bool, newCartId: Id)
    returns (res: ActionResult)
    requires db.Valid()
    modifies db
    ensures db.Valid()
    ensures db.products == old(db.products) && db.users == old(db.users)
    ensures db.orders == old(db.orders) && db.orderItems == old(db.orderItems)
    ensures !res.Success() ==> db.carts == old(db.carts)
    ensures !Truthy(cookie) ==> res == Failed(Thrown(CART_SESSION_NOT_FOUND))
    ensures Truthy(cookie) && !itemSchema(data) ==> res == Failed(SchemaRejected)
    ensures Truthy(cookie) && itemSchema(data) && data.productId !in old(db.products) ==>
      res == Failed(Thrown(PRODUCT_NOT_FOUND))
    ensures Truthy(cookie) && itemSchema(data) && data.productId in old(db.products) &&
            MyCartIndex(old(db.carts), cookie, sessionUserId).None? ==>
      var created := NewCart(newCartId, cookie.value, sessionUserId, data);
      && (!cartSchema(created) ==> res == Failed(SchemaRejected))
      && (cartSchema(created) && (exists i :: 0 <= i < |old(db.carts)| && old(db.carts)[i].id == newCartId) ==>
            res == Failed(StoreRejected))
      && (res.Success() <==> cartSchema(created) && forall i :: 0 <= i < |old(db.carts)| ==> old(db.carts)[i].id != newCartId)
      && (res.Success() ==> res == Succeeded(old(db.products)[data.productId].name + " added to cart\"", None))
      && (res.Success() ==> db.carts == old(db.carts) + [created])
    ensures Truthy(cookie) && itemSchema(data) && data.productId in old(db.products) &&
            MyCartIndex(old(db.carts), cookie, sessionUserId).Some? ==>
      var i := MyCartIndex(old(db.carts), cookie, sessionUserId).value;
      var edit := AddToLines(old(db.carts)[i].items, data, old(db.products)[data.productId].stock);
      && (edit.Err? ==> res == Failed(edit.error))
      && (edit.Ok? ==> res == Succeeded(old(db.products)[data.productId].name +
                         (if LineIndex(old(db.carts)[i].items, data.productId).Some? then " updated in cart" else " added to cart"), None))
      && (edit.Ok? ==> db.carts == old(db.carts)[i := old(db.carts)[i].(items := edit.value, prices := CalcPrice(edit.value))])
  {
    if !Truthy(cookie) {
      return Failed(Thrown(CART_SESSION_NOT_FOUND));
    }
    var found := MyCartIndex(db.carts, cookie, sessionUserId);
    if !itemSchema(data) {
      return Failed(SchemaRejected);
    }
    if data.productId !in db.products {
      return Failed(Thrown(PRODUCT_NOT_FOUND));
    }
    var product := db.products[data.productId];
    if found.None? {
      var cart := NewCart(newCartId, cookie.value, sessionUserId, data);
      if !cartSchema(cart) {
        return Failed(SchemaRejected);
      }
      if CartIndex(db.carts, newCartId).Some? {
        return Failed(StoreRejected);
      }
      db.carts := db.carts + [cart];
      return Succeeded(product.name + " added to cart\"", None);
    }
    var existed := LineIndex(db.carts[found.value].items, data.productId).Some?;
    var edit := AddToCartLines(db, found.value, data, product.stock);
    if edit.Err? {
      return Failed(edit.error);
    }
    res := Succeeded(product.name + (if existed then " updated in cart" else " added to cart"), None);
  }

  /** The existing-cart half of `addItemToCart`: raise the product's line by
      one or append it, refusing when stock runs short, and write the cart
      back with its prices recomputed. */
  method AddToCartLines(db: Db, i: nat, data: CartItem, stock: int) returns (edit: Result<seq<CartItem>>)
    requires db.Valid() && i < |db.carts|
    modifies db
    ensures db.Valid()
    ensures edit == AddToLines(old(db.carts)[i].items, data, stock)
    ensures edit.Err? ==> db.carts == old(db.carts)
    ensures edit.Ok? ==> db.carts == old(db.carts)[i := old(db.carts)[i].(items := edit.value, prices := CalcPrice(edit.value))]
    ensures db.products == old(db.products) && db.users == old(db.users)
    ensures db.orders == old(db.orders) && db.orderItems == old(db.orderItems)
  {
    var cart := db.carts[i];
    var items := cart.items;
    var existing := LineIndex(items, data.productId);
    if existing.Some? {
      var k := existing.value;
      if stock < items[k].qty + 1 {
        return Err(Thrown(OUT_OF_STOCK));
      }
      items := items[k := items[k].(qty := items[k].qty + 1)];
    } else {
      if stock < 1 {
        return Err(Thrown(OUT_OF_STOCK));
      }
      items := items + [data];
    }
    assert AddToLines(cart.items, data, stock) == Ok(items);
    SaveCartLines(db, i, items);
    edit := Ok(items);
  }

  /** `removeItemFromCart`. */
  method RemoveItemFromCart(db: Db, cookie: Option<string>, sessionUserId: Option<Id>, productId: Id)
    returns (res: ActionResult)
    requires db.Valid()
    modifies db
    ensures db.Valid()
    ensures db.products == old(db.products) && db.users == old(db.users)
    ensures db.orders == old(db.orders) && db.orderItems == old(db.orderItems)
    ensures !res.Success() ==> db.carts == old(db.carts)
    ensures !Truthy(cookie) ==> res == Failed(Thrown(CART_SESSION_NOT_FOUND))
    ensures Truthy(cookie) && productId !in old(db.products) ==> res == Failed(Thrown(PRODUCT_NOT_FOUND))
    ensures Truthy(cookie) && productId in old(db.products) && MyCartIndex(old(db.carts), cookie, sessionUserId).None? ==>
      res == Failed(Thrown(CART_NOT_FOUND))
    ensures Truthy(cookie) && productId in old(db.products) &&
            MyCartIndex(old(db.carts), cookie, sessionUserId).Some? ==>
      var i := MyCartIndex(old(db.carts), cookie, sessionUserId).value;
      var edit := RemoveFromLines(old(db.carts)[i].items, productId);
      && (edit.Err? ==> res == Failed(edit.error))
      && (edit.Ok? ==> res == Succeeded(old(db.products)[productId].name + " removed from cart", None))
      && (edit.Ok? ==> db.carts == old(db.carts)[i := old(db.carts)[i].(items := edit.value, prices := CalcPrice(edit.value))])
  {
    if !Truthy(cookie) {
      return Failed(Thrown(CART_SESSION_NOT_FOUND));
    }
    if productId !in db.products {
      return Failed(Thrown(PRODUCT_NOT_FOUND));
    }
    var product := db.products[productId];
    var found := MyCartIndex(db.carts, cookie, sessionUserId);
    if found.None? {
      return Failed(Thrown(CART_NOT_FOUND));
    }
    var cart := db.carts[found.value];
    var items := cart.items;
    var exist := LineIndex(items, productId);
    if exist.None? {
      return Failed(Thrown(ITEM_NOT_FOUND));
    }
    var k := exist.value;
    if items[k].qty == 1 {
      items := WithoutProduct(items, productId);
      WithoutUniqueLine(cart.items, k);
    } else {
      items := items[k := items[k].(qty := items[k].qty - 1)];
    }
    assert RemoveFromLines(cart.items, productId) == Ok(items);
    SaveCartLines(db, found.value, items);
    res := Succeeded(product.name + " removed from cart", None);
  }
}
