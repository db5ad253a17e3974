/**
 * What each handler of the application's top-level component does to the
 * state it owns (the cart lines, the applied coupon, the orders and the
 * delivery tasks), written as functions of the old state, with the
 * properties the handlers promise proved about those functions.
 */
module AppSpec {
  import opened Wrappers
  import opened Arrays
  import opened Text
  import opened Types
  import opened Cart
  import MockData

  // ---------------------------------------------------------------- the cart

  /**
   * The cart invariant the cart handlers keep: every line has a positive
   * quantity, carries its menu item's restaurant id, holds an item of the
   * catalog, and no menu item has two lines.
   */
  predicate CartWellFormed(cart: seq<CartItem>, catalog: seq<MenuItem>) {
    && (forall i :: 0 <= i < |cart| ==>
          && cart[i].quantity >= 1
          && cart[i].restaurantId == cart[i].menuItem.restaurantId
          && cart[i].menuItem in catalog)
    && (forall i, j :: 0 <= i < j < |cart| ==> cart[i].menuItem.id != cart[j].menuItem.id)
  }

  /** No two catalog items share an id. */
  predicate UniqueIds(catalog: seq<MenuItem>) {
    forall i, j :: 0 <= i < j < |catalog| ==> catalog[i].id != catalog[j].id
  }

  /** Whether a line is the one for `itemId`. */
  function LineFor(itemId: string): CartItem -> bool {
    (l: CartItem) => l.menuItem.id == itemId
  }

  /** Whether a line is for some other item than `itemId`. */
  function OtherLine(itemId: string): CartItem -> bool {
    (l: CartItem) => l.menuItem.id != itemId
  }

  /** Whether a catalog item has the id `itemId`. */
  function ItemWithId(itemId: string): MenuItem -> bool {
    (m: MenuItem) => m.id == itemId
  }

  /** Every line for `itemId` gets one more unit. */
  function Incremented(cart: seq<CartItem>, itemId: string): seq<CartItem> {
    seq(|cart|, i requires 0 <= i < |cart| =>
      if cart[i].menuItem.id == itemId then cart[i].(quantity := cart[i].quantity + 1) else cart[i])
  }

  /** Every line for `itemId` gets the given quantity. */
  function WithQuantity(cart: seq<CartItem>, itemId: string, quantity: int): seq<CartItem> {
    seq(|cart|, i requires 0 <= i < |cart| =>
      if cart[i].menuItem.id == itemId then cart[i].(quantity := quantity) else cart[i])
  }

  /** handleRemoveItem: the lines of every other menu item, in order. */
  function RemovedCart(cart: seq<CartItem>, itemId: string): seq<CartItem> {
    Filter(cart, OtherLine(itemId))
  }

  /**
   * handleAddToCart: nothing for an id the catalog lacks; one more unit on an
   * existing line; otherwise a new line of quantity 1 at the end.
   */
  function AddedCart(cart: seq<CartItem>, catalog: seq<MenuItem>, itemId: string): seq<CartItem> {
    match Find(catalog, ItemWithId(itemId))
    case None => cart
    case Some(m) =>
      if Find(cart, LineFor(itemId)).Some? then Incremented(cart, itemId)
      else cart + [CartItem(m, 1, m.restaurantId)]
  }

  /** handleUpdateQuantity: a quantity of 0 or less removes the line. */
  function UpdatedCart(cart: seq<CartItem>, itemId: string, quantity: int): seq<CartItem> {
    if quantity <= 0 then RemovedCart(cart, itemId) else WithQuantity(cart, itemId, quantity)
  }

  /** Adding an id the catalog does not hold leaves the cart as it was. */
  lemma AddUnknownLeavesCart(cart: seq<CartItem>, catalog: seq<MenuItem>, itemId: string)
    requires forall k :: 0 <= k < |catalog| ==> catalog[k].id != itemId
    ensures AddedCart(cart, catalog, itemId) == cart
  {
  }

  /** Adding an item that already has a line raises that line by one and touches nothing else. */
  lemma AddExistingIncrementsLine(cart: seq<CartItem>, catalog: seq<MenuItem>, itemId: string, k: int)
    requires CartWellFormed(cart, catalog)
    requires 0 <= k < |cart| && cart[k].menuItem.id == itemId
    ensures AddedCart(cart, catalog, itemId) == cart[k := cart[k].(quantity := cart[k].quantity + 1)]
  {
    var c :| 0 <= c < |catalog| && catalog[c] == cart[k].menuItem;
    assert catalog[c].id == itemId;
    assert Find(cart, LineFor(itemId)).Some?;
    assert Incremented(cart, itemId) == cart[k := cart[k].(quantity := cart[k].quantity + 1)];
  }

  /**
   * Adding a catalog item with no line yet appends one line of quantity 1 for
   * the first catalog item with that id, carrying that item's restaurant id.
   */
  lemma AddNewAppendsLine(cart: seq<CartItem>, catalog: seq<MenuItem>, itemId: string, c: int)
    requires 0 <= c < |catalog| && catalog[c].id == itemId
    requires forall j :: 0 <= j < c ==> catalog[j].id != itemId
    requires forall i :: 0 <= i < |cart| ==> cart[i].menuItem.id != itemId
    ensures AddedCart(cart, catalog, itemId) == cart + [CartItem(catalog[c], 1, catalog[c].restaurantId)]
  {
    FindFirst(catalog, ItemWithId(itemId), c);
  }

  /** Adding keeps the cart invariant; in particular menu-item ids in the cart stay unique. */
  lemma AddKeepsCartWellFormed(cart: seq<CartItem>, catalog: seq<MenuItem>, itemId: string)
    requires CartWellFormed(cart, catalog)
    ensures CartWellFormed(AddedCart(cart, catalog, itemId), catalog)
  {
    var k := FindIndex(cart, LineFor(itemId));
    if Find(catalog, ItemWithId(itemId)).Some? && k >= 0 {
      AddExistingIncrementsLine(cart, catalog, itemId, k);
    }
  }

  /** The subtotal after replacing one line changes by the difference of the two lines' totals. */
  lemma SubtotalReplaceLine(cart: seq<CartItem>, k: int, line: CartItem)
    requires 0 <= k < |cart|
    ensures Subtotal(cart[k := line]) == Subtotal(cart) - LineTotal(cart[k]) + LineTotal(line)
  {
    var pre, post := cart[..k], cart[k + 1..];
    assert cart == pre + [cart[k]] + post;
    assert cart[k := line] == pre + [line] + post;
    SubtotalAppend(pre + [cart[k]], post);
    SubtotalAppend(pre, [cart[k]]);
    SubtotalAppend(pre + [line], post);
    SubtotalAppend(pre, [line]);
    SubtotalOfLines([cart[k]]);
    SubtotalOfLines([line]);
  }

  /** One more unit on a line adds the item's price to the line total. */
  lemma LineTotalPlusOne(line: CartItem)
    ensures LineTotal(line.(quantity := line.quantity + 1)) == LineTotal(line) + line.menuItem.price
  {
    var p, q := line.menuItem.price, line.quantity as real;
    assert p * (q + 1.0) == p * q + p;
  }

  /**
   * With a catalog of unique ids, adding catalog item `c` raises the subtotal
   * by exactly its price and leaves a line holding that item.
   */
  lemma AddRaisesSubtotal(cart: seq<CartItem>, catalog: seq<MenuItem>, c: int)
    requires CartWellFormed(cart, catalog) && UniqueIds(catalog)
    requires 0 <= c < |catalog|
    ensures var r := AddedCart(cart, catalog, catalog[c].id);
            && Subtotal(r) == Subtotal(cart) + catalog[c].price
            && exists i :: 0 <= i < |r| && r[i].menuItem == catalog[c]
  {
    var itemId := catalog[c].id;
    var k := FindIndex(cart, LineFor(itemId));
    if k >= 0 {
      AddExistingRaisesSubtotal(cart, catalog, c, k);
    } else {
      assert forall j :: 0 <= j < c ==> catalog[j].id != itemId;
      AddNewAppendsLine(cart, catalog, itemId, c);
      var line := CartItem(catalog[c], 1, catalog[c].restaurantId);
      SubtotalAppend(cart, [line]);
      SubtotalOfLines([line]);
      assert (cart + [line])[|cart|].menuItem == catalog[c];
    }
  }

  /** The existing-line half of AddRaisesSubtotal. */
  lemma AddExistingRaisesSubtotal(cart: seq<CartItem>, catalog: seq<MenuItem>, c: int, k: int)
    requires CartWellFormed(cart, catalog) && UniqueIds(catalog)
    requires 0 <= c < |catalog| && 0 <= k < |cart| && cart[k].menuItem.id == catalog[c].id
    ensures var r := AddedCart(cart, catalog, catalog[c].id);
            && Subtotal(r) == Subtotal(cart) + catalog[c].price
            && r[k].menuItem == catalog[c]
  {
    AddExistingIncrementsLine(cart, catalog, catalog[c].id, k);
    var line := cart[k].(quantity := cart[k].quantity + 1);
    SubtotalReplaceLine(cart, k, line);
    assert cart[k].menuItem == catalog[c];
    LineTotalPlusOne(cart[k]);
  }

  /** Removing an item the cart has no line for leaves the cart unchanged. */
  lemma RemoveAbsentItem(cart: seq<CartItem>, itemId: string)
    requires forall i :: 0 <= i < |cart| ==> cart[i].menuItem.id != itemId
    ensures RemovedCart(cart, itemId) == cart
  {
    FilterKeepsAll(cart, OtherLine(itemId));
  }

  /** Removing an item that has a line deletes exactly that line and keeps the rest in order. */
  lemma RemoveDeletesLine(cart: seq<CartItem>, catalog: seq<MenuItem>, itemId: string, k: int)
    requires CartWellFormed(cart, catalog)
    requires 0 <= k < |cart| && cart[k].menuItem.id == itemId
    ensures RemovedCart(cart, itemId) == cart[..k] + cart[k + 1..]
  {
    RemoveOnlyLine(cart, itemId, k);
  }

  /** RemoveDeletesLine, for any cart where position `k` holds the item's only line. */
  lemma RemoveOnlyLine(cart: seq<CartItem>, itemId: string, k: int)
    requires 0 <= k < |cart| && cart[k].menuItem.id == itemId
    requires forall i :: 0 <= i < |cart| && i != k ==> cart[i].menuItem.id != itemId
    ensures RemovedCart(cart, itemId) == cart[..k] + cart[k + 1..]
  {
    var pre, post := cart[..k], cart[k + 1..];
    assert RemovedCart(pre, itemId) == pre by {
      assert forall i :: 0 <= i < |pre| ==> pre[i] == cart[i];
      RemoveAbsentItem(pre, itemId);
    }
    assert RemovedCart(post, itemId) == post by {
      assert forall i :: 0 <= i < |post| ==> post[i] == cart[k + 1 + i];
      RemoveAbsentItem(post, itemId);
    }
    assert cart == pre + [cart[k]] + post;
    FilterSkipsOne(pre, cart[k], post, OtherLine(itemId));
  }

  /** Deleting one line of a well-formed cart leaves a well-formed cart. */
  lemma DeleteLineKeepsWellFormed(cart: seq<CartItem>, catalog: seq<MenuItem>, k: int)
    requires CartWellFormed(cart, catalog) && 0 <= k < |cart|
    ensures CartWellFormed(cart[..k] + cart[k + 1..], catalog)
  {
    var r := cart[..k] + cart[k + 1..];
    assert forall i :: 0 <= i < |r| ==> r[i] == cart[if i < k then i else i + 1];
  }

  /**
   * Updating to a quantity of 0 or less removes the item's line; to a
   * positive quantity, sets that line's quantity and nothing else. Either way
   * an id with no line leaves the cart as it was.
   */
  lemma UpdateSpec(cart: seq<CartItem>, catalog: seq<MenuItem>, itemId: string, quantity: int, k: int)
    requires CartWellFormed(cart, catalog)
    requires 0 <= k < |cart| && cart[k].menuItem.id == itemId
    ensures quantity <= 0 ==> UpdatedCart(cart, itemId, quantity) == cart[..k] + cart[k + 1..]
    ensures quantity > 0 ==> UpdatedCart(cart, itemId, quantity) == cart[k := cart[k].(quantity := quantity)]
  {
    if quantity <= 0 {
      RemoveDeletesLine(cart, catalog, itemId, k);
    } else {
      assert WithQuantity(cart, itemId, quantity) == cart[k := cart[k].(quantity := quantity)];
    }
  }

  /** Updating an item that has no line leaves the cart as it was. */
  lemma UpdateAbsentItem(cart: seq<CartItem>, itemId: string, quantity: int)
    requires forall i :: 0 <= i < |cart| ==> cart[i].menuItem.id != itemId
    ensures UpdatedCart(cart, itemId, quantity) == cart
  {
    if quantity <= 0 {
      RemoveAbsentItem(cart, itemId);
    }
  }

  /** Updating keeps the cart invariant: no line is left with a quantity below 1. */
  lemma UpdateKeepsCartWellFormed(cart: seq<CartItem>, catalog: seq<MenuItem>, itemId: string, quantity: int)
    requires CartWellFormed(cart, catalog)
    ensures CartWellFormed(UpdatedCart(cart, itemId, quantity), catalog)
  {
    var k := FindIndex(cart, LineFor(itemId));
    if k >= 0 {
      UpdateSpec(cart, catalog, itemId, quantity, k);
      if quantity <= 0 {
        DeleteLineKeepsWellFormed(cart, catalog, k);
      }
    } else {
      UpdateAbsentItem(cart, itemId, quantity);
    }
  }

  /** The minus control on a line of quantity 1 requests 0, which removes that line. */
  lemma DecrementLastUnitRemovesLine(cart: seq<CartItem>, catalog: seq<MenuItem>, k: int)
    requires CartWellFormed(cart, catalog)
    requires 0 <= k < |cart| && cart[k].quantity == 1
    ensures UpdatedCart(cart, cart[k].menuItem.id, DecrementRequest(cart[k])) == cart[..k] + cart[k + 1..]
  {
    UpdateSpec(cart, catalog, cart[k].menuItem.id, DecrementRequest(cart[k]), k);
  }

  /** The plus control on a line has the same effect as adding that line's item again. */
  lemma IncrementMatchesAdd(cart: seq<CartItem>, catalog: seq<MenuItem>, k: int)
    requires CartWellFormed(cart, catalog)
    requires 0 <= k < |cart|
    ensures UpdatedCart(cart, cart[k].menuItem.id, IncrementRequest(cart[k]))
         == AddedCart(cart, catalog, cart[k].menuItem.id)
  {
    UpdateSpec(cart, catalog, cart[k].menuItem.id, IncrementRequest(cart[k]), k);
    AddExistingIncrementsLine(cart, catalog, cart[k].menuItem.id, k);
  }

  // ------------------------------------------------------------- the coupon

  /** The result of handleApplyCoupon, one value per message it shows. */
  datatype CouponOutcome = Applied(coupon: Coupon) | InvalidCode | MinimumNotMet(minOrderValue: real)

  /** Whether a coupon's code equals `code` ignoring case. */
  function CodeMatches(code: string): Coupon -> bool {
    (c: Coupon) => ToLower(c.code) == ToLower(code)
  }

  /** The first catalog coupon whose code equals `code` ignoring case. */
  function FindCoupon(catalog: seq<Coupon>, code: string): Option<Coupon> {
    Find(catalog, CodeMatches(code))
  }

  function ApplyCouponOutcome(catalog: seq<Coupon>, cart: seq<CartItem>, code: string): CouponOutcome {
    match FindCoupon(catalog, code)
    case None => InvalidCode
    case Some(c) =>
      if Subtotal(cart) >= c.minOrderValue then Applied(c) else MinimumNotMet(c.minOrderValue)
  }

  /** The applied coupon after an attempt: replaced on success, otherwise as it was. */
  function CouponAfter(current: Option<Coupon>, outcome: CouponOutcome): Option<Coupon> {
    if outcome.Applied? then Some(outcome.coupon) else current
  }

  /**
   * A code matching catalog coupon `i` (ignoring case, with no earlier match)
   * applies that coupon exactly when the subtotal reaches its minimum, and
   * otherwise reports the minimum.
   */
  lemma ApplyMatchedCoupon(catalog: seq<Coupon>, cart: seq<CartItem>, code: string, i: int)
    requires 0 <= i < |catalog| && ToLower(catalog[i].code) == ToLower(code)
    requires forall j :: 0 <= j < i ==> ToLower(catalog[j].code) != ToLower(code)
    ensures ApplyCouponOutcome(catalog, cart, code) ==
              if Subtotal(cart) >= catalog[i].minOrderValue then Applied(catalog[i])
              else MinimumNotMet(catalog[i].minOrderValue)
  {
    FindFirst(catalog, CodeMatches(code), i);
  }

  /** A code matching no catalog coupon, in any case, is rejected as invalid. */
  lemma ApplyUnknownCode(catalog: seq<Coupon>, cart: seq<CartItem>, code: string)
    requires forall j :: 0 <= j < |catalog| ==> ToLower(catalog[j].code) != ToLower(code)
    ensures ApplyCouponOutcome(catalog, cart, code) == InvalidCode
  {
  }

  /**
   * A rejected attempt leaves the applied coupon unchanged; a successful one
   * replaces whatever was applied instead of stacking; repeating an attempt on
   * the same cart changes nothing more.
   */
  lemma CouponAfterSpec(catalog: seq<Coupon>, cart: seq<CartItem>, code: string, current: Option<Coupon>)
    ensures var o := ApplyCouponOutcome(catalog, cart, code);
            && (!o.Applied? ==> CouponAfter(current, o) == current)
            && (o.Applied? ==> CouponAfter(current, o) == Some(o.coupon) && o.coupon in catalog
                               && Subtotal(cart) >= o.coupon.minOrderValue)
            && CouponAfter(CouponAfter(current, o), o) == CouponAfter(current, o)
  {
  }

  /**
   * In the seed catalog a code naming coupon `i` in any letter case finds that
   * very coupon: the codes are distinct ignoring case.
   */
  lemma CatalogCouponLookup(cart: seq<CartItem>, code: string, i: int)
    requires 0 <= i < |MockData.Coupons| && ToLower(code) == ToLower(MockData.Coupons[i].code)
    ensures ApplyCouponOutcome(MockData.Coupons, cart, code) ==
              if Subtotal(cart) >= MockData.Coupons[i].minOrderValue then Applied(MockData.Coupons[i])
              else MinimumNotMet(MockData.Coupons[i].minOrderValue)
  {
    MockData.CouponCodesDistinctIgnoringCase();
    ApplyMatchedCoupon(MockData.Coupons, cart, code, i);
  }

  // ------------------------------------------------------- placing an order

  /** The order handlePlaceOrder records; the fee is always charged, unlike the cart view's. */
  function NewOrder(cart: seq<CartItem>, coupon: Option<Coupon>, orderId: string, address: string): Order
    requires |cart| > 0
  {
    var subtotal := Subtotal(cart);
    var discount := Discount(subtotal, coupon);
    Order(orderId, "user1", cart[0].restaurantId, cart, subtotal, DeliveryFee, discount,
          subtotal + DeliveryFee - discount, Confirmed, address,
          if coupon.Some? then Some(coupon.value.code) else None)
  }

  /** Whether a restaurant has the id `restaurantId`. */
  function RestaurantWithId(restaurantId: string): Restaurant -> bool {
    (r: Restaurant) => r.id == restaurantId
  }

  /** The delivery task created with an order, when the first line's restaurant is in the catalog. */
  function NewTask(restaurants: seq<Restaurant>, cart: seq<CartItem>, orderId: string, taskId: string,
                   address: string): Option<DeliveryTask>
    requires |cart| > 0
  {
    match Find(restaurants, RestaurantWithId(cart[0].restaurantId))
    case None => None
    case Some(r) =>
      Some(DeliveryTask(taskId, orderId, r.name, "123 Restaurant St, City", "Customer", address, TaskAssigned))
  }

  /**
   * The placed order's breakdown: the cart's own subtotal and lines, a fee
   * of 40, the discount rule of the cart view, total = subtotal + 40 -
   * discount, status confirmed, and the applied coupon's code.
   */
  lemma NewOrderBreakdown(cart: seq<CartItem>, coupon: Option<Coupon>, orderId: string, address: string)
    requires |cart| > 0
    ensures var o := NewOrder(cart, coupon, orderId, address);
            && o.id == orderId && o.items == cart && o.restaurantId == cart[0].restaurantId
            && o.subtotal == Subtotal(cart) && o.deliveryFee == 40.0
            && o.total == o.subtotal + 40.0 - o.discount
            && (coupon.None? || o.subtotal < coupon.value.minOrderValue ==> o.discount == 0.0)
            && (coupon.Some? && o.subtotal >= coupon.value.minOrderValue ==>
                  o.discount == CouponValue(o.subtotal, coupon.value))
            && o.status == Confirmed && o.deliveryAddress == address
            && (o.couponCode.Some? <==> coupon.Some?)
            && (coupon.Some? ==> o.couponCode.value == coupon.value.code)
  {
  }

  /**
   * For a non-empty cart of catalog items the order is charged exactly the
   * total the cart view showed; only a zero subtotal makes the two differ,
   * by the fee the cart view drops.
   */
  lemma PlacedTotalMatchesCartView(cart: seq<CartItem>, coupon: Option<Coupon>, orderId: string, address: string)
    requires |cart| > 0 && CartWellFormed(cart, MockData.MenuItems)
    ensures NewOrder(cart, coupon, orderId, address).total == CartTotal(cart, coupon)
  {
    MockData.MenuItemsWellFormed();
    assert forall i :: 0 <= i < |cart| ==> cart[i].menuItem.price > 0.0;
    SubtotalPositive(cart);
  }

  /** On a zero subtotal the order charges 40 more than the cart view showed. */
  lemma PlacedTotalOnZeroSubtotal(cart: seq<CartItem>, coupon: Option<Coupon>, orderId: string, address: string)
    requires |cart| > 0 && Subtotal(cart) == 0.0
    ensures NewOrder(cart, coupon, orderId, address).total == CartTotal(cart, coupon) + DeliveryFee
  {
  }

  /**
   * A task is created exactly when the first line's restaurant is in the
   * catalog; it is assigned, points at the new order and delivers to the
   * checkout address.
   */
  lemma NewTaskSpec(restaurants: seq<Restaurant>, cart: seq<CartItem>, orderId: string, taskId: string, address: string)
    requires |cart| > 0
    ensures var t := NewTask(restaurants, cart, orderId, taskId, address);
            && (t.Some? <==> exists k :: 0 <= k < |restaurants| && restaurants[k].id == cart[0].restaurantId)
            && (t.Some? ==> t.value.id == taskId && t.value.orderId == orderId &&
                            t.value.status == TaskAssigned && t.value.customerAddress == address)
  {
  }

  /** Every non-empty cart of seed-catalog items gets a delivery task when it is placed. */
  lemma CatalogCartGetsTask(cart: seq<CartItem>, orderId: string, taskId: string, address: string)
    requires |cart| > 0 && CartWellFormed(cart, MockData.MenuItems)
    ensures NewTask(MockData.Restaurants, cart, orderId, taskId, address).Some?
  {
    MockData.MenuItemsWellFormed();
    var m := cart[0].menuItem;
    var i :| 0 <= i < |MockData.MenuItems| && MockData.MenuItems[i] == m;
    var k :| 0 <= k < |MockData.Restaurants| && MockData.Restaurants[k].id == MockData.MenuItems[i].restaurantId;
    NewTaskSpec(MockData.Restaurants, cart, orderId, taskId, address);
  }

  // ------------------------------------------------- status rewrites by id

  /** handleAcceptOrder and handleRejectOrder: every order with the id gets the status. */
  function WithOrderStatus(orders: seq<Order>, orderId: string, status: OrderStatus): seq<Order> {
    seq(|orders|, i requires 0 <= i < |orders| =>
      if orders[i].id == orderId then orders[i].(status := status) else orders[i])
  }

  /** The task half of handlePickupTask and handleCompleteTask. */
  function WithTaskStatus(tasks: seq<DeliveryTask>, taskId: string, status: TaskStatus): seq<DeliveryTask> {
    seq(|tasks|, i requires 0 <= i < |tasks| =>
      if tasks[i].id == taskId then tasks[i].(status := status) else tasks[i])
  }

  /** Whether a task has the id `taskId`. */
  function TaskWithId(taskId: string): DeliveryTask -> bool {
    (t: DeliveryTask) => t.id == taskId
  }

  /** The order half: the orders referenced by the first task with the id get the status. */
  function OrdersAfterTaskEvent(orders: seq<Order>, tasks: seq<DeliveryTask>, taskId: string,
                                status: OrderStatus): seq<Order> {
    match Find(tasks, TaskWithId(taskId))
    case None => orders
    case Some(t) => WithOrderStatus(orders, t.orderId, status)
  }

  /** The two order lists agree everywhere except possibly in statuses. */
  predicate SameOrdersButStatus(a: seq<Order>, b: seq<Order>) {
    |a| == |b| && forall i :: 0 <= i < |a| ==> b[i] == a[i].(status := b[i].status)
  }

  /**
   * A status rewrite changes only the status of the orders with that id, to
   * the new status whatever it was before (no check of the prior status: a
   * delivered order accepted again goes back to preparing).
   */
  lemma OrderStatusRewrite(orders: seq<Order>, orderId: string, status: OrderStatus)
    ensures var r := WithOrderStatus(orders, orderId, status);
            && SameOrdersButStatus(orders, r)
            && forall i :: 0 <= i < |orders| ==>
                 r[i].status == if orders[i].id == orderId then status else orders[i].status
  {
  }

  /** The task rewrite likewise changes only the status of the tasks with that id. */
  lemma TaskStatusRewrite(tasks: seq<DeliveryTask>, taskId: string, status: TaskStatus)
    ensures var r := WithTaskStatus(tasks, taskId, status);
            && |r| == |tasks|
            && forall i :: 0 <= i < |tasks| ==>
                 r[i] == tasks[i].(status := r[i].status) &&
                 r[i].status == if tasks[i].id == taskId then status else tasks[i].status
  {
  }

  /**
   * A task event moves every order referenced by the task (the first with
   * that id) to the given status, and leaves the others alone.
   */
  lemma TaskEventDrivesOrder(orders: seq<Order>, tasks: seq<DeliveryTask>, taskId: string,
                             status: OrderStatus, k: int)
    requires 0 <= k < |tasks| && tasks[k].id == taskId
    requires forall j :: 0 <= j < k ==> tasks[j].id != taskId
    ensures var r := OrdersAfterTaskEvent(orders, tasks, taskId, status);
            && SameOrdersButStatus(orders, r)
            && forall i :: 0 <= i < |orders| ==>
                 r[i].status == if orders[i].id == tasks[k].orderId then status else orders[i].status
  {
    FindFirst(tasks, TaskWithId(taskId), k);
  }

  /** With no such task, or a task whose order does not exist, the orders stay as they were. */
  lemma TaskEventWithoutOrder(orders: seq<Order>, tasks: seq<DeliveryTask>, taskId: string, status: OrderStatus)
    requires forall k :: 0 <= k < |tasks| && tasks[k].id == taskId ==>
               forall i :: 0 <= i < |orders| ==> orders[i].id != tasks[k].orderId
    ensures OrdersAfterTaskEvent(orders, tasks, taskId, status) == orders
  {
  }

  /**
   * Picking up and then completing a task leaves the task delivered and its
   * order delivered, whatever the order's status was before.
   */
  lemma PickupThenCompleteDelivers(orders: seq<Order>, tasks: seq<DeliveryTask>, taskId: string, k: int, j: int)
    requires 0 <= k < |tasks| && tasks[k].id == taskId
    requires forall i :: 0 <= i < k ==> tasks[i].id != taskId
    requires 0 <= j < |orders| && orders[j].id == tasks[k].orderId
    ensures var tasks1 := WithTaskStatus(tasks, taskId, TaskPickedUp);
            var orders1 := OrdersAfterTaskEvent(orders, tasks, taskId, OutForDelivery);
            && orders1[j].status == OutForDelivery && tasks1[k].status == TaskPickedUp
            && WithTaskStatus(tasks1, taskId, TaskDelivered)[k].status == TaskDelivered
            && OrdersAfterTaskEvent(orders1, tasks1, taskId, Delivered)[j].status == Delivered
  {
    var tasks1 := WithTaskStatus(tasks, taskId, TaskPickedUp);
    TaskEventDrivesOrder(orders, tasks, taskId, OutForDelivery, k);
    var orders1 := OrdersAfterTaskEvent(orders, tasks, taskId, OutForDelivery);
    assert tasks1[k].orderId == tasks[k].orderId;
    assert forall i :: 0 <= i < k ==> tasks1[i].id != taskId;
    TaskEventDrivesOrder(orders1, tasks1, taskId, Delivered, k);
  }

  /** Completing the seed task TASK002 changes no order: its ORD003 does not exist. */
  lemma SeedTask002ChangesNoOrder(status: OrderStatus)
    ensures OrdersAfterTaskEvent(MockData.Orders, MockData.Tasks, "TASK002", status) == MockData.Orders
  {
    MockData.SeedTaskDangling();
    assert MockData.Tasks[0].id[6] != "TASK002"[6];
    FindFirst(MockData.Tasks, TaskWithId("TASK002"), 1);
  }

  // ---------------------------------------------------- the checkout amount

  /**
   * The amount the checkout form is given, as App.tsx:301-320 writes it: the
   * coupon's value is taken off whenever a coupon is applied, without the
   * minimum-order check. (`maxDiscount || Infinity` caps exactly when the cap
   * is truthy, as CouponValue does.)
   */
  function CheckoutAmountAsWritten(cart: seq<CartItem>, coupon: Option<Coupon>): real {
    var subtotal := Subtotal(cart);
    subtotal + DeliveryFee - (if coupon.Some? then CouponValue(subtotal, coupon.value) else 0.0)
  }

  /** The amount the checkout form should show: what the placed order will charge. */
  function CheckoutAmount(cart: seq<CartItem>, coupon: Option<Coupon>): (amount: real)
    ensures |cart| > 0 ==> forall orderId, address :: amount == NewOrder(cart, coupon, orderId, address).total
  {
    var subtotal := Subtotal(cart);
    subtotal + DeliveryFee - Discount(subtotal, coupon)
  }

  /** While the coupon's minimum is met (or none is applied) the written amount is the charged amount. */
  lemma CheckoutAmountAgreesWhenEligible(cart: seq<CartItem>, coupon: Option<Coupon>)
    requires coupon.None? || Subtotal(cart) >= coupon.value.minOrderValue
    ensures CheckoutAmountAsWritten(cart, coupon) == CheckoutAmount(cart, coupon)
  {
  }

  /** Adding two different items to an empty cart gives one line of each, in the order added. */
  lemma AddTwoNewLines(catalog: seq<MenuItem>, a: int, b: int)
    requires 0 <= a < |catalog| && 0 <= b < |catalog| && catalog[a].id != catalog[b].id
    requires forall j :: 0 <= j < a ==> catalog[j].id != catalog[a].id
    requires forall j :: 0 <= j < b ==> catalog[j].id != catalog[b].id
    ensures AddedCart(AddedCart([], catalog, catalog[a].id), catalog, catalog[b].id)
         == [CartItem(catalog[a], 1, catalog[a].restaurantId), CartItem(catalog[b], 1, catalog[b].restaurantId)]
  {
    var lineA := CartItem(catalog[a], 1, catalog[a].restaurantId);
    AddNewAppendsLine([], catalog, catalog[a].id, a);
    assert [] + [lineA] == [lineA];
    AddNewAppendsLine([lineA], catalog, catalog[b].id, b);
  }

  /** Adding Butter Chicken then Garlic Naan to an empty cart gives one line of each. */
  lemma MismatchCartBuilt()
    ensures AddedCart(AddedCart([], MockData.MenuItems, "m1"), MockData.MenuItems, "m4")
         == [CartItem(MockData.MenuItems[0], 1, "1"), CartItem(MockData.MenuItems[3], 1, "1")]
  {
    MockData.MenuIdsUnique();
    assert MockData.MenuItems[0].id == "m1" && MockData.MenuItems[3].id == "m4";
    assert MockData.MenuItems[0].restaurantId == "1" && MockData.MenuItems[3].restaurantId == "1";
    AddTwoNewLines(MockData.MenuItems, 0, 3);
  }

  /** FIRST50 applies to that cart (410), and removing the chicken leaves the naan alone (60). */
  lemma MismatchCouponThenShrink()
    ensures var cart0 := [CartItem(MockData.MenuItems[0], 1, "1"), CartItem(MockData.MenuItems[3], 1, "1")];
            && ApplyCouponOutcome(MockData.Coupons, cart0, "FIRST50") == Applied(MockData.Coupons[0])
            && UpdatedCart(cart0, "m1", 0) == [CartItem(MockData.MenuItems[3], 1, "1")]
  {
    var line1, line4 := CartItem(MockData.MenuItems[0], 1, "1"), CartItem(MockData.MenuItems[3], 1, "1");
    var cart0 := [line1, line4];
    SubtotalOfLines(cart0);
    assert Subtotal(cart0) == 410.0;
    CatalogCouponLookup(cart0, "FIRST50", 0);
    RemoveOnlyLine(cart0, "m1", 0);
  }

  /**
   * The written amount is wrong once the cart shrinks below an applied
   * coupon's minimum, which the handlers allow: FIRST50 applies to Butter
   * Chicken and Garlic Naan (410); removing the chicken leaves it applied on
   * 60; the checkout form then shows 70 while the placed order charges 100.
   */
  lemma CheckoutAmountAsWrittenMismatch()
    ensures var cart0 := AddedCart(AddedCart([], MockData.MenuItems, "m1"), MockData.MenuItems, "m4");
            var outcome := ApplyCouponOutcome(MockData.Coupons, cart0, "FIRST50");
            var cart1 := UpdatedCart(cart0, "m1", 0);
            && outcome == Applied(MockData.Coupons[0])
            && CheckoutAmountAsWritten(cart1, Some(outcome.coupon)) == 70.0
            && NewOrder(cart1, Some(outcome.coupon), "ORD", "addr").total == 100.0
  {
    MismatchCartBuilt();
    MismatchCouponThenShrink();
    MismatchAmounts();
  }

  /** On the naan alone (60) with FIRST50 applied, the written amount is 70 and the charged total 100. */
  lemma MismatchAmounts()
    ensures var cart1 := [CartItem(MockData.MenuItems[3], 1, "1")];
            && CheckoutAmountAsWritten(cart1, Some(MockData.Coupons[0])) == 70.0
            && NewOrder(cart1, Some(MockData.Coupons[0]), "ORD", "addr").total == 100.0
  {
    var line4 := CartItem(MockData.MenuItems[3], 1, "1");
    SubtotalOfLines([line4]);
    assert Subtotal([line4]) == 60.0;
    var c := MockData.Coupons[0];
    assert CouponValue(60.0, c) == 30.0;
    assert Discount(60.0, Some(c)) == 0.0;
  }
}
