/**
 * The application's top-level component as an object: the React state it
 * owns becomes fields, and each handler becomes a method that replaces those
 * fields the way its setters do. Every method is proved to leave the state
 * its specification function in AppSpec prescribes.
 */
module App {
  import opened Wrappers
  import opened Arrays
  import opened Types
  import opened Cart
  import opened AppSpec
  import MockData
  import Checkout

  /** The page being shown. */
  datatype View =
    | Landing | Browse | RestaurantPage | CartPage | CheckoutPage | Tracking
    | RestaurantDashboardPage | DeliveryDashboardPage

  class AppStore {
    /** The imported seed catalogs: menu items, coupons and restaurants. */
    const menuItems: seq<MenuItem>
    const coupons: seq<Coupon>
    const restaurants: seq<Restaurant>
    var view: View
    var cart: seq<CartItem>
    var appliedCoupon: Option<Coupon>
    var currentOrder: Option<Order>
    var orders: seq<Order>
    var tasks: seq<DeliveryTask>

    /**
     * The cart holds well-formed lines of catalog items, and an applied
     * coupon is one of the catalog's.
     */
    ghost predicate Valid()
      reads this
    {
      && CartWellFormed(cart, menuItems)
      && (appliedCoupon.Some? ==> appliedCoupon.value in coupons)
    }

    /** The initial state: the landing page, an empty cart and the seed orders and tasks. */
    constructor ()
      ensures view == Landing && cart == [] && appliedCoupon == None && currentOrder == None
      ensures orders == MockData.Orders && tasks == MockData.Tasks
      ensures menuItems == MockData.MenuItems && coupons == MockData.Coupons && restaurants == MockData.Restaurants
      ensures Valid()
    {
      menuItems := MockData.MenuItems;
      coupons := MockData.Coupons;
      restaurants := MockData.Restaurants;
      view := Landing;
      cart := [];
      appliedCoupon := None;
      currentOrder := None;
      orders := MockData.Orders;
      tasks := MockData.Tasks;
    }

    /** handleAddToCart. */
    method AddToCart(itemId: string)
      requires Valid()
      modifies this`cart
      ensures cart == AddedCart(old(cart), menuItems, itemId)
      ensures Valid()
    {
      AddKeepsCartWellFormed(cart, menuItems, itemId);
      var menuItem := Find(menuItems, ItemWithId(itemId));
      if menuItem.None? {
        return;
      }
      var existing := Find(cart, LineFor(itemId));
      if existing.Some? {
        cart := Incremented(cart, itemId);
      } else {
        var m := menuItem.value;
        cart := cart + [CartItem(m, 1, m.restaurantId)];
      }
    }

    /** handleRemoveItem. */
    method RemoveItem(itemId: string)
      requires Valid()
      modifies this`cart
      ensures cart == RemovedCart(old(cart), itemId)
      ensures Valid()
    {
      UpdateKeepsCartWellFormed(cart, menuItems, itemId, 0);
      cart := Filter(cart, OtherLine(itemId));
    }

    /** handleUpdateQuantity: a quantity of 0 or less goes through handleRemoveItem. */
    method UpdateQuantity(itemId: string, quantity: int)
      requires Valid()
      modifies this`cart
      ensures cart == UpdatedCart(old(cart), itemId, quantity)
      ensures Valid()
    {
      if quantity <= 0 {
        RemoveItem(itemId);
        return;
      }
      UpdateKeepsCartWellFormed(cart, menuItems, itemId, quantity);
      cart := WithQuantity(cart, itemId, quantity);
    }

    /** handleApplyCoupon; the outcome stands for the message it shows. */
    method ApplyCoupon(code: string) returns (outcome: CouponOutcome)
      requires Valid()
      modifies this`appliedCoupon
      ensures outcome == ApplyCouponOutcome(coupons, cart, code)
      ensures appliedCoupon == CouponAfter(old(appliedCoupon), outcome)
      ensures Valid()
    {
      CouponAfterSpec(coupons, cart, code, appliedCoupon);
      var coupon := FindCoupon(coupons, code);
      if coupon.Some? {
        var subtotal := Subtotal(cart);
        if subtotal >= coupon.value.minOrderValue {
          appliedCoupon := coupon;
          outcome := Applied(coupon.value);
        } else {
          outcome := MinimumNotMet(coupon.value.minOrderValue);
        }
      } else {
        outcome := InvalidCode;
      }
    }

    /** handleRemoveCoupon. */
    method RemoveCoupon()
      requires Valid()
      modifies this`appliedCoupon
      ensures appliedCoupon == None
      ensures Valid()
    {
      appliedCoupon := None;
    }

    /** handleCheckout: an empty cart stays on its page; otherwise the checkout page opens. */
    method ProceedToCheckout() returns (proceeded: bool)
      requires Valid()
      modifies this`view
      ensures Valid()
      ensures proceeded <==> |cart| > 0
      ensures view == if proceeded then CheckoutPage else old(view)
    {
      if |cart| == 0 {
        return false;
      }
      view := CheckoutPage;
      proceeded := true;
    }

    /**
     * handlePlaceOrder, with the generated ids passed in. On an empty cart the
     * handler fails before any setter runs, so nothing changes. Otherwise the
     * order is appended and becomes the current one, a task is appended when
     * the first line's restaurant is known, the cart and coupon are cleared
     * and the tracking page opens. The payment method is not recorded.
     */
    method PlaceOrder(address: string, paymentMethod: Checkout.PaymentMethod, orderId: string, taskId: string)
      returns (placed: Option<Order>)
      requires Valid()
      modifies this
      ensures |old(cart)| == 0 ==> placed == None && unchanged(this)
      ensures |old(cart)| > 0 ==>
                && placed == Some(NewOrder(old(cart), old(appliedCoupon), orderId, address))
                && orders == old(orders) + [placed.value]
                && currentOrder == placed
                && tasks == old(tasks) + (match NewTask(restaurants, old(cart), orderId, taskId, address)
                                          case None => []
                                          case Some(t) => [t])
                && cart == [] && appliedCoupon == None && view == Tracking
      ensures Valid()
    {
      if |cart| == 0 {
        return None;
      }
      var subtotal := Subtotal(cart);
      var discount := 0.0;
      if appliedCoupon.Some? && subtotal >= appliedCoupon.value.minOrderValue {
        discount := CouponValue(subtotal, appliedCoupon.value);
      }
      var total := subtotal + DeliveryFee - discount;
      var newOrder := Order(orderId, "user1", cart[0].restaurantId, cart, subtotal, DeliveryFee, discount, total,
                            Confirmed, address, if appliedCoupon.Some? then Some(appliedCoupon.value.code) else None);
      orders := orders + [newOrder];
      currentOrder := Some(newOrder);
      var restaurant := Find(restaurants, RestaurantWithId(cart[0].restaurantId));
      if restaurant.Some? {
        var task := DeliveryTask(taskId, newOrder.id, restaurant.value.name, "123 Restaurant St, City", "Customer",
                                 address, TaskAssigned);
        tasks := tasks + [task];
      }
      cart := [];
      appliedCoupon := None;
      view := Tracking;
      placed := Some(newOrder);
    }

    /** handleAcceptOrder. */
    method AcceptOrder(orderId: string)
      requires Valid()
      modifies this`orders
      ensures orders == WithOrderStatus(old(orders), orderId, Preparing)
      ensures Valid()
    {
      orders := WithOrderStatus(orders, orderId, Preparing);
    }

    /** handleRejectOrder. */
    method RejectOrder(orderId: string)
      requires Valid()
      modifies this`orders
      ensures orders == WithOrderStatus(old(orders), orderId, Cancelled)
      ensures Valid()
    {
      orders := WithOrderStatus(orders, orderId, Cancelled);
    }

    /** handlePickupTask: the task is picked up and the order it references goes out for delivery. */
    method PickupTask(taskId: string)
      requires Valid()
      modifies this`tasks, this`orders
      ensures tasks == WithTaskStatus(old(tasks), taskId, TaskPickedUp)
      ensures orders == OrdersAfterTaskEvent(old(orders), old(tasks), taskId, OutForDelivery)
      ensures Valid()
    {
      var before := tasks;
      tasks := WithTaskStatus(tasks, taskId, TaskPickedUp);
      var task := Find(before, TaskWithId(taskId));
      if task.Some? {
        orders := WithOrderStatus(orders, task.value.orderId, OutForDelivery);
      }
    }

    /** handleCompleteTask: the task and the order it references are delivered. */
    method CompleteTask(taskId: string)
      requires Valid()
      modifies this`tasks, this`orders
      ensures tasks == WithTaskStatus(old(tasks), taskId, TaskDelivered)
      ensures orders == OrdersAfterTaskEvent(old(orders), old(tasks), taskId, Delivered)
      ensures Valid()
    {
      var before := tasks;
      tasks := WithTaskStatus(tasks, taskId, TaskDelivered);
      var task := Find(before, TaskWithId(taskId));
      if task.Some? {
        orders := WithOrderStatus(orders, task.value.orderId, Delivered);
      }
    }

    /** handleBackToHome: the browse page opens and the current order is dropped. */
    method BackToHome()
      requires Valid()
      modifies this`view, this`currentOrder
      ensures view == Browse && currentOrder == None
      ensures Valid()
    {
      view := Browse;
      currentOrder := None;
    }

    /**
     * The checkout page's form, given the "Amount to Pay" the page computes:
     * the applied coupon's value comes off without the minimum-order check.
     * While that minimum is met (or no coupon is applied) it is the amount the
     * placed order will charge.
     */
    method OpenCheckoutForm() returns (form: Checkout.CheckoutForm)
      ensures fresh(form)
      ensures form.total == CheckoutAmountAsWritten(cart, appliedCoupon)
      ensures appliedCoupon.None? || Subtotal(cart) >= appliedCoupon.value.minOrderValue ==>
                form.total == CheckoutAmount(cart, appliedCoupon)
      ensures form.address == "" && form.paymentMethod == Checkout.Upi
    {
      form := new Checkout.CheckoutForm(CheckoutAmountAsWritten(cart, appliedCoupon));
      if appliedCoupon.None? || Subtotal(cart) >= appliedCoupon.value.minOrderValue {
        CheckoutAmountAgreesWhenEligible(cart, appliedCoupon);
      }
    }

    /**
     * Submitting the form: an empty address, like an empty cart, places
     * nothing and changes nothing. Otherwise the order is placed with the
     * form's address, with the state changes of PlaceOrder. The order charges
     * the amount the form showed when the form was opened on the current cart
     * and the applied coupon's minimum is still met; otherwise the two can
     * differ (AppSpec.CheckoutAmountAsWrittenMismatch).
     */
    method SubmitCheckout(form: Checkout.CheckoutForm, orderId: string, taskId: string)
      returns (placed: Option<Order>)
      requires Valid()
      modifies this
      ensures form.address == "" || |old(cart)| == 0 ==> placed == None && unchanged(this)
      ensures form.address != "" && |old(cart)| > 0 ==>
                && placed == Some(NewOrder(old(cart), old(appliedCoupon), orderId, form.address))
                && orders == old(orders) + [placed.value]
                && currentOrder == placed
                && tasks == old(tasks) + (match NewTask(restaurants, old(cart), orderId, taskId, form.address)
                                          case None => []
                                          case Some(t) => [t])
                && cart == [] && appliedCoupon == None && view == Tracking
      ensures form.address != "" && |old(cart)| > 0 && form.total == CheckoutAmountAsWritten(old(cart), old(appliedCoupon)) &&
              (old(appliedCoupon).None? || Subtotal(old(cart)) >= old(appliedCoupon).value.minOrderValue) ==>
                placed.Some? && placed.value.total == form.total
      ensures Valid()
    {
      var request := form.Submit();
      if request.None? {
        return None;
      }
      if |cart| > 0 && (appliedCoupon.None? || Subtotal(cart) >= appliedCoupon.value.minOrderValue) {
        CheckoutAmountAgreesWhenEligible(cart, appliedCoupon);
      }
      placed := PlaceOrder(request.value.address, request.value.paymentMethod, orderId, taskId);
    }
  }
}
