/**
 * The records of the food-ordering application: catalog entries, cart lines,
 * coupons, orders and delivery tasks. Only the fields that the ordering logic
 * reads or writes are kept; images, ratings and descriptions used purely for
 * display are not part of this model.
 */
module Types {
  import opened Wrappers
  import opened Arrays

  datatype Restaurant = Restaurant(id: string, name: string)

  datatype MenuItem = MenuItem(
    id: string,
    restaurantId: string,
    name: string,
    price: real,
    category: string,
    isVeg: bool)

  /** A cart line. It stores its own restaurant id beside the menu item's. */
  datatype CartItem = CartItem(menuItem: MenuItem, quantity: int, restaurantId: string)

  datatype DiscountType = Percentage | Fixed

  datatype Coupon = Coupon(
    id: string,
    code: string,
    description: string,
    discount: real,
    discountType: DiscountType,
    minOrderValue: real,
    maxDiscount: Option<real>)

  /**
   * The coupon caps its discount when `maxDiscount` is present and truthy in
   * JavaScript terms: a cap of 0 counts as no cap.
   */
  predicate HasCap(c: Coupon) {
    c.maxDiscount.Some? && c.maxDiscount.value != 0.0
  }

  datatype OrderStatus =
    | Pending
    | Confirmed
    | Preparing
    | Ready
    | PickedUp
    | OutForDelivery
    | Delivered
    | Cancelled

  const OrderStatuses: seq<OrderStatus> :=
    [Pending, Confirmed, Preparing, Ready, PickedUp, OutForDelivery, Delivered, Cancelled]

  datatype Order = Order(
    id: string,
    userId: string,
    restaurantId: string,
    items: seq<CartItem>,
    subtotal: real,
    deliveryFee: real,
    discount: real,
    total: real,
    status: OrderStatus,
    deliveryAddress: string,
    couponCode: Option<string>)

  /** A delivery task's status; the names carry a prefix to keep them apart from the order statuses. */
  datatype TaskStatus = TaskAssigned | TaskPickedUp | TaskDelivered

  const TaskStatuses: seq<TaskStatus> := [TaskAssigned, TaskPickedUp, TaskDelivered]

  datatype DeliveryTask = DeliveryTask(
    id: string,
    orderId: string,
    restaurantName: string,
    restaurantAddress: string,
    customerName: string,
    customerAddress: string,
    status: TaskStatus)

  /** The order statuses are exactly eight distinct values. */
  lemma OrderStatusesClosed(s: OrderStatus)
    ensures |OrderStatuses| == 8 && Distinct(OrderStatuses)
    ensures s in OrderStatuses
  {
  }

  /** A delivery task is in exactly one of three distinct statuses. */
  lemma TaskStatusesClosed(s: TaskStatus)
    ensures |TaskStatuses| == 3 && Distinct(TaskStatuses)
    ensures s in TaskStatuses
  {
  }
}
