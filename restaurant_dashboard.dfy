/**
 * The restaurant dashboard: the orders of one restaurant split into pending,
 * active and completed groups, the revenue and average over completed
 * orders, and the accept/reject actions offered on pending orders.
 */
module RestaurantDashboard {
  import opened Arrays
  import opened Types

  function ForRestaurant(restaurantId: string): Order -> bool {
    (o: Order) => o.restaurantId == restaurantId
  }

  function IsPending(): Order -> bool {
    (o: Order) => o.status == Pending
  }

  /** The three statuses the "Active Orders" list shows. */
  function IsActive(): Order -> bool {
    (o: Order) => o.status == Confirmed || o.status == Preparing || o.status == Ready
  }

  function IsCompleted(): Order -> bool {
    (o: Order) => o.status == Delivered
  }

  /** The statuses no group of the dashboard shows. */
  function IsUngrouped(): Order -> bool {
    (o: Order) => o.status == PickedUp || o.status == OutForDelivery || o.status == Cancelled
  }

  function OrderTotal(o: Order): real {
    o.total
  }

  function RestaurantOrders(restaurantId: string, orders: seq<Order>): seq<Order> {
    Filter(orders, ForRestaurant(restaurantId))
  }

  function PendingOrders(restaurantId: string, orders: seq<Order>): seq<Order> {
    Filter(RestaurantOrders(restaurantId, orders), IsPending())
  }

  function ActiveOrders(restaurantId: string, orders: seq<Order>): seq<Order> {
    Filter(RestaurantOrders(restaurantId, orders), IsActive())
  }

  function CompletedOrders(restaurantId: string, orders: seq<Order>): seq<Order> {
    Filter(RestaurantOrders(restaurantId, orders), IsCompleted())
  }

  function TotalRevenue(restaurantId: string, orders: seq<Order>): real {
    Sum(CompletedOrders(restaurantId, orders), OrderTotal)
  }

  /** Zero without completed orders, otherwise the mean completed total. */
  function AverageOrderValue(restaurantId: string, orders: seq<Order>): real {
    Mean(TotalRevenue(restaurantId, orders), |CompletedOrders(restaurantId, orders)|)
  }

  /** The mean of `count` values adding up to `total`; 0 when there are none. */
  function Mean(total: real, count: nat): (mean: real)
    ensures count > 0 ==> mean * (count as real) == total
    ensures count == 0 ==> mean == 0.0
    ensures total >= 0.0 ==> mean >= 0.0
  {
    if count > 0 then total / (count as real) else 0.0
  }

  /** The buttons one pending-order card offers. */
  datatype OrderAction = Reject(orderId: string) | Accept(orderId: string)

  /** The actions of the cards listed, a reject and an accept per card. */
  function ActionsFor(cards: seq<Order>): (actions: seq<OrderAction>)
    ensures |actions| == 2 * |cards|
    ensures forall j :: 0 <= j < |cards| ==>
              actions[2 * j] == Reject(cards[j].id) && actions[2 * j + 1] == Accept(cards[j].id)
  {
    if |cards| == 0 then []
    else
      var front, last := cards[..|cards| - 1], cards[|cards| - 1];
      var r := ActionsFor(front) + [Reject(last.id), Accept(last.id)];
      assert forall j :: 0 <= j < |front| ==> cards[j] == front[j];
      r
  }

  /** The accept and reject buttons of the dashboard: those of the pending-order cards. */
  function OfferedActions(restaurantId: string, orders: seq<Order>): seq<OrderAction> {
    ActionsFor(PendingOrders(restaurantId, orders))
  }

  /** The restaurant's list holds exactly its own orders. */
  lemma RestaurantOrdersSpec(restaurantId: string, orders: seq<Order>)
    ensures forall o :: o in RestaurantOrders(restaurantId, orders) <==> o in orders && o.restaurantId == restaurantId
  {
    var ro := RestaurantOrders(restaurantId, orders);
    forall o | o in orders && o.restaurantId == restaurantId
      ensures o in ro
    {
      var j :| 0 <= j < |orders| && orders[j] == o;
    }
    forall o | o in ro
      ensures o in orders && o.restaurantId == restaurantId
    {
      var j :| 0 <= j < |ro| && ro[j] == o;
    }
  }

  /** The restaurant's list keeps the order of the full list: it distributes over concatenation. */
  lemma RestaurantOrdersAppend(restaurantId: string, a: seq<Order>, b: seq<Order>)
    ensures RestaurantOrders(restaurantId, a + b) == RestaurantOrders(restaurantId, a) + RestaurantOrders(restaurantId, b)
  {
    FilterAppend(a, b, ForRestaurant(restaurantId));
  }

  /** Each group holds exactly the restaurant's orders in its statuses. */
  lemma GroupsSpec(restaurantId: string, orders: seq<Order>, o: Order)
    ensures o in PendingOrders(restaurantId, orders) <==>
              o in orders && o.restaurantId == restaurantId && o.status == Pending
    ensures o in ActiveOrders(restaurantId, orders) <==>
              o in orders && o.restaurantId == restaurantId && o.status in {Confirmed, Preparing, Ready}
    ensures o in CompletedOrders(restaurantId, orders) <==>
              o in orders && o.restaurantId == restaurantId && o.status == Delivered
  {
    var ro := RestaurantOrders(restaurantId, orders);
    RestaurantOrdersSpec(restaurantId, orders);
    if o in ro {
      var j :| 0 <= j < |ro| && ro[j] == o;
    }
    ElementOfFilter(ro, IsPending(), o);
    ElementOfFilter(ro, IsActive(), o);
    ElementOfFilter(ro, IsCompleted(), o);
  }

  lemma ElementOfFilter(s: seq<Order>, p: Order -> bool, o: Order)
    ensures o in Filter(s, p) ==> o in s && p(o)
  {
    if o in Filter(s, p) {
      var j :| 0 <= j < |Filter(s, p)| && Filter(s, p)[j] == o;
    }
  }

  /** No order is in two groups, and an order in transit or cancelled is in none. */
  lemma GroupsDisjoint(restaurantId: string, orders: seq<Order>, o: Order)
    ensures !(o in PendingOrders(restaurantId, orders) && o in ActiveOrders(restaurantId, orders))
    ensures !(o in PendingOrders(restaurantId, orders) && o in CompletedOrders(restaurantId, orders))
    ensures !(o in ActiveOrders(restaurantId, orders) && o in CompletedOrders(restaurantId, orders))
    ensures o.status in {PickedUp, OutForDelivery, Cancelled} ==>
              o !in PendingOrders(restaurantId, orders) && o !in ActiveOrders(restaurantId, orders) &&
              o !in CompletedOrders(restaurantId, orders)
  {
    GroupsSpec(restaurantId, orders, o);
  }

  /** The statuses before delivery starts, and the rest. */
  function NotClosed(): Order -> bool {
    (o: Order) => o.status == Pending || o.status == Confirmed || o.status == Preparing || o.status == Ready
  }

  function Closed(): Order -> bool {
    (o: Order) => o.status == Delivered || o.status == PickedUp || o.status == OutForDelivery || o.status == Cancelled
  }

  function AnyStatus(): Order -> bool {
    (o: Order) => true
  }

  lemma OpenSplit(s: seq<Order>)
    ensures multiset(Filter(s, IsPending())) + multiset(Filter(s, IsActive())) == multiset(Filter(s, NotClosed()))
  {
    FilterUnion(s, IsPending(), IsActive(), NotClosed());
  }

  lemma ClosedSplit(s: seq<Order>)
    ensures multiset(Filter(s, IsCompleted())) + multiset(Filter(s, IsUngrouped())) == multiset(Filter(s, Closed()))
  {
    FilterUnion(s, IsCompleted(), IsUngrouped(), Closed());
  }

  lemma OpenClosedSplit(s: seq<Order>)
    ensures multiset(Filter(s, NotClosed())) + multiset(Filter(s, Closed())) == multiset(s)
  {
    FilterUnion(s, NotClosed(), Closed(), AnyStatus());
    FilterKeepsAll(s, AnyStatus());
  }

  /** Every order, by its status, lands in exactly one of the three groups or the ungrouped rest. */
  lemma StatusPartition(s: seq<Order>)
    ensures multiset(Filter(s, IsPending())) + multiset(Filter(s, IsActive())) +
            multiset(Filter(s, IsCompleted())) + multiset(Filter(s, IsUngrouped())) == multiset(s)
  {
    OpenSplit(s);
    ClosedSplit(s);
    OpenClosedSplit(s);
  }

  /** The three groups and the orders in transit or cancelled together make up the restaurant's list. */
  lemma GroupsPartition(restaurantId: string, orders: seq<Order>)
    ensures multiset(PendingOrders(restaurantId, orders)) + multiset(ActiveOrders(restaurantId, orders)) +
            multiset(CompletedOrders(restaurantId, orders)) +
            multiset(Filter(RestaurantOrders(restaurantId, orders), IsUngrouped())) ==
            multiset(RestaurantOrders(restaurantId, orders))
  {
    StatusPartition(RestaurantOrders(restaurantId, orders));
  }

  /** Revenue adds up over concatenated order lists. */
  lemma RevenueAppend(restaurantId: string, a: seq<Order>, b: seq<Order>)
    ensures TotalRevenue(restaurantId, a + b) == TotalRevenue(restaurantId, a) + TotalRevenue(restaurantId, b)
  {
    RestaurantOrdersAppend(restaurantId, a, b);
    FilterAppend(RestaurantOrders(restaurantId, a), RestaurantOrders(restaurantId, b), IsCompleted());
    SumAppend(CompletedOrders(restaurantId, a), CompletedOrders(restaurantId, b), OrderTotal);
  }

  /** Revenue is never negative when no order total is. */
  lemma RevenueNonNegative(restaurantId: string, orders: seq<Order>)
    requires forall i :: 0 <= i < |orders| ==> orders[i].total >= 0.0
    ensures TotalRevenue(restaurantId, orders) >= 0.0
    ensures AverageOrderValue(restaurantId, orders) >= 0.0
  {
    var completed := CompletedOrders(restaurantId, orders);
    var ro := RestaurantOrders(restaurantId, orders);
    forall j | 0 <= j < |completed|
      ensures OrderTotal(completed[j]) >= 0.0
    {
      assert completed[j] in ro;
      var k :| 0 <= k < |ro| && ro[k] == completed[j];
      assert ro[k] in orders;
      var m :| 0 <= m < |orders| && orders[m] == ro[k];
      assert orders[m].total >= 0.0;
    }
    assert Sum(completed, OrderTotal) >= 0.0;
  }

  /** With no completed orders the revenue and the average are both zero. */
  lemma NoCompletedOrders(restaurantId: string, orders: seq<Order>)
    requires |CompletedOrders(restaurantId, orders)| == 0
    ensures TotalRevenue(restaurantId, orders) == 0.0 && AverageOrderValue(restaurantId, orders) == 0.0
  {
    assert CompletedOrders(restaurantId, orders) == [];
  }

  /** An accept or reject button is shown only for a pending order of this restaurant. */
  lemma ActionsOnlyForPending(restaurantId: string, orders: seq<Order>, a: OrderAction)
    requires a in OfferedActions(restaurantId, orders)
    ensures exists o :: o in orders && o.id == a.orderId && o.restaurantId == restaurantId && o.status == Pending
  {
    var pending := PendingOrders(restaurantId, orders);
    var actions := OfferedActions(restaurantId, orders);
    var i :| 0 <= i < |actions| && actions[i] == a;
    var j := i / 2;
    assert i == 2 * j || i == 2 * j + 1;
    assert pending[j].id == a.orderId;
    GroupsSpec(restaurantId, orders, pending[j]);
  }

  /** Every pending order of this restaurant gets both an accept and a reject button. */
  lemma PendingOrdersHaveActions(restaurantId: string, orders: seq<Order>, o: Order)
    requires o in orders && o.restaurantId == restaurantId && o.status == Pending
    ensures Reject(o.id) in OfferedActions(restaurantId, orders) && Accept(o.id) in OfferedActions(restaurantId, orders)
  {
    var pending := PendingOrders(restaurantId, orders);
    GroupsSpec(restaurantId, orders, o);
    var j :| 0 <= j < |pending| && pending[j] == o;
    assert OfferedActions(restaurantId, orders)[2 * j] == Reject(o.id);
    assert OfferedActions(restaurantId, orders)[2 * j + 1] == Accept(o.id);
  }
}
