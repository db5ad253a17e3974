# Ordering engine of a food-delivery web client, in Dafny

This project models the client-side ordering engine of a React food-delivery
application. The engine is everything the top-level component and its pages
compute:

- the cart (add, change quantity, remove);
- coupons (lookup ignoring case, the minimum-order rule, percentage with an
  optional cap, fixed amount);
- the price breakdown (subtotal, delivery fee, discount, total);
- placing an order and creating its delivery task;
- the restaurant's accept and reject actions;
- the delivery partner's pickup and complete actions, which also move the
  linked order;
- the order-tracking timeline;
- the restaurant and delivery dashboards' groupings;
- the restaurant page's category sections.

The seed catalog (restaurants, menu items, coupons, orders, tasks) is
included as constants.

Modules follow the source files:

| module | models |
|---|---|
| `Wrappers`, `Arrays`, `Text` | `Option`; the JavaScript `find`, `findIndex`, `filter`, `reduce` and `Array.from(new Set(...))` the code is written with; ASCII `toLowerCase` |
| `Types` | `src/app/types/index.ts` |
| `Cart` | the price computation of `src/app/components/Cart.tsx` |
| `MockData` | `src/app/data/mockData.ts` |
| `AppSpec` | the effect of each handler of `src/app/App.tsx`, as functions of the old state, with their properties |
| `App` | `src/app/App.tsx` itself: class `AppStore`, whose fields are the component's state and whose methods are its handlers |
| `Checkout` | `src/app/components/Checkout.tsx`: class `CheckoutForm` |
| `OrderTracking` | `src/app/components/OrderTracking.tsx`: the step functions and class `Tracker` |
| `RestaurantDashboard`, `DeliveryDashboard`, `RestaurantDetails` | the corresponding components' derived lists |

Modelling choices:

- Money is an exact `real`; quantities are `int`.
- JavaScript truthiness of `maxDiscount` is `Types.HasCap`. A cap is absent
  when it is missing or zero.
- Generated ids (`ORD${Date.now()}`, `TASK${Date.now()}`) are parameters.
- On an empty cart, `handlePlaceOrder` throws at `cartItems[0].restaurantId`
  before any setter runs. `App.AppStore.PlaceOrder` models this as "returns
  nothing and changes nothing".

## Model

| member | source | states |
|---|---|---|
| Arrays.FindIndex | src/app/components/OrderTracking.tsx:21 | `findIndex`: -1 exactly when no element matches; otherwise the first matching position |
| Arrays.Find | src/app/App.tsx:61 | `find`: nothing exactly when no element matches; otherwise an element at a first matching position |
| Arrays.FindFirst | src/app/App.tsx:61 | the first matching position determines what `find` returns |
| Arrays.Filter | src/app/components/RestaurantDashboard.tsx:25 | `filter` keeps only matching elements of the input, and keeps every matching element |
| Arrays.FilterAppend | src/app/components/RestaurantDashboard.tsx:25 | `filter` distributes over concatenation, so it keeps the original order |
| Arrays.FilterKeepsAll | src/app/App.tsx:93 | a filter whose predicate holds everywhere returns its input |
| Arrays.FilterSkipsOne | src/app/App.tsx:93 | filtering out one rejected element joins the stretches around it |
| Arrays.FilterCons | src/app/components/DeliveryDashboard.tsx:14 | a leading element is counted once in a filter exactly when it is kept |
| Arrays.FilterUnion | src/app/components/RestaurantDashboard.tsx:26-30 | filters by two exclusive predicates together hold the elements of the filter by their disjunction, as multisets |
| Arrays.FirstPos | src/app/components/RestaurantDetails.tsx:22 | the first position of an element that occurs |
| Arrays.FirstPosPrefix | src/app/components/RestaurantDetails.tsx:22 | an element of a prefix has the same first position in the whole sequence |
| Arrays.Dedup | src/app/components/RestaurantDetails.tsx:22 | `Array.from(new Set(s))` has no repeats and holds exactly the elements of `s` |
| Arrays.DedupOrder | src/app/components/RestaurantDetails.tsx:22 | the distinct elements come in the order of their first occurrence (Set insertion order) |
| Arrays.Sum | src/app/components/RestaurantDashboard.tsx:32 | the summing `reduce` of non-negative terms is non-negative |
| Arrays.SumAppend | src/app/components/RestaurantDashboard.tsx:32 | the sum over a concatenation is the sum of the sums |
| Text.ToLower | src/app/App.tsx:98 | `toLowerCase` keeps the length, leaves no upper-case ASCII letter, shifts each upper-case letter to its lower-case one and keeps every other character |
| Text.ToLowerIdempotent | src/app/App.tsx:98 | lower-casing twice is lower-casing once |
| Types.OrderStatusesClosed | src/app/types/index.ts:57-65 | an order status is one of exactly eight distinct values |
| Types.TaskStatusesClosed | src/app/types/index.ts:91 | a task status is one of exactly three distinct values |
| Cart.SubtotalAppend | src/app/components/Cart.tsx:31 | subtotals add up over concatenated carts, and the empty cart's is 0 |
| Cart.SubtotalOfLines | src/app/components/Cart.tsx:31 | the subtotal of a one- or two-line cart is the sum of its line totals |
| Cart.SubtotalPositive | src/app/components/Cart.tsx:31 | a non-empty cart of positive prices and quantities has a positive subtotal |
| Cart.CartFeeIffPositive | src/app/components/Cart.tsx:32 | the cart view charges the fee of 40 exactly when the subtotal is positive |
| Cart.DiscountCases | src/app/components/Cart.tsx:34-44 | no discount without a coupon or below its minimum; a percentage discount is the smaller of the raw percentage and its truthy cap (the raw percentage when uncapped); a fixed coupon gives its amount |
| Cart.DiscountBounds | src/app/components/Cart.tsx:34-44 | a well-formed coupon's discount is non-negative, and a percentage discount is at most the subtotal |
| Cart.FixedDiscountNotClamped | src/app/components/Cart.tsx:42-46 | a fixed coupon is not clamped: 100 off a cart of 50 with no minimum gives a total of -10 |
| MockData.LowerDiffersAt | src/app/data/mockData.ts:221-256 | strings whose lower-cased characters differ at one position differ once lower-cased |
| MockData.CouponCodesDistinctIgnoringCase | src/app/data/mockData.ts:221-256 | no two seed coupon codes are equal ignoring case |
| MockData.CatalogCouponShapes | src/app/data/mockData.ts:221-256 | every seed coupon is well formed, and the caps are truthy exactly on the percentage coupons |
| MockData.CatalogDiscountAtMostSubtotal | src/app/data/mockData.ts:221-256 | a seed coupon's discount lies between 0 and the subtotal |
| MockData.SeedOrdersConsistent | src/app/data/mockData.ts:259-293 | each seed order's subtotal, fee, discount and total agree with the pricing rules |
| MockData.MenuIdsUnique | src/app/data/mockData.ts:78-219 | menu-item ids are unique |
| MockData.MenuItemsWellFormed | src/app/data/mockData.ts:78-219 | each menu item's restaurant exists and each price is positive |
| MockData.SeedTaskDangling | src/app/data/mockData.ts:306-315 | seed task TASK002 refers to ORD003, which no seed order has |
| MockData.First50Scenario | src/app/components/Cart.tsx:31-46 | FIRST50 on two Butter Chickens: 700, discount 100, total 640 |
| MockData.Welcome100BelowMinimumScenario | src/app/components/Cart.tsx:31-46 | WELCOME100 below its minimum of 300 gives no discount: 100 + 40 = 140 |
| AppSpec.AddUnknownLeavesCart | src/app/App.tsx:60-62 | adding an id the catalog lacks leaves the cart unchanged |
| AppSpec.AddExistingIncrementsLine | src/app/App.tsx:64-70 | adding an item that has a line raises that line by one and changes nothing else |
| AppSpec.AddNewAppendsLine | src/app/App.tsx:71-73 | adding an item with no line appends a line of quantity 1 with the item's restaurant id |
| AppSpec.AddKeepsCartWellFormed | src/app/App.tsx:60-79 | adding keeps the cart invariant: quantities at least 1, catalog items, one line per item |
| AppSpec.SubtotalReplaceLine | src/app/components/Cart.tsx:31 | replacing one line changes the subtotal by the difference of the two line totals |
| AppSpec.LineTotalPlusOne | src/app/App.tsx:67 | one more unit adds the item's price to the line total |
| AppSpec.AddRaisesSubtotal | src/app/App.tsx:60-79 | with unique catalog ids, adding a catalog item raises the subtotal by exactly its price and leaves a line holding that item |
| AppSpec.AddExistingRaisesSubtotal | src/app/App.tsx:64-70 | incrementing an existing line raises the subtotal by exactly its price |
| AppSpec.RemoveAbsentItem | src/app/App.tsx:92-95 | removing an item with no line leaves the cart unchanged |
| AppSpec.RemoveDeletesLine | src/app/App.tsx:92-95 | removing an item deletes exactly its line and keeps the others in order |
| AppSpec.RemoveOnlyLine | src/app/App.tsx:93 | the same, for any cart where the item has only that line |
| AppSpec.DeleteLineKeepsWellFormed | src/app/App.tsx:93 | deleting a line keeps the cart invariant |
| AppSpec.UpdateSpec | src/app/App.tsx:81-89 | a quantity of 0 or less removes the line; a positive one sets that line's quantity and changes nothing else |
| AppSpec.UpdateAbsentItem | src/app/App.tsx:81-89 | updating an item with no line leaves the cart unchanged |
| AppSpec.UpdateKeepsCartWellFormed | src/app/App.tsx:81-89 | updating keeps the cart invariant, so no line is left below quantity 1 |
| AppSpec.DecrementLastUnitRemovesLine | src/app/components/Cart.tsx:103 | the minus control on a line of one unit removes that line |
| AppSpec.IncrementMatchesAdd | src/app/components/Cart.tsx:110 | the plus control has the same effect as adding the item again |
| AppSpec.ApplyMatchedCoupon | src/app/App.tsx:97-114 | the first coupon whose code matches ignoring case is applied exactly when the subtotal reaches its minimum; otherwise the minimum is reported |
| AppSpec.ApplyUnknownCode | src/app/App.tsx:112-114 | a code matching no coupon is reported invalid |
| AppSpec.CouponAfterSpec | src/app/App.tsx:97-115 | a failed attempt leaves the applied coupon; a successful one replaces it (no stacking), with a catalog coupon whose minimum is met; repeating an attempt is idempotent |
| AppSpec.CatalogCouponLookup | src/app/App.tsx:98 | in the seed catalog a code in any letter case finds its own coupon |
| AppSpec.NewOrderBreakdown | src/app/App.tsx:130-162 | the placed order has the cart's lines and subtotal, fee 40, the discount rule, total = subtotal + 40 - discount, status confirmed, the address and the coupon's code |
| AppSpec.PlacedTotalMatchesCartView | src/app/App.tsx:130-147 | for a non-empty cart of catalog items the order is charged the total the cart view showed |
| AppSpec.PlacedTotalOnZeroSubtotal | src/app/App.tsx:136 | on a zero subtotal the order charges 40 more than the cart view, which drops the fee |
| AppSpec.NewTaskSpec | src/app/App.tsx:167-181 | a task is created exactly when the first line's restaurant is known; it is assigned, names the new order and the checkout address |
| AppSpec.CatalogCartGetsTask | src/app/App.tsx:167-181 | every non-empty cart of seed-catalog items gets a delivery task |
| AppSpec.OrderStatusRewrite | src/app/App.tsx:195-207 | accept and reject change only the status of the orders with that id, whatever their prior status |
| AppSpec.TaskStatusRewrite | src/app/App.tsx:209-212 | pickup and complete change only the status of the tasks with that id |
| AppSpec.TaskEventDrivesOrder | src/app/App.tsx:213-220 | a task event moves the orders referenced by the first task with that id to the new status, and no others |
| AppSpec.TaskEventWithoutOrder | src/app/App.tsx:213-220 | with no such task, or a task whose order is missing, the orders stay unchanged |
| AppSpec.PickupThenCompleteDelivers | src/app/App.tsx:209-237 | pickup then complete leaves the task delivered and its order delivered |
| AppSpec.SeedTask002ChangesNoOrder | src/app/App.tsx:229-234 | completing seed task TASK002 changes no order |
| AppSpec.CheckoutAmount | src/app/App.tsx:130-147 | the checkout amount equals the total of the order that will be placed |
| AppSpec.CheckoutAmountAgreesWhenEligible | src/app/App.tsx:301-320 | while the applied coupon's minimum is met, the amount as written equals the amount charged |
| AppSpec.AddTwoNewLines | src/app/App.tsx:60-79 | adding two different catalog items to an empty cart gives one line of each, in the order added |
| AppSpec.MismatchCartBuilt | src/app/App.tsx:60-79 | adding Butter Chicken then Garlic Naan to an empty cart gives one line of each |
| AppSpec.MismatchCouponThenShrink | src/app/App.tsx:81-115 | FIRST50 applies to that cart, and removing the chicken leaves only the naan |
| AppSpec.MismatchAmounts | src/app/App.tsx:301-320 | on the naan alone (60) with FIRST50 applied, the written amount is 70 and the charged total is 100 |
| AppSpec.CheckoutAmountAsWrittenMismatch | src/app/App.tsx:301-320 | in that scenario the form shows 70 while the placed order charges 100 |
| App.AppStore.constructor | src/app/App.tsx:27-34 | the landing page, an empty cart, no coupon, no current order, the seed orders and tasks |
| App.AppStore.AddToCart | src/app/App.tsx:60-79 | the new cart is the added cart of the old one, and the cart invariant is kept |
| App.AppStore.RemoveItem | src/app/App.tsx:92-95 | the new cart is the old one without the item's lines |
| App.AppStore.UpdateQuantity | src/app/App.tsx:81-90 | the new cart is the updated cart, removing the line at quantity 0 or less |
| App.AppStore.ApplyCoupon | src/app/App.tsx:97-115 | the outcome is the lookup result, and the applied coupon changes only on success |
| App.AppStore.RemoveCoupon | src/app/App.tsx:117-120 | no coupon is applied afterwards |
| App.AppStore.ProceedToCheckout | src/app/App.tsx:122-128 | the checkout page opens exactly when the cart is non-empty; the store invariant is kept |
| App.AppStore.PlaceOrder | src/app/App.tsx:130-193 | empty cart: nothing changes; otherwise the order is appended and current, a task is appended when the restaurant is known, the cart and coupon are cleared, and tracking opens |
| App.AppStore.AcceptOrder | src/app/App.tsx:195-200 | orders with the id become preparing; the store invariant is kept |
| App.AppStore.RejectOrder | src/app/App.tsx:202-207 | orders with the id become cancelled; the store invariant is kept |
| App.AppStore.PickupTask | src/app/App.tsx:209-222 | the task is picked up and its order goes out for delivery; the store invariant is kept |
| App.AppStore.CompleteTask | src/app/App.tsx:224-237 | the task and its order are delivered; the store invariant is kept |
| App.AppStore.BackToHome | src/app/App.tsx:239-242 | the browse page opens and there is no current order any more; cart, coupon, orders and tasks are untouched |
| App.AppStore.OpenCheckoutForm | src/app/App.tsx:299-322 | a fresh form with an empty address and UPI selected, showing the page's as-written amount (the coupon's value off without its minimum check), which equals the amount the order will charge while the coupon's minimum is met |
| App.AppStore.SubmitCheckout | src/app/components/Checkout.tsx:18-23 | an empty address or an empty cart places nothing and changes nothing; otherwise the order is placed with the form's address and the store takes PlaceOrder's new state; the charge equals the amount the form showed when the coupon's minimum is still met |
| Checkout.PaymentMethodsClosed | src/app/components/Checkout.tsx:73-128 | the payment method is one of four distinct options |
| Checkout.CheckoutForm.constructor | src/app/components/Checkout.tsx:14-16 | the form starts with an empty address, UPI, and the total it is given |
| Checkout.CheckoutForm.SetAddress | src/app/components/Checkout.tsx:48 | typing replaces the address |
| Checkout.CheckoutForm.SelectPaymentMethod | src/app/components/Checkout.tsx:73 | choosing replaces the payment method |
| Checkout.CheckoutForm.Submit | src/app/components/Checkout.tsx:18-23 | an order is requested exactly when the address is non-empty, with the form's address and payment method |
| OrderTracking.StepIndexSpec | src/app/components/OrderTracking.tsx:12-21 | the step index is the status's position in the four steps, and -1 exactly for a status outside them (pending, ready, picked up, cancelled) |
| OrderTracking.NextRaisesIndex | src/app/components/OrderTracking.tsx:27-31 | each advance from a status other than delivered raises the step index by exactly one |
| OrderTracking.AdvancePosition | src/app/components/OrderTracking.tsx:27-31 | from a position in the steps, n advances that stay within the steps move the position forward by exactly n |
| OrderTracking.AdvanceIndex | src/app/components/OrderTracking.tsx:27-31 | n advances from a step raise the index by n, up to the last step |
| OrderTracking.DeliveredIsFinal | src/app/components/OrderTracking.tsx:25 | delivered never advances |
| OrderTracking.ConfirmedDeliveredInThree | src/app/components/OrderTracking.tsx:12-31 | from confirmed, delivered is reached after exactly three advances and not before |
| OrderTracking.EveryStatusDeliveredInFour | src/app/components/OrderTracking.tsx:24-34 | from any status, four advances reach delivered |
| OrderTracking.StepFlags | src/app/components/OrderTracking.tsx:61-62 | the completed steps form a prefix, at most one step is current, the current step is completed, and a current step exists exactly when the status is one of the steps |
| OrderTracking.Tracker.constructor | src/app/components/OrderTracking.tsx:20 | the displayed status starts as the order's status |
| OrderTracking.Tracker.CurrentStepIndex | src/app/components/OrderTracking.tsx:21 | the current index is the position of the displayed status among the steps, and -1 exactly when the status is not one of them |
| OrderTracking.Tracker.Tick | src/app/components/OrderTracking.tsx:24-31 | a timer firing moves the displayed status to the next status |
| RestaurantDashboard.ActionsFor | src/app/components/RestaurantDashboard.tsx:125-164 | card j offers exactly two buttons, reject then accept, both for card j's own order id |
| RestaurantDashboard.RestaurantOrdersSpec | src/app/components/RestaurantDashboard.tsx:25 | the restaurant's list holds exactly the orders with its id |
| RestaurantDashboard.RestaurantOrdersAppend | src/app/components/RestaurantDashboard.tsx:25 | the restaurant's list keeps the original order |
| RestaurantDashboard.GroupsSpec | src/app/components/RestaurantDashboard.tsx:26-30 | pending, active (confirmed, preparing, ready) and completed (delivered) hold exactly the restaurant's orders with those statuses |
| RestaurantDashboard.ElementOfFilter | src/app/components/RestaurantDashboard.tsx:26-30 | a group's member is in the list it was filtered from and passes the filter |
| RestaurantDashboard.GroupsDisjoint | src/app/components/RestaurantDashboard.tsx:26-30 | the groups are pairwise disjoint, and picked-up, out-for-delivery and cancelled orders are in none of them |
| RestaurantDashboard.OpenSplit | src/app/components/RestaurantDashboard.tsx:26-29 | pending and active together are the orders not yet out of the kitchen |
| RestaurantDashboard.ClosedSplit | src/app/components/RestaurantDashboard.tsx:30 | completed and ungrouped together are the other orders |
| RestaurantDashboard.OpenClosedSplit | src/app/components/RestaurantDashboard.tsx:26-30 | those two sets split all orders |
| RestaurantDashboard.StatusPartition | src/app/components/RestaurantDashboard.tsx:26-30 | the three groups and the ungrouped rest split any order list, as multisets |
| RestaurantDashboard.GroupsPartition | src/app/components/RestaurantDashboard.tsx:25-30 | the three groups and the ungrouped rest make up the restaurant's list |
| RestaurantDashboard.RevenueAppend | src/app/components/RestaurantDashboard.tsx:32 | revenue adds up over concatenated order lists |
| RestaurantDashboard.RevenueNonNegative | src/app/components/RestaurantDashboard.tsx:32-33 | with non-negative totals, revenue and average are non-negative |
| RestaurantDashboard.Mean | src/app/components/RestaurantDashboard.tsx:33 | over a positive count, the mean times the count gives back the total; over no values it is 0; a non-negative total has a non-negative mean |
| RestaurantDashboard.NoCompletedOrders | src/app/components/RestaurantDashboard.tsx:32-33 | with no completed order both the revenue and the average are 0 |
| RestaurantDashboard.ActionsOnlyForPending | src/app/components/RestaurantDashboard.tsx:121-166 | an accept or reject button is offered only for a pending order of the restaurant |
| RestaurantDashboard.PendingOrdersHaveActions | src/app/components/RestaurantDashboard.tsx:121-166 | every pending order of the restaurant gets both an accept and a reject button |
| DeliveryDashboard.PickupButtons | src/app/components/DeliveryDashboard.tsx:71-118 | one "Picked Up" button per assigned card, for that card's task id |
| DeliveryDashboard.CompleteButtons | src/app/components/DeliveryDashboard.tsx:134-168 | one "Mark as Delivered" button per in-progress card, for that card's task id |
| DeliveryDashboard.GroupsSpec | src/app/components/DeliveryDashboard.tsx:14-16 | each group holds exactly the tasks with its status |
| DeliveryDashboard.GroupsAppend | src/app/components/DeliveryDashboard.tsx:14-16 | each group keeps the task list's order |
| DeliveryDashboard.OpenSplit | src/app/components/DeliveryDashboard.tsx:14-15 | assigned and picked-up together are the undelivered tasks |
| DeliveryDashboard.OpenDeliveredSplit | src/app/components/DeliveryDashboard.tsx:14-16 | undelivered and delivered tasks split the list |
| DeliveryDashboard.GroupsPartition | src/app/components/DeliveryDashboard.tsx:14-16 | the three groups split the task list, and their sizes add up to its length |
| DeliveryDashboard.ActionsFollowStatus | src/app/components/DeliveryDashboard.tsx:66-170 | a pickup button belongs to an assigned task and a complete button to a picked-up task |
| DeliveryDashboard.AssignedTaskOffered | src/app/components/DeliveryDashboard.tsx:67-124 | an assigned task gets its pickup button |
| DeliveryDashboard.PickedUpTaskOffered | src/app/components/DeliveryDashboard.tsx:134-172 | a picked-up task gets its complete button |
| DeliveryDashboard.OpenTasksHaveActions | src/app/components/DeliveryDashboard.tsx:66-170 | every assigned task has its pickup button and every picked-up task its complete button |
| RestaurantDetails.CategoriesSpec | src/app/components/RestaurantDetails.tsx:22 | the headings have no repeats, are exactly the items' categories, and come in first-occurrence order |
| RestaurantDetails.SectionSpec | src/app/components/RestaurantDetails.tsx:110-111 | a section lists only items of its category, and every item of that category |
| RestaurantDetails.SectionsForPrefix | src/app/components/RestaurantDetails.tsx:104 | the sections of a prefix of the headings are the prefix of the sections |
| RestaurantDetails.ListedForDistinct | src/app/components/RestaurantDetails.tsx:104-118 | sections for distinct categories list each item of those categories exactly once |
| RestaurantDetails.FilterNone | src/app/components/RestaurantDetails.tsx:110-111 | a filter that matches nothing is empty |
| RestaurantDetails.EachItemListedOnce | src/app/components/RestaurantDetails.tsx:104-118 | every menu item appears exactly once on the page |
| RestaurantDetails.AddTargetFindsItem | src/app/components/RestaurantDetails.tsx:116 | a card's add button passes an id that finds that very item in a catalog with unique ids |

## Left out

- Rendering, animation, toasts, charts and the purely presentational
  components (landing page, floating navigation, browse list, restaurant
  and menu-item cards, coupon list with its clipboard call). They compute
  nothing the engine keeps; the page switches some of them trigger are the
  navigation handlers below.
- The navigation-only handlers of `src/app/App.tsx` (role selection, get
  started, restaurant click, the floating navigation's `onViewChange` at
  line 252 and the restaurant page's `onBack` at line 283) and the role and
  selected-restaurant state. They only switch pages: each sets `view`, and
  no contract of `App.AppStore` depends on the view before a call. Back to home, which also drops the current order,
  is modelled (`App.AppStore.BackToHome`).
- Timer scheduling and cancellation in the tracking view. Only the step
  taken when the timer fires is modelled (`OrderTracking.Tracker.Tick`).
- Generated ids and timestamps (`Date.now()`, `new Date().toLocaleString()`)
  and the estimated-time strings. Ids are parameters; the rest is not
  modelled.
- Entity fields the engine never reads: the restaurant's image, cuisine,
  rating and so on; the menu item's description, image, bestseller flag and
  rating; the user record; the order's executive id. The checkout form's
  city and pincode inputs are not bound to any state.
- Floating-point arithmetic. Money is an exact real, so rounding in
  percentage discounts and the `Math.round`/`toLocaleString` display
  formatting are not modelled.
- `Text.ToLower`: lower-cases ASCII letters only, not the full Unicode case
  mapping of `toLowerCase`. All seed codes are ASCII.
- The payment method is passed to order placement but not recorded, as in
  the source.
- React's batching of state updates and stale closures. Each method reads
  the state its handler's render saw, since each handler runs once per
  event.
- The Python backend, which the client does not call.

## Findings

| source | as written | input that shows it | evidently intended | confidence | as-written member | corrected member |
|---|---|---|---|---|---|---|
| src/app/App.tsx:301-320 | the checkout form's "Amount to Pay" subtracts the applied coupon's value without checking its minimum order value, while `handlePlaceOrder` (src/app/App.tsx:136-147) checks it; a coupon stays applied when the cart later shrinks | add Butter Chicken (m1) and Garlic Naan (m4): 410; apply FIRST50; remove the chicken: 60; the form shows 70 but the placed order charges 100 | the amount shown is what the order is charged, with no discount below the minimum | high (proved on the model; not executed) | AppSpec.CheckoutAmountAsWrittenMismatch | AppSpec.CheckoutAmount |
