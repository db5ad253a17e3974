/**
 * The seed catalog the application runs on: restaurants, menu items, coupons,
 * and the orders and delivery tasks the dashboards start with.
 */
module MockData {
  import opened Wrappers
  import opened Arrays
  import opened Text
  import opened Types
  import opened Cart

  const Restaurants: seq<Restaurant> := [
    Restaurant("1", "Spice Route"),
    Restaurant("2", "Pizza Paradise"),
    Restaurant("3", "Burger Barn"),
    Restaurant("4", "Wok Express"),
    Restaurant("5", "Green Bowl"),
    Restaurant("6", "Sweet Treats")
  ]

  const MenuItems: seq<MenuItem> := [
    MenuItem("m1", "1", "Butter Chicken", 350.0, "Main Course", false),
    MenuItem("m2", "1", "Paneer Tikka Masala", 280.0, "Main Course", true),
    MenuItem("m3", "1", "Chicken Biryani", 320.0, "Biryani", false),
    MenuItem("m4", "1", "Garlic Naan", 60.0, "Breads", true),
    MenuItem("m5", "1", "Dal Makhani", 220.0, "Main Course", true),
    MenuItem("m6", "2", "Margherita Pizza", 299.0, "Pizza", true),
    MenuItem("m7", "2", "Pepperoni Feast", 449.0, "Pizza", false),
    MenuItem("m8", "2", "BBQ Chicken Pizza", 399.0, "Pizza", false),
    MenuItem("m9", "2", "Garlic Breadsticks", 120.0, "Sides", true),
    MenuItem("m10", "3", "Classic Beef Burger", 249.0, "Burgers", false),
    MenuItem("m11", "3", "Veggie Delight Burger", 199.0, "Burgers", true),
    MenuItem("m12", "3", "Chicken Crispy Burger", 229.0, "Burgers", false),
    MenuItem("m13", "3", "French Fries", 99.0, "Sides", true)
  ]

  const Coupons: seq<Coupon> := [
    Coupon("c1", "FIRST50", "50% off on your first order", 50.0, Percentage, 200.0, Some(100.0)),
    Coupon("c2", "WELCOME100", "Flat ₹100 off", 100.0, Fixed, 300.0, None),
    Coupon("c3", "FREEDEL", "Free delivery on orders above ₹199", 40.0, Fixed, 199.0, None),
    Coupon("c4", "SAVE20", "20% off up to ₹150", 20.0, Percentage, 400.0, Some(150.0))
  ]

  const Orders: seq<Order> := [
    Order("ORD001", "user1", "1",
          [CartItem(MenuItems[0], 2, "1"), CartItem(MenuItems[2], 1, "1")],
          1020.0, 40.0, 0.0, 1060.0, Pending, "123 Main Street, Bangalore", None),
    Order("ORD002", "user2", "1",
          [CartItem(MenuItems[1], 1, "1")],
          280.0, 40.0, 0.0, 320.0, Preparing, "456 Park Avenue, Bangalore", None)
  ]

  const Tasks: seq<DeliveryTask> := [
    DeliveryTask("TASK001", "ORD002", "Spice Route", "789 Food Plaza, Koramangala, Bangalore",
                 "John Doe", "456 Park Avenue, HSR Layout, Bangalore", TaskAssigned),
    DeliveryTask("TASK002", "ORD003", "Pizza Paradise", "321 Pizza Street, Indiranagar, Bangalore",
                 "Jane Smith", "789 Lake View, Bellandur, Bangalore", TaskAssigned)
  ]

  /** Two strings whose lower-cased characters differ at some position differ once lower-cased. */
  lemma LowerDiffersAt(a: string, b: string, k: nat)
    requires k < |a| && k < |b| && LowerChar(a[k]) != LowerChar(b[k])
    ensures ToLower(a) != ToLower(b)
  {
    assert ToLower(a)[k] != ToLower(b)[k];
  }

  /** No two coupon codes are equal once lower-cased, so a case-insensitive lookup finds at most one. */
  lemma CouponCodesDistinctIgnoringCase()
    ensures forall i, j :: 0 <= i < j < |Coupons| ==> ToLower(Coupons[i].code) != ToLower(Coupons[j].code)
  {
    // FIRST50 and FREEDEL part at their second letter; every other pair at the first.
    LowerDiffersAt(Coupons[0].code, Coupons[1].code, 0);
    LowerDiffersAt(Coupons[0].code, Coupons[2].code, 1);
    LowerDiffersAt(Coupons[0].code, Coupons[3].code, 0);
    LowerDiffersAt(Coupons[1].code, Coupons[2].code, 0);
    LowerDiffersAt(Coupons[1].code, Coupons[3].code, 0);
    LowerDiffersAt(Coupons[2].code, Coupons[3].code, 0);
  }

  /** Exactly the percentage coupons carry a cap, and every catalog coupon is well formed. */
  lemma CatalogCouponShapes()
    ensures forall i :: 0 <= i < |Coupons| ==>
              (Coupons[i].discountType == Percentage <==> HasCap(Coupons[i])) &&
              (Coupons[i].discountType == Fixed <==> Coupons[i].maxDiscount.None?)
    ensures forall i :: 0 <= i < |Coupons| ==> WellFormedCoupon(Coupons[i])
  {
  }

  /**
   * With the catalog coupons the discount never exceeds the subtotal: the
   * percentages are at most 100 and each fixed amount is below its own minimum
   * order value. So neither the cart view's total nor a placed order's total
   * drops below the delivery fee; the checkout form's as-written amount can,
   * since it skips the minimum-order check.
   */
  lemma CatalogDiscountAtMostSubtotal(subtotal: real, i: int)
    requires 0 <= i < |Coupons| && subtotal >= 0.0
    ensures 0.0 <= Discount(subtotal, Some(Coupons[i])) <= subtotal
  {
    CatalogCouponShapes();
    DiscountBounds(subtotal, Coupons[i]);
  }

  /** The seed orders' recorded breakdowns agree with the pricing rules: 2x350 + 320 = 1020, and 280. */
  lemma SeedOrdersConsistent()
    ensures forall k :: 0 <= k < |Orders| ==>
              var o := Orders[k];
              && o.subtotal == Subtotal(o.items)
              && o.deliveryFee == DeliveryFee
              && o.discount == Discount(o.subtotal, None)
              && o.total == o.subtotal + o.deliveryFee - o.discount
  {
    var a, b := Orders[0].items, Orders[1].items;
    SubtotalOfLines(a);
    SubtotalOfLines(b);
  }

  /** The id of the `i`-th catalog item: "m" followed by the decimal numeral of i + 1. */
  function ItemIdAt(i: nat): string
    requires i < 19
  {
    if i < 9 then ['m', ('1' as int + i) as char]
    else ['m', '1', ('0' as int + i - 9) as char]
  }

  /** Menu-item ids are unique. */
  lemma MenuIdsUnique()
    ensures forall i, j :: 0 <= i < j < |MenuItems| ==> MenuItems[i].id != MenuItems[j].id
  {
    assert forall i :: 0 <= i < |MenuItems| ==> MenuItems[i].id == ItemIdAt(i);
    forall i, j | 0 <= i < j < |MenuItems|
      ensures MenuItems[i].id != MenuItems[j].id
    {
      var a, b := ItemIdAt(i), ItemIdAt(j);
      if j < 9 {
        assert a[1] != b[1];
      } else if 9 <= i {
        assert a[2] != b[2];
      } else {
        assert |a| != |b|;
      }
    }
  }

  /** Each menu item's restaurant is in the restaurant catalog, and every price is positive. */
  lemma MenuItemsWellFormed()
    ensures forall i :: 0 <= i < |MenuItems| ==>
              exists k :: 0 <= k < |Restaurants| && Restaurants[k].id == MenuItems[i].restaurantId
    ensures forall i :: 0 <= i < |MenuItems| ==> MenuItems[i].price > 0.0
  {
    forall i | 0 <= i < |MenuItems|
      ensures MenuItems[i].price > 0.0
    {
    }
    forall i | 0 <= i < |MenuItems|
      ensures exists k :: 0 <= k < |Restaurants| && Restaurants[k].id == MenuItems[i].restaurantId
    {
      var k := if i < 5 then 0 else if i < 9 then 1 else 2;
      assert Restaurants[k].id == MenuItems[i].restaurantId;
    }
  }

  /** The seed task TASK002 refers to ORD003, which no seed order carries. */
  lemma SeedTaskDangling()
    ensures Tasks[1].id == "TASK002" && Tasks[1].orderId == "ORD003"
    ensures forall k :: 0 <= k < |Orders| ==> Orders[k].id != Tasks[1].orderId
  {
    assert "ORD001"[5] != "ORD003"[5] && "ORD002"[5] != "ORD003"[5];
  }

  /** FIRST50 on two Butter Chickens: subtotal 700, discount min(350, 100) = 100, total 640. */
  lemma First50Scenario()
    ensures var cart := [CartItem(MenuItems[0], 2, "1")];
            && Subtotal(cart) == 700.0
            && Discount(Subtotal(cart), Some(Coupons[0])) == 100.0
            && CartTotal(cart, Some(Coupons[0])) == 640.0
  {
    SubtotalOfLines([CartItem(MenuItems[0], 2, "1")]);
  }

  /** WELCOME100 on a cart worth 100: below its minimum of 300, so no discount and a total of 140. */
  lemma Welcome100BelowMinimumScenario()
    ensures var cart := [CartItem(MenuItem("x", "1", "Item", 100.0, "Sides", true), 1, "1")];
            && Subtotal(cart) == 100.0
            && Discount(Subtotal(cart), Some(Coupons[1])) == 0.0
            && CartTotal(cart, Some(Coupons[1])) == 140.0
  {
    SubtotalOfLines([CartItem(MenuItem("x", "1", "Item", 100.0, "Sides", true), 1, "1")]);
  }
}
