/**
 * The price breakdown the cart view derives from its lines and the applied
 * coupon (subtotal, delivery fee, discount, total), and the quantity changes
 * its minus and plus controls request.
 */
module Cart {
  import opened Wrappers
  import opened Arrays
  import opened Types

  /** The delivery fee: charged by the cart view on a positive subtotal, and by every placed order. */
  const DeliveryFee: real := 40.0

  function LineTotal(item: CartItem): real {
    item.menuItem.price * item.quantity as real
  }

  /** The sum of price times quantity over the lines. */
  function Subtotal(items: seq<CartItem>): real {
    Sum(items, LineTotal)
  }

  function CartDeliveryFee(subtotal: real): real {
    if subtotal > 0.0 then DeliveryFee else 0.0
  }

  function Min(a: real, b: real): real {
    if a <= b then a else b
  }

  /** What an eligible coupon takes off a subtotal: a capped percentage or a fixed amount. */
  function CouponValue(subtotal: real, c: Coupon): real {
    if c.discountType == Percentage then
      var raw := subtotal * c.discount / 100.0;
      if HasCap(c) then Min(raw, c.maxDiscount.value) else raw
    else
      c.discount
  }

  /** The discount: nothing without a coupon or below its minimum order value. */
  function Discount(subtotal: real, coupon: Option<Coupon>): real {
    if coupon.Some? && subtotal >= coupon.value.minOrderValue then CouponValue(subtotal, coupon.value)
    else 0.0
  }

  function CartTotal(items: seq<CartItem>, coupon: Option<Coupon>): real {
    var subtotal := Subtotal(items);
    subtotal + CartDeliveryFee(subtotal) - Discount(subtotal, coupon)
  }

  /** The quantity the minus control asks for. */
  function DecrementRequest(item: CartItem): int {
    item.quantity - 1
  }

  /** The quantity the plus control asks for. */
  function IncrementRequest(item: CartItem): int {
    item.quantity + 1
  }

  /** A coupon as the catalog writes them: non-negative amounts, a percentage of at most 100. */
  predicate WellFormedCoupon(c: Coupon) {
    && c.discount >= 0.0
    && c.minOrderValue >= 0.0
    && (c.discountType == Percentage ==> c.discount <= 100.0)
    && (c.maxDiscount.Some? ==> c.maxDiscount.value >= 0.0)
  }

  /** Subtotals add up over concatenated carts; the empty cart's subtotal is 0. */
  lemma SubtotalAppend(a: seq<CartItem>, b: seq<CartItem>)
    ensures Subtotal(a + b) == Subtotal(a) + Subtotal(b)
    ensures Subtotal([]) == 0.0
  {
    SumAppend(a, b, LineTotal);
  }

  /** The subtotal of a one- or two-line cart, spelled out. */
  lemma SubtotalOfLines(items: seq<CartItem>)
    requires 1 <= |items| <= 2
    ensures |items| == 1 ==> Subtotal(items) == LineTotal(items[0])
    ensures |items| == 2 ==> Subtotal(items) == LineTotal(items[0]) + LineTotal(items[1])
  {
    assert Sum(items[..1], LineTotal) == LineTotal(items[0]) by {
      assert items[..1][..0] == [];
    }
    if |items| == 2 {
      assert items[..|items| - 1] == items[..1];
    } else {
      assert items[..1] == items;
    }
  }

  /** A non-empty cart of positively priced lines with positive quantities has a positive subtotal. */
  lemma {:induction false} SubtotalPositive(items: seq<CartItem>)
    requires |items| > 0
    requires forall i :: 0 <= i < |items| ==> items[i].menuItem.price > 0.0 && items[i].quantity >= 1
    ensures Subtotal(items) > 0.0
  {
    var last := items[|items| - 1];
    assert LineTotal(last) >= last.menuItem.price;
    if |items| > 1 {
      SubtotalPositive(items[..|items| - 1]);
    }
  }

  /** The cart charges the delivery fee exactly when the subtotal is positive. */
  lemma CartFeeIffPositive(subtotal: real)
    requires subtotal >= 0.0
    ensures CartDeliveryFee(subtotal) == 0.0 <==> subtotal == 0.0
    ensures CartDeliveryFee(subtotal) == DeliveryFee <==> subtotal > 0.0
  {
  }

  /**
   * The discount of each kind of coupon: none when absent or below the minimum;
   * a percentage equal to the smaller of the raw percentage and its truthy
   * cap (the raw percentage when there is no cap); a fixed amount taken as is.
   */
  lemma DiscountCases(subtotal: real, coupon: Option<Coupon>)
    ensures coupon.None? ==> Discount(subtotal, coupon) == 0.0
    ensures coupon.Some? && subtotal < coupon.value.minOrderValue ==> Discount(subtotal, coupon) == 0.0
    ensures coupon.Some? && subtotal >= coupon.value.minOrderValue && coupon.value.discountType == Percentage ==>
      var c, raw := coupon.value, subtotal * coupon.value.discount / 100.0;
      && Discount(subtotal, coupon) <= raw
      && (HasCap(c) ==> Discount(subtotal, coupon) <= c.maxDiscount.value)
      && (!HasCap(c) || raw <= c.maxDiscount.value ==> Discount(subtotal, coupon) == raw)
      && (HasCap(c) && raw > c.maxDiscount.value ==> Discount(subtotal, coupon) == c.maxDiscount.value)
    ensures coupon.Some? && subtotal >= coupon.value.minOrderValue && coupon.value.discountType == Fixed ==>
      Discount(subtotal, coupon) == coupon.value.discount
  {
  }

  /**
   * For a well-formed coupon the discount is never negative, and a percentage
   * discount never exceeds the subtotal.
   */
  lemma DiscountBounds(subtotal: real, c: Coupon)
    requires WellFormedCoupon(c) && subtotal >= 0.0
    ensures Discount(subtotal, Some(c)) >= 0.0
    ensures c.discountType == Percentage ==> Discount(subtotal, Some(c)) <= subtotal
  {
    if c.discountType == Percentage {
      assert 0.0 <= subtotal * c.discount <= subtotal * 100.0;
      var raw := subtotal * c.discount / 100.0;
      assert raw <= subtotal;
      assert CouponValue(subtotal, c) <= raw;
    }
  }

  /**
   * A fixed coupon is not clamped to the subtotal: with a flat 100 off and no
   * minimum, a cart worth 50 totals -10, below the delivery fee and below zero.
   */
  lemma FixedDiscountNotClamped()
    ensures var item := MenuItem("x", "r", "Item", 50.0, "Sides", true);
            var c := Coupon("c", "FLAT", "Flat 100 off", 100.0, Fixed, 0.0, None);
            CartTotal([CartItem(item, 1, "r")], Some(c)) == -10.0
  {
    var item := MenuItem("x", "r", "Item", 50.0, "Sides", true);
    assert Subtotal([CartItem(item, 1, "r")]) == 50.0 by {
      assert [CartItem(item, 1, "r")][..0] == [];
    }
  }
}
