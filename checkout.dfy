/**
 * The checkout form: the delivery address and payment method it holds, and
 * the submit guard that forwards them to order placement.
 */
module Checkout {
  import opened Wrappers
  import opened Arrays

  /** The four radio options of the form. */
  datatype PaymentMethod = Upi | Card | NetBanking | Cod

  const PaymentMethods: seq<PaymentMethod> := [Upi, Card, NetBanking, Cod]

  /** The arguments the form hands to order placement. */
  datatype PlaceOrderRequest = PlaceOrderRequest(address: string, paymentMethod: PaymentMethod)

  /** The selectable payment methods are exactly four distinct values. */
  lemma PaymentMethodsClosed(m: PaymentMethod)
    ensures |PaymentMethods| == 4 && Distinct(PaymentMethods)
    ensures m in PaymentMethods
  {
  }

  class CheckoutForm {
    /** The amount to pay the form shows, as the caller passed it in; the form never recomputes it. */
    const total: real
    var address: string
    var paymentMethod: PaymentMethod

    /** The form opens with an empty address and UPI selected. */
    constructor (total: real)
      ensures this.total == total && address == "" && paymentMethod == Upi
    {
      this.total := total;
      address := "";
      paymentMethod := Upi;
    }

    method SetAddress(a: string)
      modifies this`address
      ensures address == a
    {
      address := a;
    }

    method SelectPaymentMethod(m: PaymentMethod)
      modifies this`paymentMethod
      ensures paymentMethod == m
    {
      paymentMethod := m;
    }

    /**
     * handleSubmit: an empty address places nothing; any other address
     * requests one order with the form's address and payment method.
     */
    method Submit() returns (request: Option<PlaceOrderRequest>)
      ensures request.Some? <==> address != ""
      ensures request.Some? ==> request.value == PlaceOrderRequest(address, paymentMethod)
    {
      if address != "" {
        request := Some(PlaceOrderRequest(address, paymentMethod));
      } else {
        request := None;
      }
    }
  }
}
