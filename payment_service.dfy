/**
 * `PaymentService`: the simulated refund.  It reports success when there is
 * a transaction reference or a positive order id, and failure otherwise.
 */
module PaymentService {
  import opened Wrappers

  /** `refundPayment`: a usable transaction reference or a positive order id is enough. */
  function RefundPayment(transactionId: Option<string>, orderId: int): (r: bool)
    ensures orderId > 0 ==> r
    ensures transactionId.Some? && transactionId.value != [] ==> r
    ensures !r ==> orderId <= 0 && (transactionId == None || transactionId == Some([]))
  {
    (transactionId.Some? && transactionId.value != []) || orderId > 0
  }

  /**
   * Every stored order has a positive id, so its refund is reported as a
   * success whatever its transaction reference; the refund failure branches of
   * the order service therefore never fire for an order that exists.
   */
  lemma RefundSucceedsForStoredOrders(transactionId: Option<string>, orderId: int)
    requires orderId > 0
    ensures RefundPayment(transactionId, orderId)
  {
  }

  /** A refund is refused exactly when neither reference is usable. */
  lemma RefundRefusedOnlyWithoutReference(transactionId: Option<string>, orderId: int)
    ensures !RefundPayment(transactionId, orderId) <==>
            (transactionId == None || transactionId == Some([])) && orderId <= 0
  {
  }
}
