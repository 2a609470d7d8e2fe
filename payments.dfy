/**
 * Payment of an order in the e-commerce backend: only the owner's pending,
 * undeleted order can be paid; a payment record is written with the
 * order's amount, and a successful payment moves the order to PAID. The
 * mock outcome, drawn at random by the backend, is a parameter here.
 */
module Payments {
  import opened Wrappers
  import Orders
  import Paging

  const Success: string := "SUCCESS"
  const Failed: string := "FAILED"

  const OrderNotFound: string := "Order not found"
  const NotPending: string := "Order is not in pending status"
  const PaymentFailed: string := "Payment failed. Please try again."

  /** A stored payment. `paymentDate` is set only for a successful one. */
  datatype Payment = Payment(id: string, order: Orders.OrderId, user: Orders.UserId, amount: int,
                             status: string, paymentMethod: string, paymentDate: Option<int>)

  datatype Reply = Refused(code: nat, message: string) | Paid(payment: Payment)

  /** The order lookup: the order with the identifier, of this user, not deleted. */
  predicate Owned(order: Orders.Order?, user: Orders.UserId)
    reads order
  {
    order != null && order.user == user && !order.isDeleted
  }

  /** The payment written for an outcome. */
  function Record(id: string, order: Orders.Order, user: Orders.UserId, paymentMethod: string, success: bool, now: int): (p: Payment)
    ensures p.amount == order.totalAmount && p.order == order.id && p.user == user
    ensures p.status == (if success then Success else Failed)
    ensures p.paymentDate.Some? <==> success
  {
    Payment(id, order.id, user, order.totalAmount, if success then Success else Failed, paymentMethod,
            if success then Some(now) else None)
  }

  /** POST of a payment for an order. The order found for the identifier
      (`null` when there is none) must be the user's and not deleted, or the
      answer is 404, and pending, or the answer is 400; in both cases no
      payment is written. Otherwise a payment with the outcome is written;
      on success the order is PAID and points to it, on failure the order is
      unchanged and the answer is 400. */
  method ProcessPayment(order: Orders.Order?, user: Orders.UserId, paymentMethod: string,
                        success: bool, now: int, paymentId: string)
    returns (reply: Reply, written: Option<Payment>)
    modifies order
    ensures !Owned(order, user) ==> reply == Refused(404, OrderNotFound) && written == None && (order != null ==> unchanged(order))
    ensures Owned(order, user) && old(order.status) != Orders.Pending ==>
              reply == Refused(400, NotPending) && written == None && unchanged(order)
    ensures Owned(order, user) && old(order.status) == Orders.Pending ==>
              && written == Some(Record(paymentId, order, user, paymentMethod, success, now))
              && (success ==> reply == Paid(written.value) && order.status == Orders.Paid && order.payment == Some(paymentId))
              && (!success ==> reply == Refused(400, PaymentFailed) && unchanged(order))
  {
    if !Owned(order, user) {
      return Refused(404, OrderNotFound), None;
    }
    if order.status != Orders.Pending {
      return Refused(400, NotPending), None;
    }
    var payment := Record(paymentId, order, user, paymentMethod, success, now);
    written := Some(payment);
    if success {
      order.status := Orders.Paid;
      order.payment := Some(payment.id);
      reply := Paid(payment);
    } else {
      reply := Refused(400, PaymentFailed);
    }
  }

  /** The payment list's page description, with the same query defaults
      and formulas as the order list's. */
  function PaymentsMeta(page: Option<string>, limit: Option<string>, total: nat): (m: Paging.Meta)
    ensures m == Orders.OrdersMeta(page, limit, total)
  {
    Paging.MetaFor(Paging.Param(page, Paging.DefaultPage), Paging.Param(limit, Paging.DefaultLimit), total)
  }
}
