/** `PaymentService`: a payment is created `PENDING` and moves its order to
    `PAYMENT_PENDING`; completing the payment moves the order to `PAID`. */
module PaymentService {
  import opened Common
  import opened Store

  /** `createPayment`. A missing order is NotFound and nothing is written. The payment row
      is written first; `orderId` is a unique column, so a second payment for the same
      order makes that write fail and nothing changes. Then the order's status becomes
      `PAYMENT_PENDING`; no other order field changes. */
  method CreatePayment(db: Db, orderId: int, amount: real, paymentMethod: string) returns (r: Result<Payment>)
    requires db.Valid()
    modifies db`payments, db`nextPaymentId, db`orders
    ensures db.Valid()
    ensures orderId !in old(db.orders) ==> r == Err(Error(NotFound, PaymentOrderNotFound))
    ensures orderId in old(db.orders) && (exists p :: p in old(db.payments) && old(db.payments)[p].orderId == orderId) ==>
      r == Err(Error(InternalServerError, PaymentWriteFailed))
    ensures r.Err? ==> db.payments == old(db.payments) && db.orders == old(db.orders) && db.nextPaymentId == old(db.nextPaymentId)
    ensures r.Ok? ==>
      && r.value == Payment(orderId, amount, "PENDING", paymentMethod, None, None)
      && db.payments == old(db.payments)[old(db.nextPaymentId) := r.value]
      && db.nextPaymentId == old(db.nextPaymentId) + 1
      && db.orders == old(db.orders)[orderId := old(db.orders)[orderId].(status := PaymentPending)]
  {
    if orderId !in db.orders {
      return Err(Error(NotFound, PaymentOrderNotFound));
    }
    if exists p :: p in db.payments && db.payments[p].orderId == orderId {
      return Err(Error(InternalServerError, PaymentWriteFailed));
    }
    var payment := Payment(orderId, amount, "PENDING", paymentMethod, None, None);
    db.payments := db.payments[db.nextPaymentId := payment];
    db.nextPaymentId := db.nextPaymentId + 1;
    db.orders := db.orders[orderId := db.orders[orderId].(status := PaymentPending)];
    r := Ok(payment);
  }

  /** The payment after `updatePaymentStatus`: the new status, and the new transaction id
      when one is given (an `undefined` field is left as it was). */
  function Updated(p: Payment, status: string, transactionId: Option<string>): (u: Payment)
    ensures u.orderId == p.orderId && u.amount == p.amount && u.paymentMethod == p.paymentMethod
    ensures u.stripeSessionId == p.stripeSessionId && u.status == status
    ensures u.transactionId == if transactionId.Some? then transactionId else p.transactionId
  {
    p.(status := status, transactionId := if transactionId.Some? then transactionId else p.transactionId)
  }

  /** `updatePaymentStatus`. A missing payment makes the update throw. Only the exact
      status `COMPLETED` moves the payment's order to `PAID` (its `isPaid` is not
      touched); if that order no longer exists the call fails after the payment has
      already been updated. */
  method UpdatePaymentStatus(db: Db, paymentId: int, status: string, transactionId: Option<string>)
    returns (r: Result<Payment>)
    requires db.Valid()
    modifies db`payments, db`orders
    ensures db.Valid()
    ensures paymentId !in old(db.payments) ==>
      r == Err(Error(InternalServerError, RecordMissing)) && db.payments == old(db.payments) && db.orders == old(db.orders)
    ensures paymentId in old(db.payments) ==>
      var p := old(db.payments)[paymentId];
      && db.payments == old(db.payments)[paymentId := Updated(p, status, transactionId)]
      && (status != "COMPLETED" ==> db.orders == old(db.orders) && r == Ok(Updated(p, status, transactionId)))
      && (status == "COMPLETED" && p.orderId !in old(db.orders) ==>
            db.orders == old(db.orders) && r == Err(Error(InternalServerError, RecordMissing)))
      && (status == "COMPLETED" && p.orderId in old(db.orders) ==>
            db.orders == old(db.orders)[p.orderId := old(db.orders)[p.orderId].(status := Paid)]
            && r == Ok(Updated(p, status, transactionId)))
  {
    if paymentId !in db.payments {
      return Err(Error(InternalServerError, RecordMissing));
    }
    var payment := Updated(db.payments[paymentId], status, transactionId);
    db.payments := db.payments[paymentId := payment];
    if status == "COMPLETED" {
      if payment.orderId !in db.orders {
        return Err(Error(InternalServerError, RecordMissing));
      }
      db.orders := db.orders[payment.orderId := db.orders[payment.orderId].(status := Paid)];
    }
    r := Ok(payment);
  }

  /** `getPaymentByOrderId`: the order's payment, which is the only one it can have. */
  method GetPaymentByOrderId(db: Db, orderId: int) returns (r: Option<int>)
    requires db.Valid()
    ensures r.None? <==> forall p :: p in db.payments ==> db.payments[p].orderId != orderId
    ensures r.Some? ==> r.value in db.payments && db.payments[r.value].orderId == orderId
    ensures r.Some? ==> forall p :: p in db.payments && db.payments[p].orderId == orderId ==> p == r.value
  {
    if exists p :: p in db.payments && db.payments[p].orderId == orderId {
      var p :| p in db.payments && db.payments[p].orderId == orderId;
      r := Some(p);
    } else {
      r := None;
    }
  }
}
