/**
 * The callback verifier: the `verify-razorpay-payment` edge function. It recomputes
 * the signature of `razorpayOrderId|razorpayPaymentId` with the shared secret and
 * overwrites the payment status of the row `id = orderId`: `completed` when the
 * signature matches, `failed` otherwise. It never reads the row first.
 */
module VerifyPayment {
  import opened Wrappers
  import opened Orders
  import opened Signature
  import opened Http

  /** The request body, as the browser relays it from the gateway's checkout handler. */
  datatype CallbackBody = CallbackBody(
    razorpayPaymentId: string,
    razorpayOrderId: string,
    razorpaySignature: string,
    orderId: OrderId)

  datatype Request =
    | Options
    | Malformed(reason: string)
    | Callback(body: CallbackBody)

  const VerifiedMessage: string := "Payment verified successfully"
  const RejectedMessage: string := "Payment verification failed"
  const UpdateFailedMessage: string := "Failed to update order status"

  /** Whether the callback's signature is the one the shared secret produces. */
  predicate Genuine(c: Crypto, secret: string, b: CallbackBody) {
    SignatureMatches(c, secret, b.razorpayOrderId, b.razorpayPaymentId, b.razorpaySignature)
  }

  /**
   * The handler as written. `updateFails` is the database reporting an error for the
   * update; it is checked on the valid path only.
   */
  method Handle(ledger: Ledger, req: Request, secret: Option<string>, c: Crypto, now: Stamp, updateFails: bool)
    returns (resp: Response)
    requires ledger.Valid()
    modifies ledger`rows
    ensures ledger.Valid()
    ensures req.Options? ==> resp == Preflight && ledger.rows == old(ledger.rows)
    ensures req.Malformed? ==> resp == Reply(500, Failure(req.reason)) && ledger.rows == old(ledger.rows)
    ensures req.Callback? && !SecretConfigured(secret) ==>
              resp == Reply(500, Failure(SecretMissingMessage)) && ledger.rows == old(ledger.rows)
    // valid signature: completed, with the gateway payment id, whatever the previous status
    ensures req.Callback? && SecretConfigured(secret) && Genuine(c, secret.value, req.body) && !updateFails ==>
              && resp == Reply(200, PaymentVerified(VerifiedMessage))
              && ledger.rows == UpdateWhereId(old(ledger.rows), req.body.orderId,
                                              MarkCompleted(req.body.razorpayPaymentId, now))
    ensures req.Callback? && SecretConfigured(secret) && Genuine(c, secret.value, req.body) && updateFails ==>
              resp == Reply(500, Failure(UpdateFailedMessage)) && ledger.rows == old(ledger.rows)
    // invalid signature: failed (payment id untouched), rejected whether or not the update worked
    ensures req.Callback? && SecretConfigured(secret) && !Genuine(c, secret.value, req.body) ==>
              && resp == Reply(400, Failure(RejectedMessage))
              && ledger.rows == (if updateFails then old(ledger.rows)
                                 else UpdateWhereId(old(ledger.rows), req.body.orderId, MarkFailed(now)))
    ensures Succeeded(resp) <==> req.Callback? && SecretConfigured(secret) && Genuine(c, secret.value, req.body) && !updateFails
  {
    match req {
      case Options =>
        resp := Preflight;
      case Malformed(reason) =>
        resp := Reply(500, Failure(reason));
      case Callback(b) =>
        if !SecretConfigured(secret) {
          resp := Reply(500, Failure(SecretMissingMessage));
          return;
        }
        var expected := ExpectedSignature(c, secret.value, b.razorpayOrderId, b.razorpayPaymentId);
        var isValid := expected == b.razorpaySignature;
        if isValid {
          var error := ledger.Update(b.orderId, MarkCompleted(b.razorpayPaymentId, now), updateFails);
          if error {
            resp := Reply(500, Failure(UpdateFailedMessage));
          } else {
            resp := Reply(200, PaymentVerified(VerifiedMessage));
          }
        } else {
          var _ := ledger.Update(b.orderId, MarkFailed(now), updateFails);
          resp := Reply(400, Failure(RejectedMessage));
        }
    }
  }

  /**
   * A later callback with any wrong signature turns a completed order into a failed
   * one, and the row keeps the payment id the genuine callback stored.
   */
  lemma CompletedCanBecomeFailed(rows: map<OrderId, Order>, id: OrderId, paymentId: string, t1: Stamp, t2: Stamp)
    requires id in rows
    ensures var after := UpdateWhereId(UpdateWhereId(rows, id, MarkCompleted(paymentId, t1)), id, MarkFailed(t2));
            after[id].paymentStatus == Failed && after[id].paymentId == Some(paymentId)
  {
  }

  /** A failed order is completed by a later genuine callback: failure is not terminal either. */
  lemma FailedCanBecomeCompleted(rows: map<OrderId, Order>, id: OrderId, paymentId: string, t1: Stamp, t2: Stamp)
    requires id in rows
    ensures var after := UpdateWhereId(UpdateWhereId(rows, id, MarkFailed(t1)), id, MarkCompleted(paymentId, t2));
            after[id].paymentStatus == Completed && after[id].paymentId == Some(paymentId)
  {
  }

  /**
   * Replaying a genuine callback rewrites the row again: only `updated_at` moves, so
   * the replay is not rejected and not detectable in the response.
   */
  lemma GenuineReplayRewrites(rows: map<OrderId, Order>, id: OrderId, paymentId: string, t1: Stamp, t2: Stamp)
    requires id in rows
    ensures var once := UpdateWhereId(rows, id, MarkCompleted(paymentId, t1));
            var twice := UpdateWhereId(once, id, MarkCompleted(paymentId, t2));
            twice[id] == once[id].(updatedAt := t2)
  {
  }

  /**
   * The whole story on one row, run through the handler: the issuer's pending row is
   * completed by the genuine callback and then failed by a forged one for the same
   * order id, which is answered with 400 while the stored status changes.
   */
  method ForgedCallbackAfterPayment(row: Order, secret: string, c: Crypto, paymentId: string,
                                    gatewayOrderId: string, forged: string, t1: Stamp, t2: Stamp)
    returns (afterGenuine: PaymentStatus, afterForged: PaymentStatus, forgedStatus: int)
    requires secret != ""
    requires forged != ExpectedSignature(c, secret, gatewayOrderId, paymentId)
    ensures afterGenuine == Completed && afterForged == Failed && forgedStatus == 400
  {
    var ledger := new Ledger();
    var stored := ledger.Insert(row, t1, false);
    var id := stored.value.id;
    var genuine := CallbackBody(paymentId, gatewayOrderId, ExpectedSignature(c, secret, gatewayOrderId, paymentId), id);
    var r1 := Handle(ledger, Callback(genuine), Some(secret), c, t1, false);
    afterGenuine := ledger.rows[id].paymentStatus;
    var r2 := Handle(ledger, Callback(genuine.(razorpaySignature := forged)), Some(secret), c, t2, false);
    afterForged := ledger.rows[id].paymentStatus;
    forgedStatus := r2.status;
  }

  /**
   * A genuine callback naming an order id that has no row is answered with success,
   * and nothing is written: the handler never checks that the row exists.
   */
  method UnknownOrderReportedVerified(secret: string, c: Crypto, paymentId: string, gatewayOrderId: string,
                                      orderId: OrderId, now: Stamp)
    returns (status: int, success: bool, rowsAfter: nat)
    requires secret != ""
    ensures status == 200 && success && rowsAfter == 0
  {
    var ledger := new Ledger();
    var b := CallbackBody(paymentId, gatewayOrderId, ExpectedSignature(c, secret, gatewayOrderId, paymentId), orderId);
    var resp := Handle(ledger, Callback(b), Some(secret), c, now, false);
    status := resp.status;
    success := resp.body.Success();
    rowsAfter := |ledger.rows|;
  }

  /**
   * The stored gateway order id is never compared with the callback's: a genuine
   * callback for one gateway order, sent with another row's id, completes that other
   * row, here one linked to a different gateway order.
   */
  method GenuineCallbackCompletesOtherOrder(paid: Order, other: Order, secret: string, c: Crypto,
                                            paidGatewayOrderId: string, otherGatewayOrderId: string,
                                            paymentId: string, now: Stamp)
    returns (linkedTo: Option<string>, status: int, after: PaymentStatus)
    requires secret != "" && paidGatewayOrderId != otherGatewayOrderId
    ensures linkedTo == Some(otherGatewayOrderId) && linkedTo != Some(paidGatewayOrderId)
    ensures status == 200 && after == Completed
  {
    var ledger := new Ledger();
    var _ := ledger.Insert(paid.(paymentId := Some(paidGatewayOrderId)), now, false);
    var stored := ledger.Insert(other.(paymentId := Some(otherGatewayOrderId)), now, false);
    var id := stored.value.id;
    linkedTo := ledger.rows[id].paymentId;
    var b := CallbackBody(paymentId, paidGatewayOrderId, ExpectedSignature(c, secret, paidGatewayOrderId, paymentId), id);
    var resp := Handle(ledger, Callback(b), Some(secret), c, now, false);
    status := resp.status;
    after := ledger.rows[id].paymentStatus;
  }

  /** The answers of a compare-and-set verifier, which tells its outcomes apart. */
  datatype Verdict = Verified | SignatureInvalid | OrderNotFound | AlreadyFinalized(status: PaymentStatus) | PersistenceError

  /**
   * A guarded alternative to `Handle`, not what the source does: it reads the row
   * first, reports an unknown id, leaves a finished (completed or failed) row alone,
   * and only moves a pending row. The secret is configuration checked at start-up.
   */
  method HandleGuarded(ledger: Ledger, b: CallbackBody, secret: string, c: Crypto, now: Stamp, updateFails: bool)
    returns (v: Verdict)
    requires ledger.Valid()
    modifies ledger`rows
    ensures ledger.Valid()
    ensures ledger.rows.Keys == old(ledger.rows).Keys
    ensures b.orderId !in old(ledger.rows) ==> v == OrderNotFound && ledger.rows == old(ledger.rows)
    ensures b.orderId in old(ledger.rows) && old(ledger.rows)[b.orderId].paymentStatus != Pending ==>
              v == AlreadyFinalized(old(ledger.rows)[b.orderId].paymentStatus) && ledger.rows == old(ledger.rows)
    ensures b.orderId in old(ledger.rows) && old(ledger.rows)[b.orderId].paymentStatus == Pending ==>
              && v == (if updateFails then PersistenceError else if Genuine(c, secret, b) then Verified else SignatureInvalid)
              && ledger.rows == (if updateFails then old(ledger.rows)
                                 else if Genuine(c, secret, b) then UpdateWhereId(old(ledger.rows), b.orderId, MarkCompleted(b.razorpayPaymentId, now))
                                 else UpdateWhereId(old(ledger.rows), b.orderId, MarkFailed(now)))
    // a finished row never changes again
    ensures forall k :: k in old(ledger.rows) && old(ledger.rows)[k].paymentStatus != Pending ==>
              ledger.rows[k] == old(ledger.rows)[k]
  {
    if b.orderId !in ledger.rows {
      return OrderNotFound;
    }
    var current := ledger.rows[b.orderId].paymentStatus;
    if current != Pending {
      return AlreadyFinalized(current);
    }
    var genuine := Genuine(c, secret, b);
    var patch := if genuine then MarkCompleted(b.razorpayPaymentId, now) else MarkFailed(now);
    var error := ledger.Update(b.orderId, patch, updateFails);
    v := if error then PersistenceError else if genuine then Verified else SignatureInvalid;
  }

  /**
   * Under the guarded verifier the first callback to reach a pending row decides it:
   * a second call, genuine or forged, finds it finished and changes nothing.
   */
  method GuardedSecondCallbackIsInert(row: Order, secret: string, c: Crypto, first: CallbackBody, second: CallbackBody,
                                      t1: Stamp, t2: Stamp)
    returns (v1: Verdict, v2: Verdict, changed: bool)
    requires row.paymentStatus == Pending
    ensures v1 == Verified || v1 == SignatureInvalid
    ensures v2.AlreadyFinalized? && !changed
  {
    var ledger := new Ledger();
    var stored := ledger.Insert(row, t1, false);
    var id := stored.value.id;
    v1 := HandleGuarded(ledger, first.(orderId := id), secret, c, t1, false);
    var decided := ledger.rows;
    v2 := HandleGuarded(ledger, second.(orderId := id), secret, c, t2, false);
    changed := ledger.rows != decided;
  }
}
