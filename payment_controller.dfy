/** backend/controllers/paymentController.js: a pending payment row for a
    Razorpay order, and the signature-gated verification that completes the
    payment and makes its user premium in one transaction. The Razorpay order
    call and HMAC-SHA256 are functions handed in from outside. */
module PaymentController {
  import opened Wrappers
  import opened Strings
  import opened Validators
  import opened Schema
  import opened Tables
  import opened Http
  import opened Backend

  /** RAZORPAY_KEY_ID and RAZORPAY_KEY_SECRET from the environment; either may
      be unset. */
  datatype Gateway = Gateway(keyId: Option<string>, keySecret: Option<string>)

  /** The options passed to `razorpay.orders.create` (lines 20-28). */
  datatype OrderRequest = OrderRequest(amount: int, currency: string, receipt: string,
                                       userId: string, planDuration: int)

  /** The defaults of the createPayment body (line 15): 499.00 rupees in paise,
      rupees, one year. A default applies only to an omitted field. */
  const DefaultAmount: int := 49900
  const DefaultCurrency := "INR"
  const DefaultPlanDays: int := 365

  const ReceiptPrefix := "receipt_"

  /** `receipt_${userId}_${Date.now()}`: the user id can be read back from it. */
  function Receipt(userId: string, now: nat): (rc: string)
    ensures StartsWith(rc, ReceiptPrefix)
    ensures |rc| == |ReceiptPrefix| + |userId| + 1 + |NatToString(now)|
    ensures rc[|ReceiptPrefix|..|ReceiptPrefix| + |userId|] == userId
    ensures rc[|ReceiptPrefix| + |userId|] == '_' && rc[|ReceiptPrefix| + |userId| + 1..] == NatToString(now)
  {
    ReceiptPrefix + userId + "_" + NatToString(now)
  }

  /** The row createPayment inserts (lines 36-39): pending, not verified, created now. */
  function PendingPayment(id: string, userId: string, orderId: string, amount: int, currency: string,
                          planDuration: int, now: int): (p: Payment)
    ensures p.id == id && p.userId == userId && p.orderId == orderId
    ensures p.amount == amount && p.currency == currency && p.planDuration == planDuration
    ensures p.status == "pending" && p.verifiedAt == None && p.createdAt == now
  {
    Payment(id, userId, orderId, amount, currency, "pending", planDuration, None, now)
  }

  function PaymentError(): Response {
    Fail(500, "Failed to create payment", "PAYMENT_ERROR")
  }

  /** `INSERT INTO payments ...` on the store: the row is added unless the
      database refuses it, and nothing else changes. */
  method InsertPayment(s: Store, row: Payment) returns (inserted: bool)
    requires s.Valid()
    modifies s
    ensures s.Valid()
    ensures s.users == old(s.users) && s.cars == old(s.cars) && s.scans == old(s.scans)
    ensures s.qrCodes == old(s.qrCodes) && s.kv == old(s.kv)
    ensures inserted <==> AddPayment(old(s.payments), old(s.users), row).Some?
    ensures inserted ==> s.payments == AddPayment(old(s.payments), old(s.users), row).value
    ensures !inserted ==> s.payments == old(s.payments)
  {
    var added := AddPayment(s.payments, s.users, row);
    if added.None? {
      return false;
    }
    s.payments := added.value;
    inserted := true;
  }

  /** `createPayment` (lines 12-62). The amount is not checked. A failed order
      call or a refused insert answers 500 PAYMENT_ERROR; otherwise exactly one
      pending row with the gateway's order id is added. */
  method CreatePayment(s: Store, gw: Gateway, userId: string, amount: Option<int>, currency: Field,
                       planDuration: Option<int>, createOrder: OrderRequest -> Option<string>,
                       idSuffix: string, now: nat) returns (r: Response)
    requires s.Valid()
    modifies s
    ensures s.Valid()
    ensures s.users == old(s.users) && s.cars == old(s.cars) && s.scans == old(s.scans)
    ensures s.qrCodes == old(s.qrCodes) && s.kv == old(s.kv)
    ensures var amt := amount.GetOr(DefaultAmount);
      var cur := currency.GetOr(DefaultCurrency);
      var days := planDuration.GetOr(DefaultPlanDays);
      var order := createOrder(OrderRequest(amt, cur, Receipt(userId, now), userId, days));
      if order.None? then
        r == PaymentError() && s.payments == old(s.payments)
      else
        var row := PendingPayment(GeneratePaymentId(now, idSuffix), userId, order.value, amt, cur, days, now);
        if AddPayment(old(s.payments), old(s.users), row).None? then
          r == PaymentError() && s.payments == old(s.payments)
        else
          s.payments == old(s.payments)[row.id := row]
          && r == Ok(200, PaymentOrder(row.id, order.value, amt, cur, gw.keyId, userId))
  {
    var amt := amount.GetOr(DefaultAmount);
    var cur := currency.GetOr(DefaultCurrency);
    var days := planDuration.GetOr(DefaultPlanDays);
    var order := createOrder(OrderRequest(amt, cur, Receipt(userId, now), userId, days));
    if order.None? {
      return PaymentError();
    }
    var paymentId := GeneratePaymentId(now, idSuffix);
    var row := PendingPayment(paymentId, userId, order.value, amt, cur, days, now);
    var inserted := InsertPayment(s, row);
    if !inserted {
      return PaymentError();
    }
    r := Ok(200, PaymentOrder(paymentId, order.value, amt, cur, gw.keyId, userId));
  }

  /** The text Razorpay signs: `orderId + '|' + paymentId`. */
  function SignedText(orderId: string, paymentId: string): (t: string)
    ensures |t| == |orderId| + 1 + |paymentId|
    ensures t[..|orderId|] == orderId && t[|orderId|] == '|' && t[|orderId| + 1..] == paymentId
  {
    orderId + "|" + paymentId
  }

  /** Razorpay order ids hold no `|`, and for such ids the signed text
      determines both the order id and the payment id. */
  lemma SignedTextInjective(o1: string, p1: string, o2: string, p2: string)
    requires '|' !in o1 && '|' !in o2
    ensures SignedText(o1, p1) == SignedText(o2, p2) <==> o1 == o2 && p1 == p2
  {
    if SignedText(o1, p1) == SignedText(o2, p2) {
      var t := SignedText(o1, p1);
      if |o1| < |o2| {
        assert false;
      } else if |o2| < |o1| {
        assert false;
      }
      assert o1 == t[..|o1|] == o2;
    }
  }

  /** The refusals of verifyPayment before the database is read (lines 70-91):
      a missing field, an unset secret (`createHmac` throws, which ends in the
      500 of the outer catch), or a signature other than the hex HMAC-SHA256 of
      the signed text. None when the request gets through. */
  function SignatureCheck(gw: Gateway, hmac: (string, string) -> string,
                          paymentId: Field, orderId: Field, signature: Field): (g: Option<Response>)
    ensures g == Some(Fail(422, "Missing payment details", "INVALID_REQUEST")) <==>
      !(Present(paymentId) && Present(orderId) && Present(signature))
    ensures g == Some(ServerError()) <==>
      Present(paymentId) && Present(orderId) && Present(signature) && gw.keySecret.None?
    ensures g == Some(Fail(400, "Payment verification failed", "INVALID_SIGNATURE")) <==>
      Present(paymentId) && Present(orderId) && Present(signature) && gw.keySecret.Some?
      && hmac(gw.keySecret.value, SignedText(orderId.value, paymentId.value)) != signature.value
    ensures g.None? <==>
      Present(paymentId) && Present(orderId) && Present(signature) && gw.keySecret.Some?
      && hmac(gw.keySecret.value, SignedText(orderId.value, paymentId.value)) == signature.value
  {
    if !Present(paymentId) || !Present(orderId) || !Present(signature) then
      Some(Fail(422, "Missing payment details", "INVALID_REQUEST"))
    else if gw.keySecret.None? then Some(ServerError())
    else if hmac(gw.keySecret.value, SignedText(orderId.value, paymentId.value)) != signature.value then
      Some(Fail(400, "Payment verification failed", "INVALID_SIGNATURE"))
    else None
  }

  /** `SELECT * FROM payments WHERE "userId" = ? AND "orderId" = ?` finds this row. */
  predicate IsPaymentFor(payments: Payments, id: string, userId: string, orderId: string) {
    id in payments && payments[id].userId == userId && payments[id].orderId == orderId
  }

  predicate HasPaymentFor(payments: Payments, userId: string, orderId: string) {
    exists id | id in payments :: IsPaymentFor(payments, id, userId, orderId)
  }

  /** The two updates of the transaction (lines 118-131) on the store, for a
      payment row of the user: the payment is completed and the user made
      premium until the given expiry. */
  method CommitVerification(s: Store, id: string, userId: string, expiry: int, now: nat)
    requires s.Valid() && id in s.payments && s.payments[id].userId == userId
    modifies s
    ensures s.Valid()
    ensures s.cars == old(s.cars) && s.scans == old(s.scans) && s.qrCodes == old(s.qrCodes) && s.kv == old(s.kv)
    ensures s.payments == CompletePayment(old(s.payments), id, now)
    ensures s.users == SetPremium(old(s.users), userId, expiry, now)
  {
    var payments := CompletePayment(s.payments, id, now);
    var users := SetPremium(s.users, userId, expiry, now);
    UsersChangeKeepsConsistent(s.users, users, s.cars, s.scans, s.qrCodes, s.payments);
    s.users := users;
    s.payments := payments;
  }

  /** `verifyPayment` (lines 65-169). After the signature check the user's
      payment for the order is looked up; when several rows match, whichever the
      database returns first is used. The payment's status is not checked, so
      a completed payment can be verified again. An expiry outside the range of
      a JavaScript date cannot be written and rolls both updates back with 500. */
  method VerifyPayment(s: Store, gw: Gateway, hmac: (string, string) -> string, userId: string,
                       paymentId: Field, orderId: Field, signature: Field, now: nat) returns (r: Response)
    requires s.Valid()
    modifies s
    ensures s.Valid()
    ensures s.cars == old(s.cars) && s.scans == old(s.scans) && s.qrCodes == old(s.qrCodes) && s.kv == old(s.kv)
    ensures SignatureCheck(gw, hmac, paymentId, orderId, signature).Some? ==>
      r == SignatureCheck(gw, hmac, paymentId, orderId, signature).value
      && s.users == old(s.users) && s.payments == old(s.payments)
    ensures SignatureCheck(gw, hmac, paymentId, orderId, signature).None?
            && !HasPaymentFor(old(s.payments), userId, orderId.value) ==>
      r == Fail(404, "Payment not found", "PAYMENT_NOT_FOUND")
      && s.users == old(s.users) && s.payments == old(s.payments)
    ensures SignatureCheck(gw, hmac, paymentId, orderId, signature).None?
            && HasPaymentFor(old(s.payments), userId, orderId.value) ==>
      exists id | id in old(s.payments) && IsPaymentFor(old(s.payments), id, userId, orderId.value) ::
        var p := old(s.payments)[id];
        var expiry := AddDays(now, p.planDuration);
        if !DateInRange(expiry) then
          r == ServerError() && s.users == old(s.users) && s.payments == old(s.payments)
        else
          s.payments == CompletePayment(old(s.payments), id, now)
          && s.users == SetPremium(old(s.users), userId, expiry, now)
          && r == Ok(200, PaymentVerified(id, userId, "completed", p.amount, p.planDuration, expiry, now))
  {
    var refusal := SignatureCheck(gw, hmac, paymentId, orderId, signature);
    if refusal.Some? {
      return refusal.value;
    }
    if !HasPaymentFor(s.payments, userId, orderId.value) {
      return Fail(404, "Payment not found", "PAYMENT_NOT_FOUND");
    }
    var id :| id in s.payments && IsPaymentFor(s.payments, id, userId, orderId.value);
    var payment := s.payments[id];
    var expiry := AddDays(now, payment.planDuration);
    if !DateInRange(expiry) {
      return ServerError();
    }
    CommitVerification(s, id, userId, expiry, now);
    r := Ok(200, PaymentVerified(id, userId, "completed", payment.amount, payment.planDuration, expiry, now));
  }

  /** A payment createPayment inserted is found by verifyPayment for the same
      user and order, and none is found for another user. */
  lemma CreatedPaymentFound(payments: Payments, users: Users, row: Payment, other: string)
    requires PaymentsKeyed(payments) && other != row.userId
    requires AddPayment(payments, users, row).Some?
    ensures HasPaymentFor(AddPayment(payments, users, row).value, row.userId, row.orderId)
    ensures HasPaymentFor(AddPayment(payments, users, row).value, other, row.orderId) <==>
      HasPaymentFor(payments, other, row.orderId)
  {
    var after := AddPayment(payments, users, row).value;
    assert IsPaymentFor(after, row.id, row.userId, row.orderId);
    if HasPaymentFor(after, other, row.orderId) {
      var id :| id in after && IsPaymentFor(after, id, other, row.orderId);
      assert id != row.id;
      assert IsPaymentFor(payments, id, other, row.orderId);
    }
    if HasPaymentFor(payments, other, row.orderId) {
      var id :| id in payments && IsPaymentFor(payments, id, other, row.orderId);
      assert after[id] == payments[id];
      assert IsPaymentFor(after, id, other, row.orderId);
    }
  }

  /** Making a user premium twice leaves what the second write alone leaves. */
  lemma PremiumTwice(users: Users, userId: string, e1: int, t1: int, e2: int, t2: int)
    ensures SetPremium(SetPremium(users, userId, e1, t1), userId, e2, t2) == SetPremium(users, userId, e2, t2)
  {
    if userId in users {
      var u := users[userId];
      var once := SetPremium(users, userId, e1, t1);
      assert once == users[userId := u.(isPremium := true, plan := "premium", premiumExpiryDate := Some(e1), updatedAt := t1)];
      assert once[userId].(isPremium := true, plan := "premium", premiumExpiryDate := Some(e2), updatedAt := t2)
          == u.(isPremium := true, plan := "premium", premiumExpiryDate := Some(e2), updatedAt := t2);
    }
  }

  /** Completing a payment twice leaves what the second completion alone leaves. */
  lemma CompleteTwice(payments: Payments, id: string, t1: int, t2: int)
    ensures CompletePayment(CompletePayment(payments, id, t1), id, t2) == CompletePayment(payments, id, t2)
  {
    if id in payments {
      var once := CompletePayment(payments, id, t1);
      assert once[id].(status := "completed", verifiedAt := Some(t2))
          == payments[id].(status := "completed", verifiedAt := Some(t2));
    }
  }

  /** Verification is not guarded by the status: verifying the same payment at
      a later instant leaves the state a single verification at that instant
      would leave. The expiry is reset from the later instant, not extended. */
  lemma ReverifyResetsExpiry(users: Users, payments: Payments, id: string, userId: string,
                             days: int, t1: nat, t2: nat)
    ensures var users2 := SetPremium(SetPremium(users, userId, AddDays(t1, days), t1), userId, AddDays(t2, days), t2);
      users2 == SetPremium(users, userId, AddDays(t2, days), t2)
    ensures CompletePayment(CompletePayment(payments, id, t1), id, t2) == CompletePayment(payments, id, t2)
  {
    PremiumTwice(users, userId, AddDays(t1, days), t1, AddDays(t2, days), t2);
    CompleteTwice(payments, id, t1, t2);
  }

  /** After a verification the user is premium until `days` days after it,
      and the payment is completed at that instant. */
  lemma VerifiedState(users: Users, payments: Payments, id: string, userId: string, days: int, now: nat)
    requires userId in users && id in payments
    ensures var u := SetPremium(users, userId, AddDays(now, days), now)[userId];
      u.isPremium && u.plan == "premium" && u.premiumExpiryDate == Some(now + days * MsPerDay)
    ensures var p := CompletePayment(payments, id, now)[id];
      p.status == "completed" && p.verifiedAt == Some(now) && p.amount == payments[id].amount
  {
  }
}
