/**
 * The storefront's prasad checkout: the price shown for a weight, the booking
 * modal's state, and `handleSubmit`, which calls the issuer, opens the gateway's
 * checkout, relays the gateway's callback to the verifier and, on success, shows
 * the confirmation page. The two edge functions are called directly on the shared
 * table; the gateway's popup is a parameter saying what the shopper did.
 */
module Checkout {
  import opened Wrappers
  import opened Orders
  import opened Signature
  import opened Http
  import CreatePayment
  import VerifyPayment

  /** `Math.round`: to the nearest integer, halves rounded up. */
  function MathRound(x: real): (r: int)
    ensures x - 0.5 < r as real <= x + 0.5
  {
    (x + 0.5).Floor
  }

  /**
   * `getPrice`: `Math.round(base_price * parseFloat(weight) * 2)` for a weight of
   * `halfKilos` half-kilograms. The rounding never changes anything: the price is the
   * base price per half-kilogram times the number of half-kilograms.
   */
  function GetPrice(basePrice: int, halfKilos: nat): (price: int)
    ensures price == basePrice * halfKilos
  {
    var x := basePrice as real * (halfKilos as real / 2.0) * 2.0;
    assert x == (basePrice * halfKilos) as real;
    MathRound(x)
  }

  /** The three weights every product offers by default: "0.5", "1" and "2" kg. */
  lemma DefaultWeightPrices(basePrice: int)
    ensures GetPrice(basePrice, 1) == basePrice
    ensures GetPrice(basePrice, 2) == 2 * basePrice
    ensures GetPrice(basePrice, 4) == 4 * basePrice
  {
  }

  /** `totalAmount = getPrice(selectedWeight) * formData.quantity`, in paise. */
  function TotalAmount(basePrice: int, halfKilos: nat, quantity: int): (total: int)
    ensures total == basePrice * halfKilos * quantity
  {
    GetPrice(basePrice, halfKilos) * quantity
  }

  datatype Product = Product(id: string, name: string, basePrice: int)

  datatype FormData = FormData(
    customerName: string,
    customerEmail: string,
    customerPhone: string,
    deliveryAddress: string,
    city: string,
    pincode: string,
    quantity: int,
    notes: string)

  const InitialForm: FormData := FormData("", "", "", "", "", "", 1, "")
  /** '0.5' kg, the weight the modal falls back to when closed. */
  const DefaultWeight: nat := 1
  const MaxQuantity: int := 5

  /** What the shopper did in the gateway's popup: closed it, or paid (the handler's `response`). */
  datatype GatewayCheckout =
    | Dismissed
    | Paid(razorpayPaymentId: string, razorpayOrderId: string, razorpaySignature: string)

  /** The options the gateway's checkout is opened with. */
  datatype CheckoutOptions = CheckoutOptions(key: string, amount: int, currency: string, razorpayOrderId: string)

  /** The `orderDetails` carried to `/order-confirmation`. */
  datatype Confirmation = Confirmation(
    orderId: OrderId,
    customerName: string,
    productName: string,
    quantity: int,
    weight: nat,
    totalAmount: int,
    paymentId: string)

  /** What one submission did, call by call. */
  datatype Submission = Submission(
    createCall: CreatePayment.Request,
    createdOrderId: Option<OrderId>,
    checkoutOpened: Option<CheckoutOptions>,
    verifyCall: Option<VerifyPayment.CallbackBody>,
    confirmation: Option<Confirmation>)

  /**
   * The table once the verifier has answered a checkout for row `id`: untouched when
   * there was no callback or its update failed, otherwise that row completed or failed
   * by the callback's signature and every other row as it was.
   */
  function SettledRows(rows: map<OrderId, Order>, id: OrderId, verifyCall: Option<VerifyPayment.CallbackBody>,
                       c: Crypto, secret: string, updateFails: bool, at: Stamp): (r: map<OrderId, Order>)
    ensures r.Keys == rows.Keys
    ensures forall k :: k in rows && k != id ==> r[k] == rows[k]
    ensures id in rows ==>
              && r[id].paymentStatus == (if verifyCall.None? || updateFails then rows[id].paymentStatus
                                         else if VerifyPayment.Genuine(c, secret, verifyCall.value) then Completed
                                         else Failed)
              && r[id].totalAmount == rows[id].totalAmount
              && (verifyCall.Some? && !updateFails && VerifyPayment.Genuine(c, secret, verifyCall.value) ==>
                    r[id].paymentId == Some(verifyCall.value.razorpayPaymentId))
  {
    if verifyCall.None? || updateFails then rows
    else if VerifyPayment.Genuine(c, secret, verifyCall.value) then
      UpdateWhereId(rows, id, MarkCompleted(verifyCall.value.razorpayPaymentId, at))
    else UpdateWhereId(rows, id, MarkFailed(at))
  }

  /** The checkout's UI state: the parent's `bookingModal` and the modal's `formData`. */
  class Storefront {
    var isOpen: bool
    var product: Option<Product>
    var selectedWeight: nat
    var form: FormData

    /** The quantity can only be picked from 1 to 5. */
    ghost predicate Valid()
      reads this
    {
      1 <= form.quantity <= MaxQuantity
    }

    constructor ()
      ensures Valid()
      ensures !isOpen && product == None && selectedWeight == DefaultWeight && form == InitialForm
    {
      isOpen := false;
      product := None;
      selectedWeight := DefaultWeight;
      form := InitialForm;
    }

    /** The modal renders only when it is open and has a product. */
    predicate Rendered()
      reads this
    {
      isOpen && product.Some?
    }

    /** The total the modal shows and charges. */
    function Amount(): (total: int)
      reads this
      requires product.Some?
      ensures total == product.value.basePrice * selectedWeight * form.quantity
    {
      TotalAmount(product.value.basePrice, selectedWeight, form.quantity)
    }

    method OpenBookingModal(p: Product, weight: nat)
      requires Valid()
      modifies this
      ensures Valid() && Rendered()
      ensures product == Some(p) && selectedWeight == weight && form == old(form)
    {
      isOpen, product, selectedWeight := true, Some(p), weight;
    }

    /** `closeBookingModal`: the form itself is kept as typed. */
    method CloseBookingModal()
      requires Valid()
      modifies this
      ensures Valid() && !Rendered()
      ensures !isOpen && product == None && selectedWeight == DefaultWeight && form == old(form)
    {
      isOpen, product, selectedWeight := false, None, DefaultWeight;
    }

    /** The quantity `<select>`, whose options are 1 to 5. */
    method ChooseQuantity(q: int)
      requires Valid() && 1 <= q <= MaxQuantity
      modifies this
      ensures Valid() && form == old(form).(quantity := q)
      ensures isOpen == old(isOpen) && product == old(product) && selectedWeight == old(selectedWeight)
    {
      form := form.(quantity := q);
    }

    /** The text inputs of the form. */
    method EditDetails(name: string, email: string, phone: string, address: string, city: string, pincode: string, notes: string)
      requires Valid()
      modifies this
      ensures Valid() && form == FormData(name, email, phone, address, city, pincode, old(form).quantity, notes)
      ensures isOpen == old(isOpen) && product == old(product) && selectedWeight == old(selectedWeight)
    {
      form := FormData(name, email, phone, address, city, pincode, form.quantity, notes);
    }

    /** The `orderData` that `handleSubmit` sends: it carries no amount. */
    function OrderData(): (d: CreatePayment.OrderData)
      reads this
      requires product.Some?
      ensures d.productId == product.value.id && d.quantity == form.quantity && d.weight == selectedWeight
    {
      CreatePayment.OrderData(form.customerName, form.customerEmail, form.customerPhone, form.deliveryAddress,
                              form.city, form.pincode, product.value.id, product.value.name, form.quantity,
                              selectedWeight, Some(form.notes))
    }

    /**
     * The gateway checkout's `handler`: relays the popup's response to the verifier
     * with the issuer's order id, and on success builds the confirmation from the
     * values captured at submission, closes the modal and resets the form. On failure
     * it only alerts, so the UI state stays.
     */
    method OnPayment(ledger: Ledger, orderId: OrderId, data: CreatePayment.OrderData, total: int,
                     response: GatewayCheckout, secret: Option<string>, c: Crypto, verifiedAt: Stamp, updateFails: bool)
      returns (call: VerifyPayment.CallbackBody, conf: Option<Confirmation>)
      requires Valid() && ledger.Valid() && response.Paid?
      modifies this, ledger
      ensures Valid() && ledger.Valid()
      ensures call == VerifyPayment.CallbackBody(response.razorpayPaymentId, response.razorpayOrderId,
                                                 response.razorpaySignature, orderId)
      ensures !SecretConfigured(secret) ==> ledger.rows == old(ledger.rows)
      ensures SecretConfigured(secret) ==>
                ledger.rows == SettledRows(old(ledger.rows), orderId, Some(call), c, secret.value, updateFails, verifiedAt)
      ensures conf.Some? <==> SecretConfigured(secret) && VerifyPayment.Genuine(c, secret.value, call) && !updateFails
      ensures conf.Some? ==>
                && conf.value == Confirmation(orderId, data.customerName, data.productName, data.quantity, data.weight,
                                              total, response.razorpayPaymentId)
                && !isOpen && product == None && selectedWeight == DefaultWeight && form == InitialForm
      ensures conf.None? ==>
                isOpen == old(isOpen) && product == old(product) && selectedWeight == old(selectedWeight) && form == old(form)
    {
      call := VerifyPayment.CallbackBody(response.razorpayPaymentId, response.razorpayOrderId,
                                         response.razorpaySignature, orderId);
      var verified := VerifyPayment.Handle(ledger, VerifyPayment.Callback(call), secret, c, verifiedAt, updateFails);
      if !Succeeded(verified) {
        conf := None;
        return;
      }
      conf := Some(Confirmation(orderId, data.customerName, data.productName, data.quantity, data.weight,
                                total, response.razorpayPaymentId));
      isOpen, product, selectedWeight := false, None, DefaultWeight;
      form := InitialForm;
    }

    /**
     * `handleSubmit` and its gateway `handler`: create, then the gateway, then verify,
     * then navigate. The remaining parameters are what the outside world does: the
     * server's secret and primitives, the gateway's reply to the issuer, the database's
     * errors, the shopper's action in the popup and the two clock readings.
     */
    method Submit(ledger: Ledger, secret: Option<string>, c: Crypto, gateway: CreatePayment.GatewayReply,
                  insertFails: bool, createdAt: Stamp, shopper: GatewayCheckout, verifiedAt: Stamp, updateFails: bool)
      returns (s: Submission)
      requires Valid() && Rendered() && ledger.Valid()
      modifies this, ledger
      ensures Valid() && ledger.Valid()
      // the amount sent is the total shown
      ensures s.createCall == CreatePayment.Create(old(OrderData()), old(Amount()))
      // the gateway checkout opens only after a successful create
      ensures s.checkoutOpened.Some? <==> SecretConfigured(secret) && gateway.Created? && !insertFails
      ensures s.checkoutOpened.Some? ==>
                s.checkoutOpened.value == CheckoutOptions(CreatePayment.KeyId, gateway.amount, gateway.currency, gateway.id)
      // the issuer's row exists exactly when the checkout opened; nothing else in the table changes
      ensures s.createdOrderId.Some? <==> s.checkoutOpened.Some?
      ensures s.createdOrderId.None? ==> ledger.rows == old(ledger.rows)
      ensures s.createdOrderId.Some? ==>
                && var id := s.createdOrderId.value;
                && id !in old(ledger.rows)
                && ledger.rows.Keys == old(ledger.rows).Keys + {id}
                && ledger.rows == SettledRows(
                     old(ledger.rows)[id := CreatePayment.PendingRow(id, s.createCall.orderData, s.createCall.amount,
                                                                      gateway.id, createdAt)],
                     id, s.verifyCall, c, secret.value, updateFails, verifiedAt)
      // verify is called only from the gateway's handler, with the issuer's order id
      ensures s.verifyCall.Some? <==> s.checkoutOpened.Some? && shopper.Paid?
      ensures s.verifyCall.Some? ==>
                s.verifyCall.value == VerifyPayment.CallbackBody(shopper.razorpayPaymentId, shopper.razorpayOrderId,
                                                                 shopper.razorpaySignature, s.createdOrderId.value)
      // navigation only after the verifier said success
      ensures s.confirmation.Some? <==>
                s.verifyCall.Some? && VerifyPayment.Genuine(c, secret.value, s.verifyCall.value) && !updateFails
      ensures s.confirmation.Some? ==>
                && var conf := s.confirmation.value;
                && conf.orderId == s.createdOrderId.value
                && conf.totalAmount == s.createCall.amount
                && conf.paymentId == shopper.razorpayPaymentId
                && ledger.rows[conf.orderId].paymentStatus == Completed
                && ledger.rows[conf.orderId].totalAmount == conf.totalAmount
                && ledger.rows[conf.orderId].paymentId == Some(conf.paymentId)
      // on success the modal closes and the form resets; otherwise the UI state stays
      ensures s.confirmation.Some? ==>
                !isOpen && product == None && selectedWeight == DefaultWeight && form == InitialForm
      ensures s.confirmation.None? ==>
                isOpen == old(isOpen) && product == old(product) && selectedWeight == old(selectedWeight) && form == old(form)
    {
      var data := OrderData();
      var total := Amount();
      var req := CreatePayment.Create(data, total);
      s := Submission(req, None, None, None, None);
      var created, _ := CreatePayment.Handle(ledger, req, secret, gateway, insertFails, createdAt);
      if !Succeeded(created) {
        return;
      }
      var orderId := created.body.orderId;
      var opts := CheckoutOptions(created.body.keyId, created.body.amount, created.body.currency, created.body.razorpayOrderId);
      s := s.(createdOrderId := Some(orderId), checkoutOpened := Some(opts));
      if shopper.Paid? {
        var callback, conf := OnPayment(ledger, orderId, data, total, shopper, secret, c, verifiedAt, updateFails);
        s := s.(verifyCall := Some(callback), confirmation := conf);
      }
    }
  }

  /**
   * A shopper who closes the gateway's popup leaves the issuer's row behind: the table
   * gains exactly one row, still `pending`, and nothing ever settles it.
   */
  method DismissedCheckoutLeavesPendingRow(p: Product, weight: nat, secret: string, c: Crypto,
                                           gatewayOrderId: string, now: Stamp)
    returns (rowsAfter: nat, status: PaymentStatus)
    requires secret != ""
    ensures rowsAfter == 1 && status == Pending
  {
    var ledger := new Ledger();
    var shop := new Storefront();
    shop.OpenBookingModal(p, weight);
    var amount := shop.Amount();
    var s := shop.Submit(ledger, Some(secret), c, CreatePayment.Created(gatewayOrderId, amount, CreatePayment.Currency),
                         false, now, Dismissed, now, false);
    rowsAfter := |ledger.rows|;
    status := ledger.rows[s.createdOrderId.value].paymentStatus;
  }
}
