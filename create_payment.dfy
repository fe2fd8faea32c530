/**
 * The intent issuer: the `create-razorpay-payment` edge function. It reads a draft
 * order and the amount the browser computed, asks the gateway for an order in that
 * amount, inserts one `pending` row linked to the gateway order id, and returns what
 * the browser needs to open the gateway's checkout. Every thrown error becomes a
 * 500 reply carrying the error's message.
 */
module CreatePayment {
  import opened Wrappers
  import opened Orders
  import opened Http

  /** The `orderData` object of the request body. */
  datatype OrderData = OrderData(
    customerName: string,
    customerEmail: string,
    customerPhone: string,
    deliveryAddress: string,
    city: string,
    pincode: string,
    productId: string,
    productName: string,
    quantity: int,
    weight: nat,
    notes: Option<string>)

  /**
   * An incoming request: the CORS preflight, a body `req.json()` cannot parse (its
   * message is what the catch block reports), or `{ orderData, amount }`.
   */
  datatype Request =
    | Options
    | Malformed(reason: string)
    | Create(orderData: OrderData, amount: int)

  datatype GatewayNotes = GatewayNotes(productName: string, customerName: string, customerEmail: string)

  /** The body POSTed to the gateway's orders endpoint; `receipt` is `receipt_` followed by the clock. */
  datatype GatewayOrderRequest = GatewayOrderRequest(amount: int, currency: string, receipt: Stamp, notes: GatewayNotes)

  /**
   * What came back from the gateway: the fetch threw, the reply was not ok (with its
   * optional `error.description`), or the created gateway order.
   */
  datatype GatewayReply =
    | Unreachable(reason: string)
    | Rejected(description: Option<string>)
    | Created(id: string, amount: int, currency: string)

  /** The publishable key, a constant of the function. */
  const KeyId: string := "rzp_test_RDTPgPXe0b7xzA"
  const Currency: string := "INR"
  const GatewayFailedMessage: string := "Failed to create Razorpay order"
  const InsertFailedMessage: string := "Failed to create order in database"

  /** `razorpayOrderData.error?.description || "Failed to create Razorpay order"`. */
  function RejectionMessage(description: Option<string>): (msg: string)
    ensures msg != ""
    ensures description.Some? && description.value != "" ==> msg == description.value
    ensures !(description.Some? && description.value != "") ==> msg == GatewayFailedMessage
  {
    if description.Some? && description.value != "" then description.value else GatewayFailedMessage
  }

  /** `orderData.notes || ""`. */
  function NotesOrEmpty(notes: Option<string>): string {
    if notes.Some? then notes.value else ""
  }

  /** The handler as written. `gatewayCall` is the order it asked the gateway for, if any. */
  method Handle(ledger: Ledger, req: Request, secret: Option<string>, gateway: GatewayReply,
                insertFails: bool, now: Stamp)
    returns (resp: Response, gatewayCall: Option<GatewayOrderRequest>)
    requires ledger.Valid()
    modifies ledger
    ensures ledger.Valid()
    // a preflight touches neither the gateway nor the table
    ensures req.Options? ==> resp == Preflight && gatewayCall == None && ledger.rows == old(ledger.rows)
    ensures req.Malformed? ==> resp == Reply(500, Failure(req.reason)) && gatewayCall == None
                               && ledger.rows == old(ledger.rows)
    // no secret: no gateway order, no row
    ensures req.Create? && !SecretConfigured(secret) ==>
              resp == Reply(500, Failure(SecretMissingMessage)) && gatewayCall == None
              && ledger.rows == old(ledger.rows)
    // with a secret, the gateway is asked for exactly the client's amount, in rupees
    ensures req.Create? && SecretConfigured(secret) ==>
              gatewayCall == Some(GatewayOrderRequest(req.amount, Currency, now,
                GatewayNotes(req.orderData.productName, req.orderData.customerName, req.orderData.customerEmail)))
    ensures req.Create? && SecretConfigured(secret) && gateway.Unreachable? ==>
              resp == Reply(500, Failure(gateway.reason)) && ledger.rows == old(ledger.rows)
    ensures req.Create? && SecretConfigured(secret) && gateway.Rejected? ==>
              resp == Reply(500, Failure(RejectionMessage(gateway.description))) && ledger.rows == old(ledger.rows)
    // gateway order created but the insert failed: the gateway order is left outstanding
    ensures req.Create? && SecretConfigured(secret) && gateway.Created? && insertFails ==>
              resp == Reply(500, Failure(InsertFailedMessage)) && ledger.rows == old(ledger.rows)
    // success: one new pending row linked to the gateway order, and its parameters returned
    ensures req.Create? && SecretConfigured(secret) && gateway.Created? && !insertFails ==>
              exists id: OrderId :: (
                && id !in old(ledger.rows)
                && ledger.rows == old(ledger.rows)[id := PendingRow(id, req.orderData, req.amount, gateway.id, now)]
                && resp == Reply(200, PaymentCreated(gateway.id, id, gateway.amount, gateway.currency, KeyId)))
    // every failure is a 500 that says so
    ensures resp.Reply? && !resp.body.Success() ==> resp.status == 500
    ensures Succeeded(resp) ==> resp.status == 200 && resp.body.PaymentCreated?
  {
    gatewayCall := None;
    match req {
      case Options =>
        resp := Preflight;
      case Malformed(reason) =>
        resp := Reply(500, Failure(reason));
      case Create(data, amount) =>
        if !SecretConfigured(secret) {
          resp := Reply(500, Failure(SecretMissingMessage));
          return;
        }
        gatewayCall := Some(GatewayOrderRequest(amount, Currency, now,
                              GatewayNotes(data.productName, data.customerName, data.customerEmail)));
        match gateway {
          case Unreachable(reason) =>
            resp := Reply(500, Failure(reason));
          case Rejected(description) =>
            resp := Reply(500, Failure(RejectionMessage(description)));
          case Created(gid, gAmount, gCurrency) =>
            var row := PendingRow(0, data, amount, gid, 0);
            var stored := ledger.Insert(row, now, insertFails);
            if stored.None? {
              resp := Reply(500, Failure(InsertFailedMessage));
            } else {
              var id := stored.value.id;
              assert ledger.rows[id] == PendingRow(id, data, amount, gid, now);
              resp := Reply(200, PaymentCreated(gid, id, gAmount, gCurrency, KeyId));
            }
        }
    }
  }

  /**
   * The row the issuer inserts (with the id and timestamps the database gives it):
   * the customer and product columns copied from `orderData`, the client's amount in
   * rupees, linked to the gateway order, `pending` and `received`.
   */
  function PendingRow(id: OrderId, data: OrderData, amount: int, gatewayOrderId: string, at: Stamp): (o: Order)
    ensures o.id == id && o.createdAt == at && o.updatedAt == at
    ensures o.totalAmount == amount && o.currency == Some(Currency)
    ensures o.paymentId == Some(gatewayOrderId) && o.paymentStatus == Pending
    ensures o.orderStatus == "received" && o.notes == NotesOrEmpty(data.notes)
  {
    Order(id, data.customerName, data.customerEmail, data.customerPhone, data.deliveryAddress,
          data.city, data.pincode, data.productId, data.quantity, data.weight,
          amount, Some(Currency), Some(gatewayOrderId), Pending, "received",
          NotesOrEmpty(data.notes), at, at)
  }

  /**
   * The amount is taken on trust: whatever the browser claims is what the gateway is
   * asked to charge and what the new row records, with no check against the product's
   * price. Run against an empty table with a working gateway and database.
   */
  method ClaimedAmountIsStored(data: OrderData, claimed: int, secret: string, gatewayOrderId: string, now: Stamp)
    returns (charged: int, recorded: int)
    requires secret != ""
    ensures charged == claimed && recorded == claimed
  {
    var ledger := new Ledger();
    var resp, call := Handle(ledger, Create(data, claimed), Some(secret), Created(gatewayOrderId, claimed, Currency), false, now);
    charged := call.value.amount;
    var id := resp.body.orderId;
    recorded := ledger.rows[id].totalAmount;
  }

  /**
   * A database failure after the gateway created its order: the reply carries no
   * gateway parameters, no row exists, yet the gateway order was requested.
   */
  method DanglingGatewayOrder(data: OrderData, amount: int, secret: string, gatewayOrderId: string, now: Stamp)
    returns (requested: bool, rowsAfter: nat, status: int, error: string)
    requires secret != ""
    ensures requested && rowsAfter == 0 && status == 500 && error == InsertFailedMessage
  {
    var ledger := new Ledger();
    var resp, call := Handle(ledger, Create(data, amount), Some(secret), Created(gatewayOrderId, amount, Currency), true, now);
    requested := call.Some?;
    rowsAfter := |ledger.rows|;
    status := resp.status;
    error := resp.body.error;
  }
}
