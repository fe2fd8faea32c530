/**
 * The `orders` table: one row per checkout, keyed by a database-generated id.
 * The row's fields are those of the `orders` Row type that the payment flow writes
 * or reads; `payment_status` is a free string in the schema but the flow only ever
 * stores "pending", "completed" or "failed".
 */
module Orders {
  import opened Wrappers

  /** An opaque point in time; the source writes `new Date().toISOString()`. */
  type Stamp = nat

  /** The row key (a UUID generated by the database on insert). */
  type OrderId = nat

  datatype PaymentStatus = Pending | Completed | Failed

  datatype Order = Order(
    id: OrderId,
    customerName: string,
    customerEmail: string,
    customerPhone: string,
    deliveryAddress: string,
    city: string,
    pincode: string,
    productId: string,
    quantity: int,
    weight: nat,               // half-kilograms
    totalAmount: int,          // paise
    currency: Option<string>,
    paymentId: Option<string>,
    paymentStatus: PaymentStatus,
    orderStatus: string,
    notes: string,
    createdAt: Stamp,
    updatedAt: Stamp)

  /** The column sets the verifier writes with `.update({...})`. */
  datatype Patch =
    | MarkCompleted(razorpayPaymentId: string, at: Stamp)
    | MarkFailed(at: Stamp)

  /** One row after an update: the patched columns take their new values, all others keep theirs. */
  function Patched(o: Order, p: Patch): (r: Order)
    ensures r.(paymentStatus := o.paymentStatus, paymentId := o.paymentId, updatedAt := o.updatedAt) == o
    ensures r.paymentStatus == (if p.MarkCompleted? then Completed else Failed)
    ensures r.updatedAt == p.at
    ensures r.paymentId == (if p.MarkCompleted? then Some(p.razorpayPaymentId) else o.paymentId)
  {
    match p
    case MarkCompleted(pid, at) => o.(paymentStatus := Completed, paymentId := Some(pid), updatedAt := at)
    case MarkFailed(at) => o.(paymentStatus := Failed, updatedAt := at)
  }

  /**
   * `.update(patch).eq("id", id)`: every row whose id matches is patched; when none
   * matches, nothing changes and no error is raised.
   */
  function UpdateWhereId(rows: map<OrderId, Order>, id: OrderId, p: Patch): (r: map<OrderId, Order>)
    ensures r.Keys == rows.Keys
    ensures forall k :: k in rows && k != id ==> r[k] == rows[k]
    ensures id in rows ==> r[id] == Patched(rows[id], p)
    ensures id !in rows ==> r == rows
  {
    if id in rows then rows[id := Patched(rows[id], p)] else rows
  }

  /** The table itself. `nextId` stands for the database's supply of unused keys. */
  class Ledger {
    var rows: map<OrderId, Order>
    var nextId: OrderId

    ghost predicate Valid()
      reads this
    {
      forall k :: k in rows ==> rows[k].id == k && k < nextId
    }

    constructor ()
      ensures Valid() && rows == map[]
    {
      rows := map[];
      nextId := 0;
    }

    /**
     * `.insert(row).select().single()`: the database assigns a fresh id and stamps
     * `created_at`/`updated_at`; `fails` is the database reporting an error, in
     * which case nothing is stored.
     */
    method Insert(row: Order, now: Stamp, fails: bool) returns (stored: Option<Order>)
      requires Valid()
      modifies this
      ensures Valid()
      ensures fails ==> stored == None && rows == old(rows)
      ensures !fails ==> && stored.Some?
                         && stored.value.id !in old(rows)
                         && stored.value == row.(id := stored.value.id, createdAt := now, updatedAt := now)
                         && rows == old(rows)[stored.value.id := stored.value]
    {
      if fails {
        stored := None;
      } else {
        var o := row.(id := nextId, createdAt := now, updatedAt := now);
        rows := rows[nextId := o];
        nextId := nextId + 1;
        stored := Some(o);
      }
    }

    /** `.update(patch).eq("id", id)`, returning the error flag; on an error nothing is written. */
    method Update(id: OrderId, p: Patch, fails: bool) returns (error: bool)
      requires Valid()
      modifies this`rows
      ensures Valid()
      ensures error == fails
      ensures rows == if fails then old(rows) else UpdateWhereId(old(rows), id, p)
    {
      error := fails;
      if !fails {
        rows := UpdateWhereId(rows, id, p);
      }
    }
  }
}
