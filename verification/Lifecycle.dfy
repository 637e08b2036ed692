/** The order state machine: transitions, cancellation, deadline cancellation and payment failure. */
module Lifecycle {
  import opened Schema
  import opened Inventory

  datatype Actor = Customer | Seller | System

  datatype Reason = ChangeOfMind | DuplicateOrder | AddressIssue | OutOfStock | SellerUnfulfillable
    | PaymentExpiredReason | PaymentFailedReason | SellerSlaExpiredReason

  /** A deadline that the worker enforces. */
  datatype Rule = PaymentRule | SellerRule

  predicate CanTransition(from: OrderStatus, to: OrderStatus) {
    match from
    case Unpaid => to == Paid || to == Cancelled
    case Paid => to == Processing || to == Cancelled
    case Processing => to == ReadyToShip || to == Cancelled
    case ReadyToShip => to == Shipped || to == Cancelled
    case Shipped => to == InDelivery
    case InDelivery => to == Delivered || to == Returned
    case Delivered => to == Completed
    case _ => false
  }

  predicate CanCancel(provider: Provider, status: OrderStatus, actor: Actor) {
    if provider != ShopeeLike then CanTransition(status, Cancelled)
    else match actor
      case Customer => status == Unpaid || status == Paid
      case Seller => status == Paid || status == Processing
      case System => status == Unpaid || status == Paid || status == Processing
  }

  predicate ValidReason(actor: Actor, reason: Reason) {
    match actor
    case Customer => reason in {ChangeOfMind, DuplicateOrder, AddressIssue}
    case Seller => reason in {OutOfStock, SellerUnfulfillable}
    case System => reason in {PaymentExpiredReason, PaymentFailedReason, SellerSlaExpiredReason}
  }

  predicate Found(t: Tables, shop: Id, o: Id) {
    shop < |t.shops| && o < |t.orders| && t.orders[o].shop == shop
  }

  /** The row update of `UpdateOrder`; `payment` overrides the payment status of a deadline cancellation. */
  function Updated(order: Order, provider: Provider, target: OrderStatus, payment: Option<PaymentStatus>,
                   clock: int, sla: int): Order {
    order.(status := target,
      payment := if target == Paid then PaymentPaid else if payment.Some? then payment.value else order.payment,
      sellerDeadline := if target == Paid && provider == ShopeeLike && 0 < sla then Some(clock + sla) else order.sellerDeadline)
  }

  function WithOrder(t: Tables, o: Id, order: Order): Tables
    requires o < |t.orders|
  {
    t.(orders := t.orders[o := order])
  }

  predicate PaymentOpen(order: Order, clock: int) {
    order.payment == PaymentPending && (order.expires.Some? ==> clock <= order.expires.value)
  }

  /** The lease that the deadline worker writes into a claimed order. */
  function Claimed(t: Tables, o: Id, until: int): Tables
    requires o < |t.orders|
  {
    WithOrder(t, o, t.orders[o].(claimedUntil := Some(until)))
  }

  function Advanced(t: Tables, o: Id, target: OrderStatus, clock: int, sla: int): Tables
    requires o < |t.orders| && t.orders[o].shop < |t.shops|
  {
    var order := Updated(t.orders[o], t.shops[t.orders[o].shop], target, None, clock, sla);
    Record(WithOrder(t, o, order).(reservations := if target == Paid then CommittedRows(t.reservations, o) else t.reservations),
           OrderStatusEvent(o, target))
  }

  /** `Service.Transition` at clock reading `clock`. */
  function TransitionTx(t: Tables, shop: Id, o: Id, target: OrderStatus, clock: int, sla: int): Result<Tables> {
    if !Found(t, shop, o) then Err(NotFound)
    else if !CanTransition(t.orders[o].status, target) then Err(Rejected)
    else if target == Paid && !PaymentOpen(t.orders[o], clock) then Err(Rejected)
    else Ok(Advanced(t, o, target, clock, sla))
  }

  /** Cancels the order row, releases its reservations and records `cause` (if any) and the cancellation. */
  ghost function CancelWith(t: Tables, o: Id, payment: Option<PaymentStatus>, cause: Option<Event>): Result<Tables>
    requires o < |t.orders|
  {
    var order := t.orders[o].(status := Cancelled, payment := if payment.Some? then payment.value else t.orders[o].payment);
    match ReleaseTx(WithOrder(t, o, order), o)
    case Err(e) => Err(e)
    case Ok(after) =>
      var caused := if cause.Some? then Record(after, cause.value) else after;
      Ok(Record(caused, OrderStatusEvent(o, Cancelled)))
  }

  ghost function CancelTx(t: Tables, shop: Id, o: Id, actor: Actor, reason: Reason): Result<Tables> {
    if !ValidReason(actor, reason) then Err(Rejected)
    else if !Found(t, shop, o) then Err(NotFound)
    else if !CanCancel(t.shops[shop], t.orders[o].status, actor) then Err(Rejected)
    else CancelWith(t, o, None, None)
  }

  predicate Overdue(order: Order, rule: Rule, clock: int) {
    match rule
    case PaymentRule =>
      order.status == Unpaid && order.payment == PaymentPending && order.expires.Some? && order.expires.value <= clock
    case SellerRule =>
      (order.status == Paid || order.status == Processing) && order.sellerDeadline.Some? && order.sellerDeadline.value <= clock
  }

  ghost function CancelOverdueTx(t: Tables, shop: Id, o: Id, rule: Rule, clock: int): Result<Tables> {
    if !Found(t, shop, o) then Err(NotFound)
    else if !Overdue(t.orders[o], rule, clock) then Err(NotEligible)
    else match rule
      case PaymentRule => CancelWith(t, o, Some(PaymentExpired), Some(PaymentExpiredEvent(o)))
      case SellerRule => CancelWith(t, o, None, Some(SlaExpiredEvent(o)))
  }

  ghost function FailPaymentTx(t: Tables, shop: Id, o: Id): Result<Tables> {
    if !Found(t, shop, o) then Err(NotFound)
    else if t.orders[o].status != Unpaid || t.orders[o].payment != PaymentPending then Err(Rejected)
    else CancelWith(t, o, Some(PaymentFailed), Some(PaymentFailedEvent(o)))
  }

  // ----- the transactions as they run -----

  /** An accepted transition follows the table, pays only what is pending and not expired, tells the log, leaves other
      orders and every stock figure alone, and once the order is paid leaves none of its reservations ACTIVE. */
  method Transition(tx: Tx, shop: Id, o: Id, target: OrderStatus, clock: int, sla: int) returns (e: Option<Error>)
    modifies tx
    ensures (tx.db, e) == Settle(old(tx.db), TransitionTx(old(tx.db), shop, o, target, clock, sla))
    ensures e.None? ==> (
      && o < |tx.db.orders| == |old(tx.db).orders| && tx.db.orders[o].status == target
      && CanTransition(old(tx.db).orders[o].status, target)
      && tx.db.events == old(tx.db).events + [OrderStatusEvent(o, target)])
    ensures e.None? && target == Paid ==> (
      && old(tx.db).orders[o].payment == PaymentPending
      && (old(tx.db).orders[o].expires.Some? ==> clock <= old(tx.db).orders[o].expires.value))
    ensures e.None? && target == Paid ==>
      forall i <- tx.db.reservations :: tx.db.reservations[i].order == o ==> tx.db.reservations[i].status != Active
    ensures |tx.db.orders| == |old(tx.db).orders| && forall q: Id :: q < |tx.db.orders| && q != o ==>
      tx.db.orders[q] == old(tx.db).orders[q]
    ensures tx.db.stock == old(tx.db).stock && tx.db.products == old(tx.db).products
    ensures forall w: Id, p: Id ::
      Held(tx.db.reservations, |tx.db.items|, w, p) == Held(old(tx.db).reservations, |tx.db.items|, w, p)
  {
    if !Found(tx.db, shop, o) { return Some(NotFound); }
    var order := tx.db.orders[o];
    if !CanTransition(order.status, target) { return Some(Rejected); }
    if target == Paid && (order.payment != PaymentPending || (order.expires.Some? && clock > order.expires.value)) {
      return Some(Rejected);
    }
    tx.db := WithOrder(tx.db, o, Updated(order, tx.db.shops[shop], target, None, clock, sla));
    if target == Paid { Commit(tx, o); }
    tx.db := Record(tx.db, OrderStatusEvent(o, target));
    return None;
  }

  method CancelOrder(tx: Tx, o: Id, payment: Option<PaymentStatus>, cause: Option<Event>) returns (e: Option<Error>)
    requires Checked(tx.db) && o < |tx.db.orders|
    modifies tx
    ensures (tx.db, e) == Settle(old(tx.db), CancelWith(old(tx.db), o, payment, cause))
  {
    var saved := tx.db;
    var order := tx.db.orders[o];
    tx.db := WithOrder(tx.db, o, order.(status := Cancelled, payment := if payment.Some? then payment.value else order.payment));
    var ok := Release(tx, o);
    if !ok { tx.db := saved; return Some(Drift); }
    if cause.Some? { tx.db := Record(tx.db, cause.value); }
    tx.db := Record(tx.db, OrderStatusEvent(o, Cancelled));
    return None;
  }

  method Cancel(tx: Tx, shop: Id, o: Id, actor: Actor, reason: Reason) returns (e: Option<Error>)
    requires Checked(tx.db)
    modifies tx
    ensures (tx.db, e) == Settle(old(tx.db), CancelTx(old(tx.db), shop, o, actor, reason))
  {
    if !ValidReason(actor, reason) { return Some(Rejected); }
    if !Found(tx.db, shop, o) { return Some(NotFound); }
    if !CanCancel(tx.db.shops[shop], tx.db.orders[o].status, actor) { return Some(Rejected); }
    e := CancelOrder(tx, o, None, None);
  }

  /** A candidate whose deadline is gone or still ahead is left alone. */
  method CancelOverdue(tx: Tx, shop: Id, o: Id, rule: Rule, clock: int) returns (e: Option<Error>)
    requires Checked(tx.db)
    modifies tx
    ensures (tx.db, e) == Settle(old(tx.db), CancelOverdueTx(old(tx.db), shop, o, rule, clock))
    ensures shop < |old(tx.db).shops| && o < |old(tx.db).orders| && old(tx.db).orders[o].shop == shop ==>
      var order := old(tx.db).orders[o];
      e != Some(NotEligible) <==>
        match rule
        case PaymentRule =>
          order.status == Unpaid && order.payment == PaymentPending && order.expires.Some? && order.expires.value <= clock
        case SellerRule => order.status in {Paid, Processing} && order.sellerDeadline.Some? && order.sellerDeadline.value <= clock
  {
    if !Found(tx.db, shop, o) { return Some(NotFound); }
    if !Overdue(tx.db.orders[o], rule, clock) { return Some(NotEligible); }
    match rule {
      case PaymentRule => e := CancelOrder(tx, o, Some(PaymentExpired), Some(PaymentExpiredEvent(o)));
      case SellerRule => e := CancelOrder(tx, o, None, Some(SlaExpiredEvent(o)));
    }
  }

  method FailPayment(tx: Tx, shop: Id, o: Id) returns (e: Option<Error>)
    requires Checked(tx.db)
    modifies tx
    ensures (tx.db, e) == Settle(old(tx.db), FailPaymentTx(old(tx.db), shop, o))
  {
    if !Found(tx.db, shop, o) { return Some(NotFound); }
    if tx.db.orders[o].status != Unpaid || tx.db.orders[o].payment != PaymentPending { return Some(Rejected); }
    e := CancelOrder(tx, o, Some(PaymentFailed), Some(PaymentFailedEvent(o)));
  }
}
