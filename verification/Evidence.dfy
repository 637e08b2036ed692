/** The event log as evidence: failed and expired payments, failed deliveries and returns are recorded exactly when they
    happen. */
module Evidence {
  import opened Schema
  import opened Inventory
  import opened Lifecycle
  import opened Fulfillment
  import opened Catalog
  import opened OrderProofs
  import opened ShipmentProofs
  import opened CatalogProofs
  import opened System

  /** A shipment in status `s` has been through `past`, one of the statuses that are announced by an event. */
  predicate BeenThrough(s: ParcelStatus, past: ParcelStatus) {
    match past
    case ParcelDeliveryFailed => s in {ParcelDeliveryFailed, ParcelReturning, ParcelReturned}
    case ParcelReturning => s in {ParcelReturning, ParcelReturned}
    case ParcelReturned => s == ParcelReturned
    case _ => false
  }

  /** What event `e` claims about payments and shipments is so; events of other kinds claim nothing here. */
  predicate Happened(t: Tables, e: Event) {
    match e
    case PaymentFailedEvent(o) => o < |t.orders| && t.orders[o].payment == PaymentFailed
    case PaymentExpiredEvent(o) => o < |t.orders| && t.orders[o].payment == PaymentExpired
    case ShipmentEvent(k, past) => k < |t.shipments| && BeenThrough(t.shipments[k].status, past)
    case _ => false
  }

  predicate Telling(e: Event) { e.PaymentFailedEvent? || e.PaymentExpiredEvent? || e.ShipmentEvent? }

  ghost predicate Truthful(t: Tables) { forall e: Event :: Telling(e) ==> (e in t.events <==> Happened(t, e)) }

  /** A step after which nothing else has happened, and that records nothing telling. */
  ghost predicate Uneventful(t: Tables, u: Tables) {
    && (forall e: Event :: Telling(e) ==> (e in u.events <==> e in t.events))
    && (forall e: Event :: Telling(e) ==> (Happened(u, e) <==> Happened(t, e)))
  }

  lemma CatalogUneventful(t: Tables, step: Step)
    requires OnCatalog(step) && Apply(t, step).Ok?
    ensures Uneventful(t, Apply(t, step).value)
  {
    if step.CreatesProduct? { NewProductUneventful(t, step.shop, step.stock, step.status, step.allocations); }
  }

  lemma NewProductUneventful(t: Tables, shop: Id, stock: int, status: ProductStatus, allocations: seq<InitialInventory>)
    requires CreateProductTx(t, shop, stock, status, allocations).Ok?
    ensures Uneventful(t, CreateProductTx(t, shop, stock, status, allocations).value)
  {
    AcceptedRows(t, shop, stock, status, allocations);
  }

  lemma CreateUneventful(t: Tables, seen: seq<Product>, shop: Id, wants: seq<Want>, expires: int)
    requires CreateOrderTx(t, seen, shop, wants, expires).Ok?
    ensures Uneventful(t, CreateOrderTx(t, seen, shop, wants, expires).value)
  {
    var home := CreatedTables(t, seen, shop, wants, expires);
  }

  lemma AdvanceUneventful(t: Tables, shop: Id, o: Id, target: OrderStatus, clock: int, sla: int)
    requires TransitionTx(t, shop, o, target, clock, sla).Ok?
    ensures Uneventful(t, TransitionTx(t, shop, o, target, clock, sla).value)
  {}

  lemma ClaimUneventful(t: Tables, o: Id, until: int)
    requires o < |t.orders|
    ensures Uneventful(t, Claimed(t, o, until))
  {}

  lemma PackageUneventful(t: Tables, shop: Id, o: Id, picks: seq<Pick>, strict: bool)
    requires CreatePackageTx(t, shop, o, picks, strict).Ok?
    ensures Uneventful(t, CreatePackageTx(t, shop, o, picks, strict).value)
  {}

  lemma ShipmentUneventful(t: Tables, shop: Id, o: Id, package: Option<Id>)
    requires CreateShipmentTx(t, shop, o, package).Ok?
    ensures Uneventful(t, CreateShipmentTx(t, shop, o, package).value)
  {}

  /** A cancellation that decides the payment, together with the event that says so, or one that leaves it alone, keeps
      the log truthful. */
  lemma CancelTruthful(t: Tables, o: Id, payment: Option<PaymentStatus>, cause: Option<Event>)
    requires Truthful(t) && o < |t.orders| && CancelWith(t, o, payment, cause).Ok?
    requires payment.Some? ==> t.orders[o].payment == PaymentPending
    requires match payment
      case None => cause.None? || cause == Some(SlaExpiredEvent(o))
      case Some(p) =>
        || (p == PaymentFailed && cause == Some(PaymentFailedEvent(o)))
        || (p == PaymentExpired && cause == Some(PaymentExpiredEvent(o)))
    ensures Truthful(CancelWith(t, o, payment, cause).value)
  {
    var u := CancelWith(t, o, payment, cause).value;
    var after := ReleaseTx(WithOrder(t, o, CancelledOrder(t.orders[o], payment)), o).value;
    assert u.orders == t.orders[o := CancelledOrder(t.orders[o], payment)] && u.shipments == t.shipments;
    assert u.events == t.events + (if cause.Some? then [cause.value] else []) + [OrderStatusEvent(o, Cancelled)];
  }

  lemma ExpireTruthful(t: Tables, shop: Id, o: Id, rule: Rule, clock: int)
    requires Truthful(t) && CancelOverdueTx(t, shop, o, rule, clock).Ok?
    ensures Truthful(CancelOverdueTx(t, shop, o, rule, clock).value)
  {
    match rule
    case PaymentRule => CancelTruthful(t, o, Some(PaymentExpired), Some(PaymentExpiredEvent(o)));
    case SellerRule => CancelTruthful(t, o, None, Some(SlaExpiredEvent(o)));
  }

  lemma MovedTruthful(t: Tables, mid: Tables, u: Tables, k: Id, m: Move)
    requires Truthful(t) && k < |t.shipments| && t.shipments[k].status == m.From()
    requires u.shipments == t.shipments[k := t.shipments[k].(status := m.To())]
    requires |u.orders| == |t.orders| && forall o: Id :: o < |t.orders| ==> u.orders[o].payment == t.orders[o].payment
    requires forall e: Event :: Telling(e) ==> (e in mid.events <==> e in t.events)
    requires u.events == if m in {FailDelivery, StartReturn, CompleteReturn} then mid.events + [ShipmentEvent(k, m.To())] else mid.events
    ensures Truthful(u)
  {
    forall e: Event | Telling(e) ensures e in u.events <==> Happened(u, e) {
      assert e in u.events <==> e in mid.events || (m in {FailDelivery, StartReturn, CompleteReturn} && e == ShipmentEvent(k, m.To()));
      assert e in mid.events <==> Happened(t, e);
    }
  }

  lemma MoveTruthful(t: Tables, shop: Id, k: Id, m: Move)
    requires Truthful(t) && MoveTx(t, shop, k, m).Ok?
    ensures Truthful(MoveTx(t, shop, k, m).value)
  {
    var mid := MoveEvents(t, shop, k, m);
    MovedTables(t, shop, k, m);
    MovedTruthful(t, mid, MoveTx(t, shop, k, m).value, k, m);
  }

  lemma StepTruthful(t: Tables, step: Step)
    requires Truthful(t)
    ensures Truthful(Next(t, step))
  {
    if Apply(t, step).Ok? {
      match step
      case CreatesOrder(seen, shop, wants, expires) => CreateUneventful(t, seen, shop, wants, expires);
      case Advances(shop, o, target, clock, sla) => AdvanceUneventful(t, shop, o, target, clock, sla);
      case Cancels(shop, o, actor, reason) => CancelTruthful(t, o, None, None);
      case FailsPayment(shop, o) => CancelTruthful(t, o, Some(PaymentFailed), Some(PaymentFailedEvent(o)));
      case Expires(shop, o, rule, clock) => ExpireTruthful(t, shop, o, rule, clock);
      case MovesShipment(shop, k, move) => MoveTruthful(t, shop, k, move);
      case Claims(o, until) => ClaimUneventful(t, o, until);
      case CreatesPackage(shop, o, picks, strict) => PackageUneventful(t, shop, o, picks, strict);
      case CreatesShipment(shop, o, package) => ShipmentUneventful(t, shop, o, package);
      case _ => CatalogUneventful(t, step);
    }
  }

  lemma {:induction false} TruthfulAlways(steps: seq<Step>)
    ensures Truthful(Run(EMPTY, steps))
  {
    if steps == [] {
    } else {
      TruthfulAlways(steps[..|steps| - 1]);
      StepTruthful(Run(EMPTY, steps[..|steps| - 1]), steps[|steps| - 1]);
    }
  }

  /** On every run a payment has failed or expired exactly when the log says so, and a shipment has failed, is on its way
      back or is back exactly when the log says so. */
  lemma LogTellsFailures(steps: seq<Step>, o: Id, k: Id)
    ensures var t := Run(EMPTY, steps);
      && (PaymentFailedEvent(o) in t.events <==> o < |t.orders| && t.orders[o].payment == PaymentFailed)
      && (PaymentExpiredEvent(o) in t.events <==> o < |t.orders| && t.orders[o].payment == PaymentExpired)
      && (k < |t.shipments| ==>
            var s := t.shipments[k].status;
            && (ShipmentEvent(k, ParcelDeliveryFailed) in t.events <==> s in {ParcelDeliveryFailed, ParcelReturning, ParcelReturned})
            && (ShipmentEvent(k, ParcelReturning) in t.events <==> s in {ParcelReturning, ParcelReturned})
            && (ShipmentEvent(k, ParcelReturned) in t.events <==> s == ParcelReturned))
  {
    TruthfulAlways(steps);
    var t := Run(EMPTY, steps);
    assert Telling(PaymentFailedEvent(o)) && Telling(PaymentExpiredEvent(o)) && Telling(ShipmentEvent(k, ParcelDeliveryFailed));
    assert Telling(ShipmentEvent(k, ParcelReturning)) && Telling(ShipmentEvent(k, ParcelReturned));
  }
}
