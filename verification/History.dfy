/** What no step ever undoes: identities, decided payments, released stock, shipped quantities and the event log. */
module History {
  import opened Schema
  import opened Lifecycle
  import opened Fulfillment
  import opened Catalog
  import opened Invariants
  import opened OrderProofs
  import opened ShipmentProofs
  import opened CatalogProofs
  import opened System

  /** An order keeps its shop, warehouse and expiry, its payment status once it has left PENDING, and a final status. */
  predicate OrderKept(a: Order, b: Order) {
    && b.shop == a.shop && b.warehouse == a.warehouse && b.expires == a.expires
    && (a.payment != PaymentPending ==> b.payment == a.payment)
    && (a.status in {Completed, Cancelled, Returned} ==> b.status == a.status)
  }

  /** A warehouse keeps its shop and its primary key. */
  predicate WarehouseKept(a: Warehouse, b: Warehouse) { b.shop == a.shop && b.origin == a.origin }

  /** Shops and warehouses stay, and every new shop has the warehouse with its fixed primary key. */
  predicate PlacesKept(t: Tables, u: Tables) {
    && t.shops <= u.shops && |t.warehouses| <= |u.warehouses|
    && (forall w: Id :: w < |t.warehouses| ==> WarehouseKept(t.warehouses[w], u.warehouses[w]))
    && forall s: Id :: |t.shops| <= s < |u.shops| ==> HasOrigin(u.warehouses, s)
  }

  /** A reservation keeps what it reserves and where; fulfilment only grows; RELEASED and FULFILLED are final. */
  predicate ReservationKept(a: Reservation, b: Reservation) {
    && b == a.(status := b.status, fulfilled := b.fulfilled)
    && a.fulfilled <= b.fulfilled
    && (a.status == Released || a.status == Fulfilled ==> b == a)
    && (b.status == Active ==> a.status == Active)
  }

  /** A package keeps its order and its lines. */
  predicate PackageKept(a: Package, b: Package) {
    b == a.(status := b.status) && (a.status.PackageMoved? ==> b.status.PackageMoved?)
  }

  function Stage(s: ParcelStatus): nat {
    match s
    case ParcelCreated => 0
    case ParcelShipped => 1
    case ParcelInDelivery => 2
    case ParcelDelivered => 3
    case ParcelDeliveryFailed => 3
    case ParcelReturning => 4
    case ParcelReturned => 5
  }

  /** A shipment keeps its package, moves only forward, and never leaves DELIVERED or RETURNED. */
  predicate ShipmentKept(a: Shipment, b: Shipment) {
    b == a.(status := b.status) && (b == a || (Stage(a.status) < Stage(b.status) && !Terminal(a.status)))
  }

  ghost predicate Progress(t: Tables, u: Tables) {
    && PlacesKept(t, u) && t.items <= u.items && t.events <= u.events && t.outbox <= u.outbox
    && |t.orders| <= |u.orders| && (forall o: Id :: o < |t.orders| ==> OrderKept(t.orders[o], u.orders[o]))
    && t.reservations.Keys <= u.reservations.Keys
    && (forall i <- t.reservations :: ReservationKept(t.reservations[i], u.reservations[i]))
    && |t.packages| <= |u.packages| && (forall k: Id :: k < |t.packages| ==> PackageKept(t.packages[k], u.packages[k]))
    && |t.shipments| <= |u.shipments| && (forall k: Id :: k < |t.shipments| ==> ShipmentKept(t.shipments[k], u.shipments[k]))
  }

  lemma ProgressTransitive(t: Tables, u: Tables, v: Tables)
    requires Progress(t, u) && Progress(u, v)
    ensures Progress(t, v)
  {
    forall s: Id | |t.shops| <= s < |v.shops| ensures HasOrigin(v.warehouses, s) {
      if s < |u.shops| {
        assert HasOrigin(u.warehouses, s);
        var w: Id :| w < |u.warehouses| && u.warehouses[w].shop == s && u.warehouses[w].origin;
        assert WarehouseKept(u.warehouses[w], v.warehouses[w]);
      }
    }
  }

  // ----- one step -----

  /** Steps that leave orders and all that hangs off them alone. */
  predicate SameOrders(t: Tables, u: Tables) {
    && PlacesKept(t, u) && u.orders == t.orders && u.items == t.items && u.reservations == t.reservations
    && u.packages == t.packages && u.shipments == t.shipments && t.events <= u.events && t.outbox <= u.outbox
  }

  lemma SameOrdersProgress(t: Tables, u: Tables)
    requires SameOrders(t, u)
    ensures Progress(t, u)
  {}

  lemma AddShopProgress(t: Tables, provider: Provider)
    requires Inv(t)
    ensures Progress(t, AddShop(t, provider))
  {
    AddShopKeepsInv(t, provider);
    assert AddShop(t, provider).warehouses[|t.warehouses|].origin;
  }

  lemma CatalogProgress(t: Tables, step: Step)
    requires OnCatalog(step) && !step.AddsShop? && Apply(t, step).Ok?
    ensures Progress(t, Apply(t, step).value)
  {
    var u := Apply(t, step).value;
    if step.CreatesProduct? { AcceptedRows(t, step.shop, step.stock, step.status, step.allocations); }
    assert SameOrders(t, u);
    SameOrdersProgress(t, u);
  }

  lemma CreateProgress(t: Tables, seen: seq<Product>, shop: Id, wants: seq<Want>, expires: int)
    requires Linked(t) && CreateOrderTx(t, seen, shop, wants, expires).Ok?
    ensures Progress(t, CreateOrderTx(t, seen, shop, wants, expires).value)
  {
    var home := CreatedTables(t, seen, shop, wants, expires);
    NewRows(t, CreateOrderTx(t, seen, shop, wants, expires).value, home, wants);
  }

  lemma CancelProgress(t: Tables, o: Id, payment: Option<PaymentStatus>, cause: Option<Event>)
    requires o < |t.orders| && CancelWith(t, o, payment, cause).Ok?
    requires CanTransition(t.orders[o].status, Cancelled) && (payment.Some? ==> t.orders[o].payment == PaymentPending)
    ensures Progress(t, CancelWith(t, o, payment, cause).value)
  {}

  lemma MovedReservationsKept(t: Tables, u: Tables, k: Id, m: Move)
    requires Linked(t) && Moved(t, u, k, m)
    ensures t.reservations.Keys <= u.reservations.Keys
    ensures forall i <- t.reservations :: ReservationKept(t.reservations[i], u.reservations[i])
  {
    forall i <- t.reservations ensures i in u.reservations.Keys && ReservationKept(t.reservations[i], u.reservations[i]) {
      MoveReservation(t, u, k, m, i);
    }
  }

  lemma MovedParcelsKept(t: Tables, u: Tables, k: Id, m: Move)
    requires Moved(t, u, k, m) && t.shipments[k].status == m.From()
    ensures |u.packages| == |t.packages| && forall p: Id :: p < |t.packages| ==> PackageKept(t.packages[p], u.packages[p])
    ensures |u.shipments| == |t.shipments| && forall s: Id :: s < |t.shipments| ==> ShipmentKept(t.shipments[s], u.shipments[s])
  {}

  lemma MovedOrdersKept(t: Tables, u: Tables, k: Id, m: Move)
    requires Moved(t, u, k, m)
    ensures |u.orders| == |t.orders| && forall o: Id :: o < |t.orders| ==> OrderKept(t.orders[o], u.orders[o])
  {}

  lemma MovedProgress(t: Tables, u: Tables, k: Id, m: Move)
    requires Linked(t) && Moved(t, u, k, m) && t.shipments[k].status == m.From()
    requires t.events <= u.events && t.outbox <= u.outbox
    ensures Progress(t, u)
  {
    MovedReservationsKept(t, u, k, m);
    MovedParcelsKept(t, u, k, m);
    MovedOrdersKept(t, u, k, m);
  }

  lemma MoveProgress(t: Tables, shop: Id, k: Id, m: Move)
    requires Linked(t) && MoveTx(t, shop, k, m).Ok?
    ensures Progress(t, MoveTx(t, shop, k, m).value)
  {
    var mid := MoveEvents(t, shop, k, m);
    MovedTables(t, shop, k, m);
    MovedProgress(t, MoveTx(t, shop, k, m).value, k, m);
  }

  lemma ExpireProgress(t: Tables, shop: Id, o: Id, rule: Rule, clock: int)
    requires CancelOverdueTx(t, shop, o, rule, clock).Ok?
    ensures Progress(t, CancelOverdueTx(t, shop, o, rule, clock).value)
  {}

  lemma AdvanceProgress(t: Tables, shop: Id, o: Id, target: OrderStatus, clock: int, sla: int)
    requires TransitionTx(t, shop, o, target, clock, sla).Ok?
    ensures Progress(t, TransitionTx(t, shop, o, target, clock, sla).value)
  {}

  lemma ClaimProgress(t: Tables, o: Id, until: int)
    requires o < |t.orders|
    ensures Progress(t, Claimed(t, o, until))
  {}

  lemma PackageProgress(t: Tables, shop: Id, o: Id, picks: seq<Pick>, strict: bool)
    requires CreatePackageTx(t, shop, o, picks, strict).Ok?
    ensures Progress(t, CreatePackageTx(t, shop, o, picks, strict).value)
  {}

  lemma ShipmentProgress(t: Tables, shop: Id, o: Id, package: Option<Id>)
    requires CreateShipmentTx(t, shop, o, package).Ok?
    ensures Progress(t, CreateShipmentTx(t, shop, o, package).value)
  {}

  lemma OrderStepProgress(t: Tables, step: Step)
    requires Inv(t) && OnOrder(step) && Apply(t, step).Ok?
    ensures Progress(t, Apply(t, step).value)
  {
    match step
    case CreatesOrder(seen, shop, wants, expires) => CreateProgress(t, seen, shop, wants, expires);
    case Advances(shop, o, target, clock, sla) => AdvanceProgress(t, shop, o, target, clock, sla);
    case Cancels(shop, o, actor, reason) => CancelProgress(t, o, None, None);
    case FailsPayment(shop, o) => CancelProgress(t, o, Some(PaymentFailed), Some(PaymentFailedEvent(o)));
    case Expires(shop, o, rule, clock) => ExpireProgress(t, shop, o, rule, clock);
    case Claims(o, until) => ClaimProgress(t, o, until);
  }

  lemma AcceptedProgress(t: Tables, step: Step)
    requires Inv(t) && Apply(t, step).Ok?
    ensures Progress(t, Apply(t, step).value)
  {
    match step
    case AddsShop(provider) => AddShopProgress(t, provider);
    case CreatesPackage(shop, o, picks, strict) => PackageProgress(t, shop, o, picks, strict);
    case CreatesShipment(shop, o, package) => ShipmentProgress(t, shop, o, package);
    case MovesShipment(shop, k, move) => MoveProgress(t, shop, k, move);
    case _ => if OnOrder(step) { OrderStepProgress(t, step); } else { CatalogProgress(t, step); }
  }

  lemma StepProgress(t: Tables, step: Step)
    requires Inv(t)
    ensures Progress(t, Next(t, step))
  {
    if Apply(t, step).Ok? { AcceptedProgress(t, step); }
  }

  lemma ProgressOn(t: Tables, s: Tables, step: Step)
    requires Progress(t, s) && Inv(s)
    ensures Progress(t, Next(s, step))
  {
    StepProgress(s, step);
    ProgressTransitive(t, s, Next(s, step));
  }

  // ----- whole runs -----

  /** Whatever a run goes on to do, it undoes none of this. */
  lemma {:induction false} NothingUndone(past: seq<Step>, future: seq<Step>)
    ensures Progress(Run(EMPTY, past), Run(EMPTY, past + future))
  {
    if future == [] {
      assert past + future == past;
    } else {
      var init, last := future[..|future| - 1], future[|future| - 1];
      NothingUndone(past, init);
      InvAlways(past + init);
      ProgressOn(Run(EMPTY, past), Run(EMPTY, past + init), last);
      RunOn(past, future);
    }
  }
}
