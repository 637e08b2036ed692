/** What becomes of an order once its first shipment has gone: its packages and shipments are fixed, and stock that no
    shipment will take stays reserved for good. */
module Endings {
  import opened Schema
  import opened Sums
  import opened Inventory
  import opened Lifecycle
  import opened Fulfillment
  import opened Catalog
  import opened Invariants
  import opened LedgerProofs
  import opened OrderProofs
  import opened ShipmentProofs
  import opened System
  import opened History

  /** The order has left: something of it has shipped. */
  predicate Gone(s: OrderStatus) { s in {Shipped, InDelivery, Delivered, Completed, Returned} }

  /** No later package or shipment is for order `o`. */
  predicate NothingAdded(t: Tables, u: Tables, o: Id) {
    && |t.packages| <= |u.packages| && (forall k: Id :: |t.packages| <= k < |u.packages| ==> u.packages[k].order != o)
    && |t.shipments| <= |u.shipments| && (forall k: Id :: |t.shipments| <= k < |u.shipments| ==> u.shipments[k].order != o)
  }

  /** Order `o` is gone, and stays so with nothing added to it. */
  predicate Sealed(t: Tables, u: Tables, o: Id) {
    o < |u.orders| && Gone(u.orders[o].status) && NothingAdded(t, u, o)
  }

  /** Every package that has moved was moved by a shipment of its own. */
  predicate MovedByShipment(t: Tables) {
    forall k: Id :: k < |t.packages| && t.packages[k].status.PackageMoved? ==> HasShipment(t.shipments, k)
  }

  predicate HasShipment(ss: seq<Shipment>, k: Id) { exists s: Id :: s < |ss| && ss[s].package == k }

  // ----- one step -----

  /** A step seals every order that is gone and moves no package without a shipment. */
  ghost predicate Steady(t: Tables, u: Tables) {
    && (forall o: Id :: o < |t.orders| && Gone(t.orders[o].status) ==> Sealed(t, u, o))
    && (MovedByShipment(t) ==> MovedByShipment(u))
  }

  /** Steps that leave packages and shipments alone, and gone orders gone. */
  lemma SameParcelsSteady(t: Tables, u: Tables)
    requires u.packages == t.packages && u.shipments == t.shipments && |t.orders| <= |u.orders|
    requires forall o: Id :: o < |t.orders| && Gone(t.orders[o].status) ==> Gone(u.orders[o].status)
    ensures Steady(t, u)
  {}

  lemma CatalogSteady(t: Tables, step: Step)
    requires OnCatalog(step) && Apply(t, step).Ok?
    ensures Steady(t, Apply(t, step).value)
  {
    SameParcelsSteady(t, Apply(t, step).value);
  }

  lemma CreateSteady(t: Tables, seen: seq<Product>, shop: Id, wants: seq<Want>, expires: int)
    requires CreateOrderTx(t, seen, shop, wants, expires).Ok?
    ensures Steady(t, CreateOrderTx(t, seen, shop, wants, expires).value)
  {
    var home := CreatedTables(t, seen, shop, wants, expires);
    SameParcelsSteady(t, CreateOrderTx(t, seen, shop, wants, expires).value);
  }

  lemma AdvanceSteady(t: Tables, shop: Id, o: Id, target: OrderStatus, clock: int, sla: int)
    requires TransitionTx(t, shop, o, target, clock, sla).Ok?
    ensures Steady(t, TransitionTx(t, shop, o, target, clock, sla).value)
  {
    SameParcelsSteady(t, TransitionTx(t, shop, o, target, clock, sla).value);
  }

  lemma CancelSteady(t: Tables, o: Id, payment: Option<PaymentStatus>, cause: Option<Event>)
    requires Linked(t) && Ledger(t) && o < |t.orders| && CanTransition(t.orders[o].status, Cancelled)
    ensures CancelWith(t, o, payment, cause).Ok? && Steady(t, CancelWith(t, o, payment, cause).value)
  {
    CancelledTables(t, o, payment, cause);
    SameParcelsSteady(t, CancelWith(t, o, payment, cause).value);
  }

  lemma ExpireSteady(t: Tables, shop: Id, o: Id, rule: Rule, clock: int)
    requires Linked(t) && Ledger(t) && CancelOverdueTx(t, shop, o, rule, clock).Ok?
    ensures Steady(t, CancelOverdueTx(t, shop, o, rule, clock).value)
  {
    match rule
    case PaymentRule => CancelSteady(t, o, Some(PaymentExpired), Some(PaymentExpiredEvent(o)));
    case SellerRule => CancelSteady(t, o, None, Some(SlaExpiredEvent(o)));
  }

  /** Packages and shipments are added only to orders that are ready and not gone. */
  lemma PackageSteady(t: Tables, shop: Id, o: Id, picks: seq<Pick>, strict: bool)
    requires CreatePackageTx(t, shop, o, picks, strict).Ok?
    ensures Steady(t, CreatePackageTx(t, shop, o, picks, strict).value)
  {}

  lemma ShipmentSteady(t: Tables, shop: Id, o: Id, package: Option<Id>)
    requires CreateShipmentTx(t, shop, o, package).Ok?
    ensures Steady(t, CreateShipmentTx(t, shop, o, package).value)
  {
    MoreShipments(t, CreateShipmentTx(t, shop, o, package).value);
  }

  lemma MoreShipments(t: Tables, u: Tables)
    requires t.shipments <= u.shipments
    ensures forall k: Id :: HasShipment(t.shipments, k) ==> HasShipment(u.shipments, k)
  {
    forall k: Id | HasShipment(t.shipments, k) ensures HasShipment(u.shipments, k) {
      var s: Id :| s < |t.shipments| && t.shipments[s].package == k;
      assert u.shipments[s] == t.shipments[s];
    }
  }

  lemma MovedSteady(t: Tables, u: Tables, k: Id, m: Move)
    requires Moved(t, u, k, m)
    ensures Steady(t, u)
  {
    forall p: Id | HasShipment(t.shipments, p) || p == t.shipments[k].package ensures HasShipment(u.shipments, p) {
      var s: Id :| s < |t.shipments| && t.shipments[s].package == p;
      assert u.shipments[s].package == p;
    }
  }

  lemma MoveSteady(t: Tables, shop: Id, k: Id, m: Move)
    requires MoveTx(t, shop, k, m).Ok?
    ensures Steady(t, MoveTx(t, shop, k, m).value)
  {
    MovedTables(t, shop, k, m);
    MovedSteady(t, MoveTx(t, shop, k, m).value, k, m);
  }

  lemma OrderSteady(t: Tables, step: Step)
    requires Inv(t) && OnOrder(step) && Apply(t, step).Ok?
    ensures Steady(t, Apply(t, step).value)
  {
    match step
    case CreatesOrder(seen, shop, wants, expires) => CreateSteady(t, seen, shop, wants, expires);
    case Advances(shop, o, target, clock, sla) => AdvanceSteady(t, shop, o, target, clock, sla);
    case Cancels(shop, o, actor, reason) => CancelSteady(t, o, None, None);
    case FailsPayment(shop, o) => CancelSteady(t, o, Some(PaymentFailed), Some(PaymentFailedEvent(o)));
    case Expires(shop, o, rule, clock) => ExpireSteady(t, shop, o, rule, clock);
    case Claims(o, until) => SameParcelsSteady(t, Claimed(t, o, until));
  }

  lemma AcceptedSteady(t: Tables, step: Step)
    requires Inv(t) && Apply(t, step).Ok?
    ensures Steady(t, Apply(t, step).value)
  {
    match step
    case CreatesPackage(shop, o, picks, strict) => PackageSteady(t, shop, o, picks, strict);
    case CreatesShipment(shop, o, package) => ShipmentSteady(t, shop, o, package);
    case MovesShipment(shop, k, move) => MoveSteady(t, shop, k, move);
    case _ => if OnOrder(step) { OrderSteady(t, step); } else { CatalogSteady(t, step); }
  }

  lemma StepSteady(t: Tables, step: Step)
    requires Inv(t)
    ensures Steady(t, Next(t, step))
  {
    if Apply(t, step).Ok? { AcceptedSteady(t, step); }
  }

  // ----- whole runs -----

  lemma {:induction false} MovedByShipmentAlways(steps: seq<Step>)
    ensures MovedByShipment(Run(EMPTY, steps))
  {
    if steps == [] {
    } else {
      var init := steps[..|steps| - 1];
      MovedByShipmentAlways(init);
      InvAlways(init);
      StepSteady(Run(EMPTY, init), steps[|steps| - 1]);
    }
  }

  lemma SealedTransitive(t: Tables, s: Tables, u: Tables, o: Id)
    requires Sealed(t, s, o) && Sealed(s, u, o) && Progress(s, u)
    ensures Sealed(t, u, o)
  {
    forall k: Id | |t.packages| <= k < |u.packages| ensures u.packages[k].order != o {
      if k < |s.packages| { assert PackageKept(s.packages[k], u.packages[k]); }
    }
    forall k: Id | |t.shipments| <= k < |u.shipments| ensures u.shipments[k].order != o {
      if k < |s.shipments| { assert ShipmentKept(s.shipments[k], u.shipments[k]); }
    }
  }

  lemma SealedOn(t: Tables, s: Tables, step: Step, o: Id)
    requires Inv(s) && Sealed(t, s, o)
    ensures Sealed(t, Next(s, step), o)
  {
    StepSteady(s, step);
    StepProgress(s, step);
    SealedTransitive(t, s, Next(s, step), o);
  }

  /** From its first shipment on, an order stays gone, and no package or shipment is added to it. */
  lemma {:induction false} GoneIsSealed(past: seq<Step>, future: seq<Step>, o: Id)
    requires o < |Run(EMPTY, past).orders| && Gone(Run(EMPTY, past).orders[o].status)
    ensures Sealed(Run(EMPTY, past), Run(EMPTY, past + future), o)
  {
    if future == [] {
      assert past + future == past;
    } else {
      var init, last := future[..|future| - 1], future[|future| - 1];
      GoneIsSealed(past, init, o);
      InvAlways(past + init);
      SealedOn(Run(EMPTY, past), Run(EMPTY, past + init), last, o);
      RunOn(past, future);
    }
  }

  // ----- what shipments will take -----

  function AssignedTerm(t: Tables, i: Id, k: nat): int {
    if HasShipment(t.shipments, k) then PackagedTerm(t.packages, i, k) else 0
  }

  function AssignedFn(t: Tables, i: Id): nat -> int { (k: nat) => AssignedTerm(t, i, k) }

  /** The quantity of order item `i` in packages that have a shipment. */
  function Assigned(t: Tables, i: Id): int { Sum(|t.packages|, AssignedFn(t, i)) }

  lemma AssignedBetween(t: Tables, i: Id)
    requires Linked(t) && MovedByShipment(t)
    ensures Departed(t.packages, i) <= Assigned(t, i) <= Packaged(t.packages, i)
  {
    forall k: nat ensures DepartedTerm(t.packages, i, k) <= AssignedTerm(t, i, k) <= PackagedTerm(t.packages, i, k) {
      if k < |t.packages| { assert PackageLinked(t, k); }
    }
    SumMonotone(|t.packages|, DepartedFn(t.packages, i), AssignedFn(t, i));
    SumMonotone(|t.packages|, AssignedFn(t, i), PackagedFn(t.packages, i));
  }

  /** Whether a package of a sealed order has a shipment is settled. */
  lemma ShipmentKeptFor(t: Tables, u: Tables, o: Id, k: Id)
    requires Linked(u) && Progress(t, u) && Sealed(t, u, o) && k < |t.packages| && t.packages[k].order == o
    ensures HasShipment(u.shipments, k) <==> HasShipment(t.shipments, k)
  {
    assert PackageKept(t.packages[k], u.packages[k]);
    if HasShipment(t.shipments, k) {
      var s: Id :| s < |t.shipments| && t.shipments[s].package == k;
      assert ShipmentKept(t.shipments[s], u.shipments[s]);
    }
    if HasShipment(u.shipments, k) {
      var s: Id :| s < |u.shipments| && u.shipments[s].package == k;
      assert ShipmentLinked(u, s);
      assert ShipmentKept(t.shipments[s], u.shipments[s]);
    }
  }

  lemma AssignedTermKept(t: Tables, u: Tables, o: Id, i: Id, k: Id)
    requires Linked(t) && Linked(u) && Progress(t, u) && Sealed(t, u, o) && i < |t.items| && t.items[i].order == o
    requires k < |u.packages|
    ensures AssignedTerm(u, i, k) == if k < |t.packages| then AssignedTerm(t, i, k) else 0
  {
    assert PackageLinked(u, k) && u.items[i] == t.items[i];
    if k < |t.packages| {
      assert PackageKept(t.packages[k], u.packages[k]);
      if i in u.packages[k].lines { ShipmentKeptFor(t, u, o, k); }
    }
  }

  lemma AssignedKept(t: Tables, u: Tables, o: Id, i: Id)
    requires Linked(t) && Linked(u) && Progress(t, u) && Sealed(t, u, o) && i < |t.items| && t.items[i].order == o
    ensures Assigned(u, i) == Assigned(t, i)
  {
    forall k: nat | k < |u.packages| ensures AssignedTerm(u, i, k) == if k < |t.packages| then AssignedTerm(t, i, k) else 0 {
      AssignedTermKept(t, u, o, i, k);
    }
    SumExtend(|t.packages|, |u.packages|, AssignedFn(u, i));
    SumEqual(|t.packages|, AssignedFn(u, i), AssignedFn(t, i));
  }

  // ----- what is left behind -----

  /** The order of item `i` is gone. */
  ghost predicate ItemGone(t: Tables, i: Id) {
    i < |t.items| && t.items[i].order < |t.orders| && Gone(t.orders[t.items[i].order].status)
  }

  /** Item `i` of a gone order ships no more than its assigned quantity, and what that leaves stays reserved. */
  lemma LeftBehind(t: Tables, i: Id)
    requires Inv(t) && MovedByShipment(t) && ItemGone(t, i)
    ensures i in t.reservations && t.reservations[i].fulfilled <= Assigned(t, i) <= t.items[i].quantity
    ensures var r := t.reservations[i];
      && r.product == t.items[i].product && r.quantity == t.items[i].quantity
      && r.status == (if r.fulfilled == r.quantity then Fulfilled else Committed)
      && (r.status == Committed ==> r.quantity - r.fulfilled <= ReservedAt(t.stock, r.warehouse, r.product))
  {
    assert ItemLinked(t, i);
    var r := t.reservations[i];
    AssignedBetween(t, i);
    assert Coupled(t, t.items[i].order) && ReservationFits(t.orders[r.order].status, r);
    HeldNonNegative(t, r.warehouse, r.product);
    SumTerm(|t.items|, HeldFn(t.reservations, r.warehouse, r.product), i);
    assert ReservedAt(t.stock, r.warehouse, r.product) == Held(t.reservations, |t.items|, r.warehouse, r.product);
  }

  lemma ItemStaysGone(past: seq<Step>, future: seq<Step>, i: Id)
    requires ItemGone(Run(EMPTY, past), i)
    ensures var t, u := Run(EMPTY, past), Run(EMPTY, past + future);
      ItemGone(u, i) && u.items[i] == t.items[i] && Assigned(u, i) == Assigned(t, i)
  {
    var t, u := Run(EMPTY, past), Run(EMPTY, past + future);
    InvAlways(past);
    InvAlways(past + future);
    NothingUndone(past, future);
    GoneIsSealed(past, future, t.items[i].order);
    AssignedKept(t, u, t.items[i].order, i);
  }

  /** Stock of a gone order that no shipment will take stays reserved for good: it never ships and is never given back,
      and its product can never be archived. */
  lemma StockLeftBehind(past: seq<Step>, future: seq<Step>, i: Id)
    requires ItemGone(Run(EMPTY, past), i)
    ensures var left, u := Run(EMPTY, past).items[i].quantity - Assigned(Run(EMPTY, past), i), Run(EMPTY, past + future);
      && i in u.reservations && left <= u.reservations[i].quantity - u.reservations[i].fulfilled
      && (0 < left ==>
            var r := u.reservations[i];
            && r.status == Committed && left <= ReservedAt(u.stock, r.warehouse, r.product)
            && forall shop: Id :: ArchiveTx(u, shop, r.product).Err?)
  {
    ItemStaysGone(past, future, i);
    InvAlways(past + future);
    MovedByShipmentAlways(past + future);
    LeftBehind(Run(EMPTY, past + future), i);
  }

  // ----- what can still ship -----

  /** Ships the first `n` shipments in turn; those that have moved already refuse. */
  function ShipFirst(shop: Id, n: nat): (r: seq<Step>)
    ensures |r| == n
  {
    if n == 0 then [] else ShipFirst(shop, n - 1) + [MovesShipment(shop, n - 1, Ship)]
  }

  /** Of the first `n` shipments, none for order `o` is still CREATED. */
  predicate FirstShipped(t: Tables, o: Id, n: nat) {
    forall k: Id :: k < n && k < |t.shipments| && t.shipments[k].order == o ==> t.shipments[k].status != ParcelCreated
  }

  lemma ShipOne(t: Tables, o: Id, n: nat)
    requires Inv(t) && o < |t.orders| && Gone(t.orders[o].status) && FirstShipped(t, o, n)
    ensures FirstShipped(Next(t, MovesShipment(t.orders[o].shop, n, Ship)), o, n + 1)
  {
    var shop := t.orders[o].shop;
    var step := MovesShipment(shop, n, Ship);
    assert OrderLinked(t, o);
    StepProgress(t, step);
    ShippedNow(t, Next(t, step), o, n) by {
      ShippingNeverJams(t, shop, n, Ship);
      if Apply(t, step).Ok? { MovedTables(t, shop, n, Ship); }
    }
  }

  lemma ShippedNow(t: Tables, u: Tables, o: Id, n: nat)
    requires FirstShipped(t, o, n) && Progress(t, u) && |u.shipments| == |t.shipments|
    requires n < |t.shipments| && t.shipments[n].order == o && t.shipments[n].status == ParcelCreated ==>
      u.shipments[n].status != ParcelCreated
    ensures FirstShipped(u, o, n + 1)
  {
    forall k: Id | k < n + 1 && k < |u.shipments| && u.shipments[k].order == o ensures u.shipments[k].status != ParcelCreated {
      assert ShipmentKept(t.shipments[k], u.shipments[k]);
    }
  }

  lemma ShipNext(t: Tables, s: Tables, o: Id, n: nat)
    requires Inv(s) && Progress(t, s) && Sealed(t, s, o) && o < |t.orders| && FirstShipped(s, o, n)
    ensures FirstShipped(Next(s, MovesShipment(t.orders[o].shop, n, Ship)), o, n + 1)
  {
    assert OrderKept(t.orders[o], s.orders[o]);
    ShipOne(s, o, n);
  }

  lemma {:induction false} AllShip(past: seq<Step>, o: Id, shop: Id, n: nat)
    requires o < |Run(EMPTY, past).orders| && Gone(Run(EMPTY, past).orders[o].status) && Run(EMPTY, past).orders[o].shop == shop
    ensures FirstShipped(Run(EMPTY, past + ShipFirst(shop, n)), o, n)
  {
    if n == 0 {
    } else {
      var future := ShipFirst(shop, n - 1);
      AllShip(past, o, shop, n - 1);
      InvAlways(past + future);
      GoneIsSealed(past, future, o);
      NothingUndone(past, future);
      ShipNext(Run(EMPTY, past), Run(EMPTY, past + future), o, n - 1);
      assert ShipFirst(shop, n)[..n - 1] == future;
      RunOn(past, ShipFirst(shop, n));
    }
  }

  /** When every shipment of the order has moved, all that is assigned has departed. */
  lemma AllDeparted(t: Tables, o: Id, i: Id)
    requires Linked(t) && MovedByShipment(t) && FirstShipped(t, o, |t.shipments|) && i < |t.items| && t.items[i].order == o
    ensures Departed(t.packages, i) == Assigned(t, i)
  {
    forall k: nat | k < |t.packages| ensures DepartedTerm(t.packages, i, k) == AssignedTerm(t, i, k) {
      assert PackageLinked(t, k);
      if i in t.packages[k].lines && HasShipment(t.shipments, k) {
        var s: Id :| s < |t.shipments| && t.shipments[s].package == k;
        assert ShipmentLinked(t, s);
      }
    }
    SumEqual(|t.packages|, DepartedFn(t.packages, i), AssignedFn(t, i));
  }

  /** All that is assigned can still ship. */
  lemma AssignedCanShip(past: seq<Step>, i: Id) returns (future: seq<Step>)
    requires ItemGone(Run(EMPTY, past), i)
    ensures var u := Run(EMPTY, past + future); i in u.reservations && u.reservations[i].fulfilled == Assigned(Run(EMPTY, past), i)
  {
    var t := Run(EMPTY, past);
    var o, n := t.items[i].order, |t.shipments|;
    future := ShipFirst(t.orders[o].shop, n);
    AllShip(past, o, t.orders[o].shop, n);
    GoneIsSealed(past, future, o);
    ItemStaysGone(past, future, i);
    InvAlways(past + future);
    MovedByShipmentAlways(past + future);
    var u := Run(EMPTY, past + future);
    AllDeparted(u, o, i);
    LeftBehind(u, i);
  }

  ghost predicate Ships(t: Tables, i: Id, q: int) { i in t.reservations && q <= t.reservations[i].fulfilled }

  ghost predicate Fulfills(t: Tables, i: Id) { i in t.reservations && t.reservations[i].status == Fulfilled }

  lemma ShipsWithin(past: seq<Step>, future: seq<Step>, i: Id, q: int)
    requires ItemGone(Run(EMPTY, past), i) && Ships(Run(EMPTY, past + future), i, q)
    ensures q <= Assigned(Run(EMPTY, past), i)
  {
    ItemStaysGone(past, future, i);
    InvAlways(past + future);
    MovedByShipmentAlways(past + future);
    LeftBehind(Run(EMPTY, past + future), i);
  }

  lemma FulfillsExactly(past: seq<Step>, future: seq<Step>, i: Id)
    requires ItemGone(Run(EMPTY, past), i)
    ensures Fulfills(Run(EMPTY, past + future), i)
      <==> Ships(Run(EMPTY, past + future), i, Run(EMPTY, past).items[i].quantity)
  {
    ItemStaysGone(past, future, i);
    InvAlways(past + future);
    MovedByShipmentAlways(past + future);
    LeftBehind(Run(EMPTY, past + future), i);
  }

  /** From its first shipment on, what an item of an order can still come to ship is what is in packages that have a
      shipment: all of that and no more. */
  lemma ShippableExactly(past: seq<Step>, i: Id, q: int)
    requires ItemGone(Run(EMPTY, past), i)
    ensures (exists future :: Ships(Run(EMPTY, past + future), i, q)) <==> q <= Assigned(Run(EMPTY, past), i)
  {
    var all := AssignedCanShip(past, i);
    assert q <= Assigned(Run(EMPTY, past), i) ==> Ships(Run(EMPTY, past + all), i, q);
    forall future | Ships(Run(EMPTY, past + future), i, q) ensures q <= Assigned(Run(EMPTY, past), i) {
      ShipsWithin(past, future, i, q);
    }
  }

  /** So its reservation can still become FULFILLED exactly when those packages hold all that was ordered. */
  lemma FulfillableExactly(past: seq<Step>, i: Id)
    requires ItemGone(Run(EMPTY, past), i)
    ensures (exists future :: Fulfills(Run(EMPTY, past + future), i))
      <==> Assigned(Run(EMPTY, past), i) == Run(EMPTY, past).items[i].quantity
  {
    var q := Run(EMPTY, past).items[i].quantity;
    forall future ensures Fulfills(Run(EMPTY, past + future), i) <==> Ships(Run(EMPTY, past + future), i, q) {
      FulfillsExactly(past, future, i);
    }
    ShippableExactly(past, i, q);
    InvAlways(past);
    MovedByShipmentAlways(past);
    LeftBehind(Run(EMPTY, past), i);
  }
}
