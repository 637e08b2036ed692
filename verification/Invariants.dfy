/** What every committed state of the order, inventory and fulfillment tables satisfies. */
module Invariants {
  import opened Schema
  import opened Sums
  import opened Inventory
  import opened Lifecycle
  import opened Fulfillment

  // ----- references between rows -----

  predicate OrderLinked(t: Tables, o: Id)
    requires o < |t.orders|
  {
    var r := t.orders[o];
    r.shop < |t.shops| && r.warehouse.Some? && r.warehouse.value < |t.warehouses|
  }

  /** Order item `i` has exactly one reservation, for its own product and quantity, at the order's warehouse. */
  predicate ItemLinked(t: Tables, i: Id)
    requires i < |t.items|
  {
    var item := t.items[i];
    && item.order < |t.orders| && item.product < |t.products| && 0 < item.quantity
    && i in t.reservations
    && var r := t.reservations[i];
    && r.order == item.order && r.product == item.product && r.quantity == item.quantity
    && t.orders[item.order].warehouse == Some(r.warehouse)
    && 0 <= r.fulfilled <= r.quantity
  }

  /** A package leaves from its order's warehouse, with lines of that order's items. */
  ghost predicate PackageLinked(t: Tables, k: Id)
    requires k < |t.packages|
  {
    var p := t.packages[k];
    && p.order < |t.orders| && t.orders[p.order].warehouse == Some(p.warehouse) && p.lines != map[]
    && forall i <- p.lines :: i < |t.items| && t.items[i].order == p.order && 0 < p.lines[i]
  }

  /** A shipment and its package agree on the order and on the status. */
  predicate ShipmentLinked(t: Tables, k: Id)
    requires k < |t.shipments|
  {
    var s := t.shipments[k];
    && s.order < |t.orders| && s.package < |t.packages| && t.packages[s.package].order == s.order
    && t.packages[s.package].status == if s.status == ParcelCreated then PackageReady else PackageMoved(s.status)
  }

  ghost predicate Linked(t: Tables) {
    && (forall p: Id :: p < |t.products| ==> t.products[p].shop < |t.shops|)
    && (forall w: Id :: w < |t.warehouses| ==> t.warehouses[w].shop < |t.shops|)
    && (forall c <- t.stock :: c.0 < |t.warehouses| && c.1 < |t.products|)
    && (forall o: Id :: o < |t.orders| ==> OrderLinked(t, o))
    && (forall i <- t.reservations :: i < |t.items|)
    && (forall i: Id :: i < |t.items| ==> ItemLinked(t, i))
    && (forall k: Id :: k < |t.packages| ==> PackageLinked(t, k))
    && (forall k: Id :: k < |t.shipments| ==> ShipmentLinked(t, k))
    && (forall j: Id, k: Id :: j < k < |t.shipments| ==> t.shipments[j].package != t.shipments[k].package)
  }

  ghost predicate UniqueCodes(t: Tables) {
    forall v: Id, w: Id :: v < w < |t.warehouses| && t.warehouses[v].shop == t.warehouses[w].shop ==>
      t.warehouses[v].code != t.warehouses[w].code
  }

  // ----- the three stock ledgers -----

  function AvailableTerm(stock: map<(Id, Id), Stock>, p: Id, w: Id): int {
    if (w, p) in stock then stock[(w, p)].onHand - stock[(w, p)].reserved else 0
  }

  function AvailableFn(stock: map<(Id, Id), Stock>, p: Id): nat -> int { (w: nat) => AvailableTerm(stock, p, w) }

  /** Unreserved stock of product `p` over the first `n` warehouses. */
  function Available(stock: map<(Id, Id), Stock>, n: nat, p: Id): int { Sum(n, AvailableFn(stock, p)) }

  /** Warehouse rows, open reservations and aggregate product stock agree. */
  ghost predicate Ledger(t: Tables) {
    && (forall c <- t.stock :: 0 <= t.stock[c].reserved <= t.stock[c].onHand)
    && (forall w: Id, p: Id :: ReservedAt(t.stock, w, p) == Held(t.reservations, |t.items|, w, p))
    && (forall p: Id :: p < |t.products| ==> t.products[p].stock == Available(t.stock, |t.warehouses|, p))
  }

  // ----- package quantities -----

  function DepartedTerm(ps: seq<Package>, i: Id, k: nat): int {
    if k < |ps| && ps[k].status.PackageMoved? then PackagedTerm(ps, i, k) else 0
  }

  function DepartedFn(ps: seq<Package>, i: Id): nat -> int { (k: nat) => DepartedTerm(ps, i, k) }

  /** The quantity of order item `i` in packages that have shipped. */
  function Departed(ps: seq<Package>, i: Id): int { Sum(|ps|, DepartedFn(ps, i)) }

  ghost predicate Quantities(t: Tables) {
    forall i: Id :: i < |t.items| && i in t.reservations ==>
      t.reservations[i].fulfilled == Departed(t.packages, i) && Packaged(t.packages, i) <= t.items[i].quantity
  }

  // ----- statuses -----

  predicate PaymentFits(s: OrderStatus, p: PaymentStatus) {
    && (s == Unpaid ==> p == PaymentPending)
    && (p == PaymentFailed || p == PaymentExpired ==> s == Cancelled)
    && (s != Unpaid && s != Cancelled ==> p == PaymentPaid)
  }

  predicate ReservationFits(s: OrderStatus, r: Reservation) {
    match s
    case Unpaid => r.status == Active && r.fulfilled == 0
    case Paid => r.status == Committed && r.fulfilled == 0
    case Processing => r.status == Committed && r.fulfilled == 0
    case ReadyToShip => r.status == Committed && r.fulfilled == 0
    case Cancelled => r.status == Released && r.fulfilled == 0
    case _ => if r.fulfilled == r.quantity then r.status == Fulfilled else r.status == Committed
  }

  ghost predicate SomeShipment(ss: seq<Shipment>, o: Id, statuses: set<ParcelStatus>) {
    exists k :: 0 <= k < |ss| && ss[k].order == o && ss[k].status in statuses
  }

  ghost predicate AllShipments(ss: seq<Shipment>, o: Id, statuses: set<ParcelStatus>) {
    forall k :: 0 <= k < |ss| && ss[k].order == o ==> ss[k].status in statuses
  }

  const TERMINAL: set<ParcelStatus> := {ParcelDelivered, ParcelReturned}
  const UNDERWAY: set<ParcelStatus> := {ParcelCreated, ParcelShipped, ParcelInDelivery, ParcelDeliveryFailed, ParcelReturning}
  const BEYOND_SHIPPED: set<ParcelStatus> :=
    {ParcelInDelivery, ParcelDelivered, ParcelDeliveryFailed, ParcelReturning, ParcelReturned}

  /** The order status as a projection of the order's shipments. */
  ghost predicate ShipmentsFit(s: OrderStatus, ss: seq<Shipment>, o: Id) {
    match s
    case Unpaid => AllShipments(ss, o, {})
    case Paid => AllShipments(ss, o, {})
    case Processing => AllShipments(ss, o, {})
    case ReadyToShip => AllShipments(ss, o, {ParcelCreated})
    case Cancelled => AllShipments(ss, o, {ParcelCreated})
    case Shipped => AllShipments(ss, o, {ParcelCreated, ParcelShipped}) && SomeShipment(ss, o, {ParcelShipped})
    case InDelivery => SomeShipment(ss, o, BEYOND_SHIPPED) && SomeShipment(ss, o, UNDERWAY)
    case Returned => AllShipments(ss, o, TERMINAL) && SomeShipment(ss, o, {ParcelReturned})
    case _ => AllShipments(ss, o, TERMINAL) && SomeShipment(ss, o, {ParcelDelivered})
  }

  ghost predicate ReservationsFit(t: Tables, o: Id)
    requires o < |t.orders|
  {
    forall i: Id :: i in t.reservations && t.reservations[i].order == o ==>
      ReservationFits(t.orders[o].status, t.reservations[i])
  }

  ghost predicate Coupled(t: Tables, o: Id)
    requires o < |t.orders|
  {
    && PaymentFits(t.orders[o].status, t.orders[o].payment)
    && ReservationsFit(t, o)
    && ShipmentsFit(t.orders[o].status, t.shipments, o)
  }

  // ----- the event log -----

  /** The statuses that the log records for order `o`, oldest first. */
  function Trail(es: seq<Event>, o: Id): seq<OrderStatus> {
    if es == [] then []
    else
      var last := es[|es| - 1];
      Trail(es[..|es| - 1], o) + if last.OrderStatusEvent? && last.order == o then [last.status] else []
  }

  predicate IsPath(trail: seq<OrderStatus>) {
    && trail != [] && trail[0] == Unpaid
    && forall k :: 0 <= k < |trail| - 1 ==> CanTransition(trail[k], trail[k + 1])
  }

  ghost predicate Logged(t: Tables) {
    && |t.outbox| == |t.events| && (forall k :: 0 <= k < |t.outbox| ==> t.outbox[k] == k)
    && (forall k :: 0 <= k < |t.events| && t.events[k].OrderStatusEvent? ==> t.events[k].order < |t.orders|)
    && (forall o: Id :: o < |t.orders| ==>
          IsPath(Trail(t.events, o)) && Trail(t.events, o)[|Trail(t.events, o)| - 1] == t.orders[o].status)
  }

  ghost predicate Inv(t: Tables) {
    && Linked(t) && Ledger(t) && Quantities(t) && Logged(t) && UniqueCodes(t)
    && forall o: Id :: o < |t.orders| ==> Coupled(t, o)
  }

  lemma InvChecked(t: Tables)
    requires Linked(t) && Ledger(t)
    ensures Checked(t)
  {
    forall i <- t.reservations ensures CheckedReservation(t.reservations[i]) { assert ItemLinked(t, i); }
    forall k: nat, i: Id | k < |t.packages| && i in t.packages[k].lines ensures i < |t.items| && 0 < t.packages[k].lines[i] {
      assert PackageLinked(t, k);
    }
  }

  lemma EmptyInv()
    ensures Inv(EMPTY)
  {}
}
