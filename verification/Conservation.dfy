/** Units of stock: what is on hand plus what has shipped is what administrators have put in, net of what they took out. */
module Conservation {
  import opened Schema
  import opened Sums
  import opened Inventory
  import opened Lifecycle
  import opened Fulfillment
  import opened Catalog
  import opened Invariants
  import opened OrderProofs
  import opened ShipmentProofs
  import opened CatalogProofs
  import opened System

  function OnHandAt(stock: map<(Id, Id), Stock>, w: Id, p: Id): int {
    if (w, p) in stock then stock[(w, p)].onHand else 0
  }

  function SentTerm(rs: map<Id, Reservation>, w: Id, p: Id, i: Id): int {
    if i in rs && rs[i].warehouse == w && rs[i].product == p then rs[i].fulfilled else 0
  }

  function SentFn(rs: map<Id, Reservation>, w: Id, p: Id): nat -> int { (i: nat) => SentTerm(rs, w, p, i) }

  /** The units of product `p` that have shipped out of warehouse `w`. */
  function Sent(rs: map<Id, Reservation>, n: nat, w: Id, p: Id): int { Sum(n, SentFn(rs, w, p)) }

  function UnitsAt(t: Tables, w: Id, p: Id): int { OnHandAt(t.stock, w, p) + Sent(t.reservations, |t.items|, w, p) }

  /** The net units that an administrator's step puts into warehouse `w`. */
  ghost function StockedBy(t: Tables, step: Step, w: Id, p: Id): int {
    if Apply(t, step).Err? then 0
    else match step
      case CreatesProduct(shop, stock, status, allocations) =>
        if p == |t.products| then PlacedAt(if allocations == [] then DefaultRows(t, shop, stock) else allocations, w) else 0
      case SetsOnHand(v, q, onHand) => if (v, q) == (w, p) then onHand - OnHandAt(t.stock, w, p) else 0
      case _ => 0
  }

  /** A product created without allocations is stocked at its shop's default warehouse. */
  function DefaultRows(t: Tables, shop: Id, stock: int): seq<InitialInventory> {
    [InitialInventory(WithDefault(t, shop).1, stock)]
  }

  ghost function NetStocked(steps: seq<Step>, w: Id, p: Id): int {
    if steps == [] then 0
    else
      var init := steps[..|steps| - 1];
      NetStocked(init, w, p) + StockedBy(Run(EMPTY, init), steps[|steps| - 1], w, p)
  }

  lemma SameUnits(t: Tables, u: Tables, w: Id, p: Id)
    requires OnHandAt(u.stock, w, p) == OnHandAt(t.stock, w, p) && |t.items| <= |u.items|
    requires forall i: Id :: i < |t.items| ==> SentTerm(u.reservations, w, p, i) == SentTerm(t.reservations, w, p, i)
    requires forall i: Id :: |t.items| <= i < |u.items| ==> SentTerm(u.reservations, w, p, i) == 0
    ensures UnitsAt(u, w, p) == UnitsAt(t, w, p)
  {
    SumExtend(|t.items|, |u.items|, SentFn(u.reservations, w, p));
    SumEqual(|t.items|, SentFn(t.reservations, w, p), SentFn(u.reservations, w, p));
  }

  lemma CreateUnits(t: Tables, seen: seq<Product>, shop: Id, wants: seq<Want>, expires: int, w: Id, p: Id)
    requires Linked(t) && CreateOrderTx(t, seen, shop, wants, expires).Ok?
    ensures UnitsAt(CreateOrderTx(t, seen, shop, wants, expires).value, w, p) == UnitsAt(t, w, p)
  {
    var u := CreateOrderTx(t, seen, shop, wants, expires).value;
    var home := CreatedTables(t, seen, shop, wants, expires);
    NewRows(t, u, home, wants);
    SameUnits(t, u, w, p);
  }

  lemma CancelUnits(t: Tables, o: Id, payment: Option<PaymentStatus>, cause: Option<Event>, w: Id, p: Id)
    requires Inv(t) && o < |t.orders| && CancelWith(t, o, payment, cause).Ok?
    ensures UnitsAt(CancelWith(t, o, payment, cause).value, w, p) == UnitsAt(t, w, p)
  {
    CancelledTables(t, o, payment, cause);
    SameUnits(t, CancelWith(t, o, payment, cause).value, w, p);
  }

  /** Shipping takes off the shelf exactly what it counts as shipped. */
  lemma MoveUnits(t: Tables, u: Tables, k: Id, m: Move, w: Id, p: Id)
    requires Linked(t) && Moved(t, u, k, m)
    ensures UnitsAt(u, w, p) == UnitsAt(t, w, p)
  {
    if m == Ship {
      var lines, n := t.packages[t.shipments[k].package].lines, |t.items|;
      assert PackageLinked(t, t.shipments[k].package);
      assert u.reservations == FulfilledRows(t.reservations, lines, n) && u.stock == Consumed(t, lines, n);
      assert Packed(t.reservations, lines, n, w, p) <= ReservedAt(t.stock, w, p);
      SumPlus(n, SentFn(t.reservations, w, p), PackedFn(t.reservations, lines, w, p), SentFn(u.reservations, w, p));
      SumPrefix(0, n, PackedFn(t.reservations, lines, w, p));
    }
  }

  lemma CreateProductUnits(t: Tables, shop: Id, stock: int, status: ProductStatus, allocations: seq<InitialInventory>, w: Id, p: Id)
    requires Linked(t) && CreateProductTx(t, shop, stock, status, allocations).Ok?
    ensures UnitsAt(CreateProductTx(t, shop, stock, status, allocations).value, w, p)
      == UnitsAt(t, w, p) + StockedBy(t, CreatesProduct(shop, stock, status, allocations), w, p)
  {
    AcceptedRows(t, shop, stock, status, allocations);
    var rows := if allocations == [] then DefaultRows(t, shop, stock) else allocations;
    NewProductUnits(t, CreateProductTx(t, shop, stock, status, allocations).value, rows, w, p);
  }

  lemma NewProductUnits(t: Tables, u: Tables, rows: seq<InitialInventory>, w: Id, p: Id)
    requires Linked(t) && RowsFit(rows, |u.warehouses|) && u.stock == StockedRows(t.stock, |t.products|, rows)
    requires u.reservations == t.reservations && u.items == t.items
    ensures UnitsAt(u, w, p) == UnitsAt(t, w, p) + if p == |t.products| then PlacedAt(rows, w) else 0
  {
    StockedTotals(t.stock, |t.products|, rows, |u.warehouses|);
  }

  lemma CatalogUnits(t: Tables, step: Step, w: Id, p: Id)
    requires Linked(t) && OnCatalog(step) && Apply(t, step).Ok?
    ensures UnitsAt(Apply(t, step).value, w, p) == UnitsAt(t, w, p) + StockedBy(t, step, w, p)
  {
    if step.CreatesProduct? { CreateProductUnits(t, step.shop, step.stock, step.status, step.allocations, w, p); }
  }

  lemma ExpireUnits(t: Tables, shop: Id, o: Id, rule: Rule, clock: int, w: Id, p: Id)
    requires Inv(t) && CancelOverdueTx(t, shop, o, rule, clock).Ok?
    ensures UnitsAt(CancelOverdueTx(t, shop, o, rule, clock).value, w, p) == UnitsAt(t, w, p)
  {
    match rule
    case PaymentRule => CancelUnits(t, o, Some(PaymentExpired), Some(PaymentExpiredEvent(o)), w, p);
    case SellerRule => CancelUnits(t, o, None, Some(SlaExpiredEvent(o)), w, p);
  }

  lemma OrderUnits(t: Tables, step: Step, w: Id, p: Id)
    requires Apply(t, step).Ok? && (step.Advances? || step.Claims? || step.CreatesPackage? || step.CreatesShipment?)
    ensures UnitsAt(Next(t, step), w, p) == UnitsAt(t, w, p)
  {
    SameUnits(t, Next(t, step), w, p);
  }

  lemma StepUnits(t: Tables, step: Step, w: Id, p: Id)
    requires Inv(t)
    ensures UnitsAt(Next(t, step), w, p) == UnitsAt(t, w, p) + StockedBy(t, step, w, p)
  {
    if Apply(t, step).Ok? {
      match step
      case CreatesOrder(seen, shop, wants, expires) => CreateUnits(t, seen, shop, wants, expires, w, p);
      case Cancels(shop, o, actor, reason) => CancelUnits(t, o, None, None, w, p);
      case FailsPayment(shop, o) => CancelUnits(t, o, Some(PaymentFailed), Some(PaymentFailedEvent(o)), w, p);
      case Expires(shop, o, rule, clock) => ExpireUnits(t, shop, o, rule, clock, w, p);
      case MovesShipment(shop, k, move) =>
        MovedTables(t, shop, k, move);
        MoveUnits(t, Next(t, step), k, move, w, p);
      case _ =>
        if OnCatalog(step) { CatalogUnits(t, step, w, p); } else { OrderUnits(t, step, w, p); }
    }
  }

  /** No unit is lost or made: after any run, on hand plus shipped is what administrators stocked. */
  lemma {:induction false} StockConserved(steps: seq<Step>, w: Id, p: Id)
    ensures UnitsAt(Run(EMPTY, steps), w, p) == NetStocked(steps, w, p)
  {
    if steps == [] {
    } else {
      var init := steps[..|steps| - 1];
      StockConserved(init, w, p);
      InvAlways(init);
      StepUnits(Run(EMPTY, init), steps[|steps| - 1], w, p);
    }
  }
}
