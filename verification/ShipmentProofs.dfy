/** Packages and shipments keep the invariant, and every legal shipment move succeeds. */
module ShipmentProofs {
  import opened Schema
  import opened Sums
  import opened Inventory
  import opened Lifecycle
  import opened Fulfillment
  import opened Invariants
  import opened LedgerProofs
  import opened OrderProofs

  // ----- packages -----

  /** Every pick has a share and no item is picked twice. */
  ghost predicate PicksFit(t: Tables, o: Id, picks: seq<Pick>, strict: bool) {
    && (forall k :: 0 <= k < |picks| ==> Share(t, o, picks[k], strict).Some?)
    && (forall j, k :: 0 <= j < k < |picks| ==> picks[j].item != picks[k].item)
  }

  /** The package holds, for each pick, exactly its share, and nothing else. */
  ghost predicate HoldsPicks(t: Tables, o: Id, picks: seq<Pick>, strict: bool, lines: map<Id, int>) {
    && (forall i <- lines :: exists k :: 0 <= k < |picks| && picks[k].item == i)
    && (forall k :: 0 <= k < |picks| ==>
          picks[k].item in lines && Some(lines[picks[k].item]) == Share(t, o, picks[k], strict))
  }

  lemma FitsOneMore(t: Tables, o: Id, picks: seq<Pick>, last: Pick, strict: bool, lines: map<Id, int>)
    requires HoldsPicks(t, o, picks, strict, lines) && PicksFit(t, o, picks, strict)
    requires Share(t, o, last, strict).Some? && last.item !in lines
    ensures PicksFit(t, o, picks + [last], strict)
  {
    var all := picks + [last];
    forall j, k | 0 <= j < k < |all| ensures all[j].item != all[k].item {
      assert all[j] == picks[j] && picks[j].item in lines;
      assert k < |picks| ==> all[k] == picks[k];
    }
  }

  /** One more pick, of an item the package does not hold yet, keeps the package to the picks' shares. */
  lemma HoldsOneMore(t: Tables, o: Id, picks: seq<Pick>, last: Pick, strict: bool, lines: map<Id, int>)
    requires HoldsPicks(t, o, picks, strict, lines) && Share(t, o, last, strict).Some? && last.item !in lines
    ensures HoldsPicks(t, o, picks + [last], strict, lines[last.item := Share(t, o, last, strict).value])
  {
    var all, more := picks + [last], lines[last.item := Share(t, o, last, strict).value];
    forall i <- more ensures exists k :: 0 <= k < |all| && all[k].item == i {
      if i == last.item {
        assert all[|picks|].item == i;
      } else {
        var k :| 0 <= k < |picks| && picks[k].item == i;
        assert all[k].item == i;
      }
    }
    forall k | 0 <= k < |all| ensures all[k].item in more && Some(more[all[k].item]) == Share(t, o, all[k], strict) {
      if k < |picks| { assert picks[k].item in lines && picks[k].item != last.item; }
    }
  }

  lemma PacksOneMore(t: Tables, o: Id, picks: seq<Pick>, init: seq<Pick>, last: Pick, strict: bool, lines: map<Id, int>)
    requires picks != [] && init == picks[..|picks| - 1] && last == picks[|picks| - 1]
    requires HoldsPicks(t, o, init, strict, lines) && PicksFit(t, o, init, strict)
    requires Share(t, o, last, strict).Some? && last.item !in lines
    ensures PicksFit(t, o, picks, strict)
    ensures HoldsPicks(t, o, picks, strict, lines[last.item := Share(t, o, last, strict).value])
  {
    FitsOneMore(t, o, init, last, strict, lines);
    HoldsOneMore(t, o, init, last, strict, lines);
    assert init + [last] == picks;
  }

  lemma {:induction false} PackedHoldsPicks(t: Tables, o: Id, picks: seq<Pick>, strict: bool)
    requires PackLines(t, o, picks, strict).Some?
    ensures HoldsPicks(t, o, picks, strict, PackLines(t, o, picks, strict).value) && PicksFit(t, o, picks, strict)
  {
    if picks == [] {
    } else {
      var init, last := picks[..|picks| - 1], picks[|picks| - 1];
      PackedHoldsPicks(t, o, init, strict);
      PacksOneMore(t, o, picks, init, last, strict, PackLines(t, o, init, strict).value);
    }
  }

  /** A request is packed exactly when every pick has a share and no item is picked twice; the package then
      holds exactly those shares. */
  lemma {:induction false} PacksEachPickOnce(t: Tables, o: Id, picks: seq<Pick>, strict: bool)
    ensures PackLines(t, o, picks, strict).Some? <==> PicksFit(t, o, picks, strict)
    ensures PackLines(t, o, picks, strict).Some? ==> HoldsPicks(t, o, picks, strict, PackLines(t, o, picks, strict).value)
  {
    if PackLines(t, o, picks, strict).Some? {
      PackedHoldsPicks(t, o, picks, strict);
    } else if PicksFit(t, o, picks, strict) && picks != [] {
      var n := |picks| - 1;
      assert forall k :: 0 <= k < n ==> picks[..n][k] == picks[k];
      PacksEachPickOnce(t, o, picks[..n], strict);
    }
  }

  ghost predicate LinesFit(t: Tables, o: Id, lines: map<Id, int>) {
    && lines != map[]
    && forall i <- lines :: i < |t.items| && t.items[i].order == o && 0 < lines[i] <= Remaining(t, i)
  }

  lemma AppendPackageLinked(t: Tables, o: Id, w: Id, lines: map<Id, int>, u: Tables)
    requires Linked(t) && o < |t.orders| && t.orders[o].warehouse == Some(w) && LinesFit(t, o, lines)
    requires u == t.(packages := t.packages + [Package(o, w, PackageReady, lines)])
    ensures Linked(u)
  {
    forall x: Id | x < |u.orders| ensures OrderLinked(u, x) { assert OrderLinked(t, x); }
    forall i: Id | i < |u.items| ensures ItemLinked(u, i) { assert ItemLinked(t, i); }
    forall k: Id | k < |u.packages| ensures PackageLinked(u, k) { if k < |t.packages| { assert PackageLinked(t, k); } }
    forall k: Id | k < |u.shipments| ensures ShipmentLinked(u, k) { assert ShipmentLinked(t, k); }
  }

  lemma AppendPackageKeeps(t: Tables, o: Id, w: Id, lines: map<Id, int>, u: Tables)
    requires Linked(t) && Quantities(t) && o < |t.orders| && t.orders[o].warehouse == Some(w) && LinesFit(t, o, lines)
    requires u == t.(packages := t.packages + [Package(o, w, PackageReady, lines)])
    ensures Linked(u) && Quantities(u)
  {
    AppendPackageLinked(t, o, w, lines, u);
    forall i: Id | i < |u.items| && i in u.reservations
      ensures u.reservations[i].fulfilled == Departed(u.packages, i) && Packaged(u.packages, i) <= u.items[i].quantity
    {
      PackagedAppend(t.packages, u.packages[|t.packages|], i);
      SumEqual(|t.packages|, DepartedFn(t.packages, i), DepartedFn(u.packages, i));
    }
  }

  lemma CreatePackageKeepsInv(t: Tables, shop: Id, o: Id, picks: seq<Pick>, strict: bool)
    requires Inv(t) && CreatePackageTx(t, shop, o, picks, strict).Ok?
    ensures Inv(CreatePackageTx(t, shop, o, picks, strict).value)
  {
    var u := CreatePackageTx(t, shop, o, picks, strict).value;
    PackLinesFit(t, o, picks, strict);
    AppendPackageKeepsInv(t, o, t.orders[o].warehouse.value, PackLines(t, o, picks, strict).value, u);
  }

  lemma PackLinesFit(t: Tables, o: Id, picks: seq<Pick>, strict: bool)
    requires picks != [] && PackLines(t, o, picks, strict).Some?
    ensures LinesFit(t, o, PackLines(t, o, picks, strict).value)
  {
    var lines := PackLines(t, o, picks, strict).value;
    PacksEachPickOnce(t, o, picks, strict);
    assert picks[0].item in lines;
    forall i <- lines ensures i < |t.items| && t.items[i].order == o && 0 < lines[i] <= Remaining(t, i) {
      var k :| 0 <= k < |picks| && picks[k].item == i;
      assert Some(lines[i]) == Share(t, o, picks[k], strict);
    }
  }

  lemma AppendPackageKeepsInv(t: Tables, o: Id, w: Id, lines: map<Id, int>, u: Tables)
    requires Inv(t) && o < |t.orders| && t.orders[o].warehouse == Some(w) && LinesFit(t, o, lines)
    requires u == t.(packages := t.packages + [Package(o, w, PackageReady, lines)])
    ensures Inv(u)
  {
    AppendPackageKeeps(t, o, w, lines, u);
    forall q: Id | q < |u.orders| ensures Coupled(u, q) { assert Coupled(t, q) && ReservationsFit(u, q); }
  }

  // ----- shipments -----

  lemma SomeAfterAppend(ss: seq<Shipment>, s: Shipment, o: Id, statuses: set<ParcelStatus>)
    requires SomeShipment(ss, o, statuses)
    ensures SomeShipment(ss + [s], o, statuses)
  {
    var k :| 0 <= k < |ss| && ss[k].order == o && ss[k].status in statuses;
    assert (ss + [s])[k] == ss[k];
  }

  lemma AppendShipmentFits(status: OrderStatus, ss: seq<Shipment>, s: Shipment, q: Id)
    requires ShipmentsFit(status, ss, q) && s.status == ParcelCreated && (s.order == q ==> status == ReadyToShip)
    ensures ShipmentsFit(status, ss + [s], q)
  {
    match status {
      case Shipped => SomeAfterAppend(ss, s, q, {ParcelShipped});
      case InDelivery =>
        SomeAfterAppend(ss, s, q, BEYOND_SHIPPED);
        SomeAfterAppend(ss, s, q, UNDERWAY);
      case Delivered => SomeAfterAppend(ss, s, q, {ParcelDelivered});
      case Completed => SomeAfterAppend(ss, s, q, {ParcelDelivered});
      case Returned => SomeAfterAppend(ss, s, q, {ParcelReturned});
      case _ =>
    }
  }

  lemma AppendShipmentKeepsInv(t: Tables, o: Id, k: Id, u: Tables)
    requires Linked(t) && Ledger(t) && Quantities(t) && Logged(t) && UniqueCodes(t)
    requires forall q: Id :: q < |t.orders| ==> Coupled(t, q)
    requires o < |t.orders| && t.orders[o].status == ReadyToShip
    requires k < |t.packages| && t.packages[k].order == o && t.packages[k].status == PackageReady
    requires forall s: Id :: s < |t.shipments| ==> t.shipments[s].package != k
    requires u == t.(shipments := t.shipments + [Shipment(o, k, ParcelCreated)])
    ensures Inv(u)
  {
    forall x: Id | x < |u.orders| ensures OrderLinked(u, x) { assert OrderLinked(t, x); }
    forall i: Id | i < |u.items| ensures ItemLinked(u, i) { assert ItemLinked(t, i); }
    forall p: Id | p < |u.packages| ensures PackageLinked(u, p) { assert PackageLinked(t, p); }
    forall s: Id | s < |u.shipments| ensures ShipmentLinked(u, s) { if s < |t.shipments| { assert ShipmentLinked(t, s); } }
    forall q: Id | q < |u.orders| ensures Coupled(u, q) {
      assert Coupled(t, q) && ReservationsFit(u, q);
      AppendShipmentFits(t.orders[q].status, t.shipments, Shipment(o, k, ParcelCreated), q);
    }
  }

  lemma CreateShipmentKeepsInv(t: Tables, shop: Id, o: Id, package: Option<Id>)
    requires Inv(t) && CreateShipmentTx(t, shop, o, package).Ok?
    ensures Inv(CreateShipmentTx(t, shop, o, package).value)
  {
    var u := CreateShipmentTx(t, shop, o, package).value;
    forall s: Id | s < |t.shipments| ensures t.shipments[s].package < |t.packages| { assert ShipmentLinked(t, s); }
    match package {
      case None =>
        var packed := t.(packages := u.packages);
        AppendPackageKeeps(t, o, t.orders[o].warehouse.value, RemainingLines(t, o), packed);
        forall q: Id | q < |packed.orders| ensures Coupled(packed, q) { assert Coupled(t, q) && ReservationsFit(packed, q); }
        AppendShipmentKeepsInv(packed, o, |t.packages|, u);
      case Some(k) =>
        AppendShipmentKeepsInv(t, o, k, u);
    }
  }

  /** Creating a shipment without naming a package leaves nothing of the order unpacked. */
  lemma WholeOrderPacked(t: Tables, shop: Id, o: Id, i: Id)
    requires Inv(t) && CreateShipmentTx(t, shop, o, None).Ok?
    requires i < |t.items| && t.items[i].order == o
    ensures Packaged(CreateShipmentTx(t, shop, o, None).value.packages, i) == t.items[i].quantity
  {
    assert ItemLinked(t, i);
    PackagedAppend(t.packages, CreateShipmentTx(t, shop, o, None).value.packages[|t.packages|], i);
  }

  // ----- moving a shipment -----

  lemma LastOutstanding(ss: seq<Shipment>, o: Id, k: Id) returns (other: Id)
    requires k < |ss| && ss[k].order == o && !Terminal(ss[k].status)
    ensures Outstanding(ss, o) == 1 ==> forall j :: 0 <= j < |ss| && j != k && ss[j].order == o ==> Terminal(ss[j].status)
    ensures Outstanding(ss, o) != 1 ==> other < |ss| && other != k && ss[other].order == o && !Terminal(ss[other].status)
  {
    other := k;
    var f: nat -> int := OutstandingFn(ss, o);
    SumTerm(|ss|, f, k);
    if Outstanding(ss, o) == 1 {
      var g: nat -> int := (i: nat) => if i == k then 0 else f(i);
      SumChange(|ss|, f, g, k);
      forall j: nat | j < |ss| && j != k && ss[j].order == o ensures Terminal(ss[j].status) {
        SumTerm(|ss|, g, j);
      }
    } else {
      other := SumWitness(|ss|, f, k);
    }
  }

  /** The order of a shipment that can still move is under way, or cancelled before anything shipped. */
  lemma OrderOfMovable(t: Tables, k: Id, m: Move)
    requires Linked(t) && k < |t.shipments| && t.shipments[k].order < |t.orders| && t.shipments[k].status == m.From()
    requires Coupled(t, t.shipments[k].order)
    ensures var s := t.orders[t.shipments[k].order].status;
      match m
      case Ship => s in {ReadyToShip, Shipped, InDelivery, Cancelled}
      case StartDelivery => s in {Shipped, InDelivery}
      case _ => s == InDelivery
  {}

  predicate OrderMoves(t: Tables, k: Id, m: Move)
    requires k < |t.shipments| && t.shipments[k].order < |t.orders|
  {
    WantsOrderMove(t, t.shipments[k].order, m) && Some(t.orders[t.shipments[k].order].status) == m.OrderFrom()
  }

  ghost predicate Movable(t: Tables, shop: Id, k: Id, m: Move) {
    && k < |t.shipments| && Found(t, shop, t.shipments[k].order)
    && t.shipments[k].status == m.From() && t.orders[t.shipments[k].order].status != Cancelled
  }

  /** A shipment action succeeds exactly when the shipment is in the status the action leaves and its order is
      not cancelled: no stock guard, order-status check or drift check ever refuses it. */
  lemma ShippingNeverJams(t: Tables, shop: Id, k: Id, m: Move)
    requires Inv(t)
    ensures MoveTx(t, shop, k, m).Ok? <==> Movable(t, shop, k, m)
    ensures MoveTx(t, shop, k, m) != Err(Drift)
  {
    if k < |t.shipments| { assert ShipmentLinked(t, k); }
    if k < |t.shipments| && Found(t, shop, t.shipments[k].order) && t.shipments[k].status == m.From() {
      OrderOfMovable(t, k, m);
      if m == Ship && t.orders[t.shipments[k].order].status != Cancelled { ShipFulfills(t, k); }
    }
  }

  lemma ShipFulfills(t: Tables, k: Id)
    requires Inv(t) && k < |t.shipments| && t.shipments[k].status == ParcelCreated
    requires t.shipments[k].order < |t.orders| && t.orders[t.shipments[k].order].status in {ReadyToShip, Shipped, InDelivery}
    ensures t.shipments[k].package < |t.packages| && FulfillTx(t, t.shipments[k].package).Ok?
  {
    assert ShipmentLinked(t, k);
    var p := t.shipments[k].package;
    assert PackageLinked(t, p);
    assert Coupled(t, t.shipments[k].order);
    forall i <- t.packages[p].lines ensures i in t.reservations && Open(t.reservations[i]) {
      assert ItemLinked(t, i) && t.reservations[i].order == t.shipments[k].order;
      assert ReservationFits(t.orders[t.shipments[k].order].status, t.reservations[i]);
      ReadyPackageFits(t, p, i);
    }
    CanAlwaysFulfill(t, p);
  }

  /** What a successful move changes, table by table. */
  ghost predicate Moved(t: Tables, u: Tables, k: Id, m: Move) {
    && k < |t.shipments| && t.shipments[k].order < |t.orders| && t.shipments[k].package < |t.packages|
    && var s, o := t.shipments[k], t.shipments[k].order;
    && u.shipments == t.shipments[k := s.(status := m.To())]
    && u.packages == t.packages[s.package := t.packages[s.package].(status := PackageMoved(m.To()))]
    && u.orders == (if OrderMoves(t, k, m) then t.orders[o := t.orders[o].(status := m.OrderTarget().value)] else t.orders)
    && (m == Ship ==> FulfillTx(t, s.package).Ok?)
    && u.reservations == (if m == Ship then FulfillTx(t, s.package).value.reservations else t.reservations)
    && u.stock == (if m == Ship then FulfillTx(t, s.package).value.stock else t.stock)
    && u.shops == t.shops && u.warehouses == t.warehouses && u.products == t.products && u.items == t.items
  }

  lemma MovedTables(t: Tables, shop: Id, k: Id, m: Move)
    requires MoveTx(t, shop, k, m).Ok?
    ensures Moved(t, MoveTx(t, shop, k, m).value, k, m)
  {
    var u, s := MoveTx(t, shop, k, m).value, t.shipments[k];
    var stocked := if m == Ship then FulfillTx(t, s.package).value else t;
    var moved := MovedRows(stocked, k, m);
    var placed := if OrderMoves(t, k, m) then Advanced(moved, s.order, m.OrderTarget().value, 0, 0) else moved;
    assert u == WithShipmentEvent(placed, k, m);
    assert placed.reservations == stocked.reservations && placed.stock == stocked.stock;
    assert placed.orders == if OrderMoves(t, k, m)
      then t.orders[s.order := t.orders[s.order].(status := m.OrderTarget().value)] else t.orders;
  }

  /** The events of a move: the order's new status, if it changes, then the shipment's. */
  lemma MoveEvents(t: Tables, shop: Id, k: Id, m: Move) returns (mid: Tables)
    requires MoveTx(t, shop, k, m).Ok?
    ensures var u, o := MoveTx(t, shop, k, m).value, t.shipments[k].order;
      && u.orders == mid.orders
      && (if OrderMoves(t, k, m) then
            && CanTransition(t.orders[o].status, m.OrderTarget().value)
            && mid.orders == t.orders[o := t.orders[o].(status := m.OrderTarget().value)]
            && mid.events == t.events + [OrderStatusEvent(o, m.OrderTarget().value)] && mid.outbox == t.outbox + [|t.events|]
          else mid.orders == t.orders && mid.events == t.events && mid.outbox == t.outbox)
      && var r := if m in {FailDelivery, StartReturn, CompleteReturn} then Record(mid, ShipmentEvent(k, m.To())) else mid;
      u.events == r.events && u.outbox == r.outbox
  {
    var u, s := MoveTx(t, shop, k, m).value, t.shipments[k];
    var stocked := if m == Ship then FulfillTx(t, s.package).value else t;
    var moved := MovedRows(stocked, k, m);
    mid := if OrderMoves(t, k, m) then Advanced(moved, s.order, m.OrderTarget().value, 0, 0) else moved;
  }

  lemma MoveLogged(t: Tables, shop: Id, k: Id, m: Move)
    requires Logged(t) && MoveTx(t, shop, k, m).Ok?
    ensures Logged(MoveTx(t, shop, k, m).value)
  {
    var mid := MoveEvents(t, shop, k, m);
    var o := t.shipments[k].order;
    assert Logged(mid) by { if OrderMoves(t, k, m) { StatusKeepsLogged(t, mid, o, mid.orders[o]); } else { SameLogged(t, mid); } }
    var recorded := if m in {FailDelivery, StartReturn, CompleteReturn} then Record(mid, ShipmentEvent(k, m.To())) else mid;
    assert Logged(recorded) by { RecordKeepsLogged(mid, ShipmentEvent(k, m.To())); }
    SameLogged(recorded, MoveTx(t, shop, k, m).value);
  }

  lemma SameLogged(t: Tables, u: Tables)
    requires Logged(t) && u.orders == t.orders && u.events == t.events && u.outbox == t.outbox
    ensures Logged(u)
  {}

  lemma MoveReservation(t: Tables, u: Tables, k: Id, m: Move, i: Id)
    requires Linked(t) && Moved(t, u, k, m) && i in t.reservations
    ensures i in u.reservations
    ensures var lines, r := t.packages[t.shipments[k].package].lines, t.reservations[i];
      if m == Ship && i in lines then
        && u.reservations[i] == FulfilledRow(r, lines[i])
        && r.order == t.shipments[k].order && 0 < lines[i] && r.fulfilled + lines[i] <= r.quantity
      else u.reservations[i] == r
  {
    assert ShipmentLinked(t, k);
    assert PackageLinked(t, t.shipments[k].package);
    assert ItemLinked(t, i);
  }

  lemma MoveLinked(t: Tables, u: Tables, k: Id, m: Move)
    requires Linked(t) && Moved(t, u, k, m)
    ensures Linked(u)
  {
    forall x: Id | x < |u.orders| ensures OrderLinked(u, x) { assert OrderLinked(t, x); }
    forall i: Id | i < |u.items| ensures ItemLinked(u, i) {
      assert ItemLinked(t, i);
      MoveReservation(t, u, k, m, i);
    }
    forall p: Id | p < |u.packages| ensures PackageLinked(u, p) { assert PackageLinked(t, p); }
    forall s: Id | s < |u.shipments| ensures ShipmentLinked(u, s) { assert ShipmentLinked(t, s); }
  }

  lemma MoveQuantities(t: Tables, u: Tables, k: Id, m: Move)
    requires Linked(t) && Quantities(t) && Moved(t, u, k, m) && t.shipments[k].status == m.From()
    ensures Quantities(u)
  {
    assert ShipmentLinked(t, k);
    forall i: Id | i < |u.items| && i in u.reservations
      ensures u.reservations[i].fulfilled == Departed(u.packages, i) && Packaged(u.packages, i) <= u.items[i].quantity
    {
      MoveQuantity(t, u, k, m, i);
    }
  }

  lemma MoveQuantity(t: Tables, u: Tables, k: Id, m: Move, i: Id)
    requires Linked(t) && Quantities(t) && Moved(t, u, k, m) && t.shipments[k].status == m.From() && i < |t.items|
    requires ShipmentLinked(t, k)
    ensures i in u.reservations
    ensures u.reservations[i].fulfilled == Departed(u.packages, i) && Packaged(u.packages, i) <= u.items[i].quantity
  {
    assert ItemLinked(t, i);
    MovePackage(t.packages, t.shipments[k].package, PackageMoved(m.To()), i);
    MoveReservation(t, u, k, m, i);
  }

  lemma MoveReservationsFit(t: Tables, u: Tables, k: Id, m: Move, q: Id)
    requires Linked(t) && Moved(t, u, k, m) && q < |t.orders| && ReservationsFit(t, q)
    requires t.shipments[k].order == q && m == Ship ==> t.orders[q].status in {ReadyToShip, Shipped, InDelivery}
    requires t.shipments[k].order == q && m != Ship ==> t.orders[q].status in {Shipped, InDelivery}
    ensures ReservationsFit(u, q)
  {
    forall i: Id | i in u.reservations && u.reservations[i].order == q
      ensures ReservationFits(u.orders[q].status, u.reservations[i])
    {
      assert i in t.reservations && ItemLinked(t, i);
      MoveReservation(t, u, k, m, i);
      assert ReservationFits(t.orders[q].status, t.reservations[i]);
    }
  }

  /** Shipments of other orders do not change. */
  lemma SomeAfterMove(ss: seq<Shipment>, k: Id, s: ParcelStatus, q: Id, statuses: set<ParcelStatus>)
    requires k < |ss| && SomeShipment(ss, q, statuses)
    requires ss[k].order != q || ss[k].status !in statuses || s in statuses
    ensures SomeShipment(ss[k := ss[k].(status := s)], q, statuses)
  {
    var j :| 0 <= j < |ss| && ss[j].order == q && ss[j].status in statuses;
    var after := ss[k := ss[k].(status := s)];
    assert after[j].order == q && after[j].status in statuses;
  }

  lemma OtherShipmentsFit(status: OrderStatus, ss: seq<Shipment>, k: Id, s: ParcelStatus, q: Id)
    requires k < |ss| && ss[k].order != q && ShipmentsFit(status, ss, q)
    ensures ShipmentsFit(status, ss[k := ss[k].(status := s)], q)
  {
    match status {
      case Shipped => SomeAfterMove(ss, k, s, q, {ParcelShipped});
      case InDelivery =>
        SomeAfterMove(ss, k, s, q, BEYOND_SHIPPED);
        SomeAfterMove(ss, k, s, q, UNDERWAY);
      case Delivered => SomeAfterMove(ss, k, s, q, {ParcelDelivered});
      case Completed => SomeAfterMove(ss, k, s, q, {ParcelDelivered});
      case Returned => SomeAfterMove(ss, k, s, q, {ParcelReturned});
      case _ =>
    }
  }

  /** The order status stays the projection of its shipments when one of them moves. */
  lemma OwnShipmentsFit(t: Tables, k: Id, m: Move)
    requires k < |t.shipments| && t.shipments[k].order < |t.orders| && t.shipments[k].status == m.From()
    requires ShipmentsFit(t.orders[t.shipments[k].order].status, t.shipments, t.shipments[k].order)
    requires t.orders[t.shipments[k].order].status != Cancelled
    ensures var o := t.shipments[k].order;
      ShipmentsFit(if OrderMoves(t, k, m) then m.OrderTarget().value else t.orders[o].status,
                   t.shipments[k := t.shipments[k].(status := m.To())], o)
  {
    var o := t.shipments[k].order;
    var ss, status := t.shipments, t.orders[o].status;
    var after := ss[k := ss[k].(status := m.To())];
    assert after[k].order == o && after[k].status == m.To();
    var other := LastOutstanding(ss, o, k);
    if m == Ship {
      if status == InDelivery { SomeAfterMove(ss, k, m.To(), o, BEYOND_SHIPPED); }
    } else if (m == Deliver || m == CompleteReturn) && !OrderMoves(t, k, m) {
      assert after[other].order == o && after[other].status in UNDERWAY;
    }
  }

  lemma MoveCoupled(t: Tables, u: Tables, k: Id, m: Move, q: Id)
    requires Linked(t) && Moved(t, u, k, m) && q < |t.orders| && Coupled(t, q) && Coupled(t, t.shipments[k].order)
    requires t.shipments[k].status == m.From() && t.orders[t.shipments[k].order].status != Cancelled
    ensures Coupled(u, q)
  {
    OrderOfMovable(t, k, m);
    MoveReservationsFit(t, u, k, m, q);
    if q == t.shipments[k].order {
      OwnShipmentsFit(t, k, m);
    } else {
      OtherShipmentsFit(t.orders[q].status, t.shipments, k, m.To(), q);
    }
  }

  lemma MoveKeepsInv(t: Tables, shop: Id, k: Id, m: Move)
    requires Inv(t) && MoveTx(t, shop, k, m).Ok?
    ensures Inv(MoveTx(t, shop, k, m).value)
  {
    var u := MoveTx(t, shop, k, m).value;
    MovedTables(t, shop, k, m);
    ShippingNeverJams(t, shop, k, m);
    MoveLogged(t, shop, k, m);
    MovedKeepsInv(t, u, k, m);
  }

  lemma MoveLedger(t: Tables, u: Tables, k: Id, m: Move)
    requires Linked(t) && Ledger(t) && Moved(t, u, k, m)
    ensures Ledger(u)
  {
    if m == Ship {
      FulfillKeepsLedger(t, t.shipments[k].package);
      SameLedger(FulfillTx(t, t.shipments[k].package).value, u);
    } else {
      SameLedger(t, u);
    }
  }

  lemma SameLedger(t: Tables, u: Tables)
    requires Ledger(t) && u.stock == t.stock && u.reservations == t.reservations && |u.items| == |t.items|
    requires u.products == t.products && |u.warehouses| == |t.warehouses|
    ensures Ledger(u)
  {}

  lemma MoveAllCoupled(t: Tables, u: Tables, k: Id, m: Move)
    requires Linked(t) && Moved(t, u, k, m) && forall q: Id :: q < |t.orders| ==> Coupled(t, q)
    requires t.shipments[k].status == m.From() && t.orders[t.shipments[k].order].status != Cancelled
    ensures forall q: Id :: q < |u.orders| ==> Coupled(u, q)
  {
    assert Coupled(t, t.shipments[k].order);
    forall q: Id | q < |u.orders| ensures Coupled(u, q) { MoveCoupled(t, u, k, m, q); }
  }

  lemma MovedFigures(t: Tables, u: Tables, k: Id, m: Move)
    requires Linked(t) && Quantities(t) && Ledger(t) && UniqueCodes(t) && Moved(t, u, k, m) && t.shipments[k].status == m.From()
    ensures Linked(u) && Quantities(u) && Ledger(u) && UniqueCodes(u)
  {
    MoveLinked(t, u, k, m);
    MoveQuantities(t, u, k, m);
    MoveLedger(t, u, k, m);
  }

  lemma MovedKeepsInv(t: Tables, u: Tables, k: Id, m: Move)
    requires Inv(t) && Moved(t, u, k, m) && Logged(u)
    requires t.shipments[k].status == m.From() && t.orders[t.shipments[k].order].status != Cancelled
    ensures Inv(u)
  {
    MovedFigures(t, u, k, m);
    MoveAllCoupled(t, u, k, m);
  }
}
