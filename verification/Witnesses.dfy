/** Concrete runs that reach the states which the theorems single out. */
module Witnesses {
  import opened Schema
  import opened Sums
  import opened Inventory
  import opened Lifecycle
  import opened Fulfillment
  import opened Catalog
  import opened Invariants
  import opened LedgerProofs
  import opened OrderProofs
  import opened ShipmentProofs
  import opened CatalogProofs
  import opened System
  import opened Theorems
  import opened Endings

  const SHOP_STEPS: seq<Step> := [AddsShop(TokopediaLike), CreatesProduct(0, 2, ProductActive, [])]

  const HOME: Warehouse := Warehouse(0, DEFAULT_CODE, 0, true, true)

  lemma FirstShop()
    ensures Next(EMPTY, AddsShop(TokopediaLike)) == EMPTY.(shops := [TokopediaLike], warehouses := [HOME])
  {
    EmptyInv();
    AddShopKeepsInv(EMPTY, TokopediaLike);
  }

  lemma FirstProduct(t: Tables)
    requires t == EMPTY.(shops := [TokopediaLike], warehouses := [HOME])
    ensures var u := Next(t, CreatesProduct(0, 2, ProductActive, []));
      && u == t.(products := u.products, stock := u.stock, events := u.events, outbox := u.outbox)
      && u.products == [Product(0, 2, ProductActive)] && u.stock == map[(0, 0) := Stock(2, 0)]
  {
    AcceptedRows(t, 0, 2, ProductActive, []);
    assert StockedRows(map[], 0, [InitialInventory(0, 2)][..0]) == map[];
  }

  /** One Tokopedia-like shop with two units of one product in its default warehouse. */
  lemma OneShop()
    ensures var t := Run(EMPTY, SHOP_STEPS);
      && t.shops == [TokopediaLike] && t.warehouses == [HOME]
      && t.products == [Product(0, 2, ProductActive)] && t.stock == map[(0, 0) := Stock(2, 0)]
      && t.orders == [] && t.items == [] && t.packages == [] && t.shipments == [] && t.reservations == map[]
  {
    var a, b := AddsShop(TokopediaLike), CreatesProduct(0, 2, ProductActive, []);
    RunStep([], a);
    RunStep([a], b);
    assert [] + [a] == [a] && [a] + [b] == SHOP_STEPS;
    FirstShop();
    FirstProduct(Run(EMPTY, [a]));
  }

  const BOTH: seq<Want> := [Want(0, 2)]

  /** Its warehouse covers an order of both. */
  lemma BothEligible(t: Tables)
    requires t.warehouses == [HOME] && t.stock == map[(0, 0) := Stock(2, 0)]
    ensures Eligible(t, 0, LinesOf(|t.items|, BOTH), 0)
  {
    var lines := LinesOf(|t.items|, BOTH);
    assert lines == [Line(|t.items|, 0, 2)];
    assert NeedTerm(lines, 0, 0) == 2 && Sum(1, NeedFn(lines, 0)) == Sum(0, NeedFn(lines, 0)) + 2;
  }

  lemma ArchivedLeftSale(t: Tables)
    requires t.shops == [TokopediaLike] && t.warehouses == [HOME] && t.stock == map[(0, 0) := Stock(2, 0)]
    requires t.products == [Product(0, 2, ProductActive)] && t.reservations == map[]
    ensures LeftSale(Next(t, Archives(0, 0)), t.products, 0, BOTH)
  {
    var u := Next(t, Archives(0, 0));
    assert u == ArchiveTx(t, 0, 0).value;
    BothEligible(u);
    assert BOTH[0].product < |u.products| && u.products[BOTH[0].product].status == ProductDeleted;
  }

  /** The product is read, archived by someone else, and then reserved: the order ends in drift. */
  lemma ArchivingBetweenCausesDrift()
    ensures var seen, t := Run(EMPTY, SHOP_STEPS).products, Run(EMPTY, SHOP_STEPS + [Archives(0, 0)]);
      Apply(t, CreatesOrder(seen, 0, BOTH, 0)) == Err(Drift)
  {
    OneShop();
    RunStep(SHOP_STEPS, Archives(0, 0));
    ArchivedLeftSale(Run(EMPTY, SHOP_STEPS));
    DriftExactly(SHOP_STEPS + [Archives(0, 0)], CreatesOrder(Run(EMPTY, SHOP_STEPS).products, 0, BOTH, 0));
  }

  /** The shop's one order, for both units, has come to `status` and nothing is packed yet. */
  predicate Unpacked(t: Tables, status: OrderStatus) {
    && t.shops == [TokopediaLike] && t.items == [Item(0, 0, 2)] && t.packages == [] && t.shipments == []
    && |t.orders| == 1 && t.orders[0].shop == 0 && t.orders[0].status == status
    && (status == Unpaid ==> t.orders[0].payment == PaymentPending && t.orders[0].expires == Some(0))
  }

  lemma Ordered(steps: seq<Step>)
    requires steps == SHOP_STEPS + [CreatesOrder(Run(EMPTY, SHOP_STEPS).products, 0, BOTH, 0)]
    ensures Unpacked(Run(EMPTY, steps), Unpaid)
  {
    OneShop();
    InvAlways(SHOP_STEPS);
    RunStep(SHOP_STEPS, CreatesOrder(Run(EMPTY, SHOP_STEPS).products, 0, BOTH, 0));
    FirstOrder(Run(EMPTY, SHOP_STEPS));
  }

  lemma FirstOrder(t: Tables)
    requires Inv(t) && t.shops == [TokopediaLike] && t.warehouses == [HOME]
    requires t.products == [Product(0, 2, ProductActive)] && t.stock == map[(0, 0) := Stock(2, 0)]
    requires t.orders == [] && t.items == [] && t.packages == [] && t.shipments == []
    ensures Unpacked(Next(t, CreatesOrder(t.products, 0, BOTH, 0)), Unpaid)
  {
    OrderAccepted(t);
    var home := OrderPlaced(t, t.products, 0, BOTH, 0);
    KeepsParcels(t, t.products, 0, BOTH, 0);
    OrderCreated(t, t.products, 0, BOTH, 0);
    PlacedIsUnpacked(t, CreateOrderTx(t, t.products, 0, BOTH, 0).value, home);
  }

  lemma OrderCreated(t: Tables, seen: seq<Product>, shop: Id, wants: seq<Want>, expires: int)
    requires CreateOrderTx(t, seen, shop, wants, expires).Ok?
    ensures Next(t, CreatesOrder(seen, shop, wants, expires)) == CreateOrderTx(t, seen, shop, wants, expires).value
  {}

  lemma PlacedIsUnpacked(t: Tables, u: Tables, home: Id)
    requires t.orders == [] && t.items == [] && Placed(t, u, 0, BOTH, 0, home)
    requires u.shops == [TokopediaLike] && u.packages == [] && u.shipments == []
    ensures Unpacked(u, Unpaid)
  {
    assert BOTH[0] == Want(0, 2) && u.items[0 + 0] == Item(0, 0, 2);
  }

  lemma OrderAccepted(t: Tables)
    requires Inv(t) && t.shops == [TokopediaLike] && t.warehouses == [HOME] && t.items == []
    requires t.products == [Product(0, 2, ProductActive)] && t.stock == map[(0, 0) := Stock(2, 0)]
    ensures CreateOrderTx(t, t.products, 0, BOTH, 0).Ok?
  {
    BothEligible(t);
    BestWarehouse(t, t.products, 0, BOTH, 0);
  }

  lemma KeepsParcels(t: Tables, seen: seq<Product>, shop: Id, wants: seq<Want>, expires: int)
    requires CreateOrderTx(t, seen, shop, wants, expires).Ok?
    ensures var u := CreateOrderTx(t, seen, shop, wants, expires).value;
      u.packages == t.packages && u.shipments == t.shipments && u.shops == t.shops
  {
    var home := CreatedTables(t, seen, shop, wants, expires);
  }

  lemma Advanced(steps: seq<Step>, from: OrderStatus, to: OrderStatus)
    requires Unpacked(Run(EMPTY, steps), from) && CanTransition(from, to) && to in {Paid, Processing, ReadyToShip}
    ensures Unpacked(Run(EMPTY, steps + [Advances(0, 0, to, 0, 0)]), to)
  {
    RunStep(steps, Advances(0, 0, to, 0, 0));
  }

  lemma ReadyRun() returns (steps: seq<Step>)
    ensures Unpacked(Run(EMPTY, steps), ReadyToShip)
  {
    steps := SHOP_STEPS + [CreatesOrder(Run(EMPTY, SHOP_STEPS).products, 0, BOTH, 0)];
    Ordered(steps);
    Advanced(steps, Unpaid, Paid);
    steps := steps + [Advances(0, 0, Paid, 0, 0)];
    Advanced(steps, Paid, Processing);
    steps := steps + [Advances(0, 0, Processing, 0, 0)];
    Advanced(steps, Processing, ReadyToShip);
    steps := steps + [Advances(0, 0, ReadyToShip, 0, 0)];
  }

  /** A run to an order of a Tokopedia-like shop that is cancelled with its shipment CREATED. */
  lemma CancellationStrandsShipment() returns (steps: seq<Step>)
    ensures var t := Run(EMPTY, steps);
      && t.shops == [TokopediaLike] && |t.orders| == 1 && t.orders[0].shop == 0 && t.orders[0].status == Cancelled
      && t.shipments == [Shipment(0, 0, ParcelCreated)]
  {
    var ready := ReadyRun();
    var shipped := ready + [CreatesShipment(0, 0, None)];
    steps := shipped + [Cancels(0, 0, Seller, OutOfStock)];
    RunStep(ready, CreatesShipment(0, 0, None));
    RunStep(shipped, Cancels(0, 0, Seller, OutOfStock));
    InvAlways(ready);
    Stranded(Run(EMPTY, ready));
  }

  lemma Stranded(t: Tables)
    requires Inv(t) && Unpacked(t, ReadyToShip)
    ensures var u := Next(Next(t, CreatesShipment(0, 0, None)), Cancels(0, 0, Seller, OutOfStock));
      && u.shops == [TokopediaLike] && |u.orders| == 1 && u.orders[0].shop == 0 && u.orders[0].status == Cancelled
      && u.shipments == [Shipment(0, 0, ParcelCreated)]
  {
    assert t.items[0].order == 0 && 0 < Remaining(t, 0);
    ReadyOrderCanStrand(t, 0, 0);
    ShipmentCreated(t, 0, 0, None);
    OrderCancelled(Next(t, CreatesShipment(0, 0, None)), 0, 0, Seller, OutOfStock);
  }

  lemma ShipmentCreated(t: Tables, shop: Id, o: Id, package: Option<Id>)
    requires CreateShipmentTx(t, shop, o, package).Ok?
    ensures Next(t, CreatesShipment(shop, o, package)) == CreateShipmentTx(t, shop, o, package).value
  {}

  lemma OrderCancelled(t: Tables, shop: Id, o: Id, actor: Actor, reason: Reason)
    requires CancelTx(t, shop, o, actor, reason).Ok?
    ensures Next(t, Cancels(shop, o, actor, reason)) == CancelTx(t, shop, o, actor, reason).value
  {}

  // ----- an order that leaves stock behind -----

  /** One of the two units is in a package of its own. */
  predicate HalfPacked(t: Tables, status: OrderStatus) {
    && t.shops == [TokopediaLike] && t.items == [Item(0, 0, 2)]
    && |t.packages| == 1 && t.packages[0].order == 0 && t.packages[0].lines == map[0 := 1]
    && |t.orders| == 1 && t.orders[0].shop == 0 && t.orders[0].status == status
    && t.orders[0].warehouse == Some(t.packages[0].warehouse)
  }

  const UNIT: seq<Pick> := [Pick(0, 1)]

  lemma UnitPacked(t: Tables)
    requires Inv(t) && Unpacked(t, ReadyToShip)
    ensures var u := Next(t, CreatesPackage(0, 0, UNIT, true));
      HalfPacked(u, ReadyToShip) && u.packages[0].status == PackageReady && u.shipments == []
  {
    assert OrderLinked(t, 0);
    assert UNIT[..0] == [] && Share(t, 0, Pick(0, 1), true) == Some(1);
    assert PackLines(t, 0, UNIT[..0], true) == Some(map[]);
  }

  lemma UnitGetsShipment(t: Tables)
    requires Inv(t) && HalfPacked(t, ReadyToShip) && t.packages[0].status == PackageReady && t.shipments == []
    ensures var u := Next(t, CreatesShipment(0, 0, Some(0)));
      HalfPacked(u, ReadyToShip) && u.shipments == [Shipment(0, 0, ParcelCreated)]
  {
    assert OrderLinked(t, 0) && 0 in t.packages[0].lines;
  }

  lemma UnitShips(t: Tables)
    requires Inv(t) && HalfPacked(t, ReadyToShip) && t.shipments == [Shipment(0, 0, ParcelCreated)]
    ensures var u := Next(t, MovesShipment(0, 0, Ship));
      HalfPacked(u, Shipped) && u.shipments == [Shipment(0, 0, ParcelShipped)]
  {
    assert OrderLinked(t, 0) && ShipmentLinked(t, 0);
    ShippingNeverJams(t, 0, 0, Ship);
    MovedTables(t, 0, 0, Ship);
    ShipmentMoved(t, 0, 0, Ship);
    HalfShipped(t, MoveTx(t, 0, 0, Ship).value);
  }

  lemma ShipmentMoved(t: Tables, shop: Id, k: Id, m: Move)
    requires MoveTx(t, shop, k, m).Ok?
    ensures Next(t, MovesShipment(shop, k, m)) == MoveTx(t, shop, k, m).value
  {}

  lemma HalfShipped(t: Tables, u: Tables)
    requires HalfPacked(t, ReadyToShip) && t.shipments == [Shipment(0, 0, ParcelCreated)] && Moved(t, u, 0, Ship)
    ensures HalfPacked(u, Shipped) && u.shipments == [Shipment(0, 0, ParcelShipped)]
  {}

  /** A run that ships one of two units ordered; the other stays reserved, whatever happens next. */
  lemma PartialShipmentLeavesStock() returns (steps: seq<Step>)
    ensures var t := Run(EMPTY, steps);
      && t.items == [Item(0, 0, 2)] && ItemGone(t, 0) && Assigned(t, 0) == 1
      && forall future :: !Fulfills(Run(EMPTY, steps + future), 0)
  {
    var ready := ReadyRun();
    var packed := ready + [CreatesPackage(0, 0, UNIT, true)];
    var sent := packed + [CreatesShipment(0, 0, Some(0))];
    steps := sent + [MovesShipment(0, 0, Ship)];
    InvAlways(ready);
    UnitPacked(Run(EMPTY, ready));
    RunStep(ready, CreatesPackage(0, 0, UNIT, true));
    InvAlways(packed);
    UnitGetsShipment(Run(EMPTY, packed));
    RunStep(packed, CreatesShipment(0, 0, Some(0)));
    InvAlways(sent);
    UnitShips(Run(EMPTY, sent));
    RunStep(sent, MovesShipment(0, 0, Ship));
    OneAssigned(Run(EMPTY, steps));
    FulfillableExactly(steps, 0);
  }

  lemma OneAssigned(t: Tables)
    requires HalfPacked(t, Shipped) && t.shipments == [Shipment(0, 0, ParcelShipped)]
    ensures ItemGone(t, 0) && Assigned(t, 0) == 1
  {
    assert t.shipments[0].package == 0 && HasShipment(t.shipments, 0);
    assert Sum(1, AssignedFn(t, 0)) == Sum(0, AssignedFn(t, 0)) + AssignedTerm(t, 0, 0);
  }
}
