/** What the system promises, stated about every state that some run from an empty database reaches. */
module Theorems {
  import opened Schema
  import opened Sums
  import opened Inventory
  import opened Lifecycle
  import opened Fulfillment
  import opened Invariants
  import opened LedgerProofs
  import opened OrderProofs
  import opened ShipmentProofs
  import opened System
  import opened History
  import opened Conservation

  // ----- stock -----

  /** The three ledgers agree: warehouse rows, open reservations and aggregate product stock. */
  lemma LedgersAgree(steps: seq<Step>, w: Id, p: Id)
    ensures var t := Run(EMPTY, steps);
      && 0 <= ReservedAt(t.stock, w, p) <= OnHandAt(t.stock, w, p)
      && ReservedAt(t.stock, w, p) == Held(t.reservations, |t.items|, w, p)
      && (p < |t.products| ==> 0 <= t.products[p].stock == Available(t.stock, |t.warehouses|, p))
  {
    InvAlways(steps);
    var t := Run(EMPTY, steps);
    if p < |t.products| { SumPrefix(0, |t.warehouses|, AvailableFn(t.stock, p)); }
  }

  /** What the request asks of product `p`, over all its lines. */
  function Wanted(wants: seq<Want>, p: Id): int {
    if wants == [] then 0
    else
      var last := wants[|wants| - 1];
      Wanted(wants[..|wants| - 1], p) + if last.product == p then last.quantity else 0
  }

  lemma {:induction false} WantedIsNeed(wants: seq<Want>, n: Id, p: Id, j: nat)
    requires j <= |wants|
    ensures Wanted(wants[..j], p) == Sum(j, NeedFn(LinesOf(n, wants), p))
  {
    if j == 0 {
    } else {
      WantedIsNeed(wants, n, p, j - 1);
      assert wants[..j][..j - 1] == wants[..j - 1];
    }
  }

  /** Warehouse `w` is an active one of the shop, and has unreserved on its shelf all that the request asks of each product. */
  predicate Serves(t: Tables, shop: Id, wants: seq<Want>, w: Id) {
    && w < |t.warehouses| && t.warehouses[w].active && t.warehouses[w].shop == shop
    && forall k :: 0 <= k < |wants| ==>
      var p := wants[k].product;
      (w, p) in t.stock && Wanted(wants, p) <= t.stock[(w, p)].onHand - t.stock[(w, p)].reserved
  }

  lemma ServesIsEligible(t: Tables, shop: Id, wants: seq<Want>, w: Id)
    ensures Eligible(t, shop, LinesOf(|t.items|, wants), w) <==> Serves(t, shop, wants, w)
  {
    var lines := LinesOf(|t.items|, wants);
    assert wants[..|wants|] == wants;
    forall k | 0 <= k < |wants| ensures Need(lines, lines[k].product) == Wanted(wants, wants[k].product) {
      WantedIsNeed(wants, |t.items|, wants[k].product, |wants|);
    }
  }

  /** When an order is refused for its own lines: one of them asks for nothing, or for what the shop did not sell when the
      line was read. */
  lemma OrderRejectedExactly(t: Tables, seen: seq<Product>, shop: Id, wants: seq<Want>, expires: int)
    ensures var r := CreateOrderTx(t, seen, shop, wants, expires);
      && (r == Err(NotFound) <==> |t.shops| <= shop)
      && (r == Err(Rejected) <==> shop < |t.shops| && exists k ::
            && 0 <= k < |wants|
            && (wants[k].quantity <= 0 || |seen| <= wants[k].product || seen[wants[k].product].shop != shop
                || seen[wants[k].product].status in {ProductInactive, ProductDeleted}))
  {}

  lemma BestWarehouse(t: Tables, seen: seq<Product>, shop: Id, wants: seq<Want>, expires: int)
    requires Inv(t) && shop < |t.shops| && wants != [] && forall k :: 0 <= k < |wants| ==> Sellable(seen, shop, wants[k])
    ensures var lines, r := LinesOf(|t.items|, wants), CreateOrderTx(t, seen, shop, wants, expires);
      && (r == Err(NoWarehouse) <==> forall w: Id :: !Eligible(t, shop, lines, w))
      && (r == Err(Drift) <==> LeftSale(t, seen, shop, wants))
      && (r.Ok? <==> r != Err(NoWarehouse) && r != Err(Drift))
      && (r.Ok? ==>
            var best := r.value.orders[|t.orders|].warehouse;
            best.Some? && Eligible(t, shop, lines, best.value)
            && forall w: Id :: Eligible(t, shop, lines, w) ==>
              var b, other := t.warehouses[best.value], t.warehouses[w];
              other.priority < b.priority || (other.priority == b.priority && b.code <= other.code))
  {
    var d, lines := Drafted(t, shop, wants, expires), LinesOf(|t.items|, wants);
    forall k | 0 <= k < |lines| ensures 0 < lines[k].quantity { assert Sellable(seen, shop, wants[k]); }
    AllocationDriftsExactly(t, seen, shop, wants, expires);
    ChoosesBestWarehouse(d, shop, lines);
    forall w: Id ensures Eligible(d, shop, lines, w) <==> Eligible(t, shop, lines, w) {}
  }

  lemma BestServing(t: Tables, seen: seq<Product>, shop: Id, wants: seq<Want>, expires: int)
    requires Inv(t) && wants != [] && CreateOrderTx(t, seen, shop, wants, expires) !in {Err(NotFound), Err(Rejected)}
    ensures var r := CreateOrderTx(t, seen, shop, wants, expires);
      && (r == Err(NoWarehouse) <==> forall w: Id :: !Serves(t, shop, wants, w))
      && (r == Err(Drift) <==> (exists w: Id :: Serves(t, shop, wants, w)) && exists k ::
            0 <= k < |wants| && wants[k].product < |t.products| && t.products[wants[k].product].status != ProductActive)
      && (r.Ok? <==> r != Err(NoWarehouse) && r != Err(Drift))
      && (r.Ok? ==>
            var best := r.value.orders[|t.orders|].warehouse;
            best.Some? && Serves(t, shop, wants, best.value)
            && forall w: Id :: Serves(t, shop, wants, w) ==>
              var b, other := t.warehouses[best.value], t.warehouses[w];
              other.priority < b.priority || (other.priority == b.priority && b.code <= other.code))
  {
    BestWarehouse(t, seen, shop, wants, expires);
    forall w: Id ensures Eligible(t, shop, LinesOf(|t.items|, wants), w) <==> Serves(t, shop, wants, w) {
      ServesIsEligible(t, shop, wants, w);
    }
  }

  /** A request that is not refused for its lines ends in one of three ways: without stock exactly when no active warehouse
      of the shop has all it asks for; in drift exactly when one has but a product has left sale since it was read; and
      otherwise in an order at the best such warehouse: the highest priority, and the smallest code among those. */
  lemma OrdersGoToBestWarehouse(steps: seq<Step>, seen: seq<Product>, shop: Id, wants: seq<Want>, expires: int)
    requires wants != []
    requires CreateOrderTx(Run(EMPTY, steps), seen, shop, wants, expires) !in {Err(NotFound), Err(Rejected)}
    ensures var t := Run(EMPTY, steps);
      var r := CreateOrderTx(t, seen, shop, wants, expires);
      && (r == Err(NoWarehouse) <==> forall w: Id :: !Serves(t, shop, wants, w))
      && (r == Err(Drift) <==> (exists w: Id :: Serves(t, shop, wants, w)) && exists k ::
            0 <= k < |wants| && wants[k].product < |t.products| && t.products[wants[k].product].status != ProductActive)
      && (r.Ok? <==> r != Err(NoWarehouse) && r != Err(Drift))
      && (r.Ok? ==>
            var best := r.value.orders[|t.orders|].warehouse;
            best.Some? && Serves(t, shop, wants, best.value)
            && forall w: Id :: Serves(t, shop, wants, w) ==>
              var b, other := t.warehouses[best.value], t.warehouses[w];
              other.priority < b.priority || (other.priority == b.priority && b.code <= other.code))
  {
    InvAlways(steps);
    BestServing(Run(EMPTY, steps), seen, shop, wants, expires);
  }

  /** What a placed order leaves behind: an unpaid order at its warehouse with one item and one active reservation per line,
      and every figure of reserved and of open stock moved by what the request asks of the product. */
  ghost predicate Placed(t: Tables, u: Tables, shop: Id, wants: seq<Want>, expires: int, home: Id) {
    var o, n := |t.orders|, |t.items|;
    && u.orders == t.orders + [Order(shop, Unpaid, PaymentPending, Some(expires), None, Some(home), None)]
    && |u.items| == n + |wants| && u.items[..n] == t.items
    && (forall k: nat :: k < |wants| ==>
          && u.items[n + k] == Item(o, wants[k].product, wants[k].quantity) && n + k in u.reservations
          && u.reservations[n + k] == Reservation(o, wants[k].product, home, wants[k].quantity, 0, Active))
    && u.stock.Keys == t.stock.Keys
    && (forall c <- t.stock ::
          u.stock[c] == t.stock[c].(reserved := t.stock[c].reserved + if c.0 == home then Wanted(wants, c.1) else 0))
    && |u.products| == |t.products|
    && (forall p: Id :: p < |t.products| ==> u.products[p] == t.products[p].(stock := t.products[p].stock - Wanted(wants, p)))
    && u.events == t.events + [OrderStatusEvent(o, Unpaid)]
  }

  lemma OrderPlaced(t: Tables, seen: seq<Product>, shop: Id, wants: seq<Want>, expires: int) returns (home: Id)
    requires Linked(t) && CreateOrderTx(t, seen, shop, wants, expires).Ok?
    ensures Placed(t, CreateOrderTx(t, seen, shop, wants, expires).value, shop, wants, expires, home)
  {
    home := CreatedTables(t, seen, shop, wants, expires);
    var u := CreateOrderTx(t, seen, shop, wants, expires).value;
    NewRows(t, u, home, wants);
    assert wants[..|wants|] == wants;
    forall p: Id ensures Need(LinesOf(|t.items|, wants), p) == Wanted(wants, p) { WantedIsNeed(wants, |t.items|, p, |wants|); }
  }

  /** Cancelling a new order puts every stock figure back where it was before the order. */
  lemma CancelUndoesCreate(steps: seq<Step>, seen: seq<Product>, shop: Id, wants: seq<Want>, expires: int)
    requires CreateOrderTx(Run(EMPTY, steps), seen, shop, wants, expires).Ok?
    ensures var t := Run(EMPTY, steps);
      var cancelled := CancelTx(CreateOrderTx(t, seen, shop, wants, expires).value, shop, |t.orders|, Customer, ChangeOfMind);
      cancelled.Ok? && cancelled.value.stock == t.stock && cancelled.value.products == t.products
  {
    InvAlways(steps);
    CreatedThenCancelled(Run(EMPTY, steps), seen, shop, wants, expires);
  }

  /** Two states differ at most in figures: what is reserved where, and what open stock that leaves. */
  predicate SameGoods(t: Tables, u: Tables) {
    && u.warehouses == t.warehouses && |u.products| == |t.products|
    && u.stock.Keys == t.stock.Keys && (forall c <- t.stock :: u.stock[c].onHand == t.stock[c].onHand)
    && forall p: Id :: p < |t.products| ==> u.products[p] == t.products[p].(stock := u.products[p].stock)
  }

  /** The new order's items and reservations are the only new ones. */
  predicate OnlyNew(t: Tables, u: Tables, o: Id) {
    && |t.items| <= |u.items|
    && (forall i <- t.reservations :: i in u.reservations && u.reservations[i] == t.reservations[i])
    && forall i: Id :: |t.items| <= i < |u.items| ==>
      i in u.reservations && u.reservations[i].order == o && u.reservations[i].status == Active
  }

  lemma CreateGoods(t: Tables, seen: seq<Product>, shop: Id, wants: seq<Want>, expires: int, u: Tables)
    requires Linked(t) && CreateOrderTx(t, seen, shop, wants, expires) == Ok(u)
    ensures SameGoods(t, u) && OnlyNew(t, u, |t.orders|)
    ensures shop < |u.shops| && |t.orders| < |u.orders| && u.orders[|t.orders|].shop == shop && u.orders[|t.orders|].status == Unpaid
  {
    var home := CreatedTables(t, seen, shop, wants, expires);
    NewRows(t, u, home, wants);
  }

  lemma CancelGoods(u: Tables, o: Id, v: Tables)
    requires Linked(u) && Ledger(u) && o < |u.orders| && CancelWith(u, o, None, None) == Ok(v)
    ensures SameGoods(u, v) && v.items == u.items && v.reservations == ReleasedRows(u.reservations, o)
  {}

  lemma CreatedThenCancelled(t: Tables, seen: seq<Product>, shop: Id, wants: seq<Want>, expires: int)
    requires Inv(t) && CreateOrderTx(t, seen, shop, wants, expires).Ok?
    ensures var r := CancelTx(CreateOrderTx(t, seen, shop, wants, expires).value, shop, |t.orders|, Customer, ChangeOfMind);
      r.Ok? && r.value.stock == t.stock && r.value.products == t.products
  {
    var u, o := CreateOrderTx(t, seen, shop, wants, expires).value, |t.orders|;
    CreateKeepsInv(t, seen, shop, wants, expires);
    CreateGoods(t, seen, shop, wants, expires, u);
    CancelKeepsInv(u, o, None, None);
    var v := CancelWith(u, o, None, None).value;
    assert CancelTx(u, shop, o, Customer, ChangeOfMind) == Ok(v);
    CancelGoods(u, o, v);
    NewOrderReleased(t, u, v, o);
  }

  lemma NewOrderReleased(t: Tables, u: Tables, v: Tables, o: Id)
    requires Inv(t) && Inv(v) && SameGoods(t, u) && SameGoods(u, v) && OnlyNew(t, u, o) && o == |t.orders|
    requires v.items == u.items && v.reservations == ReleasedRows(u.reservations, o)
    ensures v.stock == t.stock && v.products == t.products
  {
    forall i <- t.reservations ensures i in v.reservations && v.reservations[i] == t.reservations[i] { assert ItemLinked(t, i); }
    SameFigures(t, v);
  }

  /** Open reservations hold the same in both states. */
  predicate SameOpen(t: Tables, v: Tables) {
    && |t.items| <= |v.items|
    && (forall i <- t.reservations :: i in v.reservations && v.reservations[i] == t.reservations[i])
    && forall i: Id :: |t.items| <= i < |v.items| ==> i in v.reservations && v.reservations[i].status == Released
  }

  lemma SameHeld(t: Tables, v: Tables, w: Id, p: Id)
    requires Linked(t) && SameOpen(t, v)
    ensures Held(v.reservations, |v.items|, w, p) == Held(t.reservations, |t.items|, w, p)
  {
    forall i: nat | i < |t.items| ensures HeldTerm(v.reservations, w, p, i) == HeldTerm(t.reservations, w, p, i) {
      assert ItemLinked(t, i) && i in t.reservations;
    }
    SumExtend(|t.items|, |v.items|, HeldFn(v.reservations, w, p));
    SumEqual(|t.items|, HeldFn(t.reservations, w, p), HeldFn(v.reservations, w, p));
  }

  /** States with the same physical stock whose open reservations hold the same have the same figures. */
  lemma SameFigures(t: Tables, v: Tables)
    requires Inv(t) && Inv(v) && SameGoods(t, v) && SameOpen(t, v)
    ensures v.stock == t.stock && v.products == t.products
  {
    forall c <- t.stock ensures v.stock[c] == t.stock[c] {
      SameHeld(t, v, c.0, c.1);
      assert ReservedAt(t.stock, c.0, c.1) == Held(t.reservations, |t.items|, c.0, c.1);
      assert ReservedAt(v.stock, c.0, c.1) == Held(v.reservations, |v.items|, c.0, c.1);
    }
  }

  // ----- reservations and packages -----

  /** A reservation follows its order: held until paid, committed until shipped, given back when cancelled. */
  lemma ReservationsFollowOrders(steps: seq<Step>, i: Id)
    requires i < |Run(EMPTY, steps).items|
    ensures var t := Run(EMPTY, steps);
      && i in t.reservations && t.reservations[i].order == t.items[i].order < |t.orders|
      && var r, s := t.reservations[i], t.orders[t.items[i].order].status;
      && (s == Unpaid <==> r.status == Active)
      && (s == Cancelled <==> r.status == Released)
      && (r.status == Fulfilled <==> r.fulfilled == r.quantity)
      && (0 < r.fulfilled ==> s in {Shipped, InDelivery, Delivered, Completed, Returned})
  {
    InvAlways(steps);
    var t := Run(EMPTY, steps);
    assert ItemLinked(t, i);
    assert Coupled(t, t.items[i].order);
  }

  /** Released stock is released for good, and stock of which anything has shipped is never released. */
  lemma StockGivenBackOnce(past: seq<Step>, future: seq<Step>, i: Id)
    requires i in Run(EMPTY, past).reservations
    ensures var t, u := Run(EMPTY, past), Run(EMPTY, past + future);
      && i in u.reservations
      && (t.reservations[i].status == Released ==> u.reservations[i] == t.reservations[i] && t.reservations[i].fulfilled == 0)
      && (0 < t.reservations[i].fulfilled ==> u.reservations[i].status != Released)
  {
    NothingUndone(past, future);
    InvAlways(past);
    InvAlways(past + future);
    var t, u := Run(EMPTY, past), Run(EMPTY, past + future);
    ReleasedForGood(t, u, i);
  }

  lemma ReleasedForGood(t: Tables, u: Tables, i: Id)
    requires Inv(t) && Inv(u) && Progress(t, u) && i in t.reservations
    ensures i in u.reservations
    ensures t.reservations[i].status == Released ==> u.reservations[i] == t.reservations[i] && t.reservations[i].fulfilled == 0
    ensures 0 < t.reservations[i].fulfilled ==> u.reservations[i].status != Released
  {
    assert ReservationKept(t.reservations[i], u.reservations[i]) && i in u.reservations.Keys;
    ReleasedUnshipped(t, i);
    ReleasedUnshipped(u, i);
  }

  lemma ReleasedUnshipped(t: Tables, i: Id)
    requires Inv(t) && i in t.reservations
    ensures t.reservations[i].status == Released ==> t.reservations[i].fulfilled == 0
  {
    assert ItemLinked(t, i);
    assert Coupled(t, t.items[i].order);
  }

  /** What has shipped of an item is what its shipped packages hold, never more than what is packed or ordered. */
  lemma PackagesAddUp(steps: seq<Step>, i: Id)
    requires i < |Run(EMPTY, steps).items|
    ensures var t := Run(EMPTY, steps);
      && i in t.reservations
      && 0 <= t.reservations[i].fulfilled == Departed(t.packages, i) <= Packaged(t.packages, i) <= t.items[i].quantity
  {
    InvAlways(steps);
    var t := Run(EMPTY, steps);
    assert ItemLinked(t, i);
    DepartedWithinPackaged(t, i);
  }

  // ----- shipping -----

  /** On every run, a shipment action is refused only for a shipment in the wrong status or a cancelled order. */
  lemma ShipmentsNeverJam(steps: seq<Step>, shop: Id, k: Id, m: Move)
    ensures var t := Run(EMPTY, steps); MoveTx(t, shop, k, m).Ok? <==> Movable(t, shop, k, m)
  {
    InvAlways(steps);
    ShippingNeverJams(Run(EMPTY, steps), shop, k, m);
  }

  /** A cancelled order stays cancelled and its shipments stay CREATED, whatever is asked of them. */
  lemma StrandedForGood(past: seq<Step>, future: seq<Step>, shop: Id, k: Id, m: Move)
    requires var t := Run(EMPTY, past);
      k < |t.shipments| && t.shipments[k].order < |t.orders| && t.orders[t.shipments[k].order].status == Cancelled
    ensures var u := Run(EMPTY, past + future);
      && k < |u.shipments| && u.shipments[k].status == ParcelCreated && MoveTx(u, shop, k, m).Err?
      && u.shipments[k].order < |u.orders| && u.orders[u.shipments[k].order].status == Cancelled
  {
    NothingUndone(past, future);
    var t, u := Run(EMPTY, past), Run(EMPTY, past + future);
    var o := t.shipments[k].order;
    assert ShipmentKept(t.shipments[k], u.shipments[k]) && OrderKept(t.orders[o], u.orders[o]);
    ShipmentsNeverJam(past + future, shop, k, m);
    StatusProjectsShipments(past + future, o);
  }

  lemma RestGetsShipment(t: Tables, shop: Id, o: Id)
    requires Inv(t) && Found(t, shop, o) && t.orders[o].status == ReadyToShip
    requires exists i: Id :: i < |t.items| && t.items[i].order == o && 0 < Remaining(t, i)
    ensures CreateShipmentTx(t, shop, o, None).Ok?
    ensures var u := CreateShipmentTx(t, shop, o, None).value;
      && u.shipments == t.shipments + [Shipment(o, |t.packages|, ParcelCreated)] && u.orders == t.orders && u.shops == t.shops
  {
    assert OrderLinked(t, o);
    var i: Id :| i < |t.items| && t.items[i].order == o && 0 < Remaining(t, i);
    assert i in RemainingLines(t, o);
  }

  lemma ReadyOrderCancels(t: Tables, shop: Id, o: Id)
    requires Inv(t) && Found(t, shop, o) && t.shops[shop] == TokopediaLike && t.orders[o].status == ReadyToShip
    ensures CancelTx(t, shop, o, Seller, OutOfStock).Ok?
    ensures Dropped(t, CancelTx(t, shop, o, Seller, OutOfStock).value, o, None)
  {
    CancelledTables(t, o, None, None);
  }

  /** For Tokopedia-like shops a ready order can be cancelled when it already has a shipment, which is then stranded. */
  lemma ReadyOrderCanStrand(t: Tables, shop: Id, o: Id)
    requires Inv(t) && Found(t, shop, o) && t.shops[shop] == TokopediaLike && t.orders[o].status == ReadyToShip
    requires exists i: Id :: i < |t.items| && t.items[i].order == o && 0 < Remaining(t, i)
    ensures var shipped := CreateShipmentTx(t, shop, o, None);
      && shipped.Ok? && |shipped.value.shipments| == |t.shipments| + 1
      && shipped.value.shipments[|t.shipments|] == Shipment(o, |t.packages|, ParcelCreated)
      && var cancelled := CancelTx(shipped.value, shop, o, Seller, OutOfStock);
      && cancelled.Ok? && cancelled.value.shipments == shipped.value.shipments && |cancelled.value.orders| == |t.orders|
      && cancelled.value.orders[o] == t.orders[o].(status := Cancelled) && cancelled.value.shops == t.shops
  {
    RestGetsShipment(t, shop, o);
    CreateShipmentKeepsInv(t, shop, o, None);
    ReadyOrderCancels(CreateShipmentTx(t, shop, o, None).value, shop, o);
  }

  /** The order status says exactly how far the order's shipments are. Before READY_TO_SHIP there are none; among the
      statuses of a finished order, DELIVERED and COMPLETED tell of a delivery and RETURNED of a return. */
  lemma StatusProjectsShipments(steps: seq<Step>, o: Id)
    requires o < |Run(EMPTY, steps).orders|
    ensures var t := Run(EMPTY, steps);
      var s, ss := t.orders[o].status, t.shipments;
      && (s in {Unpaid, Paid, Processing} ==> AllShipments(ss, o, {}))
      && (s in {Unpaid, Paid, Processing, ReadyToShip, Cancelled} <==> AllShipments(ss, o, {ParcelCreated}))
      && (s == Shipped <==> AllShipments(ss, o, {ParcelCreated, ParcelShipped}) && SomeShipment(ss, o, {ParcelShipped}))
      && (s == InDelivery <==> SomeShipment(ss, o, BEYOND_SHIPPED) && SomeShipment(ss, o, UNDERWAY))
      && (s in {Delivered, Completed, Returned} <==> AllShipments(ss, o, TERMINAL) && SomeShipment(ss, o, TERMINAL))
      && (s in {Delivered, Completed} ==> SomeShipment(ss, o, {ParcelDelivered}))
      && (s == Returned ==> SomeShipment(ss, o, {ParcelReturned}))
  {
    InvAlways(steps);
    var t := Run(EMPTY, steps);
    StatusProjects(t.orders[o].status, t.shipments, o) by { assert Coupled(t, o); }
  }

  lemma StatusProjects(s: OrderStatus, ss: seq<Shipment>, o: Id)
    requires ShipmentsFit(s, ss, o)
    ensures s in {Unpaid, Paid, Processing} ==> AllShipments(ss, o, {})
    ensures s in {Unpaid, Paid, Processing, ReadyToShip, Cancelled} <==> AllShipments(ss, o, {ParcelCreated})
    ensures s == Shipped <==> AllShipments(ss, o, {ParcelCreated, ParcelShipped}) && SomeShipment(ss, o, {ParcelShipped})
    ensures s == InDelivery <==> SomeShipment(ss, o, BEYOND_SHIPPED) && SomeShipment(ss, o, UNDERWAY)
    ensures s in {Delivered, Completed, Returned} <==> AllShipments(ss, o, TERMINAL) && SomeShipment(ss, o, TERMINAL)
    ensures s in {Delivered, Completed} ==> SomeShipment(ss, o, {ParcelDelivered})
    ensures s == Returned ==> SomeShipment(ss, o, {ParcelReturned})
  {}

  // ----- payment -----

  /** Payment leaves PENDING at most once, and its status and the order's agree. */
  lemma PaymentDecidedOnce(past: seq<Step>, future: seq<Step>, o: Id)
    requires o < |Run(EMPTY, past).orders|
    ensures var t, u := Run(EMPTY, past), Run(EMPTY, past + future);
      && o < |u.orders|
      && (t.orders[o].payment != PaymentPending ==> u.orders[o].payment == t.orders[o].payment)
      && (t.orders[o].payment in {PaymentFailed, PaymentExpired} ==> t.orders[o].status == Cancelled)
      && (t.orders[o].status !in {Unpaid, Cancelled} ==> t.orders[o].payment == PaymentPaid)
  {
    NothingUndone(past, future);
    InvAlways(past);
    assert OrderKept(Run(EMPTY, past).orders[o], Run(EMPTY, past + future).orders[o]);
    assert Coupled(Run(EMPTY, past), o);
  }

  /** At the very instant of expiry both payment and expiry are accepted; whichever commits first refuses the other. */
  lemma ExpiryInstant(steps: seq<Step>, shop: Id, o: Id, sla: int)
    requires var t := Run(EMPTY, steps); Found(t, shop, o) && t.orders[o].status == Unpaid && t.orders[o].expires.Some?
    ensures var t := Run(EMPTY, steps);
      var now := t.orders[o].expires.value;
      var paid, expired := TransitionTx(t, shop, o, Paid, now, sla), CancelOverdueTx(t, shop, o, PaymentRule, now);
      && paid.Ok? && CancelOverdueTx(paid.value, shop, o, PaymentRule, now) == Err(NotEligible)
      && expired.Ok? && TransitionTx(expired.value, shop, o, Paid, now, sla) == Err(Rejected)
  {
    InvAlways(steps);
    var t := Run(EMPTY, steps);
    assert Coupled(t, o);
    CancelKeepsInv(t, o, Some(PaymentExpired), Some(PaymentExpiredEvent(o)));
    CancelledTables(t, o, Some(PaymentExpired), Some(PaymentExpiredEvent(o)));
  }

  // ----- the event log -----

  function Depth(s: OrderStatus): nat {
    match s
    case Unpaid => 0
    case Paid => 1
    case Processing => 2
    case ReadyToShip => 3
    case Shipped => 4
    case InDelivery => 5
    case Delivered => 6
    case Completed => 7
    case Cancelled => 7
    case Returned => 7
  }

  /** A path through the transition table only goes deeper, so it visits no status twice. */
  lemma {:induction false} PathGoesDeeper(trail: seq<OrderStatus>, j: nat, k: nat)
    requires IsPath(trail) && j < k < |trail|
    ensures Depth(trail[j]) < Depth(trail[k])
    decreases k
  {
    assert CanTransition(trail[k - 1], trail[k]);
    if j < k - 1 { PathGoesDeeper(trail, j, k - 1); }
  }

  lemma {:induction false} EventOnTrail(es: seq<Event>, o: Id, k: nat) returns (at: nat)
    requires k < |es| && es[k].OrderStatusEvent? && es[k].order == o
    ensures at < |Trail(es, o)| && Trail(es, o)[at] == es[k].status
  {
    var m := |es| - 1;
    if k == m { at := |Trail(es[..m], o)|; } else { at := EventOnTrail(es[..m], o, k); }
  }

  lemma {:induction false} TwoEventsOnTrail(es: seq<Event>, o: Id, j: nat, k: nat) returns (a: nat, b: nat)
    requires j < k < |es| && es[j] == es[k] && es[k].OrderStatusEvent? && es[k].order == o
    ensures a < b < |Trail(es, o)| && Trail(es, o)[a] == Trail(es, o)[b] == es[k].status
  {
    var m := |es| - 1;
    if k == m {
      a := EventOnTrail(es[..m], o, j);
      b := |Trail(es[..m], o)|;
    } else {
      a, b := TwoEventsOnTrail(es[..m], o, j, k);
    }
  }

  /** Replaying an order's status events walks the transition table from UNPAID to the stored status; no status event
      (in particular no order.paid and no order.cancelled) is ever recorded twice; every event has one outbox row. */
  lemma EventLogTellsOrder(steps: seq<Step>, o: Id)
    requires o < |Run(EMPTY, steps).orders|
    ensures var t := Run(EMPTY, steps);
      var trail := Trail(t.events, o);
      && IsPath(trail) && trail[|trail| - 1] == t.orders[o].status
      && (forall j, k :: 0 <= j < k < |t.events| && t.events[j] == t.events[k] ==>
            !(t.events[k].OrderStatusEvent? && t.events[k].order == o))
      && t.outbox == seq(|t.events|, (k: int) => k)
  {
    InvAlways(steps);
    var t := Run(EMPTY, steps);
    forall j, k | 0 <= j < k < |t.events| && t.events[j] == t.events[k]
      ensures !(t.events[k].OrderStatusEvent? && t.events[k].order == o)
    {
      if t.events[k].OrderStatusEvent? && t.events[k].order == o {
        var a, b := TwoEventsOnTrail(t.events, o, j, k);
        PathGoesDeeper(Trail(t.events, o), a, b);
        assert false;
      }
    }
  }
}
