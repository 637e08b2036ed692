/** Creating, advancing and cancelling an order keeps the invariant. */
module OrderProofs {
  import opened Schema
  import opened Sums
  import opened Inventory
  import opened Lifecycle
  import opened Fulfillment
  import opened Invariants
  import opened LedgerProofs

  // ----- the event log -----

  lemma RecordTrail(t: Tables, e: Event, o: Id)
    ensures Trail(Record(t, e).events, o)
      == Trail(t.events, o) + if e.OrderStatusEvent? && e.order == o then [e.status] else []
  {}

  lemma {:induction false} TrailOfUnknown(es: seq<Event>, o: Id)
    requires forall k :: 0 <= k < |es| && es[k].OrderStatusEvent? ==> es[k].order != o
    ensures Trail(es, o) == []
  {
    if es == [] {
    } else {
      TrailOfUnknown(es[..|es| - 1], o);
    }
  }

  /** Recording an event that carries no order status. */
  lemma RecordKeepsLogged(t: Tables, e: Event)
    requires Logged(t) && !e.OrderStatusEvent?
    ensures Logged(Record(t, e))
  {}

  /** A legal status change together with its event. */
  lemma StatusKeepsLogged(t: Tables, u: Tables, o: Id, order: Order)
    requires Logged(t) && o < |t.orders| && CanTransition(t.orders[o].status, order.status)
    requires u.orders == t.orders[o := order]
    requires u.events == t.events + [OrderStatusEvent(o, order.status)] && u.outbox == t.outbox + [|t.events|]
    ensures Logged(u)
  {}

  // ----- advancing -----

  predicate Advances(target: OrderStatus) { target in {Paid, Processing, ReadyToShip, Completed} }

  lemma AdvanceCoupled(t: Tables, o: Id, target: OrderStatus, clock: int, sla: int, q: Id)
    requires o < |t.orders| && t.orders[o].shop < |t.shops| && q < |t.orders| && Coupled(t, q)
    requires CanTransition(t.orders[o].status, target) && Advances(target)
    requires Linked(t)
    ensures Coupled(Advanced(t, o, target, clock, sla), q)
  {}

  lemma AdvanceKeepsInv(t: Tables, shop: Id, o: Id, target: OrderStatus, clock: int, sla: int)
    requires Inv(t) && Advances(target) && TransitionTx(t, shop, o, target, clock, sla).Ok?
    ensures Inv(TransitionTx(t, shop, o, target, clock, sla).value)
  {
    var u := Advanced(t, o, target, clock, sla);
    assert OrderLinked(t, o);
    StatusKeepsLogged(t, u, o, u.orders[o]);
    AdvanceKeepsLedger(t, o, target, clock, sla);
    forall q: Id | q < |u.orders| ensures Coupled(u, q) { AdvanceCoupled(t, o, target, clock, sla, q); }
  }

  lemma AdvanceKeepsLedger(t: Tables, o: Id, target: OrderStatus, clock: int, sla: int)
    requires Linked(t) && Ledger(t) && Quantities(t) && o < |t.orders| && t.orders[o].shop < |t.shops|
    ensures var u := Advanced(t, o, target, clock, sla); Linked(u) && Ledger(u) && Quantities(u)
  {
    var u := Advanced(t, o, target, clock, sla);
    RowsKeepLinked(t, u);
    forall w: Id, p: Id ensures ReservedAt(u.stock, w, p) == Held(u.reservations, |u.items|, w, p) {
      CommitHeld(t.reservations, |t.items|, o, w, p);
      assert ReservedAt(t.stock, w, p) == Held(t.reservations, |t.items|, w, p);
    }
  }

  /** What an accepted transition gives its caller: exactly one more status on the order's trail and no other trail
      touched, a payment made in time, decided by paying and by nothing else, the order's reservations committed and
      unshipped until it leaves, and no stock figure or other order changed. */
  lemma AdvanceEffect(t: Tables, shop: Id, o: Id, target: OrderStatus, clock: int, sla: int)
    requires Inv(t) && Advances(target) && TransitionTx(t, shop, o, target, clock, sla).Ok?
    ensures var u := TransitionTx(t, shop, o, target, clock, sla).value;
      && (forall q: Id :: Trail(u.events, q) == Trail(t.events, q) + if q == o then [target] else [])
      && (target == Paid && t.orders[o].expires.Some? ==> clock <= t.orders[o].expires.value)
      && t.orders[o].payment == (if target == Paid then PaymentPending else PaymentPaid) && u.orders[o].payment == PaymentPaid
      && (target != Completed ==> forall i <- u.reservations ::
            u.reservations[i].order == o ==> u.reservations[i].status == Committed && u.reservations[i].fulfilled == 0)
      && u.stock == t.stock && u.products == t.products
      && (forall w: Id, p: Id :: Held(u.reservations, |u.items|, w, p) == Held(t.reservations, |t.items|, w, p))
      && forall q: Id :: q < |t.orders| && q != o ==> u.orders[q] == t.orders[q]
  {
    var u := TransitionTx(t, shop, o, target, clock, sla).value;
    AdvanceKeepsInv(t, shop, o, target, clock, sla);
    assert Coupled(t, o) && Coupled(u, o);
    forall q: Id ensures Trail(u.events, q) == Trail(t.events, q) + if q == o then [target] else [] {
      RecordTrail(t, OrderStatusEvent(o, target), q);
    }
    forall w: Id, p: Id ensures Held(u.reservations, |u.items|, w, p) == Held(t.reservations, |t.items|, w, p) {
      CommitHeld(t.reservations, |t.items|, o, w, p);
    }
  }

  /** References survive any change of statuses and stock figures that keeps identities and quantities. */
  lemma RowsKeepLinked(t: Tables, u: Tables)
    requires Linked(t)
    requires u.shops == t.shops && u.warehouses == t.warehouses && u.items == t.items
    requires u.packages == t.packages && u.shipments == t.shipments
    requires |u.products| == |t.products| && forall p: Id :: p < |t.products| ==> u.products[p].shop == t.products[p].shop
    requires u.stock.Keys == t.stock.Keys && u.reservations.Keys == t.reservations.Keys
    requires |u.orders| == |t.orders|
    requires forall o: Id :: o < |t.orders| ==>
      u.orders[o].shop == t.orders[o].shop && u.orders[o].warehouse == t.orders[o].warehouse
    requires forall i <- t.reservations ::
      u.reservations[i] == t.reservations[i].(status := u.reservations[i].status)
    ensures Linked(u)
  {
    forall o: Id | o < |u.orders| ensures OrderLinked(u, o) { assert OrderLinked(t, o); }
    forall i: Id | i < |u.items| ensures ItemLinked(u, i) { assert ItemLinked(t, i); }
    forall k: Id | k < |u.packages| ensures PackageLinked(u, k) { assert PackageLinked(t, k); }
    forall k: Id | k < |u.shipments| ensures ShipmentLinked(u, k) { assert ShipmentLinked(t, k); }
  }

  // ----- cancelling -----

  /** A cancellation in a consistent state always succeeds. */
  lemma CancelSucceeds(t: Tables, o: Id, payment: Option<PaymentStatus>, cause: Option<Event>)
    requires Inv(t) && o < |t.orders|
    ensures CancelWith(t, o, payment, cause).Ok?
  {
    var order := t.orders[o].(status := Cancelled, payment := if payment.Some? then payment.value else t.orders[o].payment);
    var b := WithOrder(t, o, order);
    RowsKeepLinked(t, b);
    CanAlwaysRelease(b, o);
  }

  function CancelledOrder(order: Order, payment: Option<PaymentStatus>): Order {
    order.(status := Cancelled, payment := if payment.Some? then payment.value else order.payment)
  }

  /** What a cancellation changes, apart from stock figures and the log. */
  predicate Dropped(t: Tables, u: Tables, o: Id, payment: Option<PaymentStatus>)
    requires o < |t.orders|
  {
    && u.orders == t.orders[o := CancelledOrder(t.orders[o], payment)]
    && u.reservations == ReleasedRows(t.reservations, o) && u.shipments == t.shipments && u.packages == t.packages
    && u.shops == t.shops && u.warehouses == t.warehouses && u.items == t.items
    && |u.products| == |t.products|
    && (forall p: Id :: p < |t.products| ==> u.products[p] == t.products[p].(stock := u.products[p].stock))
    && u.stock.Keys == t.stock.Keys && (forall c <- t.stock :: u.stock[c].onHand == t.stock[c].onHand)
  }

  /** A cancellation goes through, changes just that, and leaves the ledgers in agreement. */
  lemma CancelledTables(t: Tables, o: Id, payment: Option<PaymentStatus>, cause: Option<Event>)
    requires Linked(t) && Ledger(t) && o < |t.orders|
    ensures CancelWith(t, o, payment, cause).Ok?
    ensures var u := CancelWith(t, o, payment, cause).value; Ledger(u) && Dropped(t, u, o, payment)
  {
    var b := WithOrder(t, o, CancelledOrder(t.orders[o], payment));
    RowsKeepLinked(t, b);
    ReleaseKeepsLedger(b, o);
  }

  lemma CancelCoupled(t: Tables, u: Tables, o: Id, payment: Option<PaymentStatus>, q: Id)
    requires o < |t.orders| && CanTransition(t.orders[o].status, Cancelled) && q < |t.orders| && Coupled(t, q)
    requires Dropped(t, u, o, payment)
    ensures Coupled(u, q)
  {}

  lemma DroppedKeepsRest(t: Tables, u: Tables, o: Id, payment: Option<PaymentStatus>)
    requires Inv(t) && o < |t.orders| && CanTransition(t.orders[o].status, Cancelled) && Dropped(t, u, o, payment)
    ensures Linked(u) && Quantities(u) && UniqueCodes(u) && forall q: Id :: q < |u.orders| ==> Coupled(u, q)
  {
    RowsKeepLinked(t, u);
    forall q: Id | q < |u.orders| ensures Coupled(u, q) { CancelCoupled(t, u, o, payment, q); }
  }

  /** A cancellation records its cause, if any, and then itself. */
  lemma CancelTrail(t: Tables, o: Id, payment: Option<PaymentStatus>, cause: Option<Event>, q: Id)
    requires o < |t.orders| && CancelWith(t, o, payment, cause).Ok?
    requires cause.Some? ==> !cause.value.OrderStatusEvent?
    ensures Trail(CancelWith(t, o, payment, cause).value.events, q) == Trail(t.events, q) + if q == o then [Cancelled] else []
  {}

  lemma CancelLogged(t: Tables, o: Id, payment: Option<PaymentStatus>, cause: Option<Event>)
    requires Logged(t) && o < |t.orders| && CanTransition(t.orders[o].status, Cancelled)
    requires CancelWith(t, o, payment, cause).Ok? && (cause.Some? ==> !cause.value.OrderStatusEvent?)
    ensures Logged(CancelWith(t, o, payment, cause).value)
  {
    var caused := if cause.Some? then Record(t, cause.value) else t;
    if cause.Some? { RecordKeepsLogged(t, cause.value); }
    StatusKeepsLogged(caused, CancelWith(t, o, payment, cause).value, o, CancelledOrder(t.orders[o], payment));
  }

  lemma CancelKeepsInv(t: Tables, o: Id, payment: Option<PaymentStatus>, cause: Option<Event>)
    requires Inv(t) && o < |t.orders| && CanTransition(t.orders[o].status, Cancelled)
    requires cause.Some? ==> !cause.value.OrderStatusEvent?
    ensures CancelWith(t, o, payment, cause).Ok? && Inv(CancelWith(t, o, payment, cause).value)
  {
    CancelledTables(t, o, payment, cause);
    var u := CancelWith(t, o, payment, cause).value;
    CancelLogged(t, o, payment, cause);
    DroppedKeepsRest(t, u, o, payment);
  }

  lemma ClaimKeepsInv(t: Tables, o: Id, until: int)
    requires Inv(t) && o < |t.orders|
    ensures Inv(Claimed(t, o, until))
  {
    var u := Claimed(t, o, until);
    RowsKeepLinked(t, u);
    forall q: Id | q < |u.orders| ensures Coupled(u, q) { assert Coupled(t, q) && ReservationsFit(u, q); }
    forall w: Id, p: Id ensures ReservedAt(u.stock, w, p) == Held(u.reservations, |u.items|, w, p) {
      assert ReservedAt(t.stock, w, p) == Held(t.reservations, |t.items|, w, p);
    }
  }

  // ----- creating -----

  /** The tables a successful order creation leaves, by what it reserved and where. */
  lemma CreatedTables(t: Tables, seen: seq<Product>, shop: Id, wants: seq<Want>, expires: int) returns (home: Id)
    requires CreateOrderTx(t, seen, shop, wants, expires).Ok?
    ensures var u, o, lines := CreateOrderTx(t, seen, shop, wants, expires).value, |t.orders|, LinesOf(|t.items|, wants);
      && home < |t.warehouses| && shop < |t.shops| && ValidLines(lines) && Covers(t.stock, lines, home)
      && u.shops == t.shops && u.warehouses == t.warehouses && u.packages == t.packages && u.shipments == t.shipments
      && u.orders == t.orders + [Order(shop, Unpaid, PaymentPending, Some(expires), None, Some(home), None)]
      && u.items == t.items + ItemsOf(o, wants)
      && u.reservations == Booked(t.reservations, o, home, lines)
      && u.stock == ReserveAt(t.stock, home, lines, |lines|) && u.products == TakeStock(t.products, lines, |lines|)
      && u.events == t.events + [OrderStatusEvent(o, Unpaid)] && u.outbox == t.outbox + [|t.events|]
      && (forall k :: 0 <= k < |wants| ==> OnSale(t.products, wants[k].product, 0) && 0 < wants[k].quantity)
  {
    var d, lines := Drafted(t, shop, wants, expires), LinesOf(|t.items|, wants);
    ChoosesBestWarehouse(d, shop, lines);
    home := Choose(d, shop, lines).value;
    assert lines[..|lines|] == lines;
    forall k | 0 <= k < |wants| ensures OnSale(t.products, wants[k].product, 0) && 0 < wants[k].quantity {
      assert lines[k].product == wants[k].product && OnSale(d.products, lines[k].product, Need(lines, lines[k].product));
      SumPrefix(0, |lines|, NeedFn(lines, lines[k].product));
    }
  }

  /** The rows that booking adds; all others stay. */
  lemma NewRows(t: Tables, u: Tables, home: Id, wants: seq<Want>)
    requires forall i <- t.reservations :: i < |t.items|
    requires u.items == t.items + ItemsOf(|t.orders|, wants)
    requires u.reservations == Booked(t.reservations, |t.orders|, home, LinesOf(|t.items|, wants))
    ensures forall i: Id :: i in u.reservations <==> i in t.reservations || |t.items| <= i < |u.items|
    ensures forall i <- t.reservations :: u.reservations[i] == t.reservations[i]
    ensures forall i: Id :: |t.items| <= i < |u.items| ==>
      u.reservations[i] == Reservation(|t.orders|, u.items[i].product, home, u.items[i].quantity, 0, Active)
  {
    var lines := LinesOf(|t.items|, wants);
    assert lines[..|wants|] == lines;
    BookedRows(t.reservations, |t.orders|, home, |t.items|, wants, |wants|);
  }

  lemma CreateLinked(t: Tables, seen: seq<Product>, shop: Id, wants: seq<Want>, expires: int)
    requires Linked(t) && CreateOrderTx(t, seen, shop, wants, expires).Ok?
    ensures Linked(CreateOrderTx(t, seen, shop, wants, expires).value)
  {
    var home := CreatedTables(t, seen, shop, wants, expires);
    var u := CreateOrderTx(t, seen, shop, wants, expires).value;
    NewRows(t, u, home, wants);
    NewRowsLinked(t, u, home, shop);
  }

  lemma NewRowsLinked(t: Tables, u: Tables, home: Id, shop: Id)
    requires Linked(t) && home < |t.warehouses| && shop < |t.shops|
    requires u.shops == t.shops && u.warehouses == t.warehouses && u.packages == t.packages && u.shipments == t.shipments
    requires u.stock.Keys == t.stock.Keys
    requires |u.products| == |t.products| && forall p: Id :: p < |t.products| ==> u.products[p].shop == t.products[p].shop
    requires |u.orders| == |t.orders| + 1 && u.orders[..|t.orders|] == t.orders
    requires u.orders[|t.orders|].shop == shop && u.orders[|t.orders|].warehouse == Some(home)
    requires |t.items| <= |u.items| && u.items[..|t.items|] == t.items
    requires forall i: Id :: i in u.reservations <==> i in t.reservations || |t.items| <= i < |u.items|
    requires forall i <- t.reservations :: u.reservations[i] == t.reservations[i]
    requires forall i: Id :: |t.items| <= i < |u.items| ==>
      u.items[i].order == |t.orders| && u.items[i].product < |t.products| && 0 < u.items[i].quantity
      && u.reservations[i] == Reservation(|t.orders|, u.items[i].product, home, u.items[i].quantity, 0, Active)
    ensures Linked(u)
  {
    forall o: Id | o < |u.orders| ensures OrderLinked(u, o) {
      if o < |t.orders| { assert OrderLinked(t, o) && u.orders[..|t.orders|][o] == u.orders[o]; }
    }
    forall i: Id | i < |t.items| ensures u.items[i] == t.items[i] { assert u.items[..|t.items|][i] == u.items[i]; }
    forall i: Id | i < |u.items| ensures ItemLinked(u, i) {
      if i < |t.items| {
        assert ItemLinked(t, i);
        assert u.orders[..|t.orders|][t.items[i].order] == u.orders[t.items[i].order];
      }
    }
    forall k: Id | k < |u.packages| ensures PackageLinked(u, k) { assert PackageLinked(t, k); }
    forall k: Id | k < |u.shipments| ensures ShipmentLinked(u, k) { assert ShipmentLinked(t, k); }
  }

  lemma CreateQuantities(t: Tables, seen: seq<Product>, shop: Id, wants: seq<Want>, expires: int)
    requires Linked(t) && Quantities(t) && CreateOrderTx(t, seen, shop, wants, expires).Ok?
    ensures Quantities(CreateOrderTx(t, seen, shop, wants, expires).value)
  {
    var home := CreatedTables(t, seen, shop, wants, expires);
    var u := CreateOrderTx(t, seen, shop, wants, expires).value;
    NewRowsQuantities(t, u, home, wants);
  }

  lemma NewRowsQuantities(t: Tables, u: Tables, home: Id, wants: seq<Want>)
    requires Linked(t) && Quantities(t) && u.packages == t.packages && forall k :: 0 <= k < |wants| ==> 0 < wants[k].quantity
    requires u.items == t.items + ItemsOf(|t.orders|, wants)
    requires u.reservations == Booked(t.reservations, |t.orders|, home, LinesOf(|t.items|, wants))
    ensures Quantities(u)
  {
    NewRows(t, u, home, wants);
    forall i: Id | i < |u.items| && i in u.reservations
      ensures u.reservations[i].fulfilled == Departed(u.packages, i) && Packaged(u.packages, i) <= u.items[i].quantity
    {
      if i < |t.items| {
        assert ItemLinked(t, i);
      } else {
        UnpackedItem(t, i);
      }
    }
  }

  /** An item that no row refers to yet is in no package. */
  lemma UnpackedItem(t: Tables, i: Id)
    requires Linked(t) && |t.items| <= i
    ensures Packaged(t.packages, i) == 0 && Departed(t.packages, i) == 0
  {
    forall k: nat ensures PackagedTerm(t.packages, i, k) == 0 && DepartedTerm(t.packages, i, k) == 0 {
      if k < |t.packages| { assert PackageLinked(t, k); }
    }
    SumZero(|t.packages|, PackagedFn(t.packages, i));
    SumZero(|t.packages|, DepartedFn(t.packages, i));
  }

  lemma CreateCoupled(t: Tables, seen: seq<Product>, shop: Id, wants: seq<Want>, expires: int, q: Id)
    requires Linked(t) && CreateOrderTx(t, seen, shop, wants, expires).Ok? && q <= |t.orders|
    requires q < |t.orders| ==> Coupled(t, q)
    ensures Coupled(CreateOrderTx(t, seen, shop, wants, expires).value, q)
  {
    var home := CreatedTables(t, seen, shop, wants, expires);
    var u, n := CreateOrderTx(t, seen, shop, wants, expires).value, |t.items|;
    NewRows(t, u, home, wants);
    forall i: Id | i in u.reservations && u.reservations[i].order == q
      ensures ReservationFits(u.orders[q].status, u.reservations[i])
    {
      if i < n { assert ItemLinked(t, i); }
    }
    forall k: Id | k < |t.shipments| ensures t.shipments[k].order < |t.orders| { assert ShipmentLinked(t, k); }
  }

  lemma CreateLogged(t: Tables, u: Tables, order: Order)
    requires Logged(t) && u.orders == t.orders + [order] && order.status == Unpaid
    requires u.events == t.events + [OrderStatusEvent(|t.orders|, Unpaid)] && u.outbox == t.outbox + [|t.events|]
    ensures Logged(u)
  {
    forall q: Id | q < |u.orders|
      ensures IsPath(Trail(u.events, q)) && Trail(u.events, q)[|Trail(u.events, q)| - 1] == u.orders[q].status
    {
      RecordTrail(t, OrderStatusEvent(|t.orders|, Unpaid), q);
      if q == |t.orders| { TrailOfUnknown(t.events, q); }
    }
  }

  lemma CreateKeepsInv(t: Tables, seen: seq<Product>, shop: Id, wants: seq<Want>, expires: int)
    requires Inv(t) && CreateOrderTx(t, seen, shop, wants, expires).Ok?
    ensures Inv(CreateOrderTx(t, seen, shop, wants, expires).value)
  {
    var home := CreatedTables(t, seen, shop, wants, expires);
    var u := CreateOrderTx(t, seen, shop, wants, expires).value;
    CreateLinked(t, seen, shop, wants, expires);
    ReserveKeepsLedger(t, |t.orders|, home, wants, u);
    CreateQuantities(t, seen, shop, wants, expires);
    CreateLogged(t, u, u.orders[|t.orders|]);
    forall q: Id | q < |u.orders| ensures Coupled(u, q) { CreateCoupled(t, seen, shop, wants, expires, q); }
  }
}
