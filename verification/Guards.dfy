/** Four more facts that hold over every run: deleted products hold no stock, seller deadlines start at payment, physical
    counts never fall below what is reserved, and products need a warehouse with the default code. */
module Guards {
  import opened Schema
  import opened Sums
  import opened Inventory
  import opened Lifecycle
  import opened Fulfillment
  import opened Catalog
  import opened Invariants
  import opened LedgerProofs
  import opened OrderProofs
  import opened ShipmentProofs
  import opened CatalogProofs
  import opened System
  import opened History

  /** No open reservation is for a deleted product. */
  ghost predicate DeletedIdle(t: Tables) {
    forall i <- t.reservations ::
      var r := t.reservations[i];
      r.product < |t.products| && (t.products[r.product].status == ProductDeleted ==> !Open(r))
  }

  /** An unpaid order has no seller deadline. */
  predicate NoEarlyDeadline(t: Tables) {
    forall o: Id :: o < |t.orders| && t.orders[o].status == Unpaid ==> t.orders[o].sellerDeadline.None?
  }

  predicate SameProducts(t: Tables, u: Tables) {
    && |u.products| == |t.products|
    && forall p: Id :: p < |t.products| ==> u.products[p].status == t.products[p].status
  }

  predicate Unpaids(t: Tables, u: Tables) {
    forall o: Id :: o < |u.orders| && u.orders[o].status == Unpaid ==>
      if o < |t.orders| then t.orders[o].status == Unpaid && u.orders[o].sellerDeadline == t.orders[o].sellerDeadline
      else u.orders[o].sellerDeadline.None?
  }

  lemma CancelQuiet(t: Tables, o: Id, payment: Option<PaymentStatus>, cause: Option<Event>)
    requires Linked(t) && Ledger(t) && o < |t.orders|
    ensures CancelWith(t, o, payment, cause).Ok?
    ensures var u := CancelWith(t, o, payment, cause).value;
      SameProducts(t, u) && Unpaids(t, u) && u.reservations.Keys == t.reservations.Keys
  {
    CancelledTables(t, o, payment, cause);
  }

  lemma MoveQuiet(t: Tables, shop: Id, k: Id, m: Move)
    requires MoveTx(t, shop, k, m).Ok?
    ensures var u := MoveTx(t, shop, k, m).value;
      SameProducts(t, u) && Unpaids(t, u) && u.reservations.Keys == t.reservations.Keys
  {
    MovedTables(t, shop, k, m);
  }

  lemma AdvanceQuiet(t: Tables, shop: Id, o: Id, target: OrderStatus, clock: int, sla: int)
    requires TransitionTx(t, shop, o, target, clock, sla).Ok? && target != Unpaid
    ensures var u := TransitionTx(t, shop, o, target, clock, sla).value;
      SameProducts(t, u) && Unpaids(t, u) && u.reservations.Keys == t.reservations.Keys
  {}

  lemma PackQuiet(t: Tables, step: Step)
    requires (step.Claims? || step.CreatesPackage? || step.CreatesShipment?) && Apply(t, step).Ok?
    ensures var u := Apply(t, step).value; SameProducts(t, u) && Unpaids(t, u) && u.reservations.Keys == t.reservations.Keys
  {}

  lemma CatalogQuiet(t: Tables, step: Step)
    requires Inv(t) && Apply(t, step).Ok?
    requires step.SetsOnHand? || step.AddsShop? || step.AddsWarehouse? || step.EditsWarehouse?
    ensures var u := Apply(t, step).value; SameProducts(t, u) && Unpaids(t, u) && u.reservations.Keys == t.reservations.Keys
  {}

  lemma ExpireQuiet(t: Tables, shop: Id, o: Id, rule: Rule, clock: int)
    requires Inv(t) && CancelOverdueTx(t, shop, o, rule, clock).Ok?
    ensures var u := CancelOverdueTx(t, shop, o, rule, clock).value;
      SameProducts(t, u) && Unpaids(t, u) && u.reservations.Keys == t.reservations.Keys
  {
    match rule
    case PaymentRule => CancelQuiet(t, o, Some(PaymentExpired), Some(PaymentExpiredEvent(o)));
    case SellerRule => CancelQuiet(t, o, None, Some(SlaExpiredEvent(o)));
  }

  /** Steps that create no order and edit no product's status. */
  lemma QuietStep(t: Tables, step: Step)
    requires Inv(t) && Apply(t, step).Ok?
    requires !step.CreatesOrder? && !step.CreatesProduct? && !step.EditsProduct? && !step.Archives?
    ensures var u := Apply(t, step).value; SameProducts(t, u) && Unpaids(t, u) && u.reservations.Keys == t.reservations.Keys
  {
    match step
    case Cancels(shop, o, actor, reason) => CancelQuiet(t, o, None, None);
    case FailsPayment(shop, o) => CancelQuiet(t, o, Some(PaymentFailed), Some(PaymentFailedEvent(o)));
    case Expires(shop, o, rule, clock) => ExpireQuiet(t, shop, o, rule, clock);
    case MovesShipment(shop, k, move) => MoveQuiet(t, shop, k, move);
    case Advances(shop, o, target, clock, sla) => AdvanceQuiet(t, shop, o, target, clock, sla);
    case Claims(_, _) => PackQuiet(t, step);
    case CreatesPackage(_, _, _, _) => PackQuiet(t, step);
    case CreatesShipment(_, _, _) => PackQuiet(t, step);
    case _ => CatalogQuiet(t, step);
  }

  lemma CreateKeepsIdle(t: Tables, seen: seq<Product>, shop: Id, wants: seq<Want>, expires: int)
    requires Inv(t) && DeletedIdle(t) && NoEarlyDeadline(t) && CreateOrderTx(t, seen, shop, wants, expires).Ok?
    ensures var u := CreateOrderTx(t, seen, shop, wants, expires).value; DeletedIdle(u) && NoEarlyDeadline(u)
  {
    var u := CreateOrderTx(t, seen, shop, wants, expires).value;
    var home := CreatedTables(t, seen, shop, wants, expires);
    BookedKeepsIdle(t, u, home, wants);
  }

  lemma BookedKeepsIdle(t: Tables, u: Tables, home: Id, wants: seq<Want>)
    requires DeletedIdle(t) && NoEarlyDeadline(t) && |u.products| == |t.products|
    requires forall p: Id :: p < |t.products| ==> u.products[p].status == t.products[p].status
    requires |u.orders| == |t.orders| + 1 && u.orders[..|t.orders|] == t.orders && u.orders[|t.orders|].sellerDeadline.None?
    requires u.items == t.items + ItemsOf(|t.orders|, wants)
    requires u.reservations == Booked(t.reservations, |t.orders|, home, LinesOf(|t.items|, wants))
    requires forall i <- t.reservations :: i < |t.items|
    requires forall k :: 0 <= k < |wants| ==> OnSale(t.products, wants[k].product, 0)
    ensures DeletedIdle(u) && NoEarlyDeadline(u)
  {
    NewRows(t, u, home, wants);
    forall i <- u.reservations
      ensures u.reservations[i].product < |u.products|
        && (u.products[u.reservations[i].product].status == ProductDeleted ==> !Open(u.reservations[i]))
    {
      if i in t.reservations {
        assert u.reservations[i] == t.reservations[i];
      } else {
        assert OnSale(t.products, wants[i - |t.items|].product, 0);
      }
    }
    forall o: Id | o < |t.orders| ensures u.orders[o] == t.orders[o] { assert u.orders[..|t.orders|][o] == u.orders[o]; }
  }

  lemma QuietKeepsIdle(t: Tables, u: Tables)
    requires Inv(t) && DeletedIdle(t) && NoEarlyDeadline(t) && Progress(t, u)
    requires SameProducts(t, u) && Unpaids(t, u) && u.reservations.Keys == t.reservations.Keys
    ensures DeletedIdle(u) && NoEarlyDeadline(u)
  {}

  lemma ProductKeepsIdle(t: Tables, step: Step)
    requires Inv(t) && DeletedIdle(t) && NoEarlyDeadline(t) && Apply(t, step).Ok?
    requires step.CreatesProduct? || step.EditsProduct? || step.Archives?
    ensures var u := Apply(t, step).value; DeletedIdle(u) && NoEarlyDeadline(u)
  {
    match step
    case CreatesProduct(shop, stock, status, allocations) => NewProductKeepsIdle(t, shop, stock, status, allocations);
    case EditsProduct(shop, p, status) => EditKeepsIdle(t, shop, p, status);
    case Archives(shop, p) => ArchiveKeepsIdle(t, shop, p);
  }

  lemma EditKeepsIdle(t: Tables, shop: Id, p: Id, status: ProductStatus)
    requires DeletedIdle(t) && NoEarlyDeadline(t) && EditProductTx(t, shop, p, status).Ok?
    ensures var u := EditProductTx(t, shop, p, status).value; DeletedIdle(u) && NoEarlyDeadline(u)
  {}

  lemma ArchiveKeepsIdle(t: Tables, shop: Id, p: Id)
    requires DeletedIdle(t) && NoEarlyDeadline(t) && ArchiveTx(t, shop, p).Ok?
    ensures var u := ArchiveTx(t, shop, p).value; DeletedIdle(u) && NoEarlyDeadline(u)
  {}

  lemma NewProductKeepsIdle(t: Tables, shop: Id, stock: int, status: ProductStatus, allocations: seq<InitialInventory>)
    requires DeletedIdle(t) && NoEarlyDeadline(t) && CreateProductTx(t, shop, stock, status, allocations).Ok?
    ensures var u := CreateProductTx(t, shop, stock, status, allocations).value; DeletedIdle(u) && NoEarlyDeadline(u)
  {
    AcceptedRows(t, shop, stock, status, allocations);
  }

  lemma StepKeepsIdle(t: Tables, step: Step)
    requires Inv(t) && DeletedIdle(t) && NoEarlyDeadline(t)
    ensures DeletedIdle(Next(t, step)) && NoEarlyDeadline(Next(t, step))
  {
    if Apply(t, step).Ok? {
      if step.CreatesOrder? {
        CreateKeepsIdle(t, step.seen, step.shop, step.wants, step.expires);
      } else if step.CreatesProduct? || step.EditsProduct? || step.Archives? {
        ProductKeepsIdle(t, step);
      } else {
        QuietStep(t, step);
        StepProgress(t, step);
        QuietKeepsIdle(t, Next(t, step));
      }
    }
  }

  lemma {:induction false} IdleAlways(steps: seq<Step>)
    ensures DeletedIdle(Run(EMPTY, steps)) && NoEarlyDeadline(Run(EMPTY, steps))
  {
    if steps == [] {
    } else {
      IdleAlways(steps[..|steps| - 1]);
      InvAlways(steps[..|steps| - 1]);
      StepKeepsIdle(Run(EMPTY, steps[..|steps| - 1]), steps[|steps| - 1]);
    }
  }

  /** Archiving is refused exactly while the product is reserved, so a deleted product never holds stock for anyone. */
  lemma DeletedProductsHoldNothing(steps: seq<Step>, shop: Id, p: Id, w: Id)
    ensures var t := Run(EMPTY, steps);
      && (p < |t.products| && t.products[p].status == ProductDeleted ==> ReservedAt(t.stock, w, p) == 0)
      && (ArchiveTx(t, shop, p).Ok? ==> ReservedAt(t.stock, w, p) == 0)
      && (LiveProduct(t, shop, p) && ArchiveTx(t, shop, p).Err? ==>
            exists i <- t.reservations :: t.reservations[i].product == p && Open(t.reservations[i]))
  {
    IdleAlways(steps);
    InvAlways(steps);
    var t := Run(EMPTY, steps);
    assert ReservedAt(t.stock, w, p) == Held(t.reservations, |t.items|, w, p);
    if forall i <- t.reservations :: t.reservations[i].product == p ==> !Open(t.reservations[i]) {
      NothingHeld(t.reservations, |t.items|, w, p);
    }
  }

  lemma {:induction false} NothingHeld(rs: map<Id, Reservation>, n: nat, w: Id, p: Id)
    requires forall i <- rs :: rs[i].product == p ==> !Open(rs[i])
    ensures Held(rs, n, w, p) == 0
  {
    if n == 0 {
    } else {
      NothingHeld(rs, n - 1, w, p);
    }
  }

  /** In any state with the invariant, a just paid order can be cancelled for its deadline exactly when that has passed. */
  lemma PaidOrderDeadline(t: Tables, u: Tables, shop: Id, o: Id, clock: int, sla: int, now: int)
    requires Inv(u) && NoEarlyDeadline(t) && TransitionTx(t, shop, o, Paid, clock, sla) == Ok(u)
    ensures CancelOverdueTx(u, shop, o, SellerRule, now).Ok? <==> t.shops[shop] == ShopeeLike && 0 < sla && clock + sla <= now
  {
    assert u.orders[o] == Updated(t.orders[o], t.shops[shop], Paid, None, clock, sla) && Found(u, shop, o);
    CancelSucceeds(u, o, None, Some(SlaExpiredEvent(o)));
  }

  /** The seller's deadline runs from payment, for Shopee-like shops with a limit: from that instant on, and only then,
      the worker may cancel the paid order. */
  lemma PaymentStartsDeadline(steps: seq<Step>, shop: Id, o: Id, clock: int, sla: int, now: int)
    requires TransitionTx(Run(EMPTY, steps), shop, o, Paid, clock, sla).Ok?
    ensures var t := Run(EMPTY, steps);
      var paid := TransitionTx(t, shop, o, Paid, clock, sla).value;
      CancelOverdueTx(paid, shop, o, SellerRule, now).Ok? <==> t.shops[shop] == ShopeeLike && 0 < sla && clock + sla <= now
  {
    IdleAlways(steps);
    InvAlways(steps);
    var t := Run(EMPTY, steps);
    AdvanceKeepsInv(t, shop, o, Paid, clock, sla);
    PaidOrderDeadline(t, TransitionTx(t, shop, o, Paid, clock, sla).value, shop, o, clock, sla, now);
  }

  // ----- physical counts -----

  /** A physical count is refused exactly when it is below what open reservations hold in that warehouse (or names rows
      that are not there); an accepted one is the new count, and the product's stock follows it. */
  lemma CountRefusedExactly(steps: seq<Step>, w: Id, p: Id, onHand: int)
    ensures var t, r := Run(EMPTY, steps), SetOnHandTx(Run(EMPTY, steps), w, p, onHand);
      && (r.Ok? <==>
            && w < |t.warehouses| && p < |t.products| && t.warehouses[w].shop == t.products[p].shop
            && Held(t.reservations, |t.items|, w, p) <= onHand)
      && (r.Ok? ==>
            && (w, p) in r.value.stock && r.value.stock[(w, p)].onHand == onHand
            && r.value.products[p].stock == Available(r.value.stock, |t.warehouses|, p))
  {
    InvAlways(steps);
    CountRefused(Run(EMPTY, steps), w, p, onHand);
  }

  lemma CountRefused(t: Tables, w: Id, p: Id, onHand: int)
    requires Linked(t) && Ledger(t)
    ensures var r := SetOnHandTx(t, w, p, onHand);
      && (r.Ok? <==>
            && w < |t.warehouses| && p < |t.products| && t.warehouses[w].shop == t.products[p].shop
            && Held(t.reservations, |t.items|, w, p) <= onHand)
      && (r.Ok? ==>
            && (w, p) in r.value.stock && r.value.stock[(w, p)].onHand == onHand
            && r.value.products[p].stock == Available(r.value.stock, |t.warehouses|, p))
  {
    assert ReservedAt(t.stock, w, p) == Held(t.reservations, |t.items|, w, p);
    HeldNonNegative(t, w, p);
    SumPrefix(0, |t.items|, HeldFn(t.reservations, w, p));
    if SetOnHandTx(t, w, p, onHand).Ok? { SetOnHandKeepsLedger(t, w, p, onHand, SetOnHandTx(t, w, p, onHand).value); }
  }

  // ----- the default warehouse -----

  /** A product without allocations is refused exactly when no warehouse of its shop carries the default code any more:
      the shop's own default warehouse then still holds the primary key that the insert wants. Otherwise all its stock is
      in the warehouse with that code. */
  lemma DefaultWarehouseExactly(steps: seq<Step>, shop: Id, stock: nat, status: ProductStatus)
    requires shop < |Run(EMPTY, steps).shops| && status != ProductDeleted
    ensures var t, r := Run(EMPTY, steps), CreateProductTx(Run(EMPTY, steps), shop, stock, status, []);
      && (r == Err(Constraint) <==>
            forall w: Id :: w < |t.warehouses| && t.warehouses[w].shop == shop ==> t.warehouses[w].code != DEFAULT_CODE)
      && (r.Ok? <==> r != Err(Constraint))
      && (r.Ok? ==> r.value.warehouses == t.warehouses && StockedAtDefault(t, r.value, shop, stock))
  {
    NothingUndone([], steps);
    assert [] + steps == steps;
    DefaultWarehouse(Run(EMPTY, steps), shop, stock, status);
  }

  lemma DefaultWarehouse(t: Tables, shop: Id, stock: nat, status: ProductStatus)
    requires shop < |t.shops| && status != ProductDeleted && HasOrigin(t.warehouses, shop)
    ensures var r := CreateProductTx(t, shop, stock, status, []);
      && (r == Err(Constraint) <==> FindDefault(t.warehouses, shop, |t.warehouses|).None?)
      && (r.Ok? <==> r != Err(Constraint))
      && (r.Ok? ==> r.value.warehouses == t.warehouses && StockedAtDefault(t, r.value, shop, stock))
  {
    if CreateProductTx(t, shop, stock, status, []).Ok? {
      var home := FindDefault(t.warehouses, shop, |t.warehouses|).value;
      var rows := [InitialInventory(home, stock)];
      assert rows[..0] == [] && StockedRows(t.stock, |t.products|, rows) == t.stock[(home, |t.products|) := Stock(stock, 0)];
      assert StockedAt(t, CreateProductTx(t, shop, stock, status, []).value, home, stock);
    }
  }

  predicate StockedAt(t: Tables, u: Tables, home: Id, stock: int) { u.stock == t.stock[(home, |t.products|) := Stock(stock, 0)] }

  /** All of the new product's stock is in the warehouse of its shop that carries the default code. */
  predicate StockedAtDefault(t: Tables, u: Tables, shop: Id, stock: int) {
    exists home: Id ::
      && home < |t.warehouses| && t.warehouses[home].shop == shop && t.warehouses[home].code == DEFAULT_CODE
      && StockedAt(t, u, home, stock)
  }

  /** Recoding the default warehouse of a new shop is accepted, and blocks the next product. */
  lemma RecodingBlocksProducts()
    ensures var t := Run(EMPTY, [AddsShop(ShopeeLike), EditsWarehouse(0, DEFAULT_CODE + 1, 0, true)]);
      CreateProductTx(t, 0, 1, ProductActive, []) == Err(Constraint)
  {
    var a, b := AddsShop(ShopeeLike), EditsWarehouse(0, DEFAULT_CODE + 1, 0, true);
    RunStep([], a);
    RunStep([a], b);
    assert [a] + [b] == [a, b] && [] + [a] == [a];
    RecodedIsBlocked();
  }

  lemma RecodedIsBlocked()
    ensures var r := EditWarehouseTx(AddShop(EMPTY, ShopeeLike), 0, DEFAULT_CODE + 1, 0, true);
      r.Ok? && CreateProductTx(r.value, 0, 1, ProductActive, []) == Err(Constraint)
  {
    EmptyInv();
    AddShopKeepsInv(EMPTY, ShopeeLike);
    var u := EditWarehouseTx(AddShop(EMPTY, ShopeeLike), 0, DEFAULT_CODE + 1, 0, true).value;
    assert u.warehouses == [Warehouse(0, DEFAULT_CODE + 1, 0, true, true)] && u.warehouses[0].origin;
  }
}
