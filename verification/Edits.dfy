/** Which edits of warehouses and products are accepted, and what they leave behind, told by the columns of the rows. */
module Edits {
  import opened Schema
  import opened Sums
  import opened Inventory
  import opened Invariants
  import opened Catalog
  import opened LedgerProofs
  import opened CatalogProofs
  import opened System
  import opened Guards

  /** A warehouse is added exactly when no other of the shop has its code. */
  lemma WarehouseAddedExactly(t: Tables, shop: Id, code: int, priority: int, active: bool)
    ensures var r := AddWarehouseTx(t, shop, code, priority, active);
      && (r.Ok? <==> shop < |t.shops| && forall w: Id ::
            w < |t.warehouses| && t.warehouses[w].shop == shop ==> t.warehouses[w].code != code)
      && (r.Ok? ==> r.value == t.(warehouses := t.warehouses + [Warehouse(shop, code, priority, active, false)]))
  {}

  /** It keeps its shop when edited, and may take any code that no other warehouse of the shop has. */
  lemma WarehouseEditedExactly(t: Tables, w: Id, code: int, priority: int, active: bool)
    ensures var r := EditWarehouseTx(t, w, code, priority, active);
      && (r.Ok? <==> w < |t.warehouses| && forall v: Id ::
            v < |t.warehouses| && v != w && t.warehouses[v].shop == t.warehouses[w].shop ==> t.warehouses[v].code != code)
      && (r.Ok? ==> r.value == t.(warehouses := t.warehouses[w :=
            Warehouse(t.warehouses[w].shop, code, priority, active, t.warehouses[w].origin)]))
  {}

  /** A product with allocations is created exactly when they name different warehouses of its shop and no negative count;
      its stock is then their sum, and each warehouse has its allocation. */
  lemma ProductCreatedExactly(steps: seq<Step>, shop: Id, stock: int, status: ProductStatus, rows: seq<InitialInventory>)
    requires rows != []
    ensures var t := Run(EMPTY, steps);
      var r := CreateProductTx(t, shop, stock, status, rows);
      && (r.Ok? <==>
            && shop < |t.shops| && 0 <= stock && status in {ProductActive, ProductInactive}
            && (forall k :: 0 <= k < |rows| ==>
                  0 <= rows[k].onHand && rows[k].warehouse < |t.warehouses| && t.warehouses[rows[k].warehouse].shop == shop)
            && forall j, k :: 0 <= j < k < |rows| ==> rows[j].warehouse != rows[k].warehouse)
      && (r.Ok? ==> ProductAdded(t, r.value, shop, status, rows))
  {
    InvAlways(steps);
    var t := Run(EMPTY, steps);
    var r := CreateProductTx(t, shop, stock, status, rows);
    if r.Ok? {
      AcceptedRows(t, shop, stock, status, rows);
      AddedRows(t, r.value, shop, status, rows);
    }
  }

  ghost predicate ProductAdded(t: Tables, u: Tables, shop: Id, status: ProductStatus, rows: seq<InitialInventory>) {
    var p := |t.products|;
    && u.products == t.products + [Product(shop, TotalOnHand(rows), status)] && u.warehouses == t.warehouses
    && (forall c <- u.stock :: c in t.stock || (c.1 == p && exists k :: 0 <= k < |rows| && rows[k].warehouse == c.0))
    && (forall c <- t.stock :: c in u.stock && u.stock[c] == t.stock[c])
    && (forall k :: 0 <= k < |rows| ==> (rows[k].warehouse, p) in u.stock && u.stock[(rows[k].warehouse, p)] == Stock(rows[k].onHand, 0))
    && u.events == t.events + [ProductEvent(p)]
  }

  lemma {:induction false} AllocationPlaced(rows: seq<InitialInventory>, k: nat)
    requires ValidInitial(rows) && k < |rows|
    ensures PlacedAt(rows, rows[k].warehouse) == rows[k].onHand
  {
    var m := |rows| - 1;
    assert forall j :: 0 <= j < m ==> rows[..m][j] == rows[j];
    if k == m { NothingPlaced(rows[..m], rows[m].warehouse); } else { AllocationPlaced(rows[..m], k); }
  }

  lemma AddedRows(t: Tables, u: Tables, shop: Id, status: ProductStatus, rows: seq<InitialInventory>)
    requires Linked(t) && ValidInitial(rows) && u.stock == StockedRows(t.stock, |t.products|, rows) && u.warehouses == t.warehouses
    requires u.products == t.products + [Product(shop, TotalOnHand(rows), status)]
    requires u.events == t.events + [ProductEvent(|t.products|)]
    ensures ProductAdded(t, u, shop, status, rows)
  {
    var p := |t.products|;
    forall c: (Id, Id) ensures c in u.stock <==> c in t.stock || (c.1 == p && Places(rows, c.0))
      ensures c in t.stock ==> u.stock[c] == t.stock[c]
    {
      StockedRow(t.stock, p, rows, c);
    }
    forall k | 0 <= k < |rows| ensures u.stock[(rows[k].warehouse, p)] == Stock(rows[k].onHand, 0) {
      assert Places(rows, rows[k].warehouse);
      StockedRow(t.stock, p, rows, (rows[k].warehouse, p));
      AllocationPlaced(rows, k);
    }
  }

  /** A product that is there can be edited, but not into a deleted one. */
  lemma ProductEditedExactly(t: Tables, shop: Id, p: Id, status: ProductStatus)
    ensures var r := EditProductTx(t, shop, p, status);
      && (r.Ok? <==> status in {ProductActive, ProductInactive} && p < |t.products| && t.products[p].shop == shop
                     && t.products[p].status in {ProductActive, ProductInactive})
      && (r.Ok? ==> r.value.products == t.products[p := t.products[p].(status := status)]
                    && r.value.events == t.events + [ProductEvent(p)] && r.value.stock == t.stock)
  {}

  /** An open reservation holds something in its warehouse. */
  lemma OpenHolds(t: Tables, i: Id)
    requires Inv(t) && i in t.reservations && Open(t.reservations[i])
    ensures var r := t.reservations[i]; 0 < ReservedAt(t.stock, r.warehouse, r.product)
  {
    var r := t.reservations[i];
    assert ItemLinked(t, i) && Coupled(t, t.items[i].order) && ReservationFits(t.orders[r.order].status, r);
    HeldNonNegative(t, r.warehouse, r.product);
    SumTerm(|t.items|, HeldFn(t.reservations, r.warehouse, r.product), i);
    assert ReservedAt(t.stock, r.warehouse, r.product) == Held(t.reservations, |t.items|, r.warehouse, r.product);
  }

  /** A product can be deleted exactly when nothing of it is reserved in any warehouse. */
  lemma ArchivingExactly(steps: seq<Step>, shop: Id, p: Id)
    ensures var t := Run(EMPTY, steps);
      var r := ArchiveTx(t, shop, p);
      && (r.Ok? <==> p < |t.products| && t.products[p].shop == shop && t.products[p].status in {ProductActive, ProductInactive}
                     && forall w: Id :: ReservedAt(t.stock, w, p) == 0)
      && (r.Ok? ==> r.value.products == t.products[p := t.products[p].(status := ProductDeleted)]
                    && r.value.events == t.events + [ProductEvent(p)] && r.value.stock == t.stock)
  {
    InvAlways(steps);
    Archived(Run(EMPTY, steps), shop, p);
  }

  lemma Archived(t: Tables, shop: Id, p: Id)
    requires Inv(t)
    ensures ArchiveTx(t, shop, p) == Err(InUse) ==> exists w: Id :: ReservedAt(t.stock, w, p) != 0
    ensures ArchiveTx(t, shop, p).Ok? ==> forall w: Id :: ReservedAt(t.stock, w, p) == 0
  {
    if i: Id :| i in t.reservations && t.reservations[i].product == p && Open(t.reservations[i]) {
      OpenHolds(t, i);
    } else {
      forall w: Id ensures ReservedAt(t.stock, w, p) == 0 {
        NothingHeld(t.reservations, |t.items|, w, p);
        assert ReservedAt(t.stock, w, p) == Held(t.reservations, |t.items|, w, p);
      }
    }
  }
}
