/** Editing warehouses, products and physical stock keeps the invariant. */
module CatalogProofs {
  import opened Schema
  import opened Sums
  import opened Inventory
  import opened Invariants
  import opened Catalog
  import opened LedgerProofs
  import opened OrderProofs

  /** Everything but the ledger survives catalogue edits, which never touch orders or what hangs off them. */
  lemma CatalogKeepsRest(t: Tables, u: Tables)
    requires Inv(t)
    requires u.orders == t.orders && u.items == t.items && u.reservations == t.reservations
    requires u.packages == t.packages && u.shipments == t.shipments
    requires |t.shops| <= |u.shops| && |t.warehouses| <= |u.warehouses| && |t.products| <= |u.products|
    requires forall p: Id :: p < |u.products| ==> u.products[p].shop < |u.shops|
    requires forall w: Id :: w < |u.warehouses| ==> u.warehouses[w].shop < |u.shops|
    requires forall c <- u.stock :: c.0 < |u.warehouses| && c.1 < |u.products|
    ensures Linked(u) && Quantities(u) && forall o: Id :: o < |u.orders| ==> Coupled(u, o)
  {
    forall o: Id | o < |u.orders| ensures OrderLinked(u, o) && Coupled(u, o) {
      assert OrderLinked(t, o) && Coupled(t, o) && ReservationsFit(u, o);
    }
    forall i: Id | i < |u.items| ensures ItemLinked(u, i) { assert ItemLinked(t, i); }
    forall k: Id | k < |u.packages| ensures PackageLinked(u, k) { assert PackageLinked(t, k); }
    forall k: Id | k < |u.shipments| ensures ShipmentLinked(u, k) { assert ShipmentLinked(t, k); }
  }

  /** New warehouses hold no stock, and no warehouse row or reservation changes. */
  lemma MoreWarehousesKeepLedger(t: Tables, u: Tables)
    requires Linked(t) && Ledger(t) && |t.warehouses| <= |u.warehouses|
    requires u.stock == t.stock && u.reservations == t.reservations && u.items == t.items
    requires |u.products| == |t.products| && forall p: Id :: p < |t.products| ==> u.products[p].stock == t.products[p].stock
    ensures Ledger(u)
  {
    forall w: Id, p: Id ensures ReservedAt(u.stock, w, p) == Held(u.reservations, |u.items|, w, p) {
      assert ReservedAt(t.stock, w, p) == Held(t.reservations, |t.items|, w, p);
    }
    forall p: Id | p < |u.products| ensures u.products[p].stock == Available(u.stock, |u.warehouses|, p) {
      SumExtend(|t.warehouses|, |u.warehouses|, AvailableFn(t.stock, p));
    }
  }

  lemma WarehouseKeepsInv(t: Tables, u: Tables)
    requires Inv(t) && UniqueCodes(u) && |t.warehouses| <= |u.warehouses|
    requires u == t.(warehouses := u.warehouses) && forall w: Id :: w < |u.warehouses| ==> u.warehouses[w].shop < |t.shops|
    ensures Inv(u)
  {
    CatalogKeepsRest(t, u);
    MoreWarehousesKeepLedger(t, u);
  }

  lemma AddWarehouseKeepsInv(t: Tables, shop: Id, code: int, priority: int, active: bool)
    requires Inv(t) && AddWarehouseTx(t, shop, code, priority, active).Ok?
    ensures Inv(AddWarehouseTx(t, shop, code, priority, active).value)
  {
    WarehouseKeepsInv(t, AddWarehouseTx(t, shop, code, priority, active).value);
  }

  lemma EditWarehouseKeepsInv(t: Tables, w: Id, code: int, priority: int, active: bool)
    requires Inv(t) && EditWarehouseTx(t, w, code, priority, active).Ok?
    ensures Inv(EditWarehouseTx(t, w, code, priority, active).value)
  {
    WarehouseKeepsInv(t, EditWarehouseTx(t, w, code, priority, active).value);
  }

  /** A new shop starts with a default warehouse of its own. */
  lemma AddShopKeepsInv(t: Tables, provider: Provider)
    requires Inv(t)
    ensures Inv(AddShop(t, provider))
    ensures AddShop(t, provider).shops == t.shops + [provider]
    ensures AddShop(t, provider).warehouses == t.warehouses + [Warehouse(|t.shops|, DEFAULT_CODE, 0, true, true)]
  {
    assert forall w: Id :: w < |t.warehouses| ==> t.warehouses[w].shop < |t.shops|;
    CatalogKeepsRest(t, AddShop(t, provider));
    MoreWarehousesKeepLedger(t, AddShop(t, provider));
  }

  /** Status edits of a product, including its soft deletion. */
  lemma ProductStatusKeepsInv(t: Tables, p: Id, status: ProductStatus)
    requires Inv(t) && p < |t.products|
    ensures Inv(Record(t.(products := t.products[p := t.products[p].(status := status)]), ProductEvent(p)))
  {
    var u := Record(t.(products := t.products[p := t.products[p].(status := status)]), ProductEvent(p));
    CatalogKeepsRest(t, u);
    MoreWarehousesKeepLedger(t, u);
    RecordKeepsLogged(t, ProductEvent(p));
  }

  lemma SetOnHandKeepsInv(t: Tables, w: Id, p: Id, onHand: int)
    requires Inv(t) && SetOnHandTx(t, w, p, onHand).Ok?
    ensures Inv(SetOnHandTx(t, w, p, onHand).value)
  {
    var u := SetOnHandTx(t, w, p, onHand).value;
    SetOnHandKeepsLedger(t, w, p, onHand, u);
    CatalogKeepsRest(t, u);
  }

  // ----- creating a product -----

  ghost predicate RowsFit(rows: seq<InitialInventory>, n: nat) {
    ValidInitial(rows) && forall k :: 0 <= k < |rows| ==> rows[k].warehouse < n
  }

  /** What the initial rows place in warehouse `w`. */
  function PlacedAt(rows: seq<InitialInventory>, w: Id): int {
    if rows == [] then 0
    else
      var last := rows[|rows| - 1];
      PlacedAt(rows[..|rows| - 1], w) + if last.warehouse == w then last.onHand else 0
  }

  lemma {:induction false} NothingPlaced(rows: seq<InitialInventory>, w: Id)
    requires forall k :: 0 <= k < |rows| ==> rows[k].warehouse != w
    ensures PlacedAt(rows, w) == 0
  {
    if rows == [] {
    } else {
      NothingPlaced(rows[..|rows| - 1], w);
    }
  }

  predicate Places(rows: seq<InitialInventory>, w: Id) { exists k :: 0 <= k < |rows| && rows[k].warehouse == w }

  /** The row that initial stocking leaves at `c`: other products' rows stay, the new product's hold its allocation. */
  lemma {:induction false} StockedRow(stock: map<(Id, Id), Stock>, p: Id, rows: seq<InitialInventory>, c: (Id, Id))
    requires ValidInitial(rows) && (c.0, p) !in stock
    ensures var s := StockedRows(stock, p, rows);
      if c.1 == p then (c in s <==> Places(rows, c.0)) && (c in s ==> s[c] == Stock(PlacedAt(rows, c.0), 0) && 0 <= s[c].onHand)
      else (c in s <==> c in stock) && (c in s ==> s[c] == stock[c])
  {
    if rows == [] {
    } else {
      var m := |rows| - 1;
      var init, last := rows[..m], rows[m];
      assert forall k :: 0 <= k < m ==> init[k] == rows[k];
      StockedRow(stock, p, init, c);
      if last.warehouse == c.0 { NothingPlaced(init, c.0); }
    }
  }

  lemma {:induction false} StockedAvailable(stock: map<(Id, Id), Stock>, p: Id, rows: seq<InitialInventory>, n: nat)
    requires RowsFit(rows, n) && forall w: Id :: (w, p) !in stock
    ensures Available(StockedRows(stock, p, rows), n, p) == TotalOnHand(rows)
  {
    if rows == [] {
      SumZero(n, AvailableFn(stock, p));
    } else {
      var m := |rows| - 1;
      var init, last := rows[..m], rows[m];
      assert forall k :: 0 <= k < m ==> init[k] == rows[k];
      StockedAvailable(stock, p, init, n);
      StockedRow(stock, p, init, (last.warehouse, p));
      SumChange(n, AvailableFn(StockedRows(stock, p, init), p), AvailableFn(StockedRows(stock, p, rows), p), last.warehouse);
    }
  }

  /** The new product's rows hold exactly the allocations and reserve nothing; no other row changes. */
  lemma StockedTotals(stock: map<(Id, Id), Stock>, p: Id, rows: seq<InitialInventory>, n: nat)
    requires RowsFit(rows, n) && forall w: Id :: (w, p) !in stock
    ensures var s := StockedRows(stock, p, rows);
      && (forall c: (Id, Id) :: c.1 != p ==> (c in s <==> c in stock) && (c in s ==> s[c] == stock[c]))
      && (forall w: Id :: (w, p) in s ==> w < n && s[(w, p)] == Stock(PlacedAt(rows, w), 0) && 0 <= PlacedAt(rows, w))
      && (forall w: Id :: (w, p) !in s ==> PlacedAt(rows, w) == 0)
  {
    var s := StockedRows(stock, p, rows);
    forall c: (Id, Id) | c.1 != p ensures (c in s <==> c in stock) && (c in s ==> s[c] == stock[c]) { StockedRow(stock, p, rows, c); }
    forall w: Id ensures (w, p) in s ==> w < n && s[(w, p)] == Stock(PlacedAt(rows, w), 0) && 0 <= PlacedAt(rows, w)
      ensures (w, p) !in s ==> PlacedAt(rows, w) == 0
    {
      StockedRow(stock, p, rows, (w, p));
      if !Places(rows, w) { NothingPlaced(rows, w); }
    }
  }

  lemma NewProductLedger(t: Tables, u: Tables, rows: seq<InitialInventory>, status: ProductStatus, shop: Id)
    requires Linked(t) && Ledger(t) && RowsFit(rows, |u.warehouses|) && |t.warehouses| <= |u.warehouses|
    requires u.products == t.products + [Product(shop, TotalOnHand(rows), status)]
    requires u.stock == StockedRows(t.stock, |t.products|, rows) && u.reservations == t.reservations && u.items == t.items
    ensures Ledger(u)
  {
    var p := |t.products|;
    StockedTotals(t.stock, p, rows, |u.warehouses|);
    StockedAvailable(t.stock, p, rows, |u.warehouses|);
    forall w: Id, q: Id ensures ReservedAt(u.stock, w, q) == Held(u.reservations, |u.items|, w, q) {
      assert ReservedAt(t.stock, w, q) == Held(t.reservations, |t.items|, w, q);
    }
    forall q: Id | q < |u.products| ensures u.products[q].stock == Available(u.stock, |u.warehouses|, q) {
      if q < p {
        SumExtend(|t.warehouses|, |u.warehouses|, AvailableFn(t.stock, q));
        SumEqual(|u.warehouses|, AvailableFn(t.stock, q), AvailableFn(u.stock, q));
      }
    }
  }

  lemma NewProductRows(t: Tables, rows: seq<InitialInventory>, n: nat)
    requires Linked(t) && RowsFit(rows, n) && |t.warehouses| <= n
    ensures forall c <- StockedRows(t.stock, |t.products|, rows) :: c.0 < n && c.1 <= |t.products|
  {}

  /** The initial rows of an accepted product. */
  lemma AcceptedRows(t: Tables, shop: Id, stock: int, status: ProductStatus, allocations: seq<InitialInventory>)
    requires CreateProductTx(t, shop, stock, status, allocations).Ok?
    ensures var total := if allocations == [] then stock else TotalOnHand(allocations);
      var u := CreateProductTx(t, shop, stock, status, allocations).value;
      var (based, rows) := InitialRows(t, shop, total, allocations);
      && shop < |t.shops| && RowsFit(rows, |u.warehouses|) && TotalOnHand(rows) == total
      && u == Record(based.(products := t.products + [Product(shop, total, status)], stock := StockedRows(t.stock, |t.products|, rows)),
                     ProductEvent(|t.products|))
      && based == t.(warehouses := based.warehouses) && |t.warehouses| <= |based.warehouses|
      && based.warehouses[..|t.warehouses|] == t.warehouses
      && (based.warehouses == t.warehouses || (
            && based.warehouses == t.warehouses + [Warehouse(shop, DEFAULT_CODE, 0, true, true)]
            && FindDefault(t.warehouses, shop, |t.warehouses|).None?))
  {}

  /** What an accepted product changes, table by table. */
  ghost predicate Stocked(t: Tables, u: Tables, product: Product, rows: seq<InitialInventory>) {
    && product.shop < |t.shops| && RowsFit(rows, |u.warehouses|) && product.stock == TotalOnHand(rows)
    && u == t.(warehouses := u.warehouses, products := t.products + [product],
               stock := StockedRows(t.stock, |t.products|, rows),
               events := t.events + [ProductEvent(|t.products|)], outbox := t.outbox + [|t.events|])
    && (u.warehouses == t.warehouses || (
          && u.warehouses == t.warehouses + [Warehouse(product.shop, DEFAULT_CODE, 0, true, true)]
          && FindDefault(t.warehouses, product.shop, |t.warehouses|).None?))
  }

  lemma StockedUnique(t: Tables, u: Tables, product: Product, rows: seq<InitialInventory>)
    requires UniqueCodes(t) && Stocked(t, u, product, rows)
    ensures UniqueCodes(u)
  {}

  lemma StockedRest(t: Tables, u: Tables, product: Product, rows: seq<InitialInventory>)
    requires Inv(t) && Stocked(t, u, product, rows)
    ensures Linked(u) && Quantities(u) && forall o: Id :: o < |u.orders| ==> Coupled(u, o)
  {
    NewProductRows(t, rows, |u.warehouses|);
    CatalogKeepsRest(t, u);
  }

  lemma StockedLogged(t: Tables, u: Tables, product: Product, rows: seq<InitialInventory>)
    requires Logged(t) && Stocked(t, u, product, rows)
    ensures Logged(u)
  {
    RecordKeepsLogged(t, ProductEvent(|t.products|));
  }

  lemma CreateProductKeepsInv(t: Tables, shop: Id, stock: int, status: ProductStatus, allocations: seq<InitialInventory>)
    requires Inv(t) && CreateProductTx(t, shop, stock, status, allocations).Ok?
    ensures Inv(CreateProductTx(t, shop, stock, status, allocations).value)
  {
    AcceptedRows(t, shop, stock, status, allocations);
    var total := if allocations == [] then stock else TotalOnHand(allocations);
    var u := CreateProductTx(t, shop, stock, status, allocations).value;
    StockedKeepsInv(t, u, Product(shop, total, status), InitialRows(t, shop, total, allocations).1);
  }

  lemma StockedKeepsInv(t: Tables, u: Tables, product: Product, rows: seq<InitialInventory>)
    requires Inv(t) && Stocked(t, u, product, rows)
    ensures Inv(u)
  {
    NewProductLedger(t, u, rows, product.status, product.shop);
    StockedRest(t, u, product, rows);
    StockedLogged(t, u, product, rows);
    StockedUnique(t, u, product, rows);
  }
}
