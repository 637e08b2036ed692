/** Warehouses, products and physical stock as administrators edit them. */
module Catalog {
  import opened Schema
  import opened Inventory

  /** The rank of the code WH-DEFAULT. */
  const DEFAULT_CODE: int := 0

  predicate CodeTaken(t: Tables, shop: Id, code: int, except: Id) {
    exists w: Id :: w < |t.warehouses| && w != except && t.warehouses[w].shop == shop && t.warehouses[w].code == code
  }

  function AddWarehouseTx(t: Tables, shop: Id, code: int, priority: int, active: bool): Result<Tables> {
    if shop >= |t.shops| then Err(NotFound)
    else if CodeTaken(t, shop, code, |t.warehouses|) then Err(Constraint)
    else Ok(t.(warehouses := t.warehouses + [Warehouse(shop, code, priority, active, false)]))
  }

  function EditWarehouseTx(t: Tables, w: Id, code: int, priority: int, active: bool): Result<Tables> {
    if w >= |t.warehouses| then Err(NotFound)
    else if CodeTaken(t, t.warehouses[w].shop, code, w) then Err(Constraint)
    else Ok(t.(warehouses := t.warehouses[w := t.warehouses[w].(code := code, priority := priority, active := active)]))
  }

  // ----- creating a product -----

  datatype InitialInventory = InitialInventory(warehouse: Id, onHand: int)

  predicate ValidInitial(allocations: seq<InitialInventory>) {
    && (forall k :: 0 <= k < |allocations| ==> 0 <= allocations[k].onHand)
    && (forall j, k :: 0 <= j < k < |allocations| ==> allocations[j].warehouse != allocations[k].warehouse)
  }

  function TotalOnHand(allocations: seq<InitialInventory>): int {
    if allocations == [] then 0
    else TotalOnHand(allocations[..|allocations| - 1]) + allocations[|allocations| - 1].onHand
  }

  function FindDefault(ws: seq<Warehouse>, shop: Id, n: nat): (r: Option<Id>)
    requires n <= |ws|
    ensures r.Some? ==> r.value < n && ws[r.value].shop == shop && ws[r.value].code == DEFAULT_CODE
    ensures r.None? ==> forall w: Id :: w < n ==> ws[w].shop != shop || ws[w].code != DEFAULT_CODE
  {
    if n == 0 then None
    else if ws[n - 1].shop == shop && ws[n - 1].code == DEFAULT_CODE then Some(n - 1)
    else FindDefault(ws, shop, n - 1)
  }

  predicate HasOrigin(ws: seq<Warehouse>, shop: Id) { exists w: Id :: w < |ws| && ws[w].shop == shop && ws[w].origin }

  /** `EnsureDefaultWarehouse` inserts the fixed primary key of the shop's default warehouse, unless some warehouse of the
      shop carries the default code. The insert fails when the row with that key is there under another code. */
  predicate DefaultBlocked(ws: seq<Warehouse>, shop: Id) { FindDefault(ws, shop, |ws|).None? && HasOrigin(ws, shop) }

  /** `EnsureDefaultWarehouse`, when it is not blocked: the tables with the default warehouse, and its identifier. */
  function WithDefault(t: Tables, shop: Id): (Tables, Id) {
    match FindDefault(t.warehouses, shop, |t.warehouses|)
    case Some(w) => (t, w)
    case None => (t.(warehouses := t.warehouses + [Warehouse(shop, DEFAULT_CODE, 0, true, true)]), |t.warehouses|)
  }

  /** Shop creation: the shop row and its default warehouse. */
  function AddShop(t: Tables, provider: Provider): Tables {
    WithDefault(t.(shops := t.shops + [provider]), |t.shops|).0
  }

  predicate OwnedWarehouse(ws: seq<Warehouse>, shop: Id, w: Id) { w < |ws| && ws[w].shop == shop }

  function StockedRows(stock: map<(Id, Id), Stock>, p: Id, allocations: seq<InitialInventory>): map<(Id, Id), Stock> {
    if allocations == [] then stock
    else
      var last := allocations[|allocations| - 1];
      StockedRows(stock, p, allocations[..|allocations| - 1])[(last.warehouse, p) := Stock(last.onHand, 0)]
  }

  /** The tables with the warehouses a new product is stocked in, and its initial warehouse rows. */
  function InitialRows(t: Tables, shop: Id, total: int, allocations: seq<InitialInventory>): (Tables, seq<InitialInventory>) {
    if allocations != [] then (t, allocations)
    else
      var (based, default) := WithDefault(t, shop);
      (based, [InitialInventory(default, total)])
  }

  /** The repository's transaction for a normalised draft. */
  function InsertProductTx(t: Tables, shop: Id, total: int, status: ProductStatus, allocations: seq<InitialInventory>): Result<Tables> {
    var p, (based, rows) := |t.products|, InitialRows(t, shop, total, allocations);
    if allocations == [] && DefaultBlocked(t.warehouses, shop) then Err(Constraint)
    else if exists k :: 0 <= k < |rows| && !OwnedWarehouse(based.warehouses, shop, rows[k].warehouse) then Err(Rejected)
    else Ok(Record(based.(products := t.products + [Product(shop, total, status)], stock := StockedRows(t.stock, p, rows)),
                   ProductEvent(p)))
  }

  /** `Service.Create` followed by the repository's transaction. */
  function CreateProductTx(t: Tables, shop: Id, stock: int, status: ProductStatus, allocations: seq<InitialInventory>): Result<Tables> {
    if shop >= |t.shops| then Err(NotFound)
    else if stock < 0 || !ValidInitial(allocations) || status == ProductDeleted then Err(Rejected)
    else InsertProductTx(t, shop, if allocations == [] then stock else TotalOnHand(allocations), status, allocations)
  }

  /** The allocation loop of `Service.Create`: refuses repeated warehouses and negative quantities, sums the rest. */
  method SumInitial(allocations: seq<InitialInventory>) returns (r: Option<int>)
    ensures r == if ValidInitial(allocations) then Some(TotalOnHand(allocations)) else None
  {
    var seen: set<Id> := {};
    var total := 0;
    for j := 0 to |allocations|
      invariant ValidInitial(allocations[..j]) && total == TotalOnHand(allocations[..j])
      invariant forall w :: w in seen <==> exists k :: 0 <= k < j && allocations[k].warehouse == w
    {
      var a := allocations[j];
      if a.onHand < 0 || a.warehouse in seen { return None; }
      assert allocations[..j + 1][..j] == allocations[..j];
      seen := seen + {a.warehouse};
      total := total + a.onHand;
    }
    assert allocations[..|allocations|] == allocations;
    return Some(total);
  }

  method CreateProduct(tx: Tx, shop: Id, stock: int, status: ProductStatus, allocations: seq<InitialInventory>) returns (e: Option<Error>)
    modifies tx
    ensures (tx.db, e) == Settle(old(tx.db), CreateProductTx(old(tx.db), shop, stock, status, allocations))
  {
    var saved := tx.db;
    if shop >= |tx.db.shops| { return Some(NotFound); }
    if stock < 0 { return Some(Rejected); }
    var sum := SumInitial(allocations);
    if sum.None? || status == ProductDeleted { return Some(Rejected); }
    var total := if allocations == [] then stock else sum.value;
    var p := |tx.db.products|;
    tx.db := tx.db.(products := tx.db.products + [Product(shop, total, status)]);
    if allocations == [] && DefaultBlocked(tx.db.warehouses, shop) { tx.db := saved; return Some(Constraint); }
    var (based, rows) := InitialRows(tx.db, shop, total, allocations);
    tx.db := based;
    assert (based.warehouses, rows) == (InitialRows(saved, shop, total, allocations).0.warehouses,
                                        InitialRows(saved, shop, total, allocations).1);
    for j := 0 to |rows|
      invariant tx.db == based.(stock := StockedRows(saved.stock, p, rows[..j]))
      invariant forall k :: 0 <= k < j ==> OwnedWarehouse(based.warehouses, shop, rows[k].warehouse)
    {
      if !OwnedWarehouse(tx.db.warehouses, shop, rows[j].warehouse) { tx.db := saved; return Some(Rejected); }
      assert rows[..j + 1][..j] == rows[..j];
      tx.db := tx.db.(stock := tx.db.stock[(rows[j].warehouse, p) := Stock(rows[j].onHand, 0)]);
    }
    assert rows[..|rows|] == rows;
    tx.db := Record(tx.db, ProductEvent(p));
    return None;
  }

  // ----- editing products and stock -----

  predicate LiveProduct(t: Tables, shop: Id, p: Id) {
    p < |t.products| && t.products[p].shop == shop && t.products[p].status != ProductDeleted
  }

  function EditProductTx(t: Tables, shop: Id, p: Id, status: ProductStatus): Result<Tables> {
    if status == ProductDeleted then Err(Rejected)
    else if !LiveProduct(t, shop, p) then Err(NotFound)
    else Ok(Record(t.(products := t.products[p := t.products[p].(status := status)]), ProductEvent(p)))
  }

  function ArchiveTx(t: Tables, shop: Id, p: Id): Result<Tables> {
    if !LiveProduct(t, shop, p) then Err(NotFound)
    else if exists i <- t.reservations :: t.reservations[i].product == p && Open(t.reservations[i]) then Err(InUse)
    else Ok(Record(t.(products := t.products[p := t.products[p].(status := ProductDeleted)]), ProductEvent(p)))
  }

  /** `updateWarehouseInventory`: sets the physical count and moves the aggregate stock by the difference. */
  function SetOnHandTx(t: Tables, w: Id, p: Id, onHand: int): Result<Tables> {
    if onHand < 0 then Err(Rejected)
    else if w >= |t.warehouses| || p >= |t.products| || t.warehouses[w].shop != t.products[p].shop then Err(NotFound)
    else
      var previous := if (w, p) in t.stock then t.stock[(w, p)] else Stock(0, 0);
      if onHand < previous.reserved then Err(Rejected)
      else Ok(t.(stock := t.stock[(w, p) := Stock(onHand, previous.reserved)],
                 products := t.products[p := t.products[p].(stock := t.products[p].stock + onHand - previous.onHand)]))
  }

  /** An accepted count covers what the row has reserved, changes no other row, and moves the product's stock with it. */
  method UpdateWarehouseInventory(tx: Tx, w: Id, p: Id, onHand: int) returns (e: Option<Error>)
    modifies tx
    ensures (tx.db, e) == Settle(old(tx.db), SetOnHandTx(old(tx.db), w, p, onHand))
    ensures e.None? ==> (
      && (w, p) in tx.db.stock && tx.db.stock[(w, p)].onHand == onHand
      && tx.db.stock[(w, p)].reserved == ReservedAt(old(tx.db).stock, w, p) <= onHand)
    ensures e.None? ==> (
      && p < |tx.db.products| == |old(tx.db).products|
      && tx.db.products[p].stock - onHand
        == old(tx.db).products[p].stock - if (w, p) in old(tx.db).stock then old(tx.db).stock[(w, p)].onHand else 0)
    ensures forall c <- old(tx.db).stock :: c != (w, p) ==> c in tx.db.stock && tx.db.stock[c] == old(tx.db).stock[c]
  {
    if onHand < 0 { return Some(Rejected); }
    if w >= |tx.db.warehouses| || p >= |tx.db.products| || tx.db.warehouses[w].shop != tx.db.products[p].shop {
      return Some(NotFound);
    }
    var previousOnHand, reserved := 0, 0;
    if (w, p) in tx.db.stock {
      previousOnHand, reserved := tx.db.stock[(w, p)].onHand, tx.db.stock[(w, p)].reserved;
    }
    if onHand < reserved { return Some(Rejected); }
    if (w, p) in tx.db.stock {
      tx.db := tx.db.(stock := tx.db.stock[(w, p) := tx.db.stock[(w, p)].(onHand := onHand)]);
    } else {
      tx.db := tx.db.(stock := tx.db.stock[(w, p) := Stock(onHand, 0)]);
    }
    tx.db := tx.db.(products := tx.db.products[p := tx.db.products[p].(stock := tx.db.products[p].stock + onHand - previousOnHand)]);
    return None;
  }

  /** An archived product is reserved nowhere, is not found again, and takes no stock or reservation with it. */
  method Archive(tx: Tx, shop: Id, p: Id) returns (e: Option<Error>)
    modifies tx
    ensures (tx.db, e) == Settle(old(tx.db), ArchiveTx(old(tx.db), shop, p))
    ensures e.None? ==> forall i <- tx.db.reservations :: tx.db.reservations[i].product == p ==> !Open(tx.db.reservations[i])
    ensures e.None? ==> forall s: Id :: !LiveProduct(tx.db, s, p)
    ensures tx.db.stock == old(tx.db).stock && tx.db.reservations == old(tx.db).reservations
    ensures forall s: Id, q: Id :: q != p ==> (LiveProduct(tx.db, s, q) <==> LiveProduct(old(tx.db), s, q))
  {
    if !LiveProduct(tx.db, shop, p) { return Some(NotFound); }
    if exists i <- tx.db.reservations :: tx.db.reservations[i].product == p && Open(tx.db.reservations[i]) { return Some(InUse); }
    tx.db := tx.db.(products := tx.db.products[p := tx.db.products[p].(status := ProductDeleted)]);
    tx.db := Record(tx.db, ProductEvent(p));
    return None;
  }
}
