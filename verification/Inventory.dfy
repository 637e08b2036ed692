/** Warehouse reservations: `Allocate`, `Commit`, `Release` and `FulfillPackage`. Each loop over rows is
    proved equal to a change of totals, and each "drift" guard to a comparison of totals. */
module Inventory {
  import opened Schema
  import opened Sums

  datatype Line = Line(item: Id, product: Id, quantity: int)

  /** The CHECK and foreign-key constraints of the schema that these operations rely on. */
  ghost predicate Checked(t: Tables) {
    && (forall i <- t.reservations :: i < |t.items| && CheckedReservation(t.reservations[i]))
    && (forall k: nat, i: Id :: k < |t.packages| && i in t.packages[k].lines ==> i < |t.items| && 0 < t.packages[k].lines[i])
    && (forall c <- t.stock :: 0 <= t.stock[c].reserved <= t.stock[c].onHand)
  }

  predicate CheckedReservation(r: Reservation) { 0 <= r.fulfilled <= r.quantity && 0 < r.quantity }

  predicate Open(r: Reservation) { r.status == Active || r.status == Committed }

  // ----- totals over the lines of a request -----

  function NeedTerm(lines: seq<Line>, p: Id, k: nat): int {
    if k < |lines| && lines[k].product == p then lines[k].quantity else 0
  }

  function NeedFn(lines: seq<Line>, p: Id): nat -> int { (k: nat) => NeedTerm(lines, p, k) }

  /** The quantity of product `p` over all lines of a request. */
  function Need(lines: seq<Line>, p: Id): int { Sum(|lines|, NeedFn(lines, p)) }

  // ----- totals over reservations; `n` is the number of order items -----

  function HeldTerm(rs: map<Id, Reservation>, w: Id, p: Id, i: Id): int {
    if i in rs && Open(rs[i]) && rs[i].warehouse == w && rs[i].product == p then rs[i].quantity - rs[i].fulfilled else 0
  }

  function HeldFn(rs: map<Id, Reservation>, w: Id, p: Id): nat -> int { (i: nat) => HeldTerm(rs, w, p, i) }

  /** What open reservations still hold of product `p` in warehouse `w`. */
  function Held(rs: map<Id, Reservation>, n: nat, w: Id, p: Id): int { Sum(n, HeldFn(rs, w, p)) }

  function OwedTerm(rs: map<Id, Reservation>, o: Id, w: Id, p: Id, i: Id): int {
    if i in rs && rs[i].order == o then HeldTerm(rs, w, p, i) else 0
  }

  function OwedFn(rs: map<Id, Reservation>, o: Id, w: Id, p: Id): nat -> int { (i: nat) => OwedTerm(rs, o, w, p, i) }

  /** The part of `Held` that belongs to order `o`. */
  function Owed(rs: map<Id, Reservation>, n: nat, o: Id, w: Id, p: Id): int { Sum(n, OwedFn(rs, o, w, p)) }

  function OwedProductTerm(rs: map<Id, Reservation>, o: Id, p: Id, i: Id): int {
    if i in rs && rs[i].order == o && Open(rs[i]) && rs[i].product == p then rs[i].quantity - rs[i].fulfilled else 0
  }

  function OwedProductFn(rs: map<Id, Reservation>, o: Id, p: Id): nat -> int { (i: nat) => OwedProductTerm(rs, o, p, i) }

  function OwedProduct(rs: map<Id, Reservation>, n: nat, o: Id, p: Id): int { Sum(n, OwedProductFn(rs, o, p)) }

  function PackedTerm(rs: map<Id, Reservation>, lines: map<Id, int>, w: Id, p: Id, i: Id): int {
    if i in lines && i in rs && rs[i].warehouse == w && rs[i].product == p then lines[i] else 0
  }

  function PackedFn(rs: map<Id, Reservation>, lines: map<Id, int>, w: Id, p: Id): nat -> int {
    (i: nat) => PackedTerm(rs, lines, w, p, i)
  }

  /** What a package takes of product `p` from warehouse `w`. */
  function Packed(rs: map<Id, Reservation>, lines: map<Id, int>, n: nat, w: Id, p: Id): int {
    Sum(n, PackedFn(rs, lines, w, p))
  }

  // ----- choosing a warehouse -----

  /** The sort key of the candidate query: higher priority first, then lower code. */
  predicate Precedes(a: Warehouse, b: Warehouse) {
    a.priority > b.priority || (a.priority == b.priority && a.code <= b.code)
  }

  predicate InRange(ws: seq<Warehouse>, order: seq<Id>) { forall i :: 0 <= i < |order| ==> order[i] < |ws| }

  predicate SortedBy(ws: seq<Warehouse>, order: seq<Id>)
    requires InRange(ws, order)
  {
    forall i, j :: 0 <= i < j < |order| ==> Precedes(ws[order[i]], ws[order[j]])
  }

  function Insert(ws: seq<Warehouse>, w: Id, order: seq<Id>): (r: seq<Id>)
    requires w < |ws| && InRange(ws, order) && SortedBy(ws, order)
    ensures InRange(ws, r) && SortedBy(ws, r)
    ensures forall v :: v in r <==> v == w || v in order
  {
    if order == [] then [w]
    else if Precedes(ws[w], ws[order[0]]) then [w] + order
    else
      var rest := Insert(ws, w, order[1..]);
      assert forall i :: 0 <= i < |rest| ==> rest[i] in rest;
      assert forall v <- rest :: Precedes(ws[order[0]], ws[v]) by { Behind(ws, w, order, rest); }
      [order[0]] + rest
  }

  lemma Behind(ws: seq<Warehouse>, w: Id, order: seq<Id>, rest: seq<Id>)
    requires w < |ws| && order != [] && InRange(ws, order) && SortedBy(ws, order) && InRange(ws, rest)
    requires Precedes(ws[order[0]], ws[w])
    requires forall v <- rest :: v == w || v in order[1..]
    ensures forall v <- rest :: v < |ws| && Precedes(ws[order[0]], ws[v])
  {}

  /** The active warehouses of a shop among the first `n`, as the candidate query orders them. */
  function Candidates(ws: seq<Warehouse>, shop: Id, n: nat): (r: seq<Id>)
    requires n <= |ws|
    ensures InRange(ws, r) && SortedBy(ws, r)
    ensures forall v: Id :: v in r <==> v < n && ws[v].active && ws[v].shop == shop
  {
    if n == 0 then []
    else if ws[n - 1].active && ws[n - 1].shop == shop then Insert(ws, n - 1, Candidates(ws, shop, n - 1))
    else Candidates(ws, shop, n - 1)
  }

  /** Warehouse `w` can cover the per-product totals of all lines. */
  predicate Covers(stock: map<(Id, Id), Stock>, lines: seq<Line>, w: Id) {
    forall k :: 0 <= k < |lines| ==>
      var c := (w, lines[k].product);
      c in stock && Need(lines, lines[k].product) <= stock[c].onHand - stock[c].reserved
  }

  function FirstCovering(stock: map<(Id, Id), Stock>, lines: seq<Line>, candidates: seq<Id>): Option<Id> {
    if candidates == [] then None
    else if Covers(stock, lines, candidates[0]) then Some(candidates[0])
    else FirstCovering(stock, lines, candidates[1..])
  }

  predicate ValidLines(lines: seq<Line>) { lines != [] && forall k :: 0 <= k < |lines| ==> 0 < lines[k].quantity }

  function Choose(t: Tables, shop: Id, lines: seq<Line>): Option<Id> {
    if ValidLines(lines) then FirstCovering(t.stock, lines, Candidates(t.warehouses, shop, |t.warehouses|)) else None
  }

  predicate Eligible(t: Tables, shop: Id, lines: seq<Line>, w: Id) {
    w < |t.warehouses| && t.warehouses[w].active && t.warehouses[w].shop == shop && Covers(t.stock, lines, w)
  }

  lemma {:induction false} FirstCoveringIsFirst(stock: map<(Id, Id), Stock>, lines: seq<Line>, candidates: seq<Id>)
    ensures FirstCovering(stock, lines, candidates).None? <==> forall w <- candidates :: !Covers(stock, lines, w)
    ensures FirstCovering(stock, lines, candidates).Some? ==> exists i ::
      && 0 <= i < |candidates| && candidates[i] == FirstCovering(stock, lines, candidates).value
      && Covers(stock, lines, candidates[i])
      && forall j :: 0 <= j < i ==> !Covers(stock, lines, candidates[j])
  {
    if candidates == [] {
    } else {
      var rest := candidates[1..];
      FirstCoveringIsFirst(stock, lines, rest);
      assert forall w <- candidates :: w == candidates[0] || w in rest;
      if !Covers(stock, lines, candidates[0]) && FirstCovering(stock, lines, rest).Some? {
        var i :| 0 <= i < |rest| && rest[i] == FirstCovering(stock, lines, rest).value && Covers(stock, lines, rest[i])
          && forall j :: 0 <= j < i ==> !Covers(stock, lines, rest[j]);
        assert candidates[i + 1] == rest[i];
        assert forall j :: 0 < j < i + 1 ==> candidates[j] == rest[j - 1];
      }
    }
  }

  /** The chosen warehouse is eligible, and every eligible one has a lower priority, or the same priority and no smaller
      code; none is chosen exactly when none is eligible. */
  lemma ChoosesBestWarehouse(t: Tables, shop: Id, lines: seq<Line>)
    requires ValidLines(lines)
    ensures Choose(t, shop, lines).None? <==> forall w: Id :: !Eligible(t, shop, lines, w)
    ensures Choose(t, shop, lines).Some? ==>
      var best := Choose(t, shop, lines).value;
      Eligible(t, shop, lines, best)
      && forall w: Id :: Eligible(t, shop, lines, w) ==>
        var b, other := t.warehouses[best], t.warehouses[w];
        other.priority < b.priority || (other.priority == b.priority && b.code <= other.code)
  {
    var cs := Candidates(t.warehouses, shop, |t.warehouses|);
    FirstCoveringIsFirst(t.stock, lines, cs);
    forall w: Id ensures Eligible(t, shop, lines, w) <==> w in cs && Covers(t.stock, lines, w) {}
    if Choose(t, shop, lines).Some? {
      var best := Choose(t, shop, lines).value;
      var i :| 0 <= i < |cs| && cs[i] == best && Covers(t.stock, lines, cs[i])
        && forall j :: 0 <= j < i ==> !Covers(t.stock, lines, cs[j]);
      forall w: Id | Eligible(t, shop, lines, w) ensures Precedes(t.warehouses[best], t.warehouses[w]) {
        var j :| 0 <= j < |cs| && cs[j] == w;
        assert i == j || Precedes(t.warehouses[cs[i]], t.warehouses[cs[j]]);
      }
    }
  }

  // ----- Allocate -----

  /** Every line's product is on sale and its aggregate stock covers the request's total for it. */
  predicate StockCovers(products: seq<Product>, lines: seq<Line>) {
    forall k :: 0 <= k < |lines| ==> OnSale(products, lines[k].product, Need(lines, lines[k].product))
  }

  function Booked(rs: map<Id, Reservation>, o: Id, w: Id, lines: seq<Line>): map<Id, Reservation> {
    if lines == [] then rs
    else
      var l := lines[|lines| - 1];
      Booked(rs, o, w, lines[..|lines| - 1])[l.item := Reservation(o, l.product, w, l.quantity, 0, Active)]
  }

  /** The warehouse rows after the first `j` lines are reserved in `w`: each gains the total of its product. */
  function ReserveAt(stock: map<(Id, Id), Stock>, w: Id, lines: seq<Line>, j: nat): map<(Id, Id), Stock> {
    map c | c in stock ::
      if c.0 == w then stock[c].(reserved := stock[c].reserved + Sum(j, NeedFn(lines, c.1))) else stock[c]
  }

  function TakeStock(products: seq<Product>, lines: seq<Line>, j: nat): (r: seq<Product>)
    ensures |r| == |products|
  {
    seq(|products|, p requires 0 <= p < |products| =>
      products[p].(stock := products[p].stock - Sum(j, NeedFn(lines, p))))
  }

  function Allocated(t: Tables, o: Id, w: Id, lines: seq<Line>): Tables
    requires o < |t.orders|
  {
    ReservedUpTo(t, o, w, lines, |lines|).(orders := t.orders[o := t.orders[o].(warehouse := Some(w))])
  }

  function AllocateTx(t: Tables, shop: Id, o: Id, lines: seq<Line>): Result<Tables>
    requires o < |t.orders|
  {
    match Choose(t, shop, lines)
    case None => Err(NoWarehouse)
    case Some(w) => if StockCovers(t.products, lines) then Ok(Allocated(t, o, w, lines)) else Err(Drift)
  }

  method AggregateRequiredQuantity(lines: seq<Line>) returns (r: Result<map<Id, int>>)
    ensures r == Err(NoWarehouse) || r.Ok?
    ensures r.Ok? <==> forall k :: 0 <= k < |lines| ==> 0 < lines[k].quantity
    ensures r.Ok? ==> forall p :: p in r.value <==> exists k :: 0 <= k < |lines| && lines[k].product == p
    ensures r.Ok? ==> forall p <- r.value :: r.value[p] == Need(lines, p)
  {
    var required: map<Id, int> := map[];
    for j := 0 to |lines|
      invariant forall k :: 0 <= k < j ==> 0 < lines[k].quantity
      invariant forall p :: p in required <==> exists k :: 0 <= k < j && lines[k].product == p
      invariant forall p: Id :: Sum(j, NeedFn(lines, p)) == if p in required then required[p] else 0
    {
      if lines[j].quantity <= 0 { return Err(NoWarehouse); }
      var p := lines[j].product;
      required := required[p := (if p in required then required[p] else 0) + lines[j].quantity];
    }
    return Ok(required);
  }

  /** The inner loop of the candidate scan. */
  method CoversRequired(stock: map<(Id, Id), Stock>, lines: seq<Line>, required: map<Id, int>, w: Id) returns (eligible: bool)
    requires forall p :: p in required <==> exists k :: 0 <= k < |lines| && lines[k].product == p
    requires forall p <- required :: required[p] == Need(lines, p)
    ensures eligible == Covers(stock, lines, w)
  {
    var pending := required.Keys;
    while pending != {}
      invariant pending <= required.Keys
      invariant forall p :: p in required && p !in pending ==>
        (w, p) in stock && Need(lines, p) <= stock[(w, p)].onHand - stock[(w, p)].reserved
    {
      var p :| p in pending;
      if (w, p) !in stock || stock[(w, p)].onHand - stock[(w, p)].reserved < required[p] {
        var k :| 0 <= k < |lines| && lines[k].product == p;
        return false;
      }
      pending := pending - {p};
    }
    return true;
  }

  predicate OnSale(products: seq<Product>, p: Id, q: int) {
    p < |products| && products[p].status == ProductActive && q <= products[p].stock
  }

  /** The effect of the three statements for one line: reserve, take aggregate stock, record the reservation. */
  function LineReserved(t: Tables, o: Id, w: Id, l: Line): Tables
    requires (w, l.product) in t.stock && l.product < |t.products|
  {
    var row, p := t.stock[(w, l.product)], l.product;
    t.(stock := t.stock[(w, p) := row.(reserved := row.reserved + l.quantity)],
       products := t.products[p := t.products[p].(stock := t.products[p].stock - l.quantity)],
       reservations := t.reservations[l.item := Reservation(o, p, w, l.quantity, 0, Active)])
  }

  method ReserveLine(tx: Tx, o: Id, w: Id, l: Line) returns (ok: bool)
    requires (w, l.product) in tx.db.stock
    modifies tx
    ensures ok == OnSale(old(tx.db).products, l.product, l.quantity)
    ensures ok ==> tx.db == LineReserved(old(tx.db), o, w, l)
  {
    var p := l.product;
    var row := tx.db.stock[(w, p)];
    tx.db := tx.db.(stock := tx.db.stock[(w, p) := row.(reserved := row.reserved + l.quantity)]);
    if p >= |tx.db.products| || tx.db.products[p].status != ProductActive || tx.db.products[p].stock < l.quantity {
      return false;
    }
    tx.db := tx.db.(products := tx.db.products[p := tx.db.products[p].(stock := tx.db.products[p].stock - l.quantity)]);
    tx.db := tx.db.(reservations := tx.db.reservations[l.item := Reservation(o, p, w, l.quantity, 0, Active)]);
    return true;
  }

  function ReservedUpTo(t: Tables, o: Id, w: Id, lines: seq<Line>, j: nat): Tables
    requires j <= |lines|
  {
    t.(stock := ReserveAt(t.stock, w, lines, j), products := TakeStock(t.products, lines, j),
       reservations := Booked(t.reservations, o, w, lines[..j]))
  }

  lemma ReserveNothing(t: Tables, o: Id, w: Id, lines: seq<Line>)
    ensures ReservedUpTo(t, o, w, lines, 0) == t
  {}

  lemma ReserveStep(t: Tables, o: Id, w: Id, lines: seq<Line>, j: nat)
    requires j < |lines| && (w, lines[j].product) in t.stock && lines[j].product < |t.products|
    ensures ReservedUpTo(t, o, w, lines, j + 1) == LineReserved(ReservedUpTo(t, o, w, lines, j), o, w, lines[j])
  {
    var l, a, b := lines[j], ReservedUpTo(t, o, w, lines, j), ReservedUpTo(t, o, w, lines, j + 1);
    var r := LineReserved(a, o, w, l);
    assert lines[..j + 1][..j] == lines[..j];
    assert b.reservations == r.reservations;
    assert b.stock == r.stock;
    assert b.products == r.products;
  }

  /** Up to line `j`, every sale guard passes: the totals of those lines are covered. */
  predicate StockCoversUpTo(products: seq<Product>, lines: seq<Line>, j: nat)
    requires j <= |lines|
  {
    forall k :: 0 <= k < j ==> OnSale(products, lines[k].product, Sum(j, NeedFn(lines, lines[k].product)))
  }

  lemma StockCoversStep(products: seq<Product>, lines: seq<Line>, j: nat)
    requires ValidLines(lines) && j < |lines|
    ensures StockCoversUpTo(products, lines, j + 1) <==>
      StockCoversUpTo(products, lines, j) && OnSale(TakeStock(products, lines, j), lines[j].product, lines[j].quantity)
  {}

  lemma {:induction false} StockCoversPrefix(products: seq<Product>, lines: seq<Line>, j: nat)
    requires ValidLines(lines) && j <= |lines| && StockCovers(products, lines)
    ensures StockCoversUpTo(products, lines, j)
    decreases |lines| - j
  {
    if j == |lines| {
    } else {
      StockCoversPrefix(products, lines, j + 1);
      StockCoversStep(products, lines, j);
    }
  }

  /** Reserves line by line; the guards of all lines pass exactly when the totals are covered. */
  method ReserveLines(tx: Tx, o: Id, w: Id, lines: seq<Line>) returns (ok: bool)
    requires ValidLines(lines) && Covers(tx.db.stock, lines, w)
    modifies tx
    ensures ok == StockCovers(old(tx.db).products, lines)
    ensures ok ==> tx.db == ReservedUpTo(old(tx.db), o, w, lines, |lines|)
  {
    ghost var t := tx.db;
    ReserveNothing(t, o, w, lines);
    for j := 0 to |lines|
      invariant tx.db == ReservedUpTo(t, o, w, lines, j)
      invariant StockCoversUpTo(t.products, lines, j)
    {
      assert (w, lines[j].product) in t.stock;
      var done := ReserveLine(tx, o, w, lines[j]);
      StockCoversStep(t.products, lines, j);
      if !done {
        if StockCovers(t.products, lines) { StockCoversPrefix(t.products, lines, j + 1); }
        return false;
      }
      ReserveStep(t, o, w, lines, j);
    }
    return true;
  }

  method Allocate(tx: Tx, shop: Id, o: Id, lines: seq<Line>) returns (r: Result<Id>)
    requires o < |tx.db.orders|
    modifies tx
    ensures match AllocateTx(old(tx.db), shop, o, lines)
      case Ok(after) => tx.db == after && r.Ok? && Some(r.value) == Choose(old(tx.db), shop, lines)
      case Err(e) => r == Err(e)
    ensures r.Ok? ==> Eligible(old(tx.db), shop, lines, r.value) && forall w: Id :: Eligible(old(tx.db), shop, lines, w) ==>
      var b, other := old(tx.db).warehouses[r.value], old(tx.db).warehouses[w];
      other.priority < b.priority || (other.priority == b.priority && b.code <= other.code)
  {
    if lines == [] { return Err(NoWarehouse); }
    var required := AggregateRequiredQuantity(lines);
    if required.Err? { return Err(NoWarehouse); }
    ChoosesBestWarehouse(tx.db, shop, lines);
    var candidates := Candidates(tx.db.warehouses, shop, |tx.db.warehouses|);
    var j := 0;
    while j < |candidates|
      invariant j <= |candidates|
      invariant tx.db == old(tx.db)
      invariant Choose(tx.db, shop, lines) == FirstCovering(tx.db.stock, lines, candidates[j..])
    {
      var w := candidates[j];
      var eligible := CoversRequired(tx.db.stock, lines, required.value, w);
      if eligible {
        var ok := ReserveLines(tx, o, w, lines);
        if !ok { return Err(Drift); }
        tx.db := tx.db.(orders := tx.db.orders[o := tx.db.orders[o].(warehouse := Some(w))]);
        return Ok(w);
      }
      j := j + 1;
    }
    return Err(NoWarehouse);
  }

  // ----- Commit -----

  function CommittedRows(rs: map<Id, Reservation>, o: Id): map<Id, Reservation> {
    map i | i in rs :: if rs[i].order == o && rs[i].status == Active then rs[i].(status := Committed) else rs[i]
  }

  lemma CommitHeld(rs: map<Id, Reservation>, n: nat, o: Id, w: Id, p: Id)
    ensures Held(CommittedRows(rs, o), n, w, p) == Held(rs, n, w, p)
  {
    SumEqual(n, HeldFn(CommittedRows(rs, o), w, p), HeldFn(rs, w, p));
  }

  /** No reservation of the order is left uncommitted, no other reservation changes, and every warehouse still holds for
      reservations exactly what it held. */
  method Commit(tx: Tx, o: Id)
    modifies tx
    ensures tx.db == old(tx.db).(reservations := CommittedRows(old(tx.db).reservations, o))
    ensures forall i <- tx.db.reservations :: tx.db.reservations[i].order == o ==> tx.db.reservations[i].status != Active
    ensures forall i <- tx.db.reservations :: tx.db.reservations[i].order != o ==> tx.db.reservations[i] == old(tx.db).reservations[i]
    ensures forall w: Id, p: Id ::
      Held(tx.db.reservations, |tx.db.items|, w, p) == Held(old(tx.db).reservations, |tx.db.items|, w, p)
  {
    forall w: Id, p: Id ensures Held(CommittedRows(tx.db.reservations, o), |tx.db.items|, w, p)
      == Held(tx.db.reservations, |tx.db.items|, w, p)
    {
      CommitHeld(tx.db.reservations, |tx.db.items|, o, w, p);
    }
    tx.db := tx.db.(reservations := CommittedRows(tx.db.reservations, o));
  }

  // ----- Release -----

  function ReleasedRows(rs: map<Id, Reservation>, o: Id): map<Id, Reservation> {
    map i | i in rs :: if rs[i].order == o && Open(rs[i]) then rs[i].(status := Released) else rs[i]
  }

  /** The warehouse rows after the order's reservations among the first `n` items are given back. */
  function Freed(t: Tables, o: Id, n: nat): map<(Id, Id), Stock> {
    map c | c in t.stock :: t.stock[c].(reserved := t.stock[c].reserved - Owed(t.reservations, n, o, c.0, c.1))
  }

  function Restocked(t: Tables, o: Id, n: nat): (r: seq<Product>)
    ensures |r| == |t.products|
  {
    seq(|t.products|, p requires 0 <= p < |t.products| =>
      t.products[p].(stock := t.products[p].stock + OwedProduct(t.reservations, n, o, p)))
  }

  function ReservedAt(stock: map<(Id, Id), Stock>, w: Id, p: Id): int {
    if (w, p) in stock then stock[(w, p)].reserved else 0
  }

  /** The order's reservations among the first `n` items are covered by what the warehouse rows have reserved. */
  ghost predicate CanRelease(t: Tables, o: Id, n: nat) {
    forall w: Id, p: Id :: Owed(t.reservations, n, o, w, p) <= ReservedAt(t.stock, w, p)
  }

  ghost function ReleaseTx(t: Tables, o: Id): Result<Tables> {
    if CanRelease(t, o, |t.items|) then Ok(ReleasedUpTo(t, o, |t.items|)) else Err(Drift)
  }

  function ReleasedUpTo(t: Tables, o: Id, n: nat): Tables {
    t.(reservations := ReleasedRows(t.reservations, o), stock := Freed(t, o, n), products := Restocked(t, o, n))
  }

  function RowReleased(t: Tables, c: (Id, Id), quantity: int): Tables
    requires c in t.stock
  {
    t.(stock := t.stock[c := t.stock[c].(reserved := t.stock[c].reserved - quantity)],
       products := if c.1 < |t.products| then t.products[c.1 := t.products[c.1].(stock := t.products[c.1].stock + quantity)]
         else t.products)
  }

  /** The guarded update of one released row and its aggregate stock. */
  method ReleaseRow(tx: Tx, c: (Id, Id), quantity: int) returns (ok: bool)
    modifies tx
    ensures ok == (c in old(tx.db).stock && quantity <= old(tx.db).stock[c].reserved)
    ensures ok ==> tx.db == RowReleased(old(tx.db), c, quantity)
  {
    if c !in tx.db.stock || tx.db.stock[c].reserved < quantity { return false; }
    tx.db := tx.db.(stock := tx.db.stock[c := tx.db.stock[c].(reserved := tx.db.stock[c].reserved - quantity)]);
    if c.1 < |tx.db.products| {
      tx.db := tx.db.(products := tx.db.products[c.1 := tx.db.products[c.1].(stock := tx.db.products[c.1].stock + quantity)]);
    }
    return true;
  }

  /** Item `i` is a row that the release loop updates. */
  predicate Releasable(t: Tables, o: Id, i: Id) {
    i in t.reservations && t.reservations[i].order == o && Open(t.reservations[i])
    && t.reservations[i].quantity != t.reservations[i].fulfilled
  }

  lemma OwedStep(t: Tables, o: Id, i: nat)
    requires Checked(t)
    ensures forall w: Id, p: Id ::
      Owed(t.reservations, i + 1, o, w, p) == Owed(t.reservations, i, o, w, p) + OwedTerm(t.reservations, o, w, p, i)
    ensures forall w: Id, p: Id :: 0 <= OwedTerm(t.reservations, o, w, p, i)
    ensures forall p: Id ::
      OwedProduct(t.reservations, i + 1, o, p) == OwedProduct(t.reservations, i, o, p) + OwedProductTerm(t.reservations, o, p, i)
  {}

  lemma ReleaseNothing(t: Tables, o: Id)
    ensures ReleasedUpTo(t, o, 0) == t.(reservations := ReleasedRows(t.reservations, o))
  {}

  lemma ReleaseSkip(t: Tables, o: Id, i: nat)
    requires Checked(t) && !Releasable(t, o, i)
    ensures ReleasedUpTo(t, o, i + 1) == ReleasedUpTo(t, o, i)
    ensures CanRelease(t, o, i) ==> CanRelease(t, o, i + 1)
  {}

  lemma FreedStep(t: Tables, o: Id, i: nat, c: (Id, Id), q: int)
    requires Releasable(t, o, i) && c in t.stock
    requires c == (t.reservations[i].warehouse, t.reservations[i].product)
    requires q == t.reservations[i].quantity - t.reservations[i].fulfilled
    ensures var now := Freed(t, o, i); Freed(t, o, i + 1) == now[c := now[c].(reserved := now[c].reserved - q)]
  {}

  lemma RestockedStep(t: Tables, o: Id, i: nat, p: Id, q: int)
    requires Releasable(t, o, i) && p == t.reservations[i].product
    requires q == t.reservations[i].quantity - t.reservations[i].fulfilled
    ensures var now := Restocked(t, o, i);
      Restocked(t, o, i + 1) == if p < |now| then now[p := now[p].(stock := now[p].stock + q)] else now
  {}

  lemma ReleaseStep(t: Tables, o: Id, i: nat)
    requires Releasable(t, o, i)
    ensures var r, now := t.reservations[i], ReleasedUpTo(t, o, i);
      var c := (r.warehouse, r.product);
      c in now.stock ==> ReleasedUpTo(t, o, i + 1) == RowReleased(now, c, r.quantity - r.fulfilled)
  {
    var r := t.reservations[i];
    var c, q := (r.warehouse, r.product), r.quantity - r.fulfilled;
    if c in t.stock {
      FreedStep(t, o, i, c, q);
      RestockedStep(t, o, i, c.1, q);
    }
  }

  /** The guard of row `i` passes exactly when the totals including that row are still covered. */
  lemma ReleaseGuard(t: Tables, o: Id, i: nat)
    requires Checked(t) && Releasable(t, o, i) && CanRelease(t, o, i)
    ensures var r, now := t.reservations[i], Freed(t, o, i);
      var c := (r.warehouse, r.product);
      CanRelease(t, o, i + 1) <==> c in now && r.quantity - r.fulfilled <= now[c].reserved
  {
    OwedStep(t, o, i);
    var r := t.reservations[i];
    var w, p := r.warehouse, r.product;
    assert OwedTerm(t.reservations, o, w, p, i) == r.quantity - r.fulfilled;
    if Owed(t.reservations, i + 1, o, w, p) <= ReservedAt(t.stock, w, p) {
      forall v: Id, u: Id ensures Owed(t.reservations, i + 1, o, v, u) <= ReservedAt(t.stock, v, u) {
        assert Owed(t.reservations, i, o, v, u) <= ReservedAt(t.stock, v, u);
        if v != w || u != p { assert OwedTerm(t.reservations, o, v, u, i) == 0; }
      }
    }
    assert Owed(t.reservations, i, o, w, p) <= ReservedAt(t.stock, w, p);
    if (w, p) !in t.stock {
      SumPrefix(0, i, OwedFn(t.reservations, o, w, p));
    }
  }

  lemma CanReleasePrefix(t: Tables, o: Id, i: nat)
    requires Checked(t) && i <= |t.items| && CanRelease(t, o, |t.items|)
    ensures CanRelease(t, o, i)
  {
    forall w: Id, p: Id ensures Owed(t.reservations, i, o, w, p) <= ReservedAt(t.stock, w, p) {
      SumPrefix(i, |t.items|, OwedFn(t.reservations, o, w, p));
    }
  }

  /** One turn of the release loop: it goes on in step with the totals, or stops because they are not covered. */
  lemma ReleaseTurn(t: Tables, o: Id, i: nat)
    requires Checked(t) && i < |t.items| && Releasable(t, o, i) && CanRelease(t, o, i)
    ensures var r, now := t.reservations[i], ReleasedUpTo(t, o, i);
      var c, q := (r.warehouse, r.product), r.quantity - r.fulfilled;
      if c in now.stock && q <= now.stock[c].reserved
        then CanRelease(t, o, i + 1) && ReleasedUpTo(t, o, i + 1) == RowReleased(now, c, q)
        else !CanRelease(t, o, |t.items|)
  {
    ReleaseStep(t, o, i);
    ReleaseGuard(t, o, i);
    if CanRelease(t, o, |t.items|) { CanReleasePrefix(t, o, i + 1); }
  }

  /** The body of the release loop, for the order's reservations `rows` as the statement returned them. */
  method ReleaseItem(tx: Tx, rows: map<Id, Reservation>, o: Id, i: Id, ghost t: Tables) returns (ok: bool)
    requires Checked(t) && i < |t.items| && CanRelease(t, o, i) && rows == t.reservations
    requires tx.db == ReleasedUpTo(t, o, i)
    modifies tx
    ensures ok ==> tx.db == ReleasedUpTo(t, o, i + 1) && CanRelease(t, o, i + 1)
    ensures !ok ==> !CanRelease(t, o, |t.items|)
  {
    if i in rows && rows[i].order == o && Open(rows[i]) && rows[i].quantity - rows[i].fulfilled != 0 {
      ReleaseTurn(t, o, i);
      ok := ReleaseRow(tx, (rows[i].warehouse, rows[i].product), rows[i].quantity - rows[i].fulfilled);
    } else {
      ReleaseSkip(t, o, i);
      ok := true;
    }
  }

  /** The release loop, after the statement that marks the reservations. */
  method ReleaseItems(tx: Tx, rows: map<Id, Reservation>, o: Id, ghost t: Tables) returns (ok: bool)
    requires Checked(t) && rows == t.reservations && tx.db == ReleasedUpTo(t, o, 0)
    modifies tx
    ensures ok == CanRelease(t, o, |t.items|)
    ensures ok ==> tx.db == ReleasedUpTo(t, o, |t.items|)
  {
    for i := 0 to |tx.db.items|
      invariant tx.db == ReleasedUpTo(t, o, i)
      invariant CanRelease(t, o, i)
    {
      var done := ReleaseItem(tx, rows, o, i, t);
      if !done { return false; }
    }
    return true;
  }

  method Release(tx: Tx, o: Id) returns (ok: bool)
    requires Checked(tx.db)
    modifies tx
    ensures ok == ReleaseTx(old(tx.db), o).Ok?
    ensures ok ==> tx.db == ReleaseTx(old(tx.db), o).value
  {
    ghost var t := tx.db;
    var rows := tx.db.reservations;
    tx.db := tx.db.(reservations := ReleasedRows(tx.db.reservations, o));
    ReleaseNothing(t, o);
    ok := ReleaseItems(tx, rows, o, t);
  }

  // ----- FulfillPackage -----

  function FulfilledRow(r: Reservation, q: int): Reservation {
    r.(fulfilled := r.fulfilled + q, status := if r.fulfilled + q == r.quantity then Fulfilled else r.status)
  }

  /** The reservations after the package's lines among the first `n` items are fulfilled. */
  function FulfilledRows(rs: map<Id, Reservation>, lines: map<Id, int>, n: nat): map<Id, Reservation> {
    map i | i in rs :: if i < n && i in lines then FulfilledRow(rs[i], lines[i]) else rs[i]
  }

  function Consumed(t: Tables, lines: map<Id, int>, n: nat): map<(Id, Id), Stock> {
    map c | c in t.stock ::
      var q := Packed(t.reservations, lines, n, c.0, c.1);
      Stock(t.stock[c].onHand - q, t.stock[c].reserved - q)
  }

  /** The package has reservations, each open and large enough, and the warehouse rows hold their totals. */
  ghost predicate CanFulfill(t: Tables, lines: map<Id, int>, n: nat) {
    && (forall i :: i < n && i in lines && i in t.reservations ==>
          Open(t.reservations[i]) && t.reservations[i].fulfilled + lines[i] <= t.reservations[i].quantity)
    && (forall w: Id, p: Id :: Packed(t.reservations, lines, n, w, p) <= ReservedAt(t.stock, w, p))
  }

  ghost predicate HasRows(t: Tables, lines: map<Id, int>, n: nat) {
    exists i :: i < n && i in lines && i in t.reservations
  }

  ghost function FulfillTx(t: Tables, k: Id): Result<Tables>
    requires k < |t.packages|
  {
    var lines, n := t.packages[k].lines, |t.items|;
    if HasRows(t, lines, n) && CanFulfill(t, lines, n) then Ok(FulfilledUpTo(t, lines, n)) else Err(Drift)
  }

  function FulfilledUpTo(t: Tables, lines: map<Id, int>, n: nat): Tables {
    t.(reservations := FulfilledRows(t.reservations, lines, n), stock := Consumed(t, lines, n))
  }

  function RowFulfilled(t: Tables, i: Id, r: Reservation, q: int): Tables
    requires (r.warehouse, r.product) in t.stock
  {
    var c := (r.warehouse, r.product);
    t.(stock := t.stock[c := Stock(t.stock[c].onHand - q, t.stock[c].reserved - q)],
       reservations := t.reservations[i := FulfilledRow(r, q)])
  }

  predicate RowFits(t: Tables, r: Reservation, q: int) {
    && Open(r) && r.fulfilled + q <= r.quantity && (r.warehouse, r.product) in t.stock
    && q <= t.stock[(r.warehouse, r.product)].onHand && q <= t.stock[(r.warehouse, r.product)].reserved
  }

  /** The guards and updates for one joined row of the package. */
  method FulfillRow(tx: Tx, i: Id, r: Reservation, q: int) returns (ok: bool)
    modifies tx
    ensures ok == RowFits(old(tx.db), r, q)
    ensures ok ==> tx.db == RowFulfilled(old(tx.db), i, r, q)
  {
    if !Open(r) || r.fulfilled + q > r.quantity { return false; }
    var c := (r.warehouse, r.product);
    if c !in tx.db.stock || tx.db.stock[c].onHand < q || tx.db.stock[c].reserved < q { return false; }
    tx.db := tx.db.(stock := tx.db.stock[c := Stock(tx.db.stock[c].onHand - q, tx.db.stock[c].reserved - q)]);
    tx.db := tx.db.(reservations := tx.db.reservations[i := FulfilledRow(r, q)]);
    return true;
  }

  lemma PackedStep(t: Tables, lines: map<Id, int>, i: nat)
    ensures forall w: Id, p: Id ::
      Packed(t.reservations, lines, i + 1, w, p) == Packed(t.reservations, lines, i, w, p) + PackedTerm(t.reservations, lines, w, p, i)
  {}

  lemma FulfillNothing(t: Tables, lines: map<Id, int>)
    ensures FulfilledUpTo(t, lines, 0) == t
  {}

  lemma FulfillSkip(t: Tables, lines: map<Id, int>, i: nat)
    requires i !in lines || i !in t.reservations
    ensures FulfilledUpTo(t, lines, i + 1) == FulfilledUpTo(t, lines, i)
    ensures CanFulfill(t, lines, i) ==> CanFulfill(t, lines, i + 1)
  {
    PackedStep(t, lines, i);
    assert Consumed(t, lines, i + 1) == Consumed(t, lines, i);
    assert FulfilledRows(t.reservations, lines, i + 1) == FulfilledRows(t.reservations, lines, i);
  }

  lemma ConsumedStep(t: Tables, lines: map<Id, int>, i: nat, c: (Id, Id))
    requires i in lines && i in t.reservations && c == (t.reservations[i].warehouse, t.reservations[i].product) && c in t.stock
    ensures var now := Consumed(t, lines, i);
      Consumed(t, lines, i + 1) == now[c := Stock(now[c].onHand - lines[i], now[c].reserved - lines[i])]
  {}

  lemma FulfillStep(t: Tables, lines: map<Id, int>, i: nat)
    requires i in lines && i in t.reservations
    ensures var r, now := t.reservations[i], FulfilledUpTo(t, lines, i);
      RowFits(now, r, lines[i]) ==> FulfilledUpTo(t, lines, i + 1) == RowFulfilled(now, i, r, lines[i])
  {
    var r := t.reservations[i];
    var c := (r.warehouse, r.product);
    if c in t.stock {
      ConsumedStep(t, lines, i, c);
      assert FulfilledRows(t.reservations, lines, i + 1) == FulfilledRows(t.reservations, lines, i)[i := FulfilledRow(r, lines[i])];
    }
  }

  /** The guards of row `i` pass exactly when the totals including that row are still covered. */
  lemma FulfillGuard(t: Tables, lines: map<Id, int>, i: nat)
    requires Checked(t) && CanFulfill(t, lines, i)
    requires i in lines && i in t.reservations && forall j <- lines :: 0 < lines[j]
    ensures CanFulfill(t, lines, i + 1) <==> RowFits(FulfilledUpTo(t, lines, i), t.reservations[i], lines[i])
  {
    PackedStep(t, lines, i);
    var r, now := t.reservations[i], Consumed(t, lines, i);
    var w, p := r.warehouse, r.product;
    assert PackedTerm(t.reservations, lines, w, p, i) == lines[i];
    if Packed(t.reservations, lines, i + 1, w, p) <= ReservedAt(t.stock, w, p) {
      forall v: Id, u: Id ensures Packed(t.reservations, lines, i + 1, v, u) <= ReservedAt(t.stock, v, u) {
        assert Packed(t.reservations, lines, i, v, u) <= ReservedAt(t.stock, v, u);
        if v != w || u != p { assert PackedTerm(t.reservations, lines, v, u, i) == 0; }
      }
    }
    assert Packed(t.reservations, lines, i, w, p) <= ReservedAt(t.stock, w, p);
    if (w, p) in t.stock {
      assert now[(w, p)].reserved <= now[(w, p)].onHand;
    } else {
      SumPrefix(0, i, PackedFn(t.reservations, lines, w, p));
    }
  }

  lemma CanFulfillPrefix(t: Tables, lines: map<Id, int>, i: nat)
    requires i <= |t.items| && CanFulfill(t, lines, |t.items|)
    requires forall j <- lines :: 0 < lines[j]
    ensures CanFulfill(t, lines, i)
  {
    forall w: Id, p: Id ensures Packed(t.reservations, lines, i, w, p) <= ReservedAt(t.stock, w, p) {
      SumPrefix(i, |t.items|, PackedFn(t.reservations, lines, w, p));
    }
  }

  /** One turn of the loop: it goes on in step with the totals, or stops because they are not covered. */
  lemma FulfillTurn(t: Tables, lines: map<Id, int>, i: nat)
    requires Checked(t) && i < |t.items| && CanFulfill(t, lines, i)
    requires i in lines && i in t.reservations && forall j <- lines :: 0 < lines[j]
    ensures var r, now := t.reservations[i], FulfilledUpTo(t, lines, i);
      if RowFits(now, r, lines[i])
        then CanFulfill(t, lines, i + 1) && FulfilledUpTo(t, lines, i + 1) == RowFulfilled(now, i, r, lines[i])
        else !CanFulfill(t, lines, |t.items|)
  {
    FulfillStep(t, lines, i);
    FulfillGuard(t, lines, i);
    if CanFulfill(t, lines, |t.items|) { CanFulfillPrefix(t, lines, i + 1); }
  }

  /** The body of the loop, for the reservations `rows` as the statement returned them. */
  method FulfillItem(tx: Tx, rows: map<Id, Reservation>, lines: map<Id, int>, i: Id, ghost t: Tables) returns (ok: bool, found: bool)
    requires Checked(t) && i < |t.items| && CanFulfill(t, lines, i) && rows == t.reservations
    requires tx.db == FulfilledUpTo(t, lines, i) && forall j <- lines :: 0 < lines[j]
    modifies tx
    ensures ok ==> tx.db == FulfilledUpTo(t, lines, i + 1) && CanFulfill(t, lines, i + 1)
    ensures !ok ==> !CanFulfill(t, lines, |t.items|)
    ensures found == (i in lines && i in rows)
  {
    found := i in lines && i in rows;
    if found {
      FulfillTurn(t, lines, i);
      ok := FulfillRow(tx, i, rows[i], lines[i]);
    } else {
      FulfillSkip(t, lines, i);
      ok := true;
    }
  }

  method FulfillPackage(tx: Tx, k: Id) returns (ok: bool)
    requires Checked(tx.db) && k < |tx.db.packages|
    modifies tx
    ensures ok == FulfillTx(old(tx.db), k).Ok?
    ensures ok ==> tx.db == FulfillTx(old(tx.db), k).value
  {
    ghost var t := tx.db;
    var lines, rows := tx.db.packages[k].lines, tx.db.reservations;
    assert forall j <- lines :: 0 < t.packages[k].lines[j];
    ok := false;
    FulfillNothing(t, lines);
    for i := 0 to |tx.db.items|
      invariant tx.db == FulfilledUpTo(t, lines, i)
      invariant CanFulfill(t, lines, i)
      invariant ok == HasRows(t, lines, i)
    {
      var done, found := FulfillItem(tx, rows, lines, i, t);
      if !done { return false; }
      ok := ok || found;
    }
  }
}
