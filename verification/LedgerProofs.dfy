/** How each stock operation moves the ledgers, and why no drift guard can fire in a consistent state. */
module LedgerProofs {
  import opened Schema
  import opened Sums
  import opened Inventory
  import opened Fulfillment
  import opened Invariants

  lemma HeldNonNegative(t: Tables, w: Id, p: Id)
    requires Linked(t)
    ensures forall i: nat :: 0 <= HeldFn(t.reservations, w, p)(i)
  {
    forall i: nat ensures 0 <= HeldTerm(t.reservations, w, p, i) {
      if i in t.reservations { assert ItemLinked(t, i); }
    }
  }

  lemma OwedNonNegative(t: Tables, o: Id, w: Id, p: Id)
    requires Linked(t)
    ensures 0 <= Owed(t.reservations, |t.items|, o, w, p)
  {
    HeldNonNegative(t, w, p);
    forall i: nat ensures 0 <= OwedFn(t.reservations, o, w, p)(i) { assert 0 <= HeldFn(t.reservations, w, p)(i); }
    SumPrefix(0, |t.items|, OwedFn(t.reservations, o, w, p));
  }

  /** In a consistent state the warehouse rows always cover what an order has reserved. */
  lemma CanAlwaysRelease(t: Tables, o: Id)
    requires Linked(t) && Ledger(t)
    ensures CanRelease(t, o, |t.items|)
  {
    forall w: Id, p: Id ensures Owed(t.reservations, |t.items|, o, w, p) <= ReservedAt(t.stock, w, p) {
      HeldNonNegative(t, w, p);
      SumMonotone(|t.items|, OwedFn(t.reservations, o, w, p), HeldFn(t.reservations, w, p));
      assert ReservedAt(t.stock, w, p) == Held(t.reservations, |t.items|, w, p);
    }
  }

  lemma ReleaseHeld(t: Tables, o: Id, w: Id, p: Id)
    ensures Held(ReleasedRows(t.reservations, o), |t.items|, w, p)
      == Held(t.reservations, |t.items|, w, p) - Owed(t.reservations, |t.items|, o, w, p)
  {
    SumPlus(|t.items|, HeldFn(ReleasedRows(t.reservations, o), w, p), OwedFn(t.reservations, o, w, p), HeldFn(t.reservations, w, p));
  }

  /** All of an order's reserved stock sits in its one warehouse. */
  lemma OwedAtOneWarehouse(t: Tables, o: Id, w: Id, p: Id)
    requires Linked(t) && o < |t.orders|
    ensures t.orders[o].warehouse == Some(w) ==> Owed(t.reservations, |t.items|, o, w, p) == OwedProduct(t.reservations, |t.items|, o, p)
    ensures t.orders[o].warehouse != Some(w) ==> Owed(t.reservations, |t.items|, o, w, p) == 0
  {
    assert OrderLinked(t, o);
    assert forall i <- t.reservations :: ItemLinked(t, i);
    if t.orders[o].warehouse == Some(w) {
      SumEqual(|t.items|, OwedFn(t.reservations, o, w, p), OwedProductFn(t.reservations, o, p));
    } else {
      SumZero(|t.items|, OwedFn(t.reservations, o, w, p));
    }
  }

  lemma FreedRowFits(t: Tables, o: Id, c: (Id, Id))
    requires Linked(t) && Ledger(t) && c in t.stock
    ensures var row := Freed(t, o, |t.items|)[c]; 0 <= row.reserved <= row.onHand
  {
    CanAlwaysRelease(t, o);
    assert Owed(t.reservations, |t.items|, o, c.0, c.1) <= ReservedAt(t.stock, c.0, c.1);
    OwedNonNegative(t, o, c.0, c.1);
  }

  lemma FreedHeld(t: Tables, o: Id, w: Id, p: Id)
    requires Linked(t) && Ledger(t)
    ensures ReservedAt(Freed(t, o, |t.items|), w, p) == Held(ReleasedRows(t.reservations, o), |t.items|, w, p)
  {
    CanAlwaysRelease(t, o);
    ReleaseHeld(t, o, w, p);
    OwedNonNegative(t, o, w, p);
    assert Owed(t.reservations, |t.items|, o, w, p) <= ReservedAt(t.stock, w, p) == Held(t.reservations, |t.items|, w, p);
  }

  lemma FreedAvailable(t: Tables, o: Id, p: Id)
    requires Linked(t) && Ledger(t) && o < |t.orders| && p < |t.products|
    ensures Restocked(t, o, |t.items|)[p].stock == Available(Freed(t, o, |t.items|), |t.warehouses|, p)
  {
    var n, freed := |t.items|, Freed(t, o, |t.items|);
    assert OrderLinked(t, o);
    var home := t.orders[o].warehouse.value;
    forall w: Id ensures w != home ==> Owed(t.reservations, n, o, w, p) == 0 { OwedAtOneWarehouse(t, o, w, p); }
    OwedAtOneWarehouse(t, o, home, p);
    SumChange(|t.warehouses|, AvailableFn(t.stock, p), AvailableFn(freed, p), home);
    CanAlwaysRelease(t, o);
    assert Owed(t.reservations, n, o, home, p) <= ReservedAt(t.stock, home, p);
    OwedNonNegative(t, o, home, p);
  }

  lemma ReleaseKeepsLedger(t: Tables, o: Id)
    requires Linked(t) && Ledger(t) && o < |t.orders|
    ensures ReleaseTx(t, o).Ok? && Ledger(ReleaseTx(t, o).value)
  {
    CanAlwaysRelease(t, o);
    var u, n := ReleaseTx(t, o).value, |t.items|;
    forall c <- u.stock ensures 0 <= u.stock[c].reserved <= u.stock[c].onHand { FreedRowFits(t, o, c); }
    forall w: Id, p: Id ensures ReservedAt(u.stock, w, p) == Held(u.reservations, n, w, p) { FreedHeld(t, o, w, p); }
    forall p: Id | p < |u.products| ensures u.products[p].stock == Available(u.stock, |u.warehouses|, p) {
      FreedAvailable(t, o, p);
    }
  }

  // ----- shipping -----

  /** Marking a ready package as moved adds its lines to what has departed and changes no packaged total. */
  lemma MovePackage(ps: seq<Package>, k: Id, s: PackageStatus, i: Id)
    requires k < |ps| && s.PackageMoved?
    ensures var qs := ps[k := ps[k].(status := s)];
      && Packaged(qs, i) == Packaged(ps, i)
      && Departed(qs, i) == Departed(ps, i) + if ps[k].status.PackageReady? && i in ps[k].lines then ps[k].lines[i] else 0
  {
    var qs := ps[k := ps[k].(status := s)];
    SumEqual(|ps|, PackagedFn(ps, i), PackagedFn(qs, i));
    SumChange(|ps|, DepartedFn(ps, i), DepartedFn(qs, i), k);
  }

  lemma DepartedWithinPackaged(t: Tables, i: Id)
    requires Linked(t)
    ensures 0 <= Departed(t.packages, i) <= Packaged(t.packages, i)
  {
    forall k: nat ensures 0 <= DepartedTerm(t.packages, i, k) <= PackagedTerm(t.packages, i, k) {
      if k < |t.packages| { assert PackageLinked(t, k); }
    }
    SumMonotone(|t.packages|, DepartedFn(t.packages, i), PackagedFn(t.packages, i));
    SumPrefix(0, |t.packages|, DepartedFn(t.packages, i));
  }

  /** A ready package fits inside what is still unfulfilled of each of its items. */
  lemma ReadyPackageFits(t: Tables, k: Id, i: Id)
    requires Linked(t) && Quantities(t) && k < |t.packages| && t.packages[k].status.PackageReady? && i in t.packages[k].lines
    ensures i < |t.items| && i in t.reservations
    ensures t.reservations[i].fulfilled + t.packages[k].lines[i] <= t.reservations[i].quantity
  {
    assert PackageLinked(t, k);
    assert ItemLinked(t, i);
    MovePackage(t.packages, k, PackageMoved(ParcelShipped), i);
    var qs := t.packages[k := t.packages[k].(status := PackageMoved(ParcelShipped))];
    var u := t.(packages := qs);
    forall j: nat ensures 0 <= DepartedTerm(qs, i, j) <= PackagedTerm(qs, i, j) {
      if j < |qs| { assert PackageLinked(t, j); }
    }
    SumMonotone(|qs|, DepartedFn(qs, i), PackagedFn(qs, i));
  }

  /** Lines that fit inside open reservations are covered by what the warehouse rows have reserved. */
  lemma FittingLinesCovered(t: Tables, lines: map<Id, int>, w: Id, p: Id)
    requires Linked(t) && Ledger(t)
    requires forall i <- lines ::
      i in t.reservations && Open(t.reservations[i]) && t.reservations[i].fulfilled + lines[i] <= t.reservations[i].quantity
    ensures Packed(t.reservations, lines, |t.items|, w, p) <= ReservedAt(t.stock, w, p)
  {
    HeldNonNegative(t, w, p);
    SumMonotone(|t.items|, PackedFn(t.reservations, lines, w, p), HeldFn(t.reservations, w, p));
    assert ReservedAt(t.stock, w, p) == Held(t.reservations, |t.items|, w, p);
  }

  lemma FittingLinesFulfill(t: Tables, lines: map<Id, int>)
    requires Linked(t) && Ledger(t)
    requires forall i <- lines ::
      i in t.reservations && Open(t.reservations[i]) && t.reservations[i].fulfilled + lines[i] <= t.reservations[i].quantity
    ensures CanFulfill(t, lines, |t.items|)
  {
    forall w: Id, p: Id ensures Packed(t.reservations, lines, |t.items|, w, p) <= ReservedAt(t.stock, w, p) {
      FittingLinesCovered(t, lines, w, p);
    }
  }

  /** No guard of `FulfillPackage` can fire for a ready package whose reservations are open. */
  lemma CanAlwaysFulfill(t: Tables, k: Id)
    requires Linked(t) && Ledger(t) && Quantities(t) && k < |t.packages| && t.packages[k].status.PackageReady?
    requires forall i <- t.packages[k].lines :: i in t.reservations ==> Open(t.reservations[i])
    ensures FulfillTx(t, k).Ok?
  {
    var lines := t.packages[k].lines;
    assert PackageLinked(t, k);
    forall i <- lines ensures i in t.reservations && t.reservations[i].fulfilled + lines[i] <= t.reservations[i].quantity {
      ReadyPackageFits(t, k, i);
    }
    FittingLinesFulfill(t, lines);
    var some :| some in lines;
    assert HasRows(t, lines, |t.items|);
  }

  lemma FulfillHeld(t: Tables, lines: map<Id, int>, w: Id, p: Id)
    requires CanFulfill(t, lines, |t.items|)
    ensures Held(FulfilledRows(t.reservations, lines, |t.items|), |t.items|, w, p)
      == Held(t.reservations, |t.items|, w, p) - Packed(t.reservations, lines, |t.items|, w, p)
  {
    SumPlus(|t.items|, HeldFn(FulfilledRows(t.reservations, lines, |t.items|), w, p), PackedFn(t.reservations, lines, w, p),
      HeldFn(t.reservations, w, p));
  }

  lemma FulfillKeepsLedger(t: Tables, k: Id)
    requires Linked(t) && Ledger(t) && k < |t.packages| && FulfillTx(t, k).Ok?
    ensures Ledger(FulfillTx(t, k).value)
  {
    var u, lines, n := FulfillTx(t, k).value, t.packages[k].lines, |t.items|;
    assert PackageLinked(t, k);
    forall c <- u.stock ensures 0 <= u.stock[c].reserved <= u.stock[c].onHand {
      assert Packed(t.reservations, lines, n, c.0, c.1) <= ReservedAt(t.stock, c.0, c.1);
    }
    forall w: Id, p: Id ensures ReservedAt(u.stock, w, p) == Held(u.reservations, n, w, p) {
      FulfillHeld(t, lines, w, p);
      SumPrefix(0, n, PackedFn(t.reservations, lines, w, p));
      assert Packed(t.reservations, lines, n, w, p) <= ReservedAt(t.stock, w, p) == Held(t.reservations, n, w, p);
    }
    forall p: Id | p < |u.products| ensures u.products[p].stock == Available(u.stock, |u.warehouses|, p) {
      SumEqual(|t.warehouses|, AvailableFn(t.stock, p), AvailableFn(u.stock, p));
    }
  }

  // ----- reserving -----

  lemma BookedOneMore(rs: map<Id, Reservation>, o: Id, w: Id, n: Id, wants: seq<Want>, j: nat)
    requires 0 < j <= |wants|
    ensures Booked(rs, o, w, LinesOf(n, wants)[..j]) == Booked(rs, o, w, LinesOf(n, wants)[..j - 1])[
      n + j - 1 := Reservation(o, wants[j - 1].product, w, wants[j - 1].quantity, 0, Active)]
  {
    var lines := LinesOf(n, wants);
    assert lines[..j][..j - 1] == lines[..j - 1] && lines[..j][j - 1] == lines[j - 1];
  }

  lemma {:induction false} BookedRows(rs: map<Id, Reservation>, o: Id, w: Id, n: Id, wants: seq<Want>, j: nat)
    requires j <= |wants|
    ensures var b := Booked(rs, o, w, LinesOf(n, wants)[..j]);
      && (forall i: Id :: i in b <==> i in rs || n <= i < n + j)
      && (forall i <- b :: b[i] == if n <= i < n + j then Reservation(o, wants[i - n].product, w, wants[i - n].quantity, 0, Active)
            else rs[i])
  {
    if j == 0 {
      assert LinesOf(n, wants)[..0] == [];
    } else {
      BookedRows(rs, o, w, n, wants, j - 1);
      BookedOneMore(rs, o, w, n, wants, j);
    }
  }

  lemma {:induction false} BookedHeld(rs: map<Id, Reservation>, o: Id, w: Id, n: Id, wants: seq<Want>, j: nat, v: Id, p: Id)
    requires j <= |wants|
    ensures Held(Booked(rs, o, w, LinesOf(n, wants)[..j]), n + j, v, p)
      == Held(rs, n, v, p) + if v == w then Sum(j, NeedFn(LinesOf(n, wants), p)) else 0
  {
    var lines := LinesOf(n, wants);
    if j == 0 {
      assert lines[..0] == [];
    } else {
      BookedHeld(rs, o, w, n, wants, j - 1, v, p);
      var before, after := Booked(rs, o, w, lines[..j - 1]), Booked(rs, o, w, lines[..j]);
      assert lines[..j][..j - 1] == lines[..j - 1];
      SumEqual(n + j - 1, HeldFn(before, v, p), HeldFn(after, v, p));
    }
  }

  /** Reserving at one covering warehouse moves the warehouse rows and the product stock by the same totals. */
  lemma ReserveKeepsAvailable(stock: map<(Id, Id), Stock>, products: seq<Product>, n: nat, home: Id, lines: seq<Line>, p: Id)
    requires ValidLines(lines) && Covers(stock, lines, home) && home < n && p < |products|
    requires products[p].stock == Available(stock, n, p)
    ensures TakeStock(products, lines, |lines|)[p].stock == Available(ReserveAt(stock, home, lines, |lines|), n, p)
  {
    SumChange(n, AvailableFn(stock, p), AvailableFn(ReserveAt(stock, home, lines, |lines|), p), home);
    NeedWithin(stock, lines, home, p);
  }

  lemma ReserveKeepsHeld(t: Tables, o: Id, home: Id, wants: seq<Want>, w: Id, p: Id)
    requires var lines := LinesOf(|t.items|, wants); ValidLines(lines) && Covers(t.stock, lines, home)
    requires ReservedAt(t.stock, w, p) == Held(t.reservations, |t.items|, w, p)
    ensures var lines := LinesOf(|t.items|, wants);
      ReservedAt(ReserveAt(t.stock, home, lines, |lines|), w, p)
        == Held(Booked(t.reservations, o, home, lines), |t.items| + |wants|, w, p)
  {
    var lines := LinesOf(|t.items|, wants);
    assert lines[..|wants|] == lines;
    BookedHeld(t.reservations, o, home, |t.items|, wants, |wants|, w, p);
    NeedWithin(t.stock, lines, home, p);
  }

  lemma ReserveKeepsLedger(t: Tables, o: Id, home: Id, wants: seq<Want>, u: Tables)
    requires Linked(t) && Ledger(t) && home < |t.warehouses|
    requires var lines := LinesOf(|t.items|, wants);
      && ValidLines(lines) && Covers(t.stock, lines, home)
      && u.stock == ReserveAt(t.stock, home, lines, |lines|) && u.products == TakeStock(t.products, lines, |lines|)
      && u.reservations == Booked(t.reservations, o, home, lines)
      && |u.items| == |t.items| + |wants| && u.warehouses == t.warehouses
    ensures Ledger(u)
  {
    var lines := LinesOf(|t.items|, wants);
    forall c <- u.stock ensures 0 <= u.stock[c].reserved <= u.stock[c].onHand {
      NeedWithin(t.stock, lines, home, c.1);
    }
    forall w: Id, p: Id ensures ReservedAt(u.stock, w, p) == Held(u.reservations, |u.items|, w, p) {
      ReserveKeepsHeld(t, o, home, wants, w, p);
    }
    forall p: Id | p < |u.products| ensures u.products[p].stock == Available(u.stock, |u.warehouses|, p) {
      ReserveKeepsAvailable(t.stock, t.products, |t.warehouses|, home, lines, p);
    }
  }

  /** The covering warehouse has a row, with enough free stock, for every product that is needed at all. */
  lemma NeedWithin(stock: map<(Id, Id), Stock>, lines: seq<Line>, w: Id, p: Id)
    requires ValidLines(lines) && Covers(stock, lines, w)
    ensures 0 <= Need(lines, p)
    ensures (w, p) in stock ==> Need(lines, p) <= stock[(w, p)].onHand - stock[(w, p)].reserved || Need(lines, p) == 0
    ensures (w, p) !in stock ==> Need(lines, p) == 0
  {
    SumPrefix(0, |lines|, NeedFn(lines, p));
    if forall k :: 0 <= k < |lines| ==> lines[k].product != p {
      SumZero(|lines|, NeedFn(lines, p));
    }
  }

  /** A warehouse covers the request, but a product of it has left sale since it was read. */
  ghost predicate LeftSale(t: Tables, seen: seq<Product>, shop: Id, wants: seq<Want>) {
    && shop < |t.shops| && (forall k :: 0 <= k < |wants| ==> Sellable(seen, shop, wants[k]))
    && (exists w: Id :: Eligible(t, shop, LinesOf(|t.items|, wants), w))
    && exists k :: 0 <= k < |wants| && wants[k].product < |t.products| && t.products[wants[k].product].status != ProductActive
  }

  /** For a covering warehouse the aggregate-stock guards pass exactly when all products are still on sale. */
  lemma StockCoversExactly(t: Tables, home: Id, lines: seq<Line>)
    requires Linked(t) && Ledger(t) && ValidLines(lines) && home < |t.warehouses| && Covers(t.stock, lines, home)
    ensures forall k :: 0 <= k < |lines| ==> lines[k].product < |t.products|
    ensures StockCovers(t.products, lines) <==> forall k :: 0 <= k < |lines| ==> t.products[lines[k].product].status == ProductActive
  {
    forall k | 0 <= k < |lines| ensures lines[k].product < |t.products|
      ensures Need(lines, lines[k].product) <= t.products[lines[k].product].stock
    {
      var p := lines[k].product;
      assert (home, p) in t.stock;
      NeedWithin(t.stock, lines, home, p);
      SumTerm(|t.warehouses|, AvailableFn(t.stock, p), home);
    }
  }

  /** The drift guard of `Allocate` fires exactly when a product has left sale between being read and being reserved. */
  lemma AllocationDriftsExactly(t: Tables, seen: seq<Product>, shop: Id, wants: seq<Want>, expires: int)
    requires Linked(t) && Ledger(t)
    ensures CreateOrderTx(t, seen, shop, wants, expires) == Err(Drift) <==> LeftSale(t, seen, shop, wants)
  {
    var d, lines := Drafted(t, shop, wants, expires), LinesOf(|t.items|, wants);
    if shop < |t.shops| && wants != [] && forall k :: 0 <= k < |wants| ==> Sellable(seen, shop, wants[k]) {
      assert ValidLines(lines);
      ChoosesBestWarehouse(d, shop, lines);
      forall w: Id ensures Eligible(d, shop, lines, w) <==> Eligible(t, shop, lines, w) {}
      if Choose(d, shop, lines).Some? {
        StockCoversExactly(t, Choose(d, shop, lines).value, lines);
        assert forall k :: 0 <= k < |lines| ==> lines[k].product == wants[k].product;
      }
    }
  }

  // ----- physical stock -----

  lemma SetOnHandKeepsLedger(t: Tables, w: Id, p: Id, onHand: int, u: Tables)
    requires Linked(t) && Ledger(t)
    requires w < |t.warehouses| && p < |t.products|
    requires var previous := if (w, p) in t.stock then t.stock[(w, p)] else Stock(0, 0);
      && previous.reserved <= onHand
      && u == t.(stock := t.stock[(w, p) := Stock(onHand, previous.reserved)],
                 products := t.products[p := t.products[p].(stock := t.products[p].stock + onHand - previous.onHand)])
    ensures Ledger(u)
  {
    assert ReservedAt(t.stock, w, p) == Held(t.reservations, |t.items|, w, p);
    HeldNonNegative(t, w, p);
    SumPrefix(0, |t.items|, HeldFn(t.reservations, w, p));
    forall v: Id, q: Id ensures ReservedAt(u.stock, v, q) == Held(u.reservations, |u.items|, v, q) {
      assert ReservedAt(t.stock, v, q) == Held(t.reservations, |t.items|, v, q);
    }
    forall q: Id | q < |u.products| ensures u.products[q].stock == Available(u.stock, |u.warehouses|, q) {
      SumChange(|t.warehouses|, AvailableFn(t.stock, q), AvailableFn(u.stock, q), w);
    }
  }
}
