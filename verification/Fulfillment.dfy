/** Order creation, packages and shipments. */
module Fulfillment {
  import opened Schema
  import opened Sums
  import opened Inventory
  import opened Lifecycle

  // ----- createSimulatedOrder -----

  datatype Want = Want(product: Id, quantity: int)

  /** `products` as the statement for this line reads them; nothing keeps them from changing before they are reserved. */
  predicate Sellable(products: seq<Product>, shop: Id, want: Want) {
    0 < want.quantity && want.product < |products| && products[want.product].shop == shop
    && products[want.product].status == ProductActive
  }

  function ItemsOf(o: Id, wants: seq<Want>): (r: seq<Item>)
    ensures |r| == |wants|
  {
    seq(|wants|, k requires 0 <= k < |wants| => Item(o, wants[k].product, wants[k].quantity))
  }

  /** One reservation line per inserted order item; `n` is the identifier of the first one. */
  function LinesOf(n: Id, wants: seq<Want>): (r: seq<Line>)
    ensures |r| == |wants|
  {
    seq(|wants|, k requires 0 <= k < |wants| => Line(n + k, wants[k].product, wants[k].quantity))
  }

  function Drafted(t: Tables, shop: Id, wants: seq<Want>, expires: int): Tables {
    t.(orders := t.orders + [Order(shop, Unpaid, PaymentPending, Some(expires), None, None, None)],
       items := t.items + ItemsOf(|t.orders|, wants))
  }

  function CreateOrderTx(t: Tables, seen: seq<Product>, shop: Id, wants: seq<Want>, expires: int): Result<Tables> {
    if shop >= |t.shops| then Err(NotFound)
    else if exists k :: 0 <= k < |wants| && !Sellable(seen, shop, wants[k]) then Err(Rejected)
    else match AllocateTx(Drafted(t, shop, wants, expires), shop, |t.orders|, LinesOf(|t.items|, wants))
      case Err(e) => Err(e)
      case Ok(after) => Ok(Record(after, OrderStatusEvent(|t.orders|, Unpaid)))
  }

  /** `seen` is the catalogue as the item loop reads it, without locks; the rest of the transaction sees `tx`. */
  method CreateSimulatedOrder(tx: Tx, seen: seq<Product>, shop: Id, wants: seq<Want>, expires: int) returns (e: Option<Error>)
    modifies tx
    ensures (tx.db, e) == Settle(old(tx.db), CreateOrderTx(old(tx.db), seen, shop, wants, expires))
  {
    var saved := tx.db;
    if shop >= |tx.db.shops| { return Some(NotFound); }
    var o := |tx.db.orders|;
    tx.db := tx.db.(orders := tx.db.orders + [Order(shop, Unpaid, PaymentPending, Some(expires), None, None, None)]);
    var lines: seq<Line> := [];
    for j := 0 to |wants|
      invariant |lines| == j && lines == LinesOf(|saved.items|, wants)[..j]
      invariant tx.db == saved.(orders := tx.db.orders, items := saved.items + ItemsOf(o, wants)[..j])
      invariant tx.db.orders == Drafted(saved, shop, wants, expires).orders
      invariant forall k :: 0 <= k < j ==> Sellable(seen, shop, wants[k])
    {
      if !Sellable(seen, shop, wants[j]) { tx.db := saved; return Some(Rejected); }
      lines := lines + [Line(|tx.db.items|, wants[j].product, wants[j].quantity)];
      tx.db := tx.db.(items := tx.db.items + [Item(o, wants[j].product, wants[j].quantity)]);
    }
    assert lines == LinesOf(|saved.items|, wants);
    assert tx.db.items == saved.items + ItemsOf(o, wants);
    var r := Allocate(tx, shop, o, lines);
    if r.Err? { tx.db := saved; return Some(r.error); }
    tx.db := Record(tx.db, OrderStatusEvent(o, Unpaid));
    return None;
  }

  // ----- packages -----

  function PackagedTerm(ps: seq<Package>, i: Id, k: nat): int {
    if k < |ps| && i in ps[k].lines then ps[k].lines[i] else 0
  }

  function PackagedFn(ps: seq<Package>, i: Id): nat -> int { (k: nat) => PackagedTerm(ps, i, k) }

  /** The quantity of order item `i` over all packages. */
  function Packaged(ps: seq<Package>, i: Id): int { Sum(|ps|, PackagedFn(ps, i)) }

  function Remaining(t: Tables, i: Id): int
    requires i < |t.items|
  {
    t.items[i].quantity - Packaged(t.packages, i)
  }

  /** A requested allocation; a request without a positive quantity asks for all that remains. */
  datatype Pick = Pick(item: Id, quantity: int)

  /** The quantity packed for one pick. The control plane (`strict`) demands an explicit positive quantity. */
  function Share(t: Tables, o: Id, pick: Pick, strict: bool): Option<int> {
    if pick.item >= |t.items| || t.items[pick.item].order != o then None
    else
      var remaining := Remaining(t, pick.item);
      var q := if pick.quantity > 0 || strict then pick.quantity else remaining;
      if 0 < q <= remaining then Some(q) else None
  }

  /** The lines of the new package, or nothing when a pick is refused or repeats an item of the package. */
  function PackLines(t: Tables, o: Id, picks: seq<Pick>, strict: bool): Option<map<Id, int>> {
    if picks == [] then Some(map[])
    else
      var last := picks[|picks| - 1];
      match PackLines(t, o, picks[..|picks| - 1], strict)
      case None => None
      case Some(lines) =>
        match Share(t, o, last, strict)
        case None => None
        case Some(q) => if last.item in lines then None else Some(lines[last.item := q])
  }

  function CreatePackageTx(t: Tables, shop: Id, o: Id, picks: seq<Pick>, strict: bool): Result<Tables> {
    if picks == [] then Err(Rejected)
    else if !Found(t, shop, o) then Err(NotFound)
    else if t.orders[o].status != ReadyToShip || t.orders[o].warehouse.None? then Err(Rejected)
    else match PackLines(t, o, picks, strict)
      case None => Err(Rejected)
      case Some(lines) => Ok(t.(packages := t.packages + [Package(o, t.orders[o].warehouse.value, PackageReady, lines)]))
  }

  lemma PackagedAppend(ps: seq<Package>, p: Package, i: Id)
    ensures Packaged(ps + [p], i) == Packaged(ps, i) + if i in p.lines then p.lines[i] else 0
  {
    SumEqual(|ps|, PackagedFn(ps + [p], i), PackagedFn(ps, i));
  }

  /** `createPackageForOrder`, and `createControlPackage` when `strict`. */
  method CreatePackage(tx: Tx, shop: Id, o: Id, picks: seq<Pick>, strict: bool) returns (e: Option<Error>)
    modifies tx
    ensures (tx.db, e) == Settle(old(tx.db), CreatePackageTx(old(tx.db), shop, o, picks, strict))
  {
    if picks == [] { return Some(Rejected); }
    var saved := tx.db;
    if !Found(tx.db, shop, o) { return Some(NotFound); }
    if tx.db.orders[o].status != ReadyToShip || tx.db.orders[o].warehouse.None? { return Some(Rejected); }
    var package := Package(o, tx.db.orders[o].warehouse.value, PackageReady, map[]);
    tx.db := tx.db.(packages := tx.db.packages + [package]);
    for j := 0 to |picks|
      invariant tx.db == saved.(packages := saved.packages + [package])
      invariant package == Package(o, saved.orders[o].warehouse.value, PackageReady, package.lines)
      invariant PackLines(saved, o, picks[..j], strict) == Some(package.lines)
      invariant forall i <- package.lines :: 0 < package.lines[i]
    {
      var pick := picks[j];
      assert picks[..j + 1][..j] == picks[..j];
      PackagedAppend(saved.packages, package, pick.item);
      if PackLines(saved, o, picks[..j + 1], strict).None? { PackLinesPrefix(saved, o, picks, strict, j + 1); }
      if pick.item >= |tx.db.items| || tx.db.items[pick.item].order != o { tx.db := saved; return Some(Rejected); }
      var available := Remaining(tx.db, pick.item);
      var quantity := if pick.quantity > 0 || strict then pick.quantity else available;
      if available <= 0 || quantity <= 0 || quantity > available || pick.item in package.lines {
        tx.db := saved;
        return Some(Rejected);
      }
      package := package.(lines := package.lines[pick.item := quantity]);
      tx.db := tx.db.(packages := saved.packages + [package]);
    }
    assert picks[..|picks|] == picks;
    return None;
  }

  lemma {:induction false} PackLinesPrefix(t: Tables, o: Id, picks: seq<Pick>, strict: bool, j: nat)
    requires j <= |picks| && PackLines(t, o, picks[..j], strict).None?
    ensures PackLines(t, o, picks, strict).None?
    decreases |picks| - j
  {
    if j < |picks| {
      assert picks[..j + 1][..j] == picks[..j];
      PackLinesPrefix(t, o, picks, strict, j + 1);
    } else {
      assert picks[..j] == picks;
    }
  }

  // ----- shipments -----

  /** All that is not packed yet, by order item. */
  function RemainingLines(t: Tables, o: Id): map<Id, int> {
    map i: Id | i < |t.items| && t.items[i].order == o && 0 < Remaining(t, i) :: Remaining(t, i)
  }

  /** `createShipmentForOrder`: for a given package, or for a new package of all that remains. */
  function CreateShipmentTx(t: Tables, shop: Id, o: Id, package: Option<Id>): Result<Tables> {
    if !Found(t, shop, o) then Err(NotFound)
    else if t.orders[o].status != ReadyToShip || t.orders[o].warehouse.None? then Err(Rejected)
    else
      var w := t.orders[o].warehouse.value;
      match package
      case None =>
        if RemainingLines(t, o) == map[] then Err(Rejected)
        else Ok(t.(packages := t.packages + [Package(o, w, PackageReady, RemainingLines(t, o))],
                   shipments := t.shipments + [Shipment(o, |t.packages|, ParcelCreated)]))
      case Some(k) =>
        if k >= |t.packages| || t.packages[k].order != o || t.packages[k].warehouse != w then Err(NotFound)
        else if !t.packages[k].status.PackageReady? || t.packages[k].lines == map[] then Err(Rejected)
        else if exists s :: 0 <= s < |t.shipments| && t.shipments[s].package == k then Err(Constraint)
        else Ok(t.(shipments := t.shipments + [Shipment(o, k, ParcelCreated)]))
  }

  /** The shipment actions of the control plane. */
  datatype Move = Ship | StartDelivery | Deliver | FailDelivery | StartReturn | CompleteReturn {
    function From(): ParcelStatus {
      match this
      case Ship => ParcelCreated
      case StartDelivery => ParcelShipped
      case Deliver => ParcelInDelivery
      case FailDelivery => ParcelInDelivery
      case StartReturn => ParcelDeliveryFailed
      case CompleteReturn => ParcelReturning
    }

    function To(): ParcelStatus {
      match this
      case Ship => ParcelShipped
      case StartDelivery => ParcelInDelivery
      case Deliver => ParcelDelivered
      case FailDelivery => ParcelDeliveryFailed
      case StartReturn => ParcelReturning
      case CompleteReturn => ParcelReturned
    }

    /** The order status the action aims at and the one it expects to leave. */
    function OrderTarget(): Option<OrderStatus> {
      match this
      case Ship => Some(Shipped)
      case StartDelivery => Some(InDelivery)
      case Deliver => Some(Delivered)
      case CompleteReturn => Some(Returned)
      case _ => None
    }

    function OrderFrom(): Option<OrderStatus> {
      match this
      case Ship => Some(ReadyToShip)
      case StartDelivery => Some(Shipped)
      case Deliver => Some(InDelivery)
      case CompleteReturn => Some(InDelivery)
      case _ => None
    }
  }

  predicate Terminal(s: ParcelStatus) { s == ParcelDelivered || s == ParcelReturned }

  function OutstandingTerm(ss: seq<Shipment>, o: Id, k: nat): int {
    if k < |ss| && ss[k].order == o && !Terminal(ss[k].status) then 1 else 0
  }

  function OutstandingFn(ss: seq<Shipment>, o: Id): nat -> int { (k: nat) => OutstandingTerm(ss, o, k) }

  /** How many shipments of the order are neither delivered nor returned. */
  function Outstanding(ss: seq<Shipment>, o: Id): int { Sum(|ss|, OutstandingFn(ss, o)) }

  /** The ranks that let a late package move while its order is already further; absent statuses rank 0. */
  function Rank(s: OrderStatus): nat {
    match s
    case ReadyToShip => 1
    case Shipped => 2
    case InDelivery => 3
    case Delivered => 4
    case _ => 0
  }

  predicate WantsOrderMove(t: Tables, o: Id, m: Move)
    requires o < |t.orders|
  {
    && m.OrderTarget().Some? && t.orders[o].status != m.OrderTarget().value
    && (m == Deliver || m == CompleteReturn ==> Outstanding(t.shipments, o) == 1)
  }

  function MovedRows(t: Tables, k: Id, m: Move): Tables
    requires k < |t.shipments| && t.shipments[k].package < |t.packages|
  {
    var s := t.shipments[k];
    t.(shipments := t.shipments[k := s.(status := m.To())],
       packages := t.packages[s.package := t.packages[s.package].(status := PackageMoved(m.To()))])
  }

  function WithShipmentEvent(t: Tables, k: Id, m: Move): Tables {
    if m == FailDelivery || m == StartReturn || m == CompleteReturn then Record(t, ShipmentEvent(k, m.To())) else t
  }

  /** `transitionShipment`. */
  ghost function MoveTx(t: Tables, shop: Id, k: Id, m: Move): Result<Tables> {
    if k >= |t.shipments| || !Found(t, shop, t.shipments[k].order) || t.shipments[k].package >= |t.packages| then Err(NotFound)
    else
      var s := t.shipments[k];
      var status := t.orders[s.order].status;
      var wants := WantsOrderMove(t, s.order, m);
      if s.status != m.From() then Err(Rejected)
      else if wants && Some(status) != m.OrderFrom() && Rank(status) <= Rank(m.OrderTarget().value) then Err(Rejected)
      else
        var stocked := if m == Ship then FulfillTx(t, s.package) else Ok(t);
        if stocked.Err? then stocked
        else
          var moved := MovedRows(stocked.value, k, m);
          if wants && Some(status) == m.OrderFrom() then
            if !CanTransition(status, m.OrderTarget().value) then Err(Rejected)
            else Ok(WithShipmentEvent(Advanced(moved, s.order, m.OrderTarget().value, 0, 0), k, m))
          else Ok(WithShipmentEvent(moved, k, m))
  }

  /** A new package of all that remains leaves nothing of the order to pack. */
  lemma RemainingPacked(t: Tables, o: Id, w: Id, i: Id)
    requires i < |t.items|
    ensures var u := t.(packages := t.packages + [Package(o, w, PackageReady, RemainingLines(t, o))]);
      Remaining(u, i) == if t.items[i].order == o && 0 < Remaining(t, i) then 0 else Remaining(t, i)
  {
    PackagedAppend(t.packages, Package(o, w, PackageReady, RemainingLines(t, o)), i);
  }

  method CreateShipment(tx: Tx, shop: Id, o: Id, package: Option<Id>) returns (e: Option<Error>)
    modifies tx
    ensures (tx.db, e) == Settle(old(tx.db), CreateShipmentTx(old(tx.db), shop, o, package))
    ensures e.None? && package.None? ==> forall i: Id :: i < |tx.db.items| ==>
      Remaining(tx.db, i) == if tx.db.items[i].order == o && 0 < Remaining(old(tx.db), i) then 0 else Remaining(old(tx.db), i)
  {
    var saved := tx.db;
    forall i: Id | i < |saved.items| && saved.orders != [] && o < |saved.orders| && saved.orders[o].warehouse.Some?
      ensures var u := saved.(packages := saved.packages
                + [Package(o, saved.orders[o].warehouse.value, PackageReady, RemainingLines(saved, o))]);
        Remaining(u, i) == if saved.items[i].order == o && 0 < Remaining(saved, i) then 0 else Remaining(saved, i)
    {
      RemainingPacked(saved, o, saved.orders[o].warehouse.value, i);
    }
    if !Found(tx.db, shop, o) { return Some(NotFound); }
    if tx.db.orders[o].status != ReadyToShip || tx.db.orders[o].warehouse.None? { return Some(Rejected); }
    var w, k := tx.db.orders[o].warehouse.value, |tx.db.packages|;
    match package {
      case None =>
        var lines := RemainingLines(tx.db, o);
        tx.db := tx.db.(packages := tx.db.packages + [Package(o, w, PackageReady, lines)]);
        if lines == map[] { tx.db := saved; return Some(Rejected); }
      case Some(given) =>
        if given >= |tx.db.packages| || tx.db.packages[given].order != o || tx.db.packages[given].warehouse != w {
          return Some(NotFound);
        }
        if !tx.db.packages[given].status.PackageReady? || tx.db.packages[given].lines == map[] { return Some(Rejected); }
        if exists s :: 0 <= s < |tx.db.shipments| && tx.db.shipments[s].package == given { return Some(Constraint); }
        k := given;
    }
    tx.db := tx.db.(shipments := tx.db.shipments + [Shipment(o, k, ParcelCreated)]);
    return None;
  }

  /** Whether the action also moves the order; nothing when the order's status forbids the action. */
  method DecideOrderMove(t: Tables, o: Id, m: Move) returns (r: Option<bool>)
    requires o < |t.orders|
    ensures var status, wants := t.orders[o].status, WantsOrderMove(t, o, m);
      && (r.None? <==> wants && Some(status) != m.OrderFrom() && Rank(status) <= Rank(m.OrderTarget().value))
      && (r.Some? ==> r.value == (wants && Some(status) == m.OrderFrom()))
  {
    var status, target := t.orders[o].status, m.OrderTarget();
    var transitionOrder := target.Some? && status != target.value;
    if m == Deliver || m == CompleteReturn {
      var outstanding := Outstanding(t.shipments, o);
      transitionOrder := outstanding == 1 && status != target.value;
    }
    if transitionOrder && Some(status) != m.OrderFrom() {
      if Rank(status) > Rank(target.value) {
        transitionOrder := false;
      } else {
        return None;
      }
    }
    return Some(transitionOrder);
  }

  /** The row updates of a move, after its stock update; the order moves if `transitionOrder`. */
  method MoveRows(tx: Tx, k: Id, m: Move, transitionOrder: bool) returns (ok: bool)
    requires k < |tx.db.shipments| && tx.db.shipments[k].package < |tx.db.packages|
    requires var o := tx.db.shipments[k].order; o < |tx.db.orders| && tx.db.orders[o].shop < |tx.db.shops|
    requires transitionOrder ==> m.OrderTarget().Some?
    modifies tx
    ensures var o := old(tx.db).shipments[k].order;
      ok == (transitionOrder ==> CanTransition(old(tx.db).orders[o].status, m.OrderTarget().value))
    ensures var o, moved := old(tx.db).shipments[k].order, MovedRows(old(tx.db), k, m);
      var placed := if transitionOrder then Advanced(moved, o, m.OrderTarget().value, 0, 0) else moved;
      ok ==> tx.db == WithShipmentEvent(placed, k, m)
  {
    var s := tx.db.shipments[k];
    tx.db := tx.db.(shipments := tx.db.shipments[k := s.(status := m.To())]);
    tx.db := tx.db.(packages := tx.db.packages[s.package := tx.db.packages[s.package].(status := PackageMoved(m.To()))]);
    if transitionOrder {
      if !CanTransition(tx.db.orders[s.order].status, m.OrderTarget().value) { return false; }
      tx.db := Advanced(tx.db, s.order, m.OrderTarget().value, 0, 0);
    }
    tx.db := WithShipmentEvent(tx.db, k, m);
    return true;
  }

  method TransitionShipment(tx: Tx, shop: Id, k: Id, m: Move) returns (e: Option<Error>)
    requires Checked(tx.db)
    modifies tx
    ensures (tx.db, e) == Settle(old(tx.db), MoveTx(old(tx.db), shop, k, m))
  {
    var saved := tx.db;
    if k >= |tx.db.shipments| || !Found(tx.db, shop, tx.db.shipments[k].order)
      || tx.db.shipments[k].package >= |tx.db.packages| { return Some(NotFound); }
    var s := tx.db.shipments[k];
    if s.status != m.From() { return Some(Rejected); }
    var transitionOrder := DecideOrderMove(tx.db, s.order, m);
    if transitionOrder.None? { return Some(Rejected); }
    if m == Ship {
      var ok := FulfillPackage(tx, s.package);
      if !ok { tx.db := saved; return Some(Drift); }
    }
    var moved := MoveRows(tx, k, m, transitionOrder.value);
    if !moved { tx.db := saved; return Some(Rejected); }
    return None;
  }
}
