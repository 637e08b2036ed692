/** Which requests on orders, packages and shipments are accepted after any run, and what they leave behind, told by the
    columns of the rows. */
module Decisions {
  import opened Schema
  import opened Lifecycle
  import opened Fulfillment
  import opened Invariants
  import opened OrderProofs
  import opened ShipmentProofs
  import opened System
  import opened Endings

  // ----- transitions and payment -----

  const LIFECYCLE: set<(OrderStatus, OrderStatus)> := {
    (Unpaid, Paid), (Paid, Processing), (Processing, ReadyToShip), (ReadyToShip, Shipped), (Shipped, InDelivery),
    (InDelivery, Delivered), (InDelivery, Returned), (Delivered, Completed),
    (Unpaid, Cancelled), (Paid, Cancelled), (Processing, Cancelled), (ReadyToShip, Cancelled)}

  lemma TableExactly(from: OrderStatus, to: OrderStatus)
    ensures CanTransition(from, to) <==> (from, to) in LIFECYCLE
  {}

  /** A transition is accepted exactly when the table has it and, if it is the payment, the order has not expired. */
  lemma TransitionExactly(steps: seq<Step>, shop: Id, o: Id, target: OrderStatus, clock: int, sla: int)
    ensures var t := Run(EMPTY, steps);
      TransitionTx(t, shop, o, target, clock, sla).Ok? <==>
        && shop < |t.shops| && o < |t.orders| && t.orders[o].shop == shop && (t.orders[o].status, target) in LIFECYCLE
        && (target == Paid && t.orders[o].expires.Some? ==> clock <= t.orders[o].expires.value)
  {
    InvAlways(steps);
    var t := Run(EMPTY, steps);
    if o < |t.orders| {
      assert Coupled(t, o) && PaymentFits(t.orders[o].status, t.orders[o].payment);
      TableExactly(t.orders[o].status, target);
    }
  }

  // ----- cancellation -----

  /** The order is cancelled, with this payment status and after these events; its reservations are given back and no
      other order or reservation changes. */
  ghost predicate CalledOff(t: Tables, u: Tables, o: Id, payment: PaymentStatus, told: seq<Event>)
    requires o < |t.orders|
  {
    && u.orders == t.orders[o := t.orders[o].(status := Cancelled, payment := payment)]
    && u.events == t.events + told + [OrderStatusEvent(o, Cancelled)]
    && u.reservations.Keys == t.reservations.Keys
    && forall i <- t.reservations ::
      u.reservations[i] == if t.reservations[i].order == o then t.reservations[i].(status := Released) else t.reservations[i]
  }

  lemma CancelEvents(t: Tables, o: Id, payment: Option<PaymentStatus>, cause: Option<Event>)
    requires o < |t.orders| && CancelWith(t, o, payment, cause).Ok?
    ensures CancelWith(t, o, payment, cause).value.events
      == t.events + (if cause.Some? then [cause.value] else []) + [OrderStatusEvent(o, Cancelled)]
  {}

  lemma OpenUntilReady(t: Tables, o: Id, i: Id)
    requires Linked(t) && o < |t.orders| && Coupled(t, o) && t.orders[o].status in {Unpaid, Paid, OrderStatus.Processing, ReadyToShip}
    requires i in t.reservations && t.reservations[i].order == o
    ensures t.reservations[i].status in {Active, Committed}
  {
    assert ReservationFits(t.orders[o].status, t.reservations[i]);
  }

  lemma CancelCallsOff(t: Tables, o: Id, payment: Option<PaymentStatus>, cause: Option<Event>)
    requires Inv(t) && o < |t.orders| && t.orders[o].status in {Unpaid, Paid, OrderStatus.Processing, ReadyToShip}
    ensures var r := CancelWith(t, o, payment, cause);
      r.Ok? && CalledOff(t, r.value, o, if payment.Some? then payment.value else t.orders[o].payment,
                         if cause.Some? then [cause.value] else [])
  {
    CancelledTables(t, o, payment, cause);
    CancelEvents(t, o, payment, cause);
    assert Coupled(t, o);
    forall i <- t.reservations | t.reservations[i].order == o ensures t.reservations[i].status in {Active, Committed} {
      OpenUntilReady(t, o, i);
    }
  }

  const REASONS: set<(Actor, Reason)> := {
    (Customer, ChangeOfMind), (Customer, DuplicateOrder), (Customer, AddressIssue),
    (Seller, OutOfStock), (Seller, SellerUnfulfillable),
    (Actor.System, PaymentExpiredReason), (Actor.System, PaymentFailedReason), (Actor.System, SellerSlaExpiredReason)}

  /** Who may cancel what in a Shopee-like shop. */
  const SHOPEE_RULES: set<(Actor, OrderStatus)> := {
    (Customer, Unpaid), (Customer, Paid), (Seller, Paid), (Seller, OrderStatus.Processing),
    (Actor.System, Unpaid), (Actor.System, Paid), (Actor.System, OrderStatus.Processing)}

  lemma RulesExactly(provider: Provider, status: OrderStatus, actor: Actor, reason: Reason)
    ensures ValidReason(actor, reason) <==> (actor, reason) in REASONS
    ensures CanCancel(provider, status, actor) <==> match provider
      case ShopeeLike => (actor, status) in SHOPEE_RULES
      case TokopediaLike => status in {Unpaid, Paid, OrderStatus.Processing, ReadyToShip}
  {}

  /** A cancellation is accepted exactly for a reason of the actor's own and a status from which the provider lets that
      actor cancel; in a Tokopedia-like shop anyone may until the order ships. */
  lemma CancellationExactly(steps: seq<Step>, shop: Id, o: Id, actor: Actor, reason: Reason)
    ensures var t := Run(EMPTY, steps);
      var r := CancelTx(t, shop, o, actor, reason);
      && (r.Ok? <==>
            && shop < |t.shops| && o < |t.orders| && t.orders[o].shop == shop && (actor, reason) in REASONS
            && match t.shops[shop]
               case ShopeeLike => (actor, t.orders[o].status) in SHOPEE_RULES
               case TokopediaLike => t.orders[o].status in {Unpaid, Paid, OrderStatus.Processing, ReadyToShip})
      && (r.Ok? ==> CalledOff(t, r.value, o, t.orders[o].payment, []))
  {
    InvAlways(steps);
    var t := Run(EMPTY, steps);
    if shop < |t.shops| && o < |t.orders| {
      RulesExactly(t.shops[shop], t.orders[o].status, actor, reason);
      if t.orders[o].status in {Unpaid, Paid, OrderStatus.Processing, ReadyToShip} { CancelCallsOff(t, o, None, None); }
    }
  }

  /** An order expires exactly when it is unpaid and its expiry has come. */
  lemma ExpiryExactly(steps: seq<Step>, shop: Id, o: Id, now: int)
    ensures var t := Run(EMPTY, steps);
      var r := CancelOverdueTx(t, shop, o, PaymentRule, now);
      && (r.Ok? <==>
            && shop < |t.shops| && o < |t.orders| && t.orders[o].shop == shop
            && t.orders[o].status == Unpaid && t.orders[o].expires.Some? && t.orders[o].expires.value <= now)
      && (r.Ok? ==> CalledOff(t, r.value, o, PaymentExpired, [PaymentExpiredEvent(o)]))
  {
    InvAlways(steps);
    var t := Run(EMPTY, steps);
    if o < |t.orders| && t.orders[o].status == Unpaid {
      assert Coupled(t, o) && PaymentFits(Unpaid, t.orders[o].payment);
      CancelCallsOff(t, o, Some(PaymentExpired), Some(PaymentExpiredEvent(o)));
    }
  }

  /** A seller runs out of time exactly when the order is paid or being processed and the seller's deadline has come. */
  lemma SellerTimeoutExactly(steps: seq<Step>, shop: Id, o: Id, now: int)
    ensures var t := Run(EMPTY, steps);
      var r := CancelOverdueTx(t, shop, o, SellerRule, now);
      && (r.Ok? <==>
            && shop < |t.shops| && o < |t.orders| && t.orders[o].shop == shop && t.orders[o].status in {Paid, OrderStatus.Processing}
            && t.orders[o].sellerDeadline.Some? && t.orders[o].sellerDeadline.value <= now)
      && (r.Ok? ==> CalledOff(t, r.value, o, PaymentPaid, [SlaExpiredEvent(o)]))
  {
    InvAlways(steps);
    var t := Run(EMPTY, steps);
    if o < |t.orders| && t.orders[o].status in {Paid, OrderStatus.Processing} {
      assert Coupled(t, o) && PaymentFits(t.orders[o].status, t.orders[o].payment);
      CancelCallsOff(t, o, None, Some(SlaExpiredEvent(o)));
    }
  }

  /** A payment fails exactly while the order is unpaid, however late. */
  lemma PaymentFailureExactly(steps: seq<Step>, shop: Id, o: Id)
    ensures var t := Run(EMPTY, steps);
      var r := FailPaymentTx(t, shop, o);
      && (r.Ok? <==> shop < |t.shops| && o < |t.orders| && t.orders[o].shop == shop && t.orders[o].status == Unpaid)
      && (r.Ok? ==> CalledOff(t, r.value, o, PaymentFailed, [PaymentFailedEvent(o)]))
  {
    InvAlways(steps);
    var t := Run(EMPTY, steps);
    if o < |t.orders| && t.orders[o].status == Unpaid {
      assert Coupled(t, o) && PaymentFits(Unpaid, t.orders[o].payment);
      CancelCallsOff(t, o, Some(PaymentFailed), Some(PaymentFailedEvent(o)));
    }
  }

  /** Before its expiry an order can be paid and cannot expire; after it, the reverse; both are accepted only at that
      very instant. */
  lemma OneInstantForBoth(steps: seq<Step>, shop: Id, o: Id, now: int, sla: int)
    requires var t := Run(EMPTY, steps);
      && shop < |t.shops| && o < |t.orders| && t.orders[o].shop == shop
      && t.orders[o].status == Unpaid && t.orders[o].expires.Some?
    ensures var t := Run(EMPTY, steps);
      var pays, expires := TransitionTx(t, shop, o, Paid, now, sla).Ok?, CancelOverdueTx(t, shop, o, PaymentRule, now).Ok?;
      && (now < t.orders[o].expires.value <==> pays && !expires)
      && (now == t.orders[o].expires.value <==> pays && expires)
      && (t.orders[o].expires.value < now <==> !pays && expires)
  {
    TransitionExactly(steps, shop, o, Paid, now, sla);
    ExpiryExactly(steps, shop, o, now);
  }

  // ----- packages and shipments -----

  /** What is not in a package yet. */
  function LeftToPack(t: Tables, i: Id): int
    requires i < |t.items|
  {
    t.items[i].quantity - Packaged(t.packages, i)
  }

  /** The pick is of the order's own item, and asks for some of what is not packed: the quantity it names or, for callers
      that may leave it out, all there is. */
  predicate PickIsGood(t: Tables, o: Id, pick: Pick, strict: bool) {
    && pick.item < |t.items| && t.items[pick.item].order == o
    && if 0 < pick.quantity then pick.quantity <= LeftToPack(t, pick.item) else !strict && 0 < LeftToPack(t, pick.item)
  }

  ghost predicate PacksPicks(t: Tables, picks: seq<Pick>, lines: map<Id, int>) {
    && (forall i <- lines :: exists k :: 0 <= k < |picks| && picks[k].item == i)
    && forall k :: 0 <= k < |picks| ==>
      && picks[k].item < |t.items| && picks[k].item in lines
      && lines[picks[k].item] == if 0 < picks[k].quantity then picks[k].quantity else LeftToPack(t, picks[k].item)
  }

  /** A package is accepted exactly for a ready order and good picks of different items; it is a new one at the order's
      warehouse and holds what the picks name, or all that was left where they name nothing. */
  lemma PackageExactly(steps: seq<Step>, shop: Id, o: Id, picks: seq<Pick>, strict: bool)
    ensures var t := Run(EMPTY, steps);
      var r := CreatePackageTx(t, shop, o, picks, strict);
      && (r.Ok? <==>
            && shop < |t.shops| && o < |t.orders| && t.orders[o].shop == shop && t.orders[o].status == ReadyToShip && picks != []
            && (forall k :: 0 <= k < |picks| ==> PickIsGood(t, o, picks[k], strict))
            && forall j, k :: 0 <= j < k < |picks| ==> picks[j].item != picks[k].item)
      && (r.Ok? ==> PackageAdded(t, r.value, o, picks))
  {
    InvAlways(steps);
    PackageAccepted(Run(EMPTY, steps), shop, o, picks, strict);
  }

  ghost predicate PackageAdded(t: Tables, u: Tables, o: Id, picks: seq<Pick>)
    requires o < |t.orders|
  {
    var n := |t.packages|;
    && u == t.(packages := u.packages) && |u.packages| == n + 1 && u.packages[..n] == t.packages
    && u.packages[n].order == o && Some(u.packages[n].warehouse) == t.orders[o].warehouse
    && u.packages[n].status == PackageReady && PacksPicks(t, picks, u.packages[n].lines)
  }

  lemma PickShares(t: Tables, o: Id, pick: Pick, strict: bool)
    ensures Share(t, o, pick, strict).Some? <==> PickIsGood(t, o, pick, strict)
    ensures Share(t, o, pick, strict).Some? ==>
      Share(t, o, pick, strict).value == if 0 < pick.quantity then pick.quantity else LeftToPack(t, pick.item)
  {}

  lemma PackageAccepted(t: Tables, shop: Id, o: Id, picks: seq<Pick>, strict: bool)
    requires Inv(t)
    ensures var r := CreatePackageTx(t, shop, o, picks, strict);
      && (r.Ok? <==>
            && shop < |t.shops| && o < |t.orders| && t.orders[o].shop == shop && t.orders[o].status == ReadyToShip && picks != []
            && (forall k :: 0 <= k < |picks| ==> PickIsGood(t, o, picks[k], strict))
            && forall j, k :: 0 <= j < k < |picks| ==> picks[j].item != picks[k].item)
      && (r.Ok? ==> PackageAdded(t, r.value, o, picks))
  {
    if o < |t.orders| { assert OrderLinked(t, o); }
    PacksEachPickOnce(t, o, picks, strict);
    forall k | 0 <= k < |picks|
      ensures Share(t, o, picks[k], strict).Some? <==> PickIsGood(t, o, picks[k], strict)
      ensures Share(t, o, picks[k], strict).Some? ==>
        Share(t, o, picks[k], strict).value == if 0 < picks[k].quantity then picks[k].quantity else LeftToPack(t, picks[k].item)
    {
      PickShares(t, o, picks[k], strict);
    }
  }

  /** A shipment of all that is left is accepted exactly when the order is ready and something is left. */
  lemma WholeShipmentExactly(steps: seq<Step>, shop: Id, o: Id)
    ensures var t := Run(EMPTY, steps);
      var r := CreateShipmentTx(t, shop, o, None);
      && (r.Ok? <==>
            && shop < |t.shops| && o < |t.orders| && t.orders[o].shop == shop && t.orders[o].status == ReadyToShip
            && exists i: Id :: i < |t.items| && t.items[i].order == o && 0 < LeftToPack(t, i))
      && (r.Ok? ==> r.value.shipments == t.shipments + [Shipment(o, |t.packages|, ParcelCreated)])
  {
    InvAlways(steps);
    var t := Run(EMPTY, steps);
    if o < |t.orders| { assert OrderLinked(t, o); }
    if i: Id :| i < |t.items| && t.items[i].order == o && 0 < LeftToPack(t, i) { assert i in RemainingLines(t, o); }
    if i: Id :| i in RemainingLines(t, o) { assert i < |t.items| && t.items[i].order == o && 0 < LeftToPack(t, i); }
  }

  /** A shipment of a given package is accepted exactly when the order is ready and the package is its own and not taken. */
  lemma PackageShipmentExactly(steps: seq<Step>, shop: Id, o: Id, k: Id)
    ensures var t := Run(EMPTY, steps);
      var r := CreateShipmentTx(t, shop, o, Some(k));
      && (r.Ok? <==>
            && shop < |t.shops| && o < |t.orders| && t.orders[o].shop == shop && t.orders[o].status == ReadyToShip
            && k < |t.packages| && t.packages[k].order == o && forall s: Id :: s < |t.shipments| ==> t.shipments[s].package != k)
      && (r.Ok? ==> r.value == t.(shipments := t.shipments + [Shipment(o, k, ParcelCreated)]))
  {
    InvAlways(steps);
    MovedByShipmentAlways(steps);
    var t := Run(EMPTY, steps);
    if o < |t.orders| { assert OrderLinked(t, o); }
    if k < |t.packages| { assert PackageLinked(t, k); }
  }

  // ----- shipment actions -----

  /** The shipment status that an action leaves, and the one it enters. */
  function Leaves(m: Move): (ParcelStatus, ParcelStatus) {
    match m
    case Ship => (ParcelCreated, ParcelShipped)
    case StartDelivery => (ParcelShipped, ParcelInDelivery)
    case Deliver => (ParcelInDelivery, ParcelDelivered)
    case FailDelivery => (ParcelInDelivery, ParcelDeliveryFailed)
    case StartReturn => (ParcelDeliveryFailed, ParcelReturning)
    case CompleteReturn => (ParcelReturning, ParcelReturned)
  }

  ghost predicate OthersArrived(ss: seq<Shipment>, o: Id, k: Id) {
    forall j: Id :: j < |ss| && j != k && ss[j].order == o ==> ss[j].status in {ParcelDelivered, ParcelReturned}
  }

  /** The first shipment to go takes the order to SHIPPED, the first on delivery to IN_DELIVERY, and the last to arrive to
      DELIVERED or RETURNED. */
  ghost function OrderAfter(t: Tables, k: Id, m: Move): OrderStatus
    requires k < |t.shipments| && t.shipments[k].order < |t.orders|
  {
    var o := t.shipments[k].order;
    var status := t.orders[o].status;
    match m
    case Ship => if status == ReadyToShip then Shipped else status
    case StartDelivery => if status == Shipped then InDelivery else status
    case Deliver => if OthersArrived(t.shipments, o, k) then Delivered else status
    case CompleteReturn => if OthersArrived(t.shipments, o, k) then Returned else status
    case _ => status
  }

  ghost predicate ParcelMoved(t: Tables, u: Tables, k: Id, m: Move)
    requires k < |t.shipments| && t.shipments[k].order < |t.orders|
  {
    var s := t.shipments[k];
    && u.shipments == t.shipments[k := s.(status := Leaves(m).1)]
    && s.package < |t.packages| && u.packages == t.packages[s.package := t.packages[s.package].(status := PackageMoved(Leaves(m).1))]
    && u.orders == t.orders[s.order := t.orders[s.order].(status := OrderAfter(t, k, m))]
  }

  /** A shipment action is accepted exactly for a shipment in the status it leaves, of an order that is not cancelled; the
      order follows its first and its last shipment. */
  lemma ShipmentActionExactly(steps: seq<Step>, shop: Id, k: Id, m: Move)
    ensures var t, r := Run(EMPTY, steps), MoveTx(Run(EMPTY, steps), shop, k, m);
      && (r.Ok? <==>
            && k < |t.shipments| && t.shipments[k].status == Leaves(m).0
            && shop < |t.shops| && t.shipments[k].order < |t.orders|
            && t.orders[t.shipments[k].order].shop == shop && t.orders[t.shipments[k].order].status != Cancelled)
      && (r.Ok? ==> ParcelMoved(t, r.value, k, m))
  {
    InvAlways(steps);
    ShippingNeverJams(Run(EMPTY, steps), shop, k, m);
    if MoveTx(Run(EMPTY, steps), shop, k, m).Ok? {
      MovedTables(Run(EMPTY, steps), shop, k, m);
      MovedParcel(Run(EMPTY, steps), MoveTx(Run(EMPTY, steps), shop, k, m).value, k, m);
    }
  }

  lemma OrderFollows(t: Tables, k: Id, m: Move)
    requires Linked(t) && k < |t.shipments| && t.shipments[k].order < |t.orders| && t.shipments[k].status == m.From()
    requires Coupled(t, t.shipments[k].order) && t.orders[t.shipments[k].order].status != Cancelled
    ensures OrderAfter(t, k, m) == if OrderMoves(t, k, m) then m.OrderTarget().value else t.orders[t.shipments[k].order].status
  {
    var o := t.shipments[k].order;
    OrderOfMovable(t, k, m);
    var other := LastOutstanding(t.shipments, o, k);
    assert Outstanding(t.shipments, o) == 1 <==> OthersArrived(t.shipments, o, k);
  }

  lemma MovedParcel(t: Tables, u: Tables, k: Id, m: Move)
    requires Inv(t) && Moved(t, u, k, m) && t.shipments[k].status == m.From() && t.orders[t.shipments[k].order].status != Cancelled
    ensures ParcelMoved(t, u, k, m)
  {
    assert Coupled(t, t.shipments[k].order);
    OrderFollows(t, k, m);
  }
}
