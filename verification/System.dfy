/** The whole system: every transaction as one step, and runs of steps in any order from an empty database. */
module System {
  import opened Schema
  import opened Lifecycle
  import opened Fulfillment
  import opened Catalog
  import opened Invariants
  import opened LedgerProofs
  import opened OrderProofs
  import opened ShipmentProofs
  import opened CatalogProofs

  datatype Step =
    | AddsShop(provider: Provider)
    | AddsWarehouse(shop: Id, code: int, priority: int, active: bool)
    | EditsWarehouse(warehouse: Id, code: int, priority: int, active: bool)
    | CreatesProduct(shop: Id, stock: int, status: ProductStatus, allocations: seq<InitialInventory>)
    | EditsProduct(shop: Id, product: Id, status: ProductStatus)
    | Archives(shop: Id, product: Id)
    | SetsOnHand(warehouse: Id, product: Id, onHand: int)
    | CreatesOrder(seen: seq<Product>, shop: Id, wants: seq<Want>, expires: int)
    | Advances(shop: Id, order: Id, target: OrderStatus, clock: int, sla: int)
    | Cancels(shop: Id, order: Id, actor: Actor, reason: Reason)
    | FailsPayment(shop: Id, order: Id)
    | Expires(shop: Id, order: Id, rule: Rule, clock: int)
    | Claims(order: Id, until: int)
    | CreatesPackage(shop: Id, order: Id, picks: seq<Pick>, strict: bool)
    | CreatesShipment(shop: Id, order: Id, package: Option<Id>)
    | MovesShipment(shop: Id, shipment: Id, move: Move)

  ghost function Apply(t: Tables, step: Step): Result<Tables> {
    match step
    case AddsShop(provider) => Ok(AddShop(t, provider))
    case AddsWarehouse(shop, code, priority, active) => AddWarehouseTx(t, shop, code, priority, active)
    case EditsWarehouse(w, code, priority, active) => EditWarehouseTx(t, w, code, priority, active)
    case CreatesProduct(shop, stock, status, allocations) => CreateProductTx(t, shop, stock, status, allocations)
    case EditsProduct(shop, p, status) => EditProductTx(t, shop, p, status)
    case Archives(shop, p) => ArchiveTx(t, shop, p)
    case SetsOnHand(w, p, onHand) => SetOnHandTx(t, w, p, onHand)
    case CreatesOrder(seen, shop, wants, expires) => CreateOrderTx(t, seen, shop, wants, expires)
    case Advances(shop, o, target, clock, sla) =>
      if OrderProofs.Advances(target) then TransitionTx(t, shop, o, target, clock, sla) else Err(Rejected)
    case Cancels(shop, o, actor, reason) => CancelTx(t, shop, o, actor, reason)
    case FailsPayment(shop, o) => FailPaymentTx(t, shop, o)
    case Expires(shop, o, rule, clock) => CancelOverdueTx(t, shop, o, rule, clock)
    case Claims(o, until) => if o < |t.orders| then Ok(Claimed(t, o, until)) else Err(NotFound)
    case CreatesPackage(shop, o, picks, strict) => CreatePackageTx(t, shop, o, picks, strict)
    case CreatesShipment(shop, o, package) => CreateShipmentTx(t, shop, o, package)
    case MovesShipment(shop, k, move) => MoveTx(t, shop, k, move)
  }

  /** A failed transaction leaves no trace. */
  ghost function Next(t: Tables, step: Step): Tables { Settle(t, Apply(t, step)).0 }

  ghost function Run(t: Tables, steps: seq<Step>): Tables {
    if steps == [] then t else Next(Run(t, steps[..|steps| - 1]), steps[|steps| - 1])
  }

  lemma RunLast(steps: seq<Step>, init: seq<Step>, last: Step)
    requires steps != [] && init == steps[..|steps| - 1] && last == steps[|steps| - 1]
    ensures Run(EMPTY, steps) == Next(Run(EMPTY, init), last)
  {}

  lemma RunStep(steps: seq<Step>, step: Step)
    ensures Run(EMPTY, steps + [step]) == Next(Run(EMPTY, steps), step)
  {
    LastOfConcat(steps, [step]);
    assert steps + [] == steps;
    RunLast(steps + [step], steps, step);
  }

  lemma LastOfConcat<T>(a: seq<T>, b: seq<T>)
    requires b != []
    ensures (a + b)[..|a + b| - 1] == a + b[..|b| - 1] && (a + b)[|a + b| - 1] == b[|b| - 1]
  {}

  lemma RunOn(past: seq<Step>, future: seq<Step>)
    requires future != []
    ensures Run(EMPTY, past + future) == Next(Run(EMPTY, past + future[..|future| - 1]), future[|future| - 1])
  {
    LastOfConcat(past, future);
    RunLast(past + future, past + future[..|future| - 1], future[|future| - 1]);
  }

  /** Steps that edit shops, warehouses, products and physical stock. */
  predicate OnCatalog(step: Step) {
    step.AddsShop? || step.AddsWarehouse? || step.EditsWarehouse? || step.CreatesProduct? || step.EditsProduct?
    || step.Archives? || step.SetsOnHand?
  }

  /** Steps that create, move or lease an order as a whole. */
  predicate OnOrder(step: Step) {
    step.CreatesOrder? || step.Advances? || step.Cancels? || step.FailsPayment? || step.Expires? || step.Claims?
  }

  // ----- the invariant, and drift, over every run -----

  lemma CatalogStepKeepsInv(t: Tables, step: Step)
    requires Inv(t) && OnCatalog(step) && Apply(t, step).Ok?
    ensures Inv(Apply(t, step).value)
  {
    match step
    case AddsShop(provider) => AddShopKeepsInv(t, provider);
    case AddsWarehouse(shop, code, priority, active) => AddWarehouseKeepsInv(t, shop, code, priority, active);
    case EditsWarehouse(w, code, priority, active) => EditWarehouseKeepsInv(t, w, code, priority, active);
    case CreatesProduct(shop, stock, status, allocations) => CreateProductKeepsInv(t, shop, stock, status, allocations);
    case EditsProduct(shop, p, status) => ProductStatusKeepsInv(t, p, status);
    case Archives(shop, p) => ProductStatusKeepsInv(t, p, ProductDeleted);
    case SetsOnHand(w, p, onHand) => SetOnHandKeepsInv(t, w, p, onHand);
  }

  lemma ExpireKeepsInv(t: Tables, shop: Id, o: Id, rule: Rule, clock: int)
    requires Inv(t) && CancelOverdueTx(t, shop, o, rule, clock).Ok?
    ensures Inv(CancelOverdueTx(t, shop, o, rule, clock).value)
  {
    match rule
    case PaymentRule => CancelKeepsInv(t, o, Some(PaymentExpired), Some(PaymentExpiredEvent(o)));
    case SellerRule => CancelKeepsInv(t, o, None, Some(SlaExpiredEvent(o)));
  }

  lemma OrderStepKeepsInv(t: Tables, step: Step)
    requires Inv(t) && OnOrder(step) && Apply(t, step).Ok?
    ensures Inv(Apply(t, step).value)
  {
    match step
    case CreatesOrder(seen, shop, wants, expires) => CreateKeepsInv(t, seen, shop, wants, expires);
    case Advances(shop, o, target, clock, sla) => AdvanceKeepsInv(t, shop, o, target, clock, sla);
    case Cancels(shop, o, actor, reason) => CancelKeepsInv(t, o, None, None);
    case FailsPayment(shop, o) => CancelKeepsInv(t, o, Some(PaymentFailed), Some(PaymentFailedEvent(o)));
    case Expires(shop, o, rule, clock) => ExpireKeepsInv(t, shop, o, rule, clock);
    case Claims(o, until) => ClaimKeepsInv(t, o, until);
  }

  lemma ParcelStepKeepsInv(t: Tables, step: Step)
    requires Inv(t) && !OnCatalog(step) && !OnOrder(step) && Apply(t, step).Ok?
    ensures Inv(Apply(t, step).value)
  {
    match step
    case CreatesPackage(shop, o, picks, strict) => CreatePackageKeepsInv(t, shop, o, picks, strict);
    case CreatesShipment(shop, o, package) => CreateShipmentKeepsInv(t, shop, o, package);
    case MovesShipment(shop, k, move) => MoveKeepsInv(t, shop, k, move);
  }

  lemma StepKeepsInv(t: Tables, step: Step)
    requires Inv(t)
    ensures Inv(Next(t, step))
  {
    if Apply(t, step).Ok? {
      if OnCatalog(step) {
        CatalogStepKeepsInv(t, step);
      } else if OnOrder(step) {
        OrderStepKeepsInv(t, step);
      } else {
        ParcelStepKeepsInv(t, step);
      }
    }
  }

  /** Every state that any run can reach satisfies the invariant. */
  lemma {:induction false} InvAlways(steps: seq<Step>)
    ensures Inv(Run(EMPTY, steps))
  {
    if steps == [] {
      EmptyInv();
    } else {
      InvAlways(steps[..|steps| - 1]);
      StepKeepsInv(Run(EMPTY, steps[..|steps| - 1]), steps[|steps| - 1]);
    }
  }

  lemma CancellationNeverDrifts(t: Tables, step: Step)
    requires Inv(t) && (step.Cancels? || step.FailsPayment? || step.Expires?)
    ensures Apply(t, step) != Err(Drift)
  {
    if step.order < |t.orders| {
      match step
      case Cancels(shop, o, actor, reason) => CancelSucceeds(t, o, None, None);
      case FailsPayment(shop, o) => CancelSucceeds(t, o, Some(PaymentFailed), Some(PaymentFailedEvent(o)));
      case Expires(shop, o, PaymentRule, clock) => CancelSucceeds(t, o, Some(PaymentExpired), Some(PaymentExpiredEvent(o)));
      case Expires(shop, o, SellerRule, clock) => CancelSucceeds(t, o, None, Some(SlaExpiredEvent(o)));
    }
  }

  lemma StepDriftsExactly(t: Tables, step: Step)
    requires Inv(t)
    ensures Apply(t, step) == Err(Drift) <==> step.CreatesOrder? && LeftSale(t, step.seen, step.shop, step.wants)
  {
    if step.Cancels? || step.FailsPayment? || step.Expires? {
      CancellationNeverDrifts(t, step);
    } else if step.CreatesOrder? {
      AllocationDriftsExactly(t, step.seen, step.shop, step.wants, step.expires);
    } else if step.MovesShipment? {
      ShippingNeverJams(t, step.shop, step.shipment, step.move);
    } else {
      OthersNeverDrift(t, step);
    }
  }

  lemma OthersNeverDrift(t: Tables, step: Step)
    requires !step.Cancels? && !step.FailsPayment? && !step.Expires? && !step.CreatesOrder? && !step.MovesShipment?
    ensures Apply(t, step) != Err(Drift)
  {}

  /** After any run, the one way to a drift error is an order whose products were read before one of them left sale.
      `Release` and `FulfillPackage` never drift, and neither does an order whose products are still on sale. */
  lemma DriftExactly(steps: seq<Step>, step: Step)
    ensures var t := Run(EMPTY, steps);
      Apply(t, step) == Err(Drift) <==> step.CreatesOrder? && LeftSale(t, step.seen, step.shop, step.wants)
  {
    InvAlways(steps);
    StepDriftsExactly(Run(EMPTY, steps), step);
  }
}
