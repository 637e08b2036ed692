/** The rows of the order, inventory and fulfillment tables. An identifier is the position of its row
    in its table, so a fresh identifier is the length of the table. */
module Schema {

  type Id = nat

  datatype Option<+T> = None | Some(value: T)

  /** How a transaction fails; the caller then rolls back. `Drift` is any of the "drift" and "cannot fulfill" errors. */
  datatype Error = NotFound | Rejected | NotEligible | NoWarehouse | InUse | Constraint | Drift

  datatype Result<+T> = Ok(value: T) | Err(error: Error)

  datatype Provider = ShopeeLike | TokopediaLike

  datatype OrderStatus = Unpaid | Paid | Processing | ReadyToShip | Shipped | InDelivery
    | Delivered | Completed | Cancelled | Returned

  datatype PaymentStatus = PaymentPending | PaymentPaid | PaymentFailed | PaymentExpired

  datatype ReservationStatus = Active | Committed | Released | Fulfilled

  datatype ParcelStatus = ParcelCreated | ParcelShipped | ParcelInDelivery | ParcelDelivered
    | ParcelDeliveryFailed | ParcelReturning | ParcelReturned

  /** A package is READY_TO_SHIP until it takes the status of its shipment. */
  datatype PackageStatus = PackageReady | PackageMoved(at: ParcelStatus)

  /** PENDING, DELIVERED, FAILED and CANCELLED webhook deliveries. */
  datatype DeliveryStatus = DeliveryPending | DeliveryDelivered | DeliveryFailed | DeliveryCancelled

  datatype ProductStatus = ProductActive | ProductInactive | ProductDeleted

  /** `code` is the rank of the warehouse code in the database's text order; `origin` marks the fixed primary key that
      each shop has for its default warehouse, whatever code that row carries by now. */
  datatype Warehouse = Warehouse(shop: Id, code: int, priority: int, active: bool, origin: bool)

  /** `stock` is the unreserved quantity over all warehouses. */
  datatype Product = Product(shop: Id, stock: int, status: ProductStatus)

  datatype Stock = Stock(onHand: int, reserved: int)

  datatype Order = Order(shop: Id, status: OrderStatus, payment: PaymentStatus, expires: Option<int>,
    sellerDeadline: Option<int>, warehouse: Option<Id>, claimedUntil: Option<int>)

  datatype Item = Item(order: Id, product: Id, quantity: int)

  datatype Reservation = Reservation(order: Id, product: Id, warehouse: Id, quantity: int, fulfilled: int,
    status: ReservationStatus)

  datatype Package = Package(order: Id, warehouse: Id, status: PackageStatus, lines: map<Id, int>)

  datatype Shipment = Shipment(order: Id, package: Id, status: ParcelStatus)

  datatype Event = OrderStatusEvent(order: Id, status: OrderStatus) | PaymentFailedEvent(order: Id)
    | PaymentExpiredEvent(order: Id) | SlaExpiredEvent(order: Id)
    | ShipmentEvent(shipment: Id, parcel: ParcelStatus) | ProductEvent(product: Id)

  /** `reservations` is keyed by order item and `lines` of a package by order item, which are the unique
      indexes of the schema; `stock` is keyed by (warehouse, product); `outbox` holds event identifiers. */
  datatype Tables = Tables(
    shops: seq<Provider>,
    warehouses: seq<Warehouse>,
    products: seq<Product>,
    stock: map<(Id, Id), Stock>,
    orders: seq<Order>,
    items: seq<Item>,
    reservations: map<Id, Reservation>,
    packages: seq<Package>,
    shipments: seq<Shipment>,
    events: seq<Event>,
    outbox: seq<Id>)

  const EMPTY: Tables := Tables([], [], [], map[], [], [], map[], [], [], [], [])

  /** The database as one transaction sees it. BEGIN keeps a copy of `db` and ROLLBACK puts it back. */
  class Tx {
    var db: Tables

    constructor (db: Tables)
      ensures this.db == db
    {
      this.db := db;
    }
  }

  /** The database and answer that a handler leaves behind when its transaction has outcome `r`. */
  function Settle(before: Tables, r: Result<Tables>): (Tables, Option<Error>) {
    match r
    case Ok(after) => (after, None)
    case Err(e) => (before, Some(e))
  }

  /** `events.Record`: the event and its outbox row, together. */
  function Record(t: Tables, e: Event): Tables {
    t.(events := t.events + [e], outbox := t.outbox + [|t.events|])
  }
}
