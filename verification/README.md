# Marketplace order, inventory and webhook engine: a Dafny model

The marketplace back end keeps orders, stock, packages, shipments, webhooks and idempotency keys in one PostgreSQL
database, and spreads its guarantees over many handlers. This project models that engine and proves the guarantees for
all inputs and all runs. `dafny verify dfyconfig.toml` checks everything.

## How the model is built

- `Schema` holds the rows of the order, inventory and fulfillment tables as one value, `Tables`, and the class `Tx`, whose
  field `db` a transaction overwrites and, on error, puts back (`Settle`).
- `Inventory`, `Lifecycle`, `Fulfillment` and `Catalog` hold the transactions. Each is a method on `Tx` with the loops and
  guards of the handler, and is proved equal to a function on `Tables` that states its outcome by totals: what lines need,
  what reservations hold, what a package takes. Every guard that reports "drift" is thereby equated with a comparison of
  totals.
- `Invariants` says what every committed state satisfies; `LedgerProofs`, `OrderProofs`, `ShipmentProofs` and
  `CatalogProofs` show that every transaction keeps it.
- `System` makes each transaction one `Step`, and runs any sequence of steps from an empty database. `History` says what no
  step undoes, `Conservation` counts units of stock, `Evidence` ties the event log to failures and returns, `Guards` and
  `Theorems` state the promises about every reachable state, `Endings` says what becomes of an order once it has begun to
  ship, and `Witnesses` reaches the states they single out. `Decisions` and `Edits` say exactly which requests are accepted
  and what they leave behind, in the columns of the rows and without the predicates that the transactions themselves use.
- `Deadlines` is the worker's drain loop on the same database.
- `Idempotency`, `Deletion` and `Attempts` are about interleaving, so there each SQL statement is a step of its own:
  statements of any number of requests, handlers and transactions alternate freely, handlers may overrun their leases or
  die, and answers may be lost. `Answers` says exactly what each statement and each retry of `Idempotency` is answered, and
  `Recorder` is the response buffer that belongs to it.
- `Outbox`, `RateLimit` and `Paging` model publication, the request quota and the page contract with its client.

The schema is part of what is modelled: one reservation per order item
(apps/marketplace/migrations/007_provider_rts_inventory.sql), one shipment per package and the CHECKs on warehouse rows
(apps/marketplace/migrations/008_warehouse_fulfillment.sql), one line per package and item
(apps/marketplace/migrations/006_provider_payment_packages.sql), one attempt number per delivery and one outbox row per event
(apps/marketplace/migrations/001_initial.sql). Identifiers are row positions, so a new one is fresh.

## What turned out differently than one might read it

- A worker that dies between recording a delivery attempt and updating the delivery leaves it stuck: every later handler
  computes the same attempt number, violates its uniqueness and fails (`Attempts.DeathLosesAttempt`). A pending delivery can
  still be settled exactly when its stored count equals its recorded attempts or a handler is between those two statements
  (`Attempts.SettleableExactly`, and `Attempts.AttemptableExactly` for deliveries in any status).
- The unique attempt number also means that overlapping handlers cannot record more than five attempts plus one per manual
  retry (`Attempts.AttemptsAreBounded`), although they can make any number of HTTP calls (`Attempts.CallsAreUnbounded`).
- Order creation reads its products without a lock. When one leaves sale before it is reserved, `Allocate` reports drift
  (`Witnesses.ArchivingBetweenCausesDrift`). That is the only drift there is (`System.DriftExactly`).
- Recoding a shop's default warehouse blocks every later product that names no warehouse: the default warehouse is inserted
  again under its fixed primary key (`Guards.RecodingBlocksProducts`, and exactly when in `Guards.DefaultWarehouseExactly`).
- At the very instant a payment expires, both paying and expiring are accepted; the first to commit wins
  (`Theorems.ExpiryInstant`).
- The client's collection loop promises never to return a partial list silently, but a removal between two requests can hide
  a record from both of its checks (`Paging.RemovalLosesRecord`). A record is lost only if it moves from what is still to be
  fetched to what no longer is, and exactly then if it does not also move back (`Paging.LostHasSkipped`,
  `Paging.LostExactly`); a collection that does not change, or only grows, is safe.
- A Tokopedia-like order can be cancelled when its packages and shipments already exist
  (`Witnesses.CancellationStrandsShipment`). Those shipments then stay CREATED for good (`Theorems.StrandedForGood`), which is
  the one case in which a shipment in the right status cannot move (`Theorems.ShipmentsNeverJam`).
- Packages and shipments are created only while an order is ready, and a shipped order cannot be cancelled. So what is in no
  package with a shipment when the first shipment goes can neither ship nor be given back: its stock stays reserved for good
  (`Endings.StockLeftBehind`, the run `Witnesses.PartialShipmentLeavesStock`, and exactly what can still ship in
  `Endings.ShippableExactly` and `Endings.FulfillableExactly`).
- An idempotency row from before request hashes were stored answers requests of different hashes alike
  (`Idempotency.LegacyAnswersTwoHashes`); without such a row one key answers one hash (`Idempotency.OneAnswerPerKey`).

## Model

| member | source | states |
|---|---|---|
| Inventory.AggregateRequiredQuantity | apps/marketplace/internal/inventory/reservation.go:116-125 | succeeds exactly when every line asks for a positive quantity, and then maps exactly the requested products to their totals over all lines |
| Inventory.ChoosesBestWarehouse | apps/marketplace/internal/inventory/reservation.go:45-92 | the chosen warehouse is active, covers the totals of all lines, and every other such warehouse has a lower priority, or the same priority and no smaller code; none is chosen exactly when none covers |
| Inventory.CoversRequired | apps/marketplace/internal/inventory/reservation.go:79-92 | the scan over the required products accepts a warehouse exactly when it covers every line's product total |
| Inventory.ReserveLines | apps/marketplace/internal/inventory/reservation.go:93-107 | reserving line by line, with repeated products, succeeds exactly when the totals are covered and moves each row and product by its total |
| Inventory.Allocate | apps/marketplace/internal/inventory/reservation.go:45-114 | the whole allocation, its two failures, and the warehouse it fixes on the order: one that covers the request, with the highest priority and then the smallest code among those |
| Inventory.Commit | apps/marketplace/internal/inventory/reservation.go:127-131 | after payment no reservation of the order is ACTIVE, other orders' reservations are untouched, and what is held in every warehouse is exactly what was held before |
| Inventory.ReleaseGuard | apps/marketplace/internal/inventory/reservation.go:160-168 | the guard of one released row passes exactly when the rows cover the totals of all released so far including it |
| Inventory.Release | apps/marketplace/internal/inventory/reservation.go:133-174 | succeeds exactly when the warehouse rows cover all the order holds open, and gives back exactly those totals to rows and products |
| Inventory.FulfillGuard | apps/marketplace/internal/inventory/reservation.go:204-213 | the guards of one package line pass exactly when the totals of all lines so far including it fit reservations and rows |
| Inventory.FulfillPackage | apps/marketplace/internal/inventory/reservation.go:176-220 | succeeds exactly when the package has reservations, all open and large enough, and the rows hold the totals; takes those totals off the shelf and off the reserved quantities |
| OrderProofs.AdvanceEffect | apps/marketplace/internal/orders/service.go:114-159 | an accepted transition adds exactly one status to the order's trail, decides the payment exactly when it is a payment made by the order's expiry, leaves the order's reservations committed and unshipped, and changes no stock figure and no other order |
| Lifecycle.Cancel | apps/marketplace/internal/orders/service.go:161-188 | the outcome of a cancellation for every actor, reason, provider and state |
| Lifecycle.CancelOverdue | apps/marketplace/internal/orders/service.go:190-242 | the outcome of enforcing a deadline on a possibly stale candidate, which is left alone unless it is unpaid and its expiry has come, or paid or processing and the seller deadline has come |
| Lifecycle.FailPayment | apps/marketplace/internal/server/lifecycle_handlers.go:126-163 | the outcome of a simulated payment failure |
| Fulfillment.CreateSimulatedOrder | apps/marketplace/internal/server/control_fulfillment.go:219-322 | whatever the item loop has read of the catalogue, the request either leaves the order, its items, its reservations and its event, or nothing at all |
| Fulfillment.CreatePackage | apps/marketplace/internal/server/provider_fulfillment.go:205-258 | package creation for both callers: all picks or nothing |
| Fulfillment.CreateShipment | apps/marketplace/internal/server/provider_fulfillment.go:295-365 | without a package id nothing of the order is left to pack afterwards and the remainders of other orders are untouched |
| Fulfillment.DecideOrderMove | apps/marketplace/internal/server/lifecycle_handlers.go:230-248 | when a shipment action also moves the order, leaves it where it is, or is refused |
| Fulfillment.TransitionShipment | apps/marketplace/internal/server/lifecycle_handlers.go:215-283 | every shipment action: stock, shipment, package, order and events together or not at all |
| Catalog.SumInitial | apps/marketplace/internal/products/service.go:83-122 | the initial allocations are accepted exactly when they name distinct warehouses with non-negative counts, and then their sum is the product's stock |
| Catalog.CreateProduct | apps/marketplace/internal/repository/products/postgres.go:29-69 | the product, its warehouse rows and its event appear together or not at all, including when the default warehouse's primary key is taken |
| Guards.CountRefusedExactly | apps/marketplace/internal/server/control_inventory.go:187-248 | on every run a physical count is refused exactly when it is below what open reservations hold there; an accepted one is the new count and the product's stock follows |
| CatalogProofs.StockedTotals | apps/marketplace/internal/repository/products/postgres.go:45-60 | the insert loop leaves each warehouse exactly its allocation, nothing reserved, and every other row as it was |
| CatalogProofs.CreateProductKeepsInv | apps/marketplace/internal/repository/products/postgres.go:29-69 | a new product's stock is the sum of its warehouse rows, and codes, links and ledgers stay in order |
| CatalogProofs.AddShopKeepsInv | apps/marketplace/internal/server/control_shops.go:90-125 | a new shop starts with exactly one default warehouse of its own, and nothing else is disturbed |
| CatalogProofs.AddWarehouseKeepsInv | apps/marketplace/internal/server/control_inventory.go:61-89 | a new warehouse keeps codes unique per shop and leaves all ledgers in agreement |
| CatalogProofs.EditWarehouseKeepsInv | apps/marketplace/internal/server/control_inventory.go:110-139 | so does editing code, priority or status of a warehouse that already holds reserved stock |
| CatalogProofs.ProductStatusKeepsInv | apps/marketplace/internal/repository/products/postgres.go:87-117 | taking a product off sale or deleting it disturbs no ledger and no order |
| LedgerProofs.ReleaseKeepsLedger | apps/marketplace/internal/inventory/reservation.go:133-174 | from agreeing ledgers a release always succeeds and leaves them agreeing |
| LedgerProofs.CanAlwaysFulfill | apps/marketplace/internal/inventory/reservation.go:178-220 | no guard fires for a package that is ready and whose reservations are open |
| LedgerProofs.AllocationDriftsExactly | apps/marketplace/internal/server/control_fulfillment.go:282-301 | from agreeing ledgers the aggregate-stock guard of an order fails exactly when some warehouse covers it but one of its products has left sale since it was read |
| LedgerProofs.SetOnHandKeepsLedger | apps/marketplace/internal/server/control_inventory.go:211-246 | setting a physical count keeps the three ledgers in agreement |
| ShipmentProofs.PacksEachPickOnce | apps/marketplace/internal/server/provider_fulfillment.go:228-256 | a request is packed exactly when every pick fits what remains and no item repeats, and the package then holds exactly each pick's share |
| ShipmentProofs.WholeOrderPacked | apps/marketplace/internal/server/provider_fulfillment.go:321-342 | a shipment without a package id leaves every item of the order packed in exactly its ordered quantity |
| ShipmentProofs.CreatePackageKeepsInv | apps/marketplace/internal/server/provider_fulfillment.go:205-258 | no package ever takes an item beyond its ordered quantity, and ledgers, statuses and log stay coupled |
| ShipmentProofs.CreateShipmentKeepsInv | apps/marketplace/internal/server/provider_fulfillment.go:295-365 | a shipment never shares its package, and its order's status still projects all its shipments |
| ShipmentProofs.ShippingNeverJams | apps/marketplace/internal/server/lifecycle_handlers.go:215-283 | in a consistent state an action succeeds exactly when the shipment is in the status it leaves and the order is not cancelled |
| ShipmentProofs.MoveKeepsInv | apps/marketplace/internal/server/lifecycle_handlers.go:215-283 | every shipment action keeps ledgers, quantities, statuses and event log coupled |
| OrderProofs.CreateKeepsInv | apps/marketplace/internal/server/control_fulfillment.go:219-322 | order creation keeps ledgers, quantities, statuses and event log coupled |
| OrderProofs.AdvanceKeepsInv | apps/marketplace/internal/orders/service.go:114-159 | paying, processing, readying and completing keep them coupled |
| OrderProofs.CancelKeepsInv | apps/marketplace/internal/orders/service.go:161-242 | every kind of cancellation succeeds from a cancellable status and keeps them coupled |
| System.InvAlways | apps/marketplace/internal/repository/orders/postgres.go:30-49 | the invariant holds after every run of transactions, failed ones included |
| System.DriftExactly | apps/marketplace/internal/inventory/reservation.go:45-220 | after any run, a request ends in drift exactly when it is an order whose product left sale between being read and being reserved; release and fulfilment never drift |
| Witnesses.ArchivingBetweenCausesDrift | apps/marketplace/internal/server/control_fulfillment.go:282-301 | a concrete run in which archiving a product between the two causes drift |
| History.NothingUndone | apps/marketplace/internal/orders/service.go:114-242 | over every run: order identities, decided payments, released and fulfilled reservations, package lines, shipment progress and recorded events are never undone |
| Conservation.StockConserved | apps/marketplace/internal/server/control_inventory.go:211-246 | for every warehouse and product, on hand plus shipped equals the net units administrators have stocked |
| Conservation.MoveUnits | apps/marketplace/internal/inventory/reservation.go:204-218 | shipping takes off each shelf exactly what it counts as shipped from there |
| Evidence.LogTellsFailures | apps/marketplace/internal/server/lifecycle_handlers.go:150-157 | on every run a payment has failed or expired, and a shipment has failed, is returning or is back, exactly when the log holds that event |
| Evidence.CancelTruthful | apps/marketplace/internal/orders/service.go:216-239 | a cancellation that decides the payment together with its event, or that leaves the payment alone, keeps the log and the payments telling the same |
| Guards.DeletedProductsHoldNothing | apps/marketplace/internal/repository/products/postgres.go:119-160 | a deleted product is reserved nowhere, and archiving is refused only while an open reservation exists |
| Edits.ArchivingExactly | apps/marketplace/internal/repository/products/postgres.go:119-160 | on every run a product can be deleted exactly when nothing of it is reserved in any warehouse |
| Edits.ProductCreatedExactly | apps/marketplace/internal/products/service.go:83-122 | on every run a product with allocations is created exactly when they name different warehouses of its shop and no negative count; each warehouse then holds its allocation |
| Edits.ProductEditedExactly | apps/marketplace/internal/repository/products/postgres.go:87-117 | a product that is not deleted can be edited, but not into a deleted one; its stock stays |
| Edits.WarehouseAddedExactly | apps/marketplace/internal/server/control_inventory.go:61-89 | a warehouse is added, as given, exactly when no other of its shop has its code |
| Edits.WarehouseEditedExactly | apps/marketplace/internal/server/control_inventory.go:110-139 | a warehouse may take any code that no other of its shop has, and keeps its shop |
| Guards.DefaultWarehouseExactly | apps/marketplace/internal/inventory/reservation.go:33-43 | on every run, a product without allocations is refused exactly when no warehouse of its shop carries the default code any more; otherwise all its stock is in the warehouse with that code, and no second default warehouse is created |
| Guards.RecodingBlocksProducts | apps/marketplace/internal/server/control_inventory.go:110-139 | a concrete run that recodes a default warehouse and so blocks the next product |
| Guards.PaymentStartsDeadline | apps/marketplace/internal/repository/orders/postgres.go:64-71 | the worker may cancel a just paid order exactly from payment plus the limit on, and only for Shopee-like shops with a limit |
| Theorems.LedgersAgree | apps/marketplace/internal/inventory/reservation.go:45-220 | on every run 0 <= reserved <= on hand, reserved is what open reservations hold, and product stock is what warehouses have free |
| Theorems.OrdersGoToBestWarehouse | apps/marketplace/internal/inventory/reservation.go:45-125 | on every run a request that is not refused for its lines ends without stock exactly when no active warehouse of the shop has all it asks for, in drift exactly when one has but a product has left sale, and otherwise at the one with the highest priority and then the smallest code |
| Theorems.OrderRejectedExactly | apps/marketplace/internal/server/control_fulfillment.go:279-300 | a request is refused for its lines exactly when one asks for no positive quantity or for what the shop was not selling when the line was read |
| Theorems.OrderPlaced | apps/marketplace/internal/server/control_fulfillment.go:236-322 | an accepted request leaves one unpaid order at its warehouse, an item and an active reservation per line, and each warehouse row and product moved by exactly what the request asks of it |
| Theorems.CancelUndoesCreate | apps/marketplace/internal/inventory/reservation.go:133-174 | cancelling a new order restores every warehouse row and product exactly |
| Theorems.ReservationsFollowOrders | apps/marketplace/internal/orders/service.go:114-242 | ACTIVE exactly while unpaid, RELEASED exactly when cancelled, FULFILLED exactly when all has shipped; anything shipped means the order is SHIPPED or further |
| Theorems.StockGivenBackOnce | apps/marketplace/internal/inventory/reservation.go:133-174 | released stock is never touched again, and a reservation of which anything shipped is never released |
| Theorems.PackagesAddUp | apps/marketplace/internal/server/provider_fulfillment.go:205-258 | fulfilled is the sum over shipped packages, at most the sum over all packages, at most the ordered quantity |
| Theorems.ShipmentsNeverJam | apps/marketplace/internal/server/lifecycle_handlers.go:215-283 | on every run a shipment action is refused only for the wrong shipment status, another shop or a cancelled order |
| Theorems.StrandedForGood | apps/marketplace/internal/server/lifecycle_handlers.go:215-283 | a shipment of a cancelled order stays CREATED in every future, and every action on it is refused |
| Theorems.ReadyOrderCanStrand | apps/marketplace/internal/orders/provider.go:37-51 | a ready order of a Tokopedia-like shop can always be shipped out of what remains and then cancelled, which strands the shipment |
| Witnesses.CancellationStrandsShipment | apps/marketplace/internal/orders/provider.go:37-51 | a concrete run to a cancelled order with a CREATED shipment |
| Endings.GoneIsSealed | apps/marketplace/internal/server/provider_fulfillment.go:205-258 | from its first shipment on an order is never ready or cancelled again, and no run ever adds a package or a shipment to it |
| Endings.MovedByShipmentAlways | apps/marketplace/internal/server/lifecycle_handlers.go:215-283 | on every run a package that has moved was moved by a shipment of its own |
| Endings.StockLeftBehind | apps/marketplace/internal/server/provider_fulfillment.go:295-365 | what an item of such an order has in no package with a shipment never ships and is never given back: in every future it stays reserved at its warehouse, and its product cannot be archived |
| Endings.ShippableExactly | apps/marketplace/internal/server/lifecycle_handlers.go:215-283 | some future ships at least a given quantity of the item exactly when packages with a shipment hold that much of it |
| Endings.FulfillableExactly | apps/marketplace/internal/inventory/reservation.go:176-220 | the item's reservation can still become FULFILLED exactly when packages with a shipment hold all that was ordered |
| Witnesses.PartialShipmentLeavesStock | apps/marketplace/internal/server/control_fulfillment.go:125-180 | a concrete run that ships one of two units and leaves the other reserved in every future |
| Theorems.StatusProjectsShipments | apps/marketplace/internal/server/lifecycle_handlers.go:225-268 | the order status is, in both directions, a projection of its shipments; there are none before READY_TO_SHIP, and a finished order has a delivery if DELIVERED or COMPLETED and a return if RETURNED |
| Theorems.PaymentDecidedOnce | apps/marketplace/internal/orders/service.go:122-226 | payment leaves PENDING at most once; failed or expired means cancelled; past UNPAID and not cancelled means paid |
| Theorems.ExpiryInstant | apps/marketplace/internal/orders/service.go:122-204 | at the instant of expiry both payment and expiry are accepted, and whichever comes first refuses the other |
| Decisions.OneInstantForBoth | apps/marketplace/internal/orders/service.go:125-204 | on every run an unpaid order can be paid and not expire before its expiry, expire and not be paid after it, and both only at that instant |
| Decisions.TransitionExactly | apps/marketplace/internal/orders/service.go:116-127 | on every run a transition is accepted exactly for the pairs of statuses of the table and, for a payment, by the expiry |
| Decisions.ExpiryExactly | apps/marketplace/internal/orders/service.go:203-236 | on every run an order expires exactly when it is unpaid and its expiry has come; it is then EXPIRED and cancelled with both events and its reservations are given back |
| Decisions.SellerTimeoutExactly | apps/marketplace/internal/orders/service.go:207-236 | on every run a seller times out exactly when the order is paid or processing and the seller deadline has come; the payment stands, both events are recorded and the reservations are given back |
| Decisions.CancellationExactly | apps/marketplace/internal/orders/provider.go:37-64 | on every run a cancellation is accepted exactly for a reason of that actor and, in a Shopee-like shop, for the statuses that actor may cancel from, or in a Tokopedia-like one until the order ships; what it leaves behind |
| Decisions.PaymentFailureExactly | apps/marketplace/internal/server/lifecycle_handlers.go:126-163 | on every run a payment fails exactly while the order is unpaid; what that leaves behind |
| Decisions.PackageExactly | apps/marketplace/internal/server/provider_fulfillment.go:218-256 | on every run a package is accepted exactly for a ready order and picks of different items of it within what is left; it holds what each pick names, or all that is left where it names nothing |
| Decisions.WholeShipmentExactly | apps/marketplace/internal/server/provider_fulfillment.go:314-342 | on every run a shipment of all that is left is accepted exactly when the order is ready and something is left |
| Decisions.PackageShipmentExactly | apps/marketplace/internal/server/provider_fulfillment.go:343-365 | on every run a shipment of a package is accepted exactly when the order is ready and the package is its own and has no shipment |
| Decisions.ShipmentActionExactly | apps/marketplace/internal/server/lifecycle_handlers.go:177-283 | on every run each of the six actions is accepted exactly from its shipment status while the order is not cancelled, and the order moves exactly with its first shipment to go, its first on delivery and its last to arrive |
| Theorems.PathGoesDeeper | apps/marketplace/internal/orders/lifecycle.go:20-31 | no path through the transition table visits a status twice |
| Theorems.EventLogTellsOrder | apps/marketplace/internal/events/outbox.go:15-28 | replaying an order's events walks the transition table from UNPAID to the stored status, no status event repeats, and each event has one outbox row |
| Deadlines.EarliestDue | apps/marketplace/cmd/worker/deadlines.go:35-70 | the claim query's first row is the selectable order with the earliest deadline and, among those, the smallest identifier; there is none exactly when nothing is selectable |
| Deadlines.EarliestExpiry | apps/marketplace/cmd/worker/deadlines.go:37-47 | whenever a pending unpaid order has expired and has no live lease, the payment query's first row is the one that expired first |
| Deadlines.EarliestSellerDeadline | apps/marketplace/cmd/worker/deadlines.go:55-65 | whenever a paid or processing order is past its seller deadline and has no live lease, the seller query's first row is the one whose deadline came first |
| Deadlines.ClaimDeadlineBatch | apps/marketplace/cmd/worker/deadlines.go:115-142 | claims distinct orders, at most a batch, none left out due before them, and leaves selectable orders only when the batch is full |
| Deadlines.ProcessDeadlineBatch | apps/marketplace/cmd/worker/deadlines.go:144-185 | whichever jobs fail and in whatever order they are taken, every other claimed order is cancelled, each failure is reported once, and the error channel always has room |
| Deadlines.EnforceOrderDeadlines | apps/marketplace/cmd/worker/deadlines.go:87-113 | whichever jobs fail, the drain stops; it claims, each exactly once, the orders without a live lease that are unpaid past their expiry or paid or processing past the seller deadline, cancels exactly those whose job did not fail, reports exactly the failed ones, and touches no order whose deadline is still ahead |
| Idempotency.OneAnswerPerKey | apps/marketplace/internal/server/provider_middleware.go:48-104 | all successful answers ever sent for a key are equal and, unless a legacy row answers, belong to one request hash, under any interleaving |
| Answers.RetriesAreAnswered | apps/marketplace/internal/idempotency/manager.go:59-131 | once a request has completed, every later insert and read, whatever interleaves, is answered with exactly the completed response for the same hash and with a conflict for another |
| Answers.InsertExactly | apps/marketplace/internal/idempotency/manager.go:59-89 | on every run the insert claims the key exactly when it has no row, until a lease after the clock; after three attempts the request gives up |
| Answers.ReadExactly | apps/marketplace/internal/idempotency/manager.go:94-115 | on every run the read is a conflict exactly for another stored hash, a replay exactly for a stored answer, in progress exactly while the latest claim's lease is ahead, and a takeover exactly when it is not |
| Answers.TakeOverExactly | apps/marketplace/internal/idempotency/manager.go:117-131 | on every run a takeover is granted exactly when the key is still claimed for the same hash and the latest lease has run out by the database clock |
| Answers.CompleteExactly | apps/marketplace/internal/idempotency/manager.go:134-150 | on every run a success is stored exactly when the request still has the latest claim on an unanswered key |
| Answers.ReleaseExactly | apps/marketplace/internal/idempotency/manager.go:152-164 | on every run a failure is passed on, stored nowhere, and frees the key exactly when the request still has the claim |
| Answers.ClaimBlocksExactly | apps/marketplace/internal/server/server.go:78-88 | a claim keeps requests of the same hash waiting for exactly a minute, or the request lifetime and ten seconds if that is longer |
| Idempotency.LegacyAnswersTwoHashes | apps/marketplace/internal/idempotency/manager.go:96-114 | from any legacy row, requests of any two hashes can get the same stored answer |
| Idempotency.OneCompletionPerKey | apps/marketplace/internal/idempotency/manager.go:134-150 | at most one completion ever succeeds, none over a legacy response |
| Idempotency.GrantsAreSuccessive | apps/marketplace/internal/idempotency/manager.go:75-131 | between two grants the earlier owner released the claim or its lease had expired by the database clock |
| Idempotency.ReplacedOwnerIsHarmless | apps/marketplace/internal/idempotency/manager.go:134-164 | completing or releasing by a replaced owner changes nothing |
| Idempotency.OverlapNeedsOverrun | apps/marketplace/internal/idempotency/manager.go:75-131 | two requests for a key execute at once only if one has overrun its lease |
| Idempotency.PunctualExecutionsDoNotOverlap | apps/marketplace/internal/server/server.go:78-78 | with the configured lease, clocks less than eight seconds apart, executions within the request lifetime and claims completed or released within two seconds more, no two requests for a key are ever executing or settling at once |
| Recorder.Execute | apps/marketplace/internal/server/provider_middleware.go:74-104 | a client sees a success only if it was stored, and then exactly what was stored; a failure passes through; a success that could not be stored is withheld |
| Recorder.ResponseRecorder.Commit | apps/marketplace/internal/server/middleware.go:66-73 | sends the first recorded status and the recorded bytes |
| Deletion.NoPendingAfterDeletion | apps/marketplace/internal/server/control_webhooks.go:203-223 | no committed state has a pending delivery of a deleted webhook, whatever interleaves |
| Deletion.DeletionIsFinal | apps/marketplace/cmd/worker/main.go:152-188 | after deletion no fan-out, retry or handler adds a delivery or changes a status; attempt counts only grow |
| Deletion.CancelledIsFinal | apps/marketplace/cmd/worker/main.go:321-345 | a cancelled delivery never leaves CANCELLED |
| Deletion.DeletionCancelsPending | apps/marketplace/internal/server/control_webhooks.go:205-223 | deletion cancels exactly the deliveries that are pending when it commits |
| Deletion.FanOutArrives | apps/marketplace/cmd/worker/main.go:152-188 | until its deletion starts, a fan-out of the webhook arrives as a new pending delivery |
| Deletion.RetryArrives | apps/marketplace/internal/server/lifecycle_handlers.go:285-318 | so does a manual retry, unless another transaction holds the delivery |
| Deletion.DeletionExactly | apps/marketplace/internal/server/control_webhooks.go:205-223 | an undisturbed deletion succeeds exactly when no fan-out, manual delivery or retry holds the webhook |
| Attempts.AttemptsAreBounded | apps/marketplace/cmd/worker/main.go:196-346 | recorded attempts are numbered without gaps, at most five plus manual retries and at most one per lease, for any overlap of handlers |
| Attempts.FailureTakesFiveAttempts | apps/marketplace/internal/webhooks/retry.go:5-16 | without manual retries FAILED means exactly five failures, with at least 30 seconds, 2 minutes, 10 minutes and 30 minutes between them |
| Attempts.SettlesExactly | apps/marketplace/cmd/worker/main.go:321-345 | settling a pending delivery delivers it after a success, fails it after the fifth failure, and after the first four failures has it wait exactly 30 seconds, 2, 10 and 30 minutes |
| Attempts.PausesExactly | apps/marketplace/cmd/worker/main.go:196-207 | after such a failure the delivery is leased again from the end of that pause on, and not before |
| Attempts.LeaseLasts | apps/marketplace/cmd/worker/main.go:207-229 | for exactly thirty seconds a leased delivery can be loaded and not leased again, and then the reverse |
| Attempts.RetryAndRetire | apps/marketplace/internal/server/lifecycle_handlers.go:285-318 | a manual retry makes any delivery of a live webhook due at once; deletion cancels it if it is pending |
| Attempts.DeliveryEndsAttempts | apps/marketplace/cmd/worker/main.go:326-330 | without manual retries DELIVERED means the last attempt succeeded and all earlier ones failed |
| Attempts.CountTellsAttempts | apps/marketplace/cmd/worker/main.go:316-345 | exactly when the stored count equals the recorded attempts; otherwise it is one behind |
| Attempts.AttemptableExactly | apps/marketplace/cmd/worker/main.go:196-346 | another attempt can be recorded in some future exactly when a handler is about to record one, or the webhook lives and the stored count tells the recorded attempts or will once a handler midway has finished |
| Attempts.SettleableExactly | apps/marketplace/cmd/worker/main.go:316-346 | a pending delivery can still be settled exactly when its stored count tells its recorded attempts or a handler is midway, and then without a manual retry; otherwise no retry and no waiting settles it |
| Attempts.CallsAreUnbounded | apps/marketplace/cmd/worker/main.go:196-260 | for every n, a run makes n HTTP calls, each with a lease of its own, before any attempt is recorded |
| Attempts.DeathLosesAttempt | apps/marketplace/cmd/worker/main.go:316-345 | a concrete run that reaches that state |
| Outbox.Worker.PublishOutbox | apps/marketplace/cmd/worker/main.go:122-194 | working through any stale candidate list is publishing its events one by one, skipping the published |
| Outbox.Worker.FanOut | apps/marketplace/cmd/worker/main.go:174-184 | the nested insert loops append the copies for each subscriber in turn and change nothing else |
| Outbox.FanOutCount | apps/marketplace/cmd/worker/main.go:152-184 | a fan-out adds exactly the scenario's copies for each enabled and live webhook of the event's shop that subscribes to its kind, and no other delivery |
| Outbox.SecondPublisherIsIdle | apps/marketplace/cmd/worker/main.go:136-144 | a publisher with the same candidates adds nothing after another has worked through them |
| Outbox.FanOutsMatchReplays | apps/marketplace/internal/server/lifecycle_handlers.go:318-346 | fan-outs plus one if unpublished equal one plus effective replays, for any competing publishers |
| Outbox.DeliveriesAreExactlyOwed | apps/marketplace/internal/server/lifecycle_handlers.go:364-416 | every run creates exactly the deliveries owed: for each enabled, live and subscribed webhook of the shop one per publication, two where the shop asks for duplicates, and as many as each manual delivery names |
| Outbox.ReplaysAreEffective | apps/marketplace/internal/server/lifecycle_handlers.go:323-346 | a recorded event waits for publication, is published once however often it is tried, and waits again after a replay |
| RateLimit.FixedWindow.Allow | apps/marketplace/internal/ratelimit/fixed_window.go:25-39 | the answer, the remaining quota and the stored counter for every credential, limit and time |
| RateLimit.CounterCounts | apps/marketplace/internal/ratelimit/fixed_window.go:25-43 | a window's counter is the number of its calls and outlives the window |
| RateLimit.IntervalSpansTwoWindows | apps/marketplace/internal/ratelimit/fixed_window.go:41-43 | any 60 seconds meet at most two clock minutes, so what they allow is within what those two allow |
| RateLimit.AllowedByPosition | apps/marketplace/internal/ratelimit/fixed_window.go:25-39 | a call is allowed exactly when fewer than its limit came before it in the same clock minute |
| RateLimit.RateIsBounded | apps/marketplace/internal/ratelimit/fixed_window.go:25-43 | at most the limit in any clock minute and twice the limit in any 60 seconds |
| Paging.ListResponse | apps/marketplace/internal/server/provider_webhooks.go:190-207 | which parameters are refused, which page is answered and which rows it holds |
| Paging.PagesAreLossless | apps/marketplace/internal/server/provider_webhooks.go:190-207 | pages one to the last, in order, are the list |
| Paging.RowsExactly | apps/marketplace/internal/server/provider_webhooks.go:201-207 | a page holds a record exactly when the record is at one of the page's positions |
| Paging.ControlPlaneCollection | apps/marketplace/admin/src/shared/api/controlPlaneCollection.ts:4-19 | the outcome of the loop for every first limit and every sequence of snapshots that its requests find, with and without pagination in the responses |
| Paging.CollectsExactly | apps/marketplace/admin/src/shared/api/controlPlaneCollection.ts:4-19 | a list is returned exactly when some request finds its page the last and all earlier ones found more to come, and it is what those requests served |
| Paging.UnchangedIsCollected | apps/marketplace/admin/src/shared/api/controlPlaneCollection.ts:4-19 | a collection that does not change is returned whole and in order |
| Paging.ServedExactly | apps/marketplace/admin/src/shared/api/controlPlaneCollection.ts:4-19 | a record is collected exactly when some request finds it on the page it asks for |
| Paging.LostHasSkipped | apps/marketplace/admin/src/shared/api/controlPlaneCollection.ts:4-19 | a record that is there throughout is lost only if it moves, between two requests, from what is still to be fetched to what no longer is |
| Paging.LostExactly | apps/marketplace/admin/src/shared/api/controlPlaneCollection.ts:4-19 | unless it also moves the other way, a record is lost exactly when it makes that move |
| Paging.RemovalsLoseExactly | apps/marketplace/admin/src/shared/api/controlPlaneCollection.ts:4-19 | when records are only removed, what is lost is exactly what makes that move |
| Paging.InsertionsLoseNothing | apps/marketplace/admin/src/shared/api/controlPlaneCollection.ts:4-19 | when records are only inserted, nothing is lost |
| Paging.RemovalLosesRecord | apps/marketplace/admin/src/shared/api/controlPlaneCollection.ts:4-19 | a run of the loop that ends without error and has lost a record that both its snapshots hold |
| Paging.SkipsWithoutLoss | apps/marketplace/admin/src/shared/api/controlPlaneCollection.ts:4-19 | a run in which records make that move and yet nothing is lost, because they come back or were collected before |

## Left out

- Idempotency: modelled on values, one statement at a time, because other requests' statements run between those of one `Acquire`; keys are independent, so one key stands for all.
- Deletion and Attempts: modelled on values, one statement at a time, for the same reason; one webhook and one delivery stand for all.
- Everything else treats a database transaction as one atomic step. The row locks make the transactions serializable in what is modelled, with two exceptions: the unlocked product reads of order creation, which the model keeps apart from the rest of the transaction, and a candidate list of warehouses that waits for a lock and keeps the order it had before a concurrent change of priority or code, which is not modelled.
- Inventory.Allocate: does not model the sorting of lines, which only fixes the order in which rows are locked.
- Inventory.FulfillPackage: visits package lines in item order; the query's order does not affect the outcome.
- Fulfillment.CreateSimulatedOrder: does not model the default items of an empty request, which are one random product.
- Catalog.UpdateWarehouseInventory: does not model the optional expected_updated_at check, which only refuses more.
- Catalog.CreateProduct: does not model names, SKUs, prices and their validation.
- Deadlines.EnforceOrderDeadlines: models one worker at a frozen clock whose claim statement succeeds; other replicas, SKIP LOCKED and a cancelled context are not part of it.
- RateLimit.FixedWindow.Allow: does not model Redis failures, on which the limiter lets requests pass.
- Outbox.Worker.PublishOutbox: does not model delivery delays and the out-of-order scenario, which only change when a delivery becomes due.
- Shipments without a package, which only rows from before packages existed can have, and seeded orders without reservations.
- Resetting and seeding shops, credentials, sessions, signing, URL checks and metrics.
- HTTP routing, JSON, the provider-specific status and event names, and event payloads: plumbing and finite tables.
- The admin console except its collection loop.
- Crashes inside a transaction: PostgreSQL rolls back, so they are steps that change nothing.
- 32- and 64-bit overflow: quantities, counts and times are unbounded integers.
