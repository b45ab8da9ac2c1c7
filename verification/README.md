# Cinder-Rock order saga, modelled in Dafny

Cinder-Rock is an order saga spread over three Go services and a k6 load
script:

- **order service**: takes `POST /v1/orders` with an `Idempotency-Key`
  header. It writes the order, its item rows, the key mapping, an
  `OrderCreated` outbox row and an audit row in one transaction. A relay
  drains the outbox to the orders topic. Two consumers move the order
  through `PENDING → INVENTORY_RESERVED → PAID → CONFIRMED`, or to
  `CANCELLED`, as inventory and payment results arrive.
- **inventory service**: dedupes orders-topic events by event id. It
  reserves stock all-or-nothing for `OrderCreated`, then finalizes the
  reservation on `OrderConfirmed` or releases it on `OrderCancelled`.
- **payment service**: a mock provider. It answers every
  `InventoryReserved` with `PaymentCaptured`, or with `PaymentFailed` when
  the order id ends in `"0"`.
- **load script**: each iteration posts one fixed order under the key
  `k6-<vu>-<iter>` and checks for status 200 or 201.

The model is purely functional:

- Each database is a value: `Orders.OrderDb` and `Inventory.InventoryDb`.
- Each consumed message or HTTP request is a function from the old
  database to the new one, plus the response or the published events.
- Kafka messages are `Events.Message` values. They carry the
  `event_type`, the `event_id` and the typed decode. The decode is `None`
  when the typed `json.Unmarshal` fails.
- The uuids and clock readings a step draws are parameters:
  `Orders.NewIds` and `Events.Stamp`.
- The environment is a `map<string, string>`.

File layout:

| file | module | models |
|---|---|---|
| `wrappers.dfy` | `Wrappers` | `Option` / `Result` |
| `text.dfy` | `Text` | `strings.TrimSpace`, `strings.Split`, `parseCSV`, `env`, `os.Getenv`, decimal rendering |
| `events.dfy` | `Events` | the event types and the message a consumer receives |
| `orders.dfy` | `Orders` | the order tables and `createOrderHandler` |
| `outbox.dfy` | `Outbox` | `updateOrderStatus` and `drainOutbox` |
| `order_saga.dfy` | `OrderSaga` | the order service's two consumer loops |
| `order_config.dfy` | `OrderConfig` | the order service's configuration |
| `inventory.dfy` | `Inventory` | stock, reservations, `tryReserve`, settlement and `consumeOrdersLoop` |
| `payment.dfy` | `Payment` | the payment decision and the payment service's configuration |
| `load_test.dfy` | `LoadTest` | the k6 iteration |
| `saga.dfy` | `Saga` | the services composed end to end |

## Model

| member | source | states |
|---|---|---|
| Text.Trim | services/order-service/cmd/server/main.go:40 | `strings.TrimSpace`: the result has no leading or trailing white space and is no longer than the input |
| Text.TrimLeftSpec | services/order-service/cmd/server/main.go:40 | trimming the front drops exactly a white-space prefix and stops at a non-space character |
| Text.TrimRightSpec | services/order-service/cmd/server/main.go:40 | trimming the back drops exactly a white-space suffix and stops at a non-space character |
| Text.TrimSlice | services/order-service/cmd/server/main.go:40 | the trimmed string is a contiguous slice of the input whose cut-off borders are all white space |
| Text.TrimChars | services/order-service/cmd/server/main.go:40 | trimming never introduces a character the input lacks |
| Text.TrimOfTrimmed | services/order-service/cmd/server/main.go:40 | a string with no border white space is its own trim |
| Text.TrimIdempotent | services/order-service/cmd/server/main.go:40 | trimming twice is trimming once |
| Text.TrimEmptyIff | services/order-service/cmd/server/main.go:40-41 | the trimmed value is empty exactly when the input is all white space |
| Text.Split | services/order-service/cmd/server/main.go:49 | `strings.Split(s, ",")` yields at least one piece and no piece holds a comma |
| Text.JoinSplit | services/order-service/cmd/server/main.go:49 | joining the pieces with commas gives back the input |
| Text.SplitJoin | services/order-service/cmd/server/main.go:49 | splitting comma-free pieces joined with commas gives back the pieces |
| Text.SplitNoComma | services/order-service/cmd/server/main.go:49 | a comma-free string splits into itself |
| Text.SplitAppend | services/order-service/cmd/server/main.go:49 | splitting `a,b` is splitting `a` followed by splitting `b` |
| Text.ParseCSV | services/order-service/cmd/server/main.go:47-56 | every entry is non-empty and trimmed; there are no more entries than pieces |
| Text.KeepNonBlankEntries | services/order-service/cmd/server/main.go:50-53 | keeping the non-blank trimmed pieces yields non-empty trimmed entries and never more of them |
| Text.KeepNonBlankAppend | services/order-service/cmd/server/main.go:49-54 | the filter works piece by piece, so it distributes over concatenation |
| Text.KeepNonBlankNoComma | services/order-service/cmd/server/main.go:50-53 | trimming and filtering comma-free pieces leaves them comma-free |
| Text.ParseCSVEntry | services/order-service/cmd/server/main.go:47-56 | a comma-free value parses to its trim, or to nothing when it is blank |
| Text.ParseCSVAppend | services/order-service/cmd/server/main.go:47-56 | parsing `a,b` is parsing `a` followed by parsing `b` |
| Text.ParseCSVNoComma | services/order-service/cmd/server/main.go:47-56 | no parsed entry contains a comma |
| Text.Env | services/order-service/cmd/server/main.go:39-45 | a blank variable gives the default; otherwise the trimmed value, which is then non-empty and trimmed |
| Text.UnsetReadsDefault | services/order-service/cmd/server/main.go:39-45 | an unset or all-white-space variable reads as its default |
| Text.LocalBroker | services/order-service/cmd/server/main.go:63 | the default broker list `localhost:9092` parses to that one broker |
| Text.Decimal | tools/load-tests/k6-create-order.js:12 | the rendering of a number is a non-empty string of digits with no leading zero |
| Text.DecimalRoundTrip | tools/load-tests/k6-create-order.js:19 | reading back a rendered number gives the number |
| Text.DecimalInjective | tools/load-tests/k6-create-order.js:19 | different numbers render differently |
| Events.Encode | services/order-service/internal/redstone/events.go:5-57 | a published event arrives with its own `event_type`, `event_id`, `order_id` and `correlation_id` |
| Orders.CreateOrder | services/order-service/cmd/server/main.go:129-235 | only 200, 201, 400 or 500 are returned, each under an exact condition. 400 comes exactly when the trimmed key is blank, the JSON does not decode, or the user, items or an item are invalid. For a valid request: 200 exactly when the key maps to a stored order; 500 exactly when it maps to a missing order, or is unmapped and either the new id clashes or a qty exceeds the 32-bit `order_items.qty` column (migrate.go:24); 201 exactly when it is unmapped, the new id is fresh and every qty fits. Only 201 changes the database. 200 replays the mapped order. 201 stores the PENDING INR order with its total, its item rows, the OrderCreated outbox row, the OrderCreated audit row carrying that event (appended, earlier rows kept) and the key mapping |
| Orders.CreatedTotals | services/order-service/cmd/server/main.go:147-157 | a created order's total equals the sum of its stored item rows' totals; each row's total is qty times unit price; the total is non-negative |
| Orders.ItemRows | services/order-service/cmd/server/main.go:190-197 | one item row per request line, with qty, unit price and their product |
| Orders.RowsTotalOfItemRows | services/order-service/cmd/server/main.go:190-197 | the new rows add up to the order total and contribute nothing to any other order |
| Orders.OrderTotalNonNegative | services/order-service/cmd/server/main.go:151-155 | lines that passed validation never total below zero |
| Orders.OversizedQtyRejected | services/order-service/cmd/server/main.go:149-196 | qty 2147483648 passes validation but fails the 32-bit `order_items.qty` insert: 500 "db error" and nothing is written |
| Orders.CreatedEvent | services/order-service/cmd/server/main.go:203-213 | the outboxed event is a well-typed OrderCreated for the new order id, carrying the request's user and items and the run's event id and correlation id |
| Orders.EmptyDbInv | services/order-service/cmd/server/migrate.go:11-48 | the empty database is consistent |
| Orders.CreateOrderKeepsInv | services/order-service/cmd/server/main.go:174-229 | creating an order keeps the tables consistent: stored totals equal item-row sums, rows and key mappings and outbox rows refer to stored orders |
| Orders.ReplayReturnsStoredOrder | services/order-service/cmd/server/main.go:159-172 | a second valid request under the same trimmed key returns 200 with the same order and changes nothing |
| Orders.ReplayedKeyStillValidated | services/order-service/cmd/server/main.go:137-161 | validation runs before the key lookup, so a used key with a bad body still gets 400 |
| Outbox.UpdateOrderStatus | services/order-service/cmd/server/outbox.go:64-93 | an unknown order fails. A status equal to the current one changes nothing. Otherwise only that order's status changes and one audit row is appended |
| Outbox.UpdateOrderStatusIdempotent | services/order-service/cmd/server/outbox.go:75-79 | repeating a successful update is a no-op |
| Outbox.ApplyStatusKeepsInv | services/order-service/cmd/server/outbox.go:64-93 | a status update keeps the order tables consistent |
| Outbox.PendingFrom | services/order-service/cmd/server/outbox.go:36 | the selection holds at most `limit` pending rows in ascending id order; a pending row is left out only when the batch is full of older rows |
| Outbox.SelectBatch | services/order-service/cmd/server/outbox.go:36 | `where status='PENDING' order by id asc limit 50`: pending, ascending, at most 50, and the 50 oldest when more are pending |
| Outbox.Succeeded | services/order-service/cmd/server/outbox.go:51-58 | the rows marked are exactly the batch rows whose publish did not fail, in batch order |
| Outbox.PublishBatch | services/order-service/cmd/server/outbox.go:51-60 | each successfully published row is marked PUBLISHED and every other row is unchanged; the published messages are keyed by aggregate id, in batch order |
| Outbox.DrainOutbox | services/order-service/cmd/server/outbox.go:35-61 | the outbox keeps its length and at most 50 messages go out per drain |
| Outbox.DrainMarksOnlyPublished | services/order-service/cmd/server/outbox.go:36-60 | after a drain a row is PUBLISHED iff it already was, or it was in the batch and its publish succeeded; only the status changes |
| Outbox.DrainPublishesOldestFirst | services/order-service/cmd/server/outbox.go:36-58 | messages go out in ascending id order, one per successfully published pending row, carrying the row's key and payload |
| Outbox.DrainClearsSmallBacklog | services/order-service/cmd/server/outbox.go:36-60 | with fewer than 50 pending rows and no publish failure, one drain publishes every row |
| Outbox.DrainKeepsInv | services/order-service/cmd/server/outbox.go:35-61 | draining keeps the order tables consistent |
| OrderSaga.CancelEvent | services/order-service/cmd/server/consume.go:41-50 | OrderCancelled for the same order, with the same reason and correlation id |
| OrderSaga.ConfirmEvent | services/order-service/cmd/server/consume.go:81-89 | OrderConfirmed for the same order, with the same correlation id |
| OrderSaga.ConsumeInventory | services/order-service/cmd/server/consume.go:13-57 | InventoryReserved moves the order to INVENTORY_RESERVED. InventoryFailed cancels it and publishes OrderCancelled, even when the order is unknown. Anything else, and anything undecodable, changes nothing |
| OrderSaga.ConsumePayment | services/order-service/cmd/server/consume.go:59-113 | PaymentCaptured records PAID with the message as audit payload, publishes OrderConfirmed, then records CONFIRMED with that event as payload; a known order ends CONFIRMED, an unknown one leaves the database unchanged, and other orders, item rows, key mappings and the outbox are untouched. PaymentFailed cancels the order and publishes OrderCancelled with the payment's reason. Anything else changes nothing |
| OrderSaga.CaptureAfterCancelConfirms | services/order-service/cmd/server/consume.go:76-91 | statuses are not guarded: a capture for a cancelled order still confirms it and appends two audit rows |
| OrderSaga.ConsumersKeepInv | services/order-service/cmd/server/consume.go:30-53 | both consumers keep the order tables consistent |
| OrderSaga.InventoryRedeliveryIdempotent | services/order-service/cmd/server/consume.go:31-52 | a redelivered inventory result changes the order no further |
| OrderConfig.LoadConfig | services/order-service/cmd/server/main.go:59-75 | startup fails with "DATABASE_URL is required" exactly when that variable is blank; otherwise every value is non-empty and the broker list holds trimmed non-empty entries |
| OrderConfig.DefaultConfig | services/order-service/cmd/server/main.go:59-68 | with only DATABASE_URL set, the defaults are port 8081, topics `redstone.*`, group `order-service` and one local broker |
| Inventory.SeedDbInv | services/inventory-service/cmd/server/migrate.go:37-44 | the seeded stock (SKU-RED-1: 100, SKU-RED-2: 50, none reserved) is consistent |
| Inventory.FailureReasonInjective | services/inventory-service/cmd/server/consume.go:112-118 | the reason string identifies the failure: a missing SKU and a short SKU never give the same reason, and the SKU can be read back from it |
| Inventory.Reserve | services/inventory-service/cmd/server/consume.go:110-125 | on success every SKU's `reserved` grows by the quantity the order asks of it, and nothing else changes |
| Inventory.ReserveFirstFailure | services/inventory-service/cmd/server/consume.go:110-125 | the reservation succeeds iff every line fits after the earlier lines; otherwise the reported failure is the first line that does not fit |
| Inventory.ReserveKeepsBounds | services/inventory-service/cmd/server/consume.go:115-119 | reserving non-negative quantities keeps 0 ≤ reserved ≤ on_hand |
| Inventory.HeldRows | services/inventory-service/cmd/server/consume.go:123-124 | one RESERVED row per line, with its SKU and qty |
| Inventory.TryReserve | services/inventory-service/cmd/server/consume.go:103-132 | all or nothing: a failure changes nothing and gives the reason of the first line that does not fit (`sku not found: <sku>` or `insufficient stock for <sku>`); a success raises `reserved` per SKU and appends one RESERVED row per line |
| Inventory.TryReserveKeepsInv | services/inventory-service/cmd/server/consume.go:103-132 | a reservation keeps `reserved` equal to the open rows' quantity and within `on_hand` |
| Inventory.HeldQtyOfHeldRows | services/inventory-service/cmd/server/consume.go:119-124 | the rows a reservation adds hold exactly the quantity it adds to `reserved` |
| Inventory.OpenRows | services/inventory-service/cmd/server/consume.go:150 | a row is selected exactly when it is the order's and RESERVED |
| Inventory.DeductRows | services/inventory-service/cmd/server/consume.go:157-173 | each SKU's `reserved`, and `on_hand` too when finalizing, drops by the selected rows' quantity; unknown SKUs are untouched |
| Inventory.Relabel | services/inventory-service/cmd/server/consume.go:182 | the order's RESERVED rows take the new status; all other rows are unchanged |
| Inventory.UpdateReservation | services/inventory-service/cmd/server/consume.go:143-187 | the order's RESERVED rows are relabelled and every other row is kept; each SKU's reserved drops by the order's open quantity of it, and on_hand drops by the same amount only when finalizing; with no open rows nothing changes; the processed ids and the stocked SKUs never change |
| Inventory.RelabelWithoutOpenRows | services/inventory-service/cmd/server/consume.go:175-180 | with no open rows for the order, relabelling changes no row |
| Inventory.Finalize | services/inventory-service/cmd/server/consume.go:135-137 | on_hand and reserved both drop by the order's open quantity of each SKU, and its open rows become COMPLETED |
| Inventory.Release | services/inventory-service/cmd/server/consume.go:139-141 | only reserved drops by the order's open quantity of each SKU, on_hand is kept, and its open rows become CANCELLED |
| Inventory.FinalizeReleaseDiffer | services/inventory-service/cmd/server/consume.go:164-172 | finalize and release take the same quantity off reserved; finalize also takes exactly that quantity off on_hand; both leave the order without open rows |
| Inventory.HeldQtySplit | services/inventory-service/cmd/server/consume.go:150-182 | a SKU's open quantity is the settled order's part plus what stays open after relabelling |
| Inventory.UpdateReservationKeepsInv | services/inventory-service/cmd/server/consume.go:135-187 | finalizing or releasing keeps 0 ≤ reserved ≤ on_hand and reserved equal to the open rows' quantity |
| Inventory.NoOpenRowsAfterRelabel | services/inventory-service/cmd/server/consume.go:182 | after relabelling the order has no RESERVED row left |
| Inventory.SettleIdempotent | services/inventory-service/cmd/server/consume.go:175-180 | a second finalize or release of the same order changes nothing |
| Inventory.ReservedEvent | services/inventory-service/cmd/server/consume.go:59-67 | InventoryReserved for the same order and correlation id |
| Inventory.FailedEvent | services/inventory-service/cmd/server/consume.go:70-79 | InventoryFailed for the same order and correlation id, carrying the reason |
| Inventory.ConsumeOrders | services/inventory-service/cmd/server/consume.go:15-101 | unparseable, id-less and already-processed messages change nothing. For a new message: OrderCreated runs tryReserve and records the id, or changes nothing when its typed decode fails; a decodable OrderConfirmed finalizes and a decodable OrderCancelled releases, then records the id; any other message only records the id. Exactly the new decodable OrderCreated messages publish one event, keyed by the order id: InventoryReserved on success, or InventoryFailed with the reason (corrected, see Findings) |
| Inventory.ConsumeOrdersAsWritten | services/inventory-service/cmd/server/consume.go:57-80 | the same database transition; a new decodable OrderCreated publishes InventoryReserved keyed by the order id when the reservation succeeds and nothing when it fails; no other message publishes anything, and at most one event is published |
| Inventory.ConsumeOrdersKeepsInv | services/inventory-service/cmd/server/consume.go:50-98 | every consumed message keeps the stock invariant |
| Inventory.RedeliveryIsNoOp | services/inventory-service/cmd/server/consume.go:37-43 | a redelivered message, whatever ids are drawn, changes nothing and publishes nothing |
| Inventory.FailedReservationAnnounced | services/inventory-service/cmd/server/consume.go:57-80 | a failed reservation leaves stock and rows alone and announces InventoryFailed with tryReserve's reason; as written it publishes nothing |
| Payment.Decide | services/payment-service/cmd/server/main.go:97-141 | exactly a decodable InventoryReserved gets one answer, keyed by the order id, continuing the correlation: PaymentFailed("mock decline") iff the id ends in "0", else PaymentCaptured with amount 0 |
| Payment.LoadConfig | services/payment-service/cmd/server/main.go:42-50 | every value is non-empty and the broker list holds trimmed non-empty entries |
| Payment.DefaultConfig | services/payment-service/cmd/server/main.go:27-50 | with nothing set, the defaults are port 8083, topics `redstone.inventory` and `redstone.payments`, group `payment-service` and one local broker |
| LoadTest.UserIdInjective | tools/load-tests/k6-create-order.js:12 | `u_` followed by the virtual user's number is a different user id for each virtual user |
| LoadTest.IdempotencyKey | tools/load-tests/k6-create-order.js:19 | the key starts with `k6-` and has no border white space, so the handler uses it as sent |
| LoadTest.KeyInjective | tools/load-tests/k6-create-order.js:19 | distinct (virtual user, iteration) pairs get distinct keys |
| LoadTest.DashSplit | tools/load-tests/k6-create-order.js:19 | the dash after the digits splits a key uniquely |
| LoadTest.ExampleIteration | tools/load-tests/k6-create-order.js:11-24 | user 3, iteration 7 gives key `k6-3-7` and user `u_3`; 200 and 201 pass the check and 500 fails it |
| LoadTest.PayloadIsValid | tools/load-tests/k6-create-order.js:11-14 | the body passes the handler's validation and totals 1999 |
| LoadTest.IterationPasses | tools/load-tests/k6-create-order.js:23-24 | against a consistent order database, and unless the new order id clashes, the check passes. A fresh key gets 201 with a PENDING INR order of 1999 |
| Saga.FirstOrderRelayed | services/order-service/cmd/server/outbox.go:35-61 | the first load-script order is created and the next drain publishes its OrderCreated, and only that |
| Saga.SeededReservation | services/inventory-service/cmd/server/consume.go:51-68 | against the seeded stock the load-script order holds one unit of SKU-RED-1 and is announced as reserved |
| Saga.OrderSideOutcome | services/order-service/cmd/server/consume.go:13-113 | a reserved order reaches INVENTORY_RESERVED, then CONFIRMED, or CANCELLED when its id ends in "0", and the matching event is published |
| Saga.InventorySettles | services/inventory-service/cmd/server/consume.go:81-94 | with one open unit, OrderConfirmed leaves 99 on hand and 0 reserved; OrderCancelled leaves 100 and 0 |
| Saga.SagaFront | services/order-service/cmd/server/main.go:129-235 | the first half of the saga: the order is stored, relayed and reserved, and both databases are consistent |
| Saga.SagaBack | services/payment-service/cmd/server/main.go:88-144 | the second half: order status, payment and settlement agree, and both databases stay consistent |
| Saga.SagaOutcome | services/inventory-service/cmd/server/consume.go:15-101 | one load-script order ends CONFIRMED with SKU-RED-1 at 99/0, or CANCELLED with 100/0 when its id ends in "0", with both databases consistent |
| Saga.FailedReservationOutcome | services/order-service/cmd/server/consume.go:36-52 | after a failed reservation the order keeps its status as written; with the failure announced it is cancelled with the inventory reason |
| Saga.OversizedOrderStranded | services/inventory-service/cmd/server/consume.go:69-80 | an order for 101 units of SKU-RED-1 stays PENDING as written, and is CANCELLED for "insufficient stock for SKU-RED-1" when corrected |

## Left out

- HTTP routing, `/healthz`, the mock-provider endpoint, Kafka transport, the logger, the notification service and the `redstone` Kafka and log helpers are left out. They only carry messages or log them.
- Fetch errors and their 500 ms back-off are left out. So are the outbox ticker (400 ms), the k6 scheduling, `sleep(0.2)`, `vus` and `duration`. Timing has no effect on the modelled state.
- Concurrency is not modelled. Each service consumes one message at a time; two requests or two services acting at once are outside the model.
- JSON is abstracted. A message is an envelope (type and id) plus an optional typed decode. `occurred_at`, `created_at`, `updated_at`, `published_at` and `processed_at` timestamps are not stored.
- Outbox.PublishBatch: the relay (outbox.go:53-55) decodes the stored payload into `any` before writing it, so JSON numbers pass through float64 and a qty, unit price, total or amount above 2^53 would arrive rounded. The model relays every event exactly.
- Failed event writes in the consumers are not modelled. The result of `producer.Write` is discarded and the message committed anyway at order consume.go:51, 90 and 107, inventory consume.go:68 and payment main.go:127 and 139, so a failed write loses that event for good. The model treats these writes as always succeeding. Only the outbox relay's write failures are a parameter.
- uuids and the clock are parameters (`NewIds`, `Stamp`). Nothing constrains them beyond what each lemma requires.
- Database failures are left out: connection, query, `Exec`, `Commit` and `rows.Scan` errors. Three exceptions are modelled. A clash on the new order id's primary key gives 500. A qty above 2147483647 fails the insert into the 32-bit `order_items.qty` column and gives 500. A key mapped to an order that is not stored gives "failed to load order" with 500.
- The inventory dedupe lookup's error path (consume.go:44-48) is left out because it is such a database failure. So is "db error" from `tryReserve`.
- Inventory.UpdateReservation: the per-row `tx.Exec` updates run while the rows of `tx.Query` on the same transaction are still open (consume.go:150-172). With the pgx driver that is likely refused as a busy connection, which would make every finalize or release with open rows fail and roll back. This driver behaviour is not modelled, so the model lets the updates go through, as the code evidently intends.
- Orders.CreateOrder: integers are unbounded, so int64 overflow of `unit_price`, of `qty * unit_price` and of the total is not modelled. A qty is bounded only by the 32-bit `order_items.qty` column; a qty too large for Go's 64-bit `int` would fail the JSON decode, which the model does not distinguish from any other valid number.
- Orders.CreateOrder: the 400 and 500 bodies' exact texts are carried in `message` but not stated in the contract.
- Inventory.ConsumeOrdersKeepsInv: requires every line of an OrderCreated to have qty ≥ 0. The order service only emits qty > 0, but the inventory service itself would accept a negative qty and lower `reserved`.
- inventory consume.go does not compile as written, for two reasons. The publish at line 95 names `out` outside its scope. The `out` declared at line 70 is never used, and Go rejects unused variables. The model publishes nothing for OrderCancelled and places the failure announcement where the Findings table says.
- `strings.TrimSpace` is modelled on the ASCII and Unicode space characters Go's `unicode.IsSpace` accepts. Strings are sequences of characters, not bytes.
- Publish failures in the outbox relay are a parameter: the set of batch positions whose write fails.

## Findings

| source | as written | input that shows it | evidently intended | confidence | as-written member | corrected member |
|---|---|---|---|---|---|---|
| services/inventory-service/cmd/server/consume.go:69-80 | when `tryReserve` fails, the `InventoryFailed` value is built and never written. The order service hears nothing, so the order stays PENDING for good. The stray write at line 95 names that value outside its scope. | an order for 101 units of SKU-RED-1 against the seeded stock of 100 | publish `InventoryFailed` with the reason, keyed by the order id, as the success branch does at line 68. The order service then cancels the order (order consume.go:36-52) | not executed | Inventory.ConsumeOrdersAsWritten, Saga.OversizedOrderStranded | Inventory.ConsumeOrders, Saga.FailedReservationOutcome |
