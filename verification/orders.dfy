/**
 * The order service's tables and its order-creation handler
 * (POST /v1/orders). Each handler run is one atomic transition of the
 * whole database; the uuids and the clock reading it draws are passed in.
 */
module Orders {
  import opened Wrappers
  import opened Text
  import opened Events

  /** The statuses the order service writes into `orders.status`. */
  datatype Status = Pending | InventoryHeld | Paid | Confirmed | Cancelled

  function StatusName(s: Status): string {
    match s
    case Pending => "PENDING"
    case InventoryHeld => "INVENTORY_RESERVED"
    case Paid => "PAID"
    case Confirmed => "CONFIRMED"
    case Cancelled => "CANCELLED"
  }

  datatype Order = Order(id: string, userId: string, status: Status, totalAmount: int, currency: string)

  /** A row of `order_items`. */
  datatype ItemRow = ItemRow(orderId: string, sku: string, qty: int, unitPrice: int, totalPrice: int)

  /** The JSON kept in an audit row: an event the service built, or a message it consumed. */
  datatype Payload = EventPayload(event: Event) | MessagePayload(message: Message)

  /** A row of `order_events`, the order's audit timeline. */
  datatype AuditRow = AuditRow(orderId: string, eventType: string, payload: Payload)

  datatype OutboxStatus = OutboxPending | OutboxPublished

  /**
   * A row of `outbox`. The table is kept as a sequence in insertion order:
   * the row at position i has the bigserial id i + 1.
   */
  datatype OutboxRow = OutboxRow(aggregateId: string, eventType: string, payload: Event, status: OutboxStatus)

  /** The order service's database: `orders`, `order_items`, `order_events`, `idempotency` and `outbox`. */
  datatype OrderDb = OrderDb(
    orders: map<string, Order>,
    items: seq<ItemRow>,
    audit: seq<AuditRow>,
    idempotency: map<string, string>,
    outbox: seq<OutboxRow>)

  const EmptyDb := OrderDb(map[], [], [], map[], [])

  /** The decoded JSON body of a create-order request. */
  datatype CreateOrderRequest = CreateOrderRequest(userId: string, items: seq<OrderItem>)

  /** The HTTP status, the order the body encodes (if any) and the error text (if any). */
  datatype Response = Response(code: int, order: Option<Order>, message: string)

  /** The uuids and clock reading one create-order run draws. */
  datatype NewIds = NewIds(orderUuid: string, correlationId: string, eventId: string, now: int)

  datatype Outcome = Outcome(db: OrderDb, response: Response)

  predicate ValidItem(it: OrderItem) {
    it.sku != "" && it.qty > 0 && it.unitPrice >= 0
  }

  predicate AllValid(items: seq<OrderItem>) {
    forall k :: 0 <= k < |items| ==> ValidItem(items[k])
  }

  /** What the handler accepts as a body: a user, at least one item, every item valid. */
  predicate ValidRequest(req: CreateOrderRequest) {
    req.userId != "" && |req.items| > 0 && AllValid(req.items)
  }

  /** The largest value of `order_items.qty`, a 32-bit `int` column. */
  const QTY_COLUMN_MAX := 0x7fff_ffff

  /** Every line's qty fits the `order_items.qty` column; otherwise its insert fails. */
  predicate QtysFitColumn(items: seq<OrderItem>) {
    forall k :: 0 <= k < |items| ==> items[k].qty <= QTY_COLUMN_MAX
  }

  /** The sum of qty * unit_price over the items. */
  function OrderTotal(items: seq<OrderItem>): int {
    if items == [] then 0 else items[0].qty * items[0].unitPrice + OrderTotal(items[1..])
  }

  /** An order of valid items never costs less than nothing. */
  lemma {:induction false} OrderTotalNonNegative(items: seq<OrderItem>)
    requires AllValid(items)
    ensures OrderTotal(items) >= 0
  {
    if items != [] {
      OrderTotalNonNegative(items[1..]);
    }
  }

  /** The `order_items` rows written for an order, one per item, in order. */
  function ItemRows(orderId: string, items: seq<OrderItem>): (rows: seq<ItemRow>)
    ensures |rows| == |items|
    ensures forall k :: 0 <= k < |rows| ==>
      rows[k] == ItemRow(orderId, items[k].sku, items[k].qty, items[k].unitPrice, items[k].qty * items[k].unitPrice)
  {
    if items == [] then []
    else [ItemRow(orderId, items[0].sku, items[0].qty, items[0].unitPrice, items[0].qty * items[0].unitPrice)]
         + ItemRows(orderId, items[1..])
  }

  /** The sum of `total_price` over the item rows of one order. */
  function RowsTotal(rows: seq<ItemRow>, orderId: string): int {
    if rows == [] then 0
    else (if rows[0].orderId == orderId then rows[0].totalPrice else 0) + RowsTotal(rows[1..], orderId)
  }

  lemma {:induction false} RowsTotalAppend(a: seq<ItemRow>, b: seq<ItemRow>, orderId: string)
    ensures RowsTotal(a + b, orderId) == RowsTotal(a, orderId) + RowsTotal(b, orderId)
  {
    if a == [] {
      assert a + b == b;
    } else {
      assert (a + b)[0] == a[0] && (a + b)[1..] == a[1..] + b;
      RowsTotalAppend(a[1..], b, orderId);
    }
  }

  /** The rows written for an order add up to the order's total, and contribute nothing to any other order. */
  lemma {:induction false} RowsTotalOfItemRows(orderId: string, items: seq<OrderItem>, other: string)
    ensures RowsTotal(ItemRows(orderId, items), orderId) == OrderTotal(items)
    ensures other != orderId ==> RowsTotal(ItemRows(orderId, items), other) == 0
  {
    if items != [] {
      RowsTotalOfItemRows(orderId, items[1..], other);
      assert ItemRows(orderId, items)[1..] == ItemRows(orderId, items[1..]);
    }
  }

  /**
   * The consistency the handlers keep: every order is stored under its id
   * and its total is the sum of its item rows, each row's total_price is
   * qty * unit_price and belongs to a stored order, every idempotency key
   * maps to a stored order, and every outbox row is about a stored order.
   */
  ghost predicate OrderInv(db: OrderDb) {
    && (forall id :: id in db.orders ==>
          db.orders[id].id == id && db.orders[id].totalAmount == RowsTotal(db.items, id))
    && (forall k :: 0 <= k < |db.items| ==>
          db.items[k].orderId in db.orders && db.items[k].totalPrice == db.items[k].qty * db.items[k].unitPrice)
    && (forall key :: key in db.idempotency ==> db.idempotency[key] != "" && db.idempotency[key] in db.orders)
    && (forall k :: 0 <= k < |db.outbox| ==> db.outbox[k].aggregateId in db.orders)
  }

  lemma EmptyDbInv()
    ensures OrderInv(EmptyDb)
  {
  }

  /** The order id a run creates: "ord_" followed by a fresh uuid. */
  function NewOrderId(ids: NewIds): string {
    "ord_" + ids.orderUuid
  }

  /** The OrderCreated event a run puts in the outbox and the audit timeline. */
  function CreatedEvent(ids: NewIds, req: CreateOrderRequest): (e: Event)
    ensures e.OrderCreated? && WellTyped(e) && e.orderId == NewOrderId(ids)
    ensures e.userId == req.userId && e.items == req.items
    ensures e.base.eventId == ids.eventId && e.base.correlationId == ids.correlationId
  {
    OrderCreated(BaseEvent(ids.eventId, ORDER_CREATED, ids.now, ids.correlationId),
                 NewOrderId(ids), req.userId, req.items)
  }

  /** An idempotency key that already names an order id (a blank stored id counts as unmapped). */
  predicate Mapped(db: OrderDb, key: string) {
    key in db.idempotency && db.idempotency[key] != ""
  }

  function Reject(db: OrderDb, code: int, message: string): Outcome {
    Outcome(db, Response(code, None, message))
  }

  /**
   * createOrderHandler. The header is trimmed and must not be blank; the
   * body must decode; it must name a user and at least one item, and every
   * item must be valid. Only then is the idempotency key looked up: a key
   * already mapped replays the stored order with 200. Otherwise one
   * transaction writes the order (PENDING, INR), its item rows, the key
   * mapping (kept if the key is already there), an OrderCreated outbox row
   * and an audit row, and the handler answers 201. A clash on the new
   * order's primary key, or a qty too large for its column, rolls
   * everything back with 500.
   */
  function CreateOrder(db: OrderDb, idemHeader: string, body: Option<CreateOrderRequest>, ids: NewIds): (r: Outcome)
    ensures r.response.code in {200, 201, 400, 500}
    ensures r.response.code == 400 <==> (Trim(idemHeader) == "" || body.None? || !ValidRequest(body.value))
    ensures r.response.code != 201 ==> r.db == db
    ensures r.response.code == 200 <==>
      && Trim(idemHeader) != "" && body.Some? && ValidRequest(body.value)
      && Mapped(db, Trim(idemHeader)) && db.idempotency[Trim(idemHeader)] in db.orders
    ensures r.response.code == 201 <==>
      && Trim(idemHeader) != "" && body.Some? && ValidRequest(body.value)
      && !Mapped(db, Trim(idemHeader)) && NewOrderId(ids) !in db.orders && QtysFitColumn(body.value.items)
    ensures r.response.code == 500 <==>
      && Trim(idemHeader) != "" && body.Some? && ValidRequest(body.value)
      && (if Mapped(db, Trim(idemHeader)) then db.idempotency[Trim(idemHeader)] !in db.orders
          else NewOrderId(ids) in db.orders || !QtysFitColumn(body.value.items))
    ensures r.response.code == 200 ==>
      && Trim(idemHeader) in db.idempotency
      && db.idempotency[Trim(idemHeader)] in db.orders
      && r.response.order == Some(db.orders[db.idempotency[Trim(idemHeader)]])
    ensures r.response.code == 201 ==>
      var id := NewOrderId(ids);
      && id !in db.orders
      && r.db.orders == db.orders[id := Order(id, body.value.userId, Pending, OrderTotal(body.value.items), "INR")]
      && r.response.order == Some(r.db.orders[id])
      && r.db.items == db.items + ItemRows(id, body.value.items)
      && r.db.outbox == db.outbox + [OutboxRow(id, ORDER_CREATED, CreatedEvent(ids, body.value), OutboxPending)]
      && r.db.audit == db.audit + [AuditRow(id, ORDER_CREATED, EventPayload(CreatedEvent(ids, body.value)))]
      && Trim(idemHeader) in r.db.idempotency
      && (Trim(idemHeader) !in db.idempotency ==> r.db.idempotency == db.idempotency[Trim(idemHeader) := id])
  {
    var idem := Trim(idemHeader);
    if idem == "" then Reject(db, 400, "missing Idempotency-Key")
    else if body.None? then Reject(db, 400, "invalid json")
    else if body.value.userId == "" || |body.value.items| == 0 then Reject(db, 400, "user_id and items required")
    else if !AllValid(body.value.items) then Reject(db, 400, "invalid item")
    else if Mapped(db, idem) then
      var existing := db.idempotency[idem];
      if existing in db.orders then Outcome(db, Response(200, Some(db.orders[existing]), ""))
      else Reject(db, 500, "failed to load order")
    else
      var req := body.value;
      var id := NewOrderId(ids);
      if id in db.orders || !QtysFitColumn(req.items) then Reject(db, 500, "db error")
      else
        var order := Order(id, req.userId, Pending, OrderTotal(req.items), "INR");
        var event := CreatedEvent(ids, req);
        var db' := OrderDb(
          db.orders[id := order],
          db.items + ItemRows(id, req.items),
          db.audit + [AuditRow(id, ORDER_CREATED, EventPayload(event))],
          if idem in db.idempotency then db.idempotency else db.idempotency[idem := id],
          db.outbox + [OutboxRow(id, ORDER_CREATED, event, OutboxPending)]);
        Outcome(db', Response(201, Some(order), ""))
  }

  /** A valid request with qty 2147483648 passes validation but fails the item insert: 500, and nothing is written. */
  lemma OversizedQtyRejected(db: OrderDb, ids: NewIds)
    requires "k" !in db.idempotency
    ensures var req := CreateOrderRequest("u_1", [OrderItem("SKU-RED-1", QTY_COLUMN_MAX + 1, 1999)]);
      && ValidRequest(req)
      && CreateOrder(db, "k", Some(req), ids) == Outcome(db, Response(500, None, "db error"))
  {
    TrimOfTrimmed("k");
  }

  /** Every order a valid request creates has a non-negative total, and each of its item rows costs qty * unit_price. */
  lemma CreatedTotals(db: OrderDb, idemHeader: string, body: Option<CreateOrderRequest>, ids: NewIds)
    requires CreateOrder(db, idemHeader, body, ids).response.code == 201
    ensures var r := CreateOrder(db, idemHeader, body, ids);
      && r.response.order.Some?
      && r.response.order.value.totalAmount >= 0
      && r.response.order.value.totalAmount == RowsTotal(r.db.items[|db.items|..], NewOrderId(ids))
      && forall k :: |db.items| <= k < |r.db.items| ==> r.db.items[k].totalPrice == r.db.items[k].qty * r.db.items[k].unitPrice
  {
    var r := CreateOrder(db, idemHeader, body, ids);
    OrderTotalNonNegative(body.value.items);
    RowsTotalOfItemRows(NewOrderId(ids), body.value.items, NewOrderId(ids));
    assert r.db.items[|db.items|..] == ItemRows(NewOrderId(ids), body.value.items);
  }

  /** Creating an order keeps the order service's tables consistent. */
  lemma CreateOrderKeepsInv(db: OrderDb, idemHeader: string, body: Option<CreateOrderRequest>, ids: NewIds)
    requires OrderInv(db)
    ensures OrderInv(CreateOrder(db, idemHeader, body, ids).db)
  {
    var r := CreateOrder(db, idemHeader, body, ids);
    if r.response.code == 201 {
      var id := NewOrderId(ids);
      var rows := ItemRows(id, body.value.items);
      forall o | o in r.db.orders
        ensures r.db.orders[o].totalAmount == RowsTotal(r.db.items, o)
      {
        RowsTotalAppend(db.items, rows, o);
        RowsTotalOfItemRows(id, body.value.items, o);
        if o == id {
          assert RowsTotal(db.items, id) == 0 by { NoRowsForNewOrder(db.items, db.orders, id); }
        }
      }
    }
  }

  /** An order id not yet stored has no item rows. */
  lemma {:induction false} NoRowsForNewOrder(rows: seq<ItemRow>, orders: map<string, Order>, id: string)
    requires forall k :: 0 <= k < |rows| ==> rows[k].orderId in orders
    requires id !in orders
    ensures RowsTotal(rows, id) == 0
  {
    if rows != [] {
      NoRowsForNewOrder(rows[1..], orders, id);
    }
  }

  /**
   * Idempotency: once a key has created an order, a second request with the
   * same key and any valid body replays that order with 200 and writes nothing.
   */
  lemma ReplayReturnsStoredOrder(db: OrderDb, idemHeader: string, body1: Option<CreateOrderRequest>, ids1: NewIds,
                                 idemHeader2: string, body2: Option<CreateOrderRequest>, ids2: NewIds)
    requires OrderInv(db)
    requires CreateOrder(db, idemHeader, body1, ids1).response.code == 201
    requires Trim(idemHeader2) == Trim(idemHeader)
    requires body2.Some? && ValidRequest(body2.value)
    ensures var first := CreateOrder(db, idemHeader, body1, ids1);
      var second := CreateOrder(first.db, idemHeader2, body2, ids2);
      && second.response.code == 200
      && second.db == first.db
      && second.response.order == first.response.order
  {
    var first := CreateOrder(db, idemHeader, body1, ids1);
    var idem := Trim(idemHeader);
    assert idem !in db.idempotency;
  }

  /** Validation comes before the idempotency lookup: a known key with a bad body is still a 400 that writes nothing. */
  lemma ReplayedKeyStillValidated(db: OrderDb, idemHeader: string, body: Option<CreateOrderRequest>, ids: NewIds)
    requires Trim(idemHeader) in db.idempotency
    requires body.None? || !ValidRequest(body.value)
    ensures CreateOrder(db, idemHeader, body, ids).response.code == 400
    ensures CreateOrder(db, idemHeader, body, ids).db == db
  {
  }
}
