/**
 * The saga's event payloads (the shared `redstone` event package) and the
 * Kafka messages that carry them. JSON encoding is abstracted: a message on
 * a topic is either unparseable or an envelope whose `event_type` and
 * `event_id` were read, together with the outcome of decoding it into the
 * typed event struct.
 */
module Events {
  import opened Wrappers

  const ORDER_CREATED := "OrderCreated"
  const INVENTORY_RESERVED := "InventoryReserved"
  const INVENTORY_FAILED := "InventoryFailed"
  const PAYMENT_CAPTURED := "PaymentCaptured"
  const PAYMENT_FAILED := "PaymentFailed"
  const ORDER_CONFIRMED := "OrderConfirmed"
  const ORDER_CANCELLED := "OrderCancelled"

  /** One line of an order: a SKU, a quantity and a unit price in minor currency units. */
  datatype OrderItem = OrderItem(sku: string, qty: int, unitPrice: int)

  /** The fields every event carries; `occurredAt` is a caller-supplied timestamp. */
  datatype BaseEvent = BaseEvent(eventId: string, eventType: string, occurredAt: int, correlationId: string)

  datatype Event =
    | OrderCreated(base: BaseEvent, orderId: string, userId: string, items: seq<OrderItem>)
    | InventoryReserved(base: BaseEvent, orderId: string)
    | InventoryFailed(base: BaseEvent, orderId: string, reason: string)
    | PaymentCaptured(base: BaseEvent, orderId: string, amount: int)
    | PaymentFailed(base: BaseEvent, orderId: string, reason: string)
    | OrderConfirmed(base: BaseEvent, orderId: string)
    | OrderCancelled(base: BaseEvent, orderId: string, reason: string)

  /** The `event_type` string that names each kind of event. */
  function TypeName(e: Event): string {
    match e
    case OrderCreated(_, _, _, _) => ORDER_CREATED
    case InventoryReserved(_, _) => INVENTORY_RESERVED
    case InventoryFailed(_, _, _) => INVENTORY_FAILED
    case PaymentCaptured(_, _, _) => PAYMENT_CAPTURED
    case PaymentFailed(_, _, _) => PAYMENT_FAILED
    case OrderConfirmed(_, _) => ORDER_CONFIRMED
    case OrderCancelled(_, _, _) => ORDER_CANCELLED
  }

  /** An event whose `event_type` field names its own kind. */
  predicate WellTyped(e: Event) {
    e.base.eventType == TypeName(e)
  }

  /** The uuid and clock reading a service draws when it builds an event. */
  datatype Stamp = Stamp(eventId: string, now: int)

  /** The base of an event built now, of the given type, continuing the given correlation. */
  function NewBase(stamp: Stamp, eventType: string, correlationId: string): (b: BaseEvent)
    ensures b.eventId == stamp.eventId && b.eventType == eventType && b.correlationId == correlationId
  {
    BaseEvent(stamp.eventId, eventType, stamp.now, correlationId)
  }

  /**
   * What a typed json.Unmarshal reads out of an event: every field any
   * event struct has. Fields the JSON does not hold read as Go zero values.
   */
  datatype Fields = Fields(correlationId: string, orderId: string, userId: string,
                           items: seq<OrderItem>, reason: string, amount: int)

  /**
   * A consumed Kafka message. `Unparseable` is a value that is not a JSON
   * object. An `Envelope` holds the `event_type` and `event_id` strings
   * (empty when absent or not strings) and `decoded`, the typed decode of
   * the value, `None` when that decode fails.
   */
  datatype Message =
    | Unparseable
    | Envelope(eventType: string, eventId: string, decoded: Option<Fields>)

  /** A message written to a topic: the partition key and the event. */
  datatype Published = Published(key: string, event: Event)

  /** The fields an event's JSON encoding carries, with zero values for the ones its struct lacks. */
  function FieldsOf(e: Event): Fields {
    match e
    case OrderCreated(b, o, u, items) => Fields(b.correlationId, o, u, items, "", 0)
    case InventoryReserved(b, o) => Fields(b.correlationId, o, "", [], "", 0)
    case InventoryFailed(b, o, reason) => Fields(b.correlationId, o, "", [], reason, 0)
    case PaymentCaptured(b, o, amount) => Fields(b.correlationId, o, "", [], "", amount)
    case PaymentFailed(b, o, reason) => Fields(b.correlationId, o, "", [], reason, 0)
    case OrderConfirmed(b, o) => Fields(b.correlationId, o, "", [], "", 0)
    case OrderCancelled(b, o, reason) => Fields(b.correlationId, o, "", [], reason, 0)
  }

  /** The message a consumer receives when `e` was published as JSON. */
  function Encode(e: Event): (m: Message)
    ensures m.Envelope? && m.eventType == e.base.eventType && m.eventId == e.base.eventId
    ensures m.decoded.Some? && m.decoded.value.orderId == e.orderId
    ensures m.decoded.value.correlationId == e.base.correlationId
  {
    Envelope(e.base.eventType, e.base.eventId, Some(FieldsOf(e)))
  }
}
