/**
 * The order service's two saga consumers: one reads the inventory topic,
 * one reads the payments topic. Each consumed message is one transition of
 * the order database, together with the events the consumer publishes to
 * the orders topic. Every message is committed, whatever it held.
 */
module OrderSaga {
  import opened Wrappers
  import opened Events
  import opened Orders
  import opened Outbox

  datatype Step = Step(db: OrderDb, emitted: seq<Published>)

  /** The OrderCancelled event the order service publishes after a failure upstream. */
  function CancelEvent(stamp: Stamp, f: Fields): (e: Event)
    ensures e.OrderCancelled? && WellTyped(e)
    ensures e.orderId == f.orderId && e.reason == f.reason && e.base.correlationId == f.correlationId
  {
    OrderCancelled(NewBase(stamp, ORDER_CANCELLED, f.correlationId), f.orderId, f.reason)
  }

  /** The OrderConfirmed event the order service publishes once payment is captured. */
  function ConfirmEvent(stamp: Stamp, f: Fields): (e: Event)
    ensures e.OrderConfirmed? && WellTyped(e)
    ensures e.orderId == f.orderId && e.base.correlationId == f.correlationId
  {
    OrderConfirmed(NewBase(stamp, ORDER_CONFIRMED, f.correlationId), f.orderId)
  }

  /**
   * consumeInventoryLoop, one message: InventoryReserved moves the order to
   * INVENTORY_RESERVED; InventoryFailed cancels it and publishes
   * OrderCancelled with the same order, correlation and reason (even when
   * the order is unknown); anything else, and any message that does not
   * decode, changes nothing.
   */
  function ConsumeInventory(db: OrderDb, m: Message, stamp: Stamp): (r: Step)
    ensures m.Unparseable? || m.decoded.None? || m.eventType !in {INVENTORY_RESERVED, INVENTORY_FAILED} ==>
      r == Step(db, [])
    ensures m.Envelope? && m.eventType == INVENTORY_RESERVED && m.decoded.Some? ==>
      && r.emitted == []
      && r.db == ApplyStatus(db, m.decoded.value.orderId, InventoryHeld, INVENTORY_RESERVED, MessagePayload(m))
    ensures m.Envelope? && m.eventType == INVENTORY_FAILED && m.decoded.Some? ==>
      && r.db == ApplyStatus(db, m.decoded.value.orderId, Cancelled, INVENTORY_FAILED, MessagePayload(m))
      && |r.emitted| == 1
      && r.emitted[0].key == m.decoded.value.orderId
      && r.emitted[0].event == CancelEvent(stamp, m.decoded.value)
  {
    match m
    case Unparseable => Step(db, [])
    case Envelope(eventType, _, decoded) =>
      if decoded.None? then
        Step(db, [])
      else if eventType == INVENTORY_RESERVED then
        Step(ApplyStatus(db, decoded.value.orderId, InventoryHeld, INVENTORY_RESERVED, MessagePayload(m)), [])
      else if eventType == INVENTORY_FAILED then
        var f := decoded.value;
        Step(ApplyStatus(db, f.orderId, Cancelled, INVENTORY_FAILED, MessagePayload(m)),
             [Published(f.orderId, CancelEvent(stamp, f))])
      else
        Step(db, [])
  }

  /**
   * consumePaymentLoop, one message: PaymentCaptured moves the order to
   * PAID, publishes OrderConfirmed, then moves it to CONFIRMED;
   * PaymentFailed cancels it and publishes OrderCancelled with the
   * payment's reason; anything else changes nothing.
   */
  function ConsumePayment(db: OrderDb, m: Message, stamp: Stamp): (r: Step)
    ensures m.Unparseable? || m.decoded.None? || m.eventType !in {PAYMENT_CAPTURED, PAYMENT_FAILED} ==>
      r == Step(db, [])
    ensures m.Envelope? && m.eventType == PAYMENT_CAPTURED && m.decoded.Some? ==>
      var f := m.decoded.value;
      && |r.emitted| == 1
      && r.emitted[0] == Published(f.orderId, ConfirmEvent(stamp, f))
      && r.db == ApplyStatus(ApplyStatus(db, f.orderId, Paid, PAYMENT_CAPTURED, MessagePayload(m)),
                             f.orderId, Confirmed, ORDER_CONFIRMED, EventPayload(ConfirmEvent(stamp, f)))
      && (f.orderId in db.orders ==> f.orderId in r.db.orders && r.db.orders[f.orderId].status == Confirmed)
      && (f.orderId !in db.orders ==> r.db == db)
      && r.db.orders.Keys == db.orders.Keys && r.db.items == db.items && r.db.outbox == db.outbox
      && r.db.idempotency == db.idempotency
      && (forall id :: id in db.orders && id != f.orderId ==> r.db.orders[id] == db.orders[id])
    ensures m.Envelope? && m.eventType == PAYMENT_FAILED && m.decoded.Some? ==>
      var f := m.decoded.value;
      && r.db == ApplyStatus(db, f.orderId, Cancelled, PAYMENT_FAILED, MessagePayload(m))
      && r.emitted == [Published(f.orderId, CancelEvent(stamp, f))]
  {
    match m
    case Unparseable => Step(db, [])
    case Envelope(eventType, _, decoded) =>
      if decoded.None? then
        Step(db, [])
      else if eventType == PAYMENT_CAPTURED then
        var f := decoded.value;
        var paid := ApplyStatus(db, f.orderId, Paid, PAYMENT_CAPTURED, MessagePayload(m));
        var confirm := ConfirmEvent(stamp, f);
        Step(ApplyStatus(paid, f.orderId, Confirmed, ORDER_CONFIRMED, EventPayload(confirm)),
             [Published(f.orderId, confirm)])
      else if eventType == PAYMENT_FAILED then
        var f := decoded.value;
        Step(ApplyStatus(db, f.orderId, Cancelled, PAYMENT_FAILED, MessagePayload(m)),
             [Published(f.orderId, CancelEvent(stamp, f))])
      else
        Step(db, [])
  }

  /**
   * The transitions are not guarded by the current status: a captured
   * payment for a cancelled order still records PAID and then CONFIRMED,
   * appending two audit rows.
   */
  lemma CaptureAfterCancelConfirms(db: OrderDb, m: Message, stamp: Stamp)
    requires m.Envelope? && m.eventType == PAYMENT_CAPTURED && m.decoded.Some?
    requires m.decoded.value.orderId in db.orders
    requires db.orders[m.decoded.value.orderId].status == Cancelled
    ensures var r := ConsumePayment(db, m, stamp);
      var id := m.decoded.value.orderId;
      && r.db.orders[id].status == Confirmed
      && r.db.audit == db.audit + [AuditRow(id, PAYMENT_CAPTURED, MessagePayload(m)),
                                   AuditRow(id, ORDER_CONFIRMED, EventPayload(ConfirmEvent(stamp, m.decoded.value)))]
  {
  }

  /** Both consumers keep the order service's tables consistent. */
  lemma ConsumersKeepInv(db: OrderDb, m: Message, stamp: Stamp)
    requires OrderInv(db)
    ensures OrderInv(ConsumeInventory(db, m, stamp).db)
    ensures OrderInv(ConsumePayment(db, m, stamp).db)
  {
    if m.Envelope? && m.decoded.Some? {
      var f := m.decoded.value;
      ApplyStatusKeepsInv(db, f.orderId, InventoryHeld, INVENTORY_RESERVED, MessagePayload(m));
      ApplyStatusKeepsInv(db, f.orderId, Cancelled, INVENTORY_FAILED, MessagePayload(m));
      ApplyStatusKeepsInv(db, f.orderId, Cancelled, PAYMENT_FAILED, MessagePayload(m));
      ApplyStatusKeepsInv(db, f.orderId, Paid, PAYMENT_CAPTURED, MessagePayload(m));
      var paid := ApplyStatus(db, f.orderId, Paid, PAYMENT_CAPTURED, MessagePayload(m));
      ApplyStatusKeepsInv(paid, f.orderId, Confirmed, ORDER_CONFIRMED, EventPayload(ConfirmEvent(stamp, f)));
    }
  }

  /** Redelivering an inventory result changes the order no further; a cancellation is re-announced. */
  lemma InventoryRedeliveryIdempotent(db: OrderDb, m: Message, stamp1: Stamp, stamp2: Stamp)
    ensures var once := ConsumeInventory(db, m, stamp1).db;
      ConsumeInventory(once, m, stamp2).db == once
  {
    if m.Envelope? && m.decoded.Some? && m.eventType in {INVENTORY_RESERVED, INVENTORY_FAILED} {
      var status := if m.eventType == INVENTORY_RESERVED then InventoryHeld else Cancelled;
      var id := m.decoded.value.orderId;
      if id in db.orders {
        UpdateOrderStatusIdempotent(db, id, status, m.eventType, MessagePayload(m));
      }
    }
  }
}
