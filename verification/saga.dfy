/**
 * The whole saga for one order of the load script, from an empty order
 * database and freshly seeded stock: order creation, the outbox relay,
 * the reservation, the payment decision and the settlement, each service
 * consuming the first message the previous one published.
 */
module Saga {
  import opened Wrappers
  import opened Text
  import opened Events
  import opened Orders
  import opened Outbox
  import opened OrderSaga
  import opened Inventory
  import opened Payment
  import LoadTest

  /** What a consumer reads when a producer's output reaches its topic: the first message, if any. */
  function Deliver(out: seq<Published>): (m: Message)
    ensures out != [] ==> m == Encode(out[0].event)
    ensures out == [] ==> m.Unparseable?
  {
    if out == [] then Unparseable else Encode(out[0].event)
  }

  /** The relay publishes the load script's first order, and only it, right after it is created. */
  lemma FirstOrderRelayed(vu: nat, iter: nat, ids: NewIds)
    ensures var created := CreateOrder(EmptyDb, LoadTest.IdempotencyKey(vu, iter), Some(LoadTest.Payload(vu)), ids);
      && created.response.code == 201
      && DrainOutbox(created.db, {}).published
         == [Published(NewOrderId(ids), CreatedEvent(ids, LoadTest.Payload(vu)))]
      && DrainOutbox(created.db, {}).outbox[0].status == OutboxPublished
  {
    EmptyDbInv();
    LoadTest.IterationPasses(EmptyDb, vu, iter, ids);
    var created := CreateOrder(EmptyDb, LoadTest.IdempotencyKey(vu, iter), Some(LoadTest.Payload(vu)), ids);
    var outbox := created.db.outbox;
    assert |outbox| == 1 && outbox[0].status == OutboxPending;
    assert PendingFrom(outbox, 1, BATCH_LIMIT - 1) == [];
    assert SelectBatch(outbox) == [0];
    assert Succeeded([0], {}) == [0];
    DrainPublishesOldestFirst(created.db, {});
  }

  /** Reserving the load script's order against the seeded stock holds one unit of SKU-RED-1. */
  lemma SeededReservation(vu: nat, ids: NewIds, stamp: Stamp)
    requires ids.eventId != ""
    ensures var step := ConsumeOrders(SeedDb, Encode(CreatedEvent(ids, LoadTest.Payload(vu))), stamp);
      && step.db.stock == SeedStock["SKU-RED-1" := Stock(100, 1)]
      && step.db.reservations == [Reservation(NewOrderId(ids), "SKU-RED-1", 1, Held)]
      && step.db.processed == {ids.eventId}
      && step.emitted != []
      && step.emitted[0].event.InventoryReserved?
      && step.emitted[0].event.orderId == NewOrderId(ids)
      && step.emitted[0].event.base.eventType == INVENTORY_RESERVED
  {
    var items := LoadTest.Payload(vu).items;
    assert items == [OrderItem("SKU-RED-1", 1, 1999)];
    assert Reserve(SeedStock, items).Success?;
    var r := TryReserve(SeedDb, NewOrderId(ids), items);
    assert r.ok;
    assert SumQty(items, "SKU-RED-2") == 0;
    assert r.db.stock == SeedStock["SKU-RED-1" := Stock(100, 1)];
    assert HeldRows(NewOrderId(ids), items) == [Reservation(NewOrderId(ids), "SKU-RED-1", 1, Held)];
  }

  /**
   * The order side of a reserved order: the reservation moves it to
   * INVENTORY_RESERVED; the payment decision then either confirms it
   * (announcing OrderConfirmed) or, for an order id ending in "0", cancels
   * it (announcing OrderCancelled). The tables stay consistent.
   */
  lemma OrderSideOutcome(db: OrderDb, reserved: Event, payStamp: Stamp, orderStamp: Stamp)
    requires OrderInv(db) && reserved.orderId in db.orders
    requires reserved.InventoryReserved? && reserved.base.eventType == INVENTORY_RESERVED
    ensures var orderId := reserved.orderId;
      var held := ConsumeInventory(db, Encode(reserved), orderStamp).db;
      var settled := ConsumePayment(held, Deliver(Decide(Encode(reserved), payStamp)), orderStamp);
      && held.orders[orderId].status == InventoryHeld
      && OrderInv(settled.db)
      && settled.emitted != []
      && settled.emitted[0].event.orderId == orderId
      && settled.emitted[0].event.base.eventId == orderStamp.eventId
      && (!HasSuffix(orderId, "0") ==>
            && settled.db.orders[orderId].status == Confirmed
            && settled.emitted[0].event.OrderConfirmed?
            && settled.emitted[0].event.base.eventType == ORDER_CONFIRMED)
      && (HasSuffix(orderId, "0") ==>
            && settled.db.orders[orderId].status == Cancelled
            && settled.emitted[0].event.OrderCancelled?
            && settled.emitted[0].event.base.eventType == ORDER_CANCELLED)
  {
    var m := Encode(reserved);
    ConsumersKeepInv(db, m, orderStamp);
    var held := ConsumeInventory(db, m, orderStamp).db;
    var decision := Decide(m, payStamp);
    ConsumersKeepInv(held, Deliver(decision), orderStamp);
  }

  /**
   * The inventory side of the settlement: with the one open row of the
   * order, OrderConfirmed takes the unit out of the stock and
   * OrderCancelled gives it back to availability.
   */
  lemma InventorySettles(db: InventoryDb, e: Event, stamp: Stamp)
    requires db.stock == SeedStock["SKU-RED-1" := Stock(100, 1)]
    requires db.reservations == [Reservation(e.orderId, "SKU-RED-1", 1, Held)]
    requires e.base.eventId != "" && e.base.eventId !in db.processed
    requires (e.OrderConfirmed? && e.base.eventType == ORDER_CONFIRMED)
          || (e.OrderCancelled? && e.base.eventType == ORDER_CANCELLED)
    ensures var after := ConsumeOrders(db, Encode(e), stamp).db;
      && after.stock["SKU-RED-1"] == (if e.OrderConfirmed? then Stock(99, 0) else Stock(100, 0))
      && after.reservations == [Reservation(e.orderId, "SKU-RED-1", 1, if e.OrderConfirmed? then Completed else Released)]
  {
    var rs := db.reservations;
    assert OpenRows(rs, e.orderId) == [rs[0]] by {
      assert rs[1..] == [];
    }
    assert RowsQty([rs[0]], "SKU-RED-1") == 1;
    assert Relabel(rs, e.orderId, Completed)[0] == rs[0].(status := Completed);
    assert Relabel(rs, e.orderId, Released)[0] == rs[0].(status := Released);
  }

  /**
   * The first half of the saga: the created order is consistent, relayed
   * as its OrderCreated event, and reserved against the seeded stock.
   */
  lemma SagaFront(vu: nat, iter: nat, ids: NewIds, invStamp: Stamp)
    requires ids.eventId != ""
    ensures
      var created := CreateOrder(EmptyDb, LoadTest.IdempotencyKey(vu, iter), Some(LoadTest.Payload(vu)), ids);
      var relay := DrainOutbox(created.db, {});
      var orders := created.db.(outbox := relay.outbox);
      var reserve := ConsumeOrders(SeedDb, Deliver(relay.published), invStamp);
      && OrderInv(orders) && NewOrderId(ids) in orders.orders
      && Inventory.Inv(reserve.db)
      && reserve.db.stock == SeedStock["SKU-RED-1" := Stock(100, 1)]
      && reserve.db.reservations == [Reservation(NewOrderId(ids), "SKU-RED-1", 1, Held)]
      && reserve.db.processed == {ids.eventId}
      && reserve.emitted != []
      && reserve.emitted[0].event.InventoryReserved?
      && reserve.emitted[0].event.orderId == NewOrderId(ids)
      && reserve.emitted[0].event.base.eventType == INVENTORY_RESERVED
  {
    var created := CreateOrder(EmptyDb, LoadTest.IdempotencyKey(vu, iter), Some(LoadTest.Payload(vu)), ids);
    var relay := DrainOutbox(created.db, {});
    FirstOrderRelayed(vu, iter, ids);
    var event := CreatedEvent(ids, LoadTest.Payload(vu));
    assert Deliver(relay.published) == Encode(event);
    EmptyDbInv();
    CreateOrderKeepsInv(EmptyDb, LoadTest.IdempotencyKey(vu, iter), Some(LoadTest.Payload(vu)), ids);
    DrainKeepsInv(created.db, {});
    SeededReservation(vu, ids, invStamp);
    SeedDbInv();
    LoadTest.PayloadIsValid(vu);
    assert NonNegativeLines(Encode(event));
    ConsumeOrdersKeepsInv(SeedDb, Encode(event), invStamp);
  }

  /**
   * The second half of the saga, from the inventory service's answer to a
   * reserved order: the order service and the payment service settle the
   * order and the inventory service settles its stock.
   */
  lemma SagaBack(orders: OrderDb, reserve: Inventory.Step, invStamp: Stamp, payStamp: Stamp, orderStamp: Stamp)
    requires OrderInv(orders) && Inventory.Inv(reserve.db)
    requires reserve.emitted != []
    requires reserve.emitted[0].event.InventoryReserved?
    requires reserve.emitted[0].event.base.eventType == INVENTORY_RESERVED
    requires reserve.emitted[0].event.orderId in orders.orders
    requires reserve.db.stock == SeedStock["SKU-RED-1" := Stock(100, 1)]
    requires reserve.db.reservations == [Reservation(reserve.emitted[0].event.orderId, "SKU-RED-1", 1, Held)]
    requires orderStamp.eventId != "" && orderStamp.eventId !in reserve.db.processed
    ensures
      var orderId := reserve.emitted[0].event.orderId;
      var held := ConsumeInventory(orders, Deliver(reserve.emitted), orderStamp);
      var settled := ConsumePayment(held.db, Deliver(Decide(Deliver(reserve.emitted), payStamp)), orderStamp);
      var final := ConsumeOrders(reserve.db, Deliver(settled.emitted), invStamp);
      && orderId in held.db.orders && held.db.orders[orderId].status == InventoryHeld
      && orderId in settled.db.orders
      && (!HasSuffix(orderId, "0") ==>
            && settled.db.orders[orderId].status == Confirmed
            && "SKU-RED-1" in final.db.stock
            && final.db.stock["SKU-RED-1"] == Stock(99, 0))
      && (HasSuffix(orderId, "0") ==>
            && settled.db.orders[orderId].status == Cancelled
            && "SKU-RED-1" in final.db.stock
            && final.db.stock["SKU-RED-1"] == Stock(100, 0))
      && OrderInv(settled.db) && Inventory.Inv(final.db)
  {
    var reserved := reserve.emitted[0].event;
    assert Deliver(reserve.emitted) == Encode(reserved);
    OrderSideOutcome(orders, reserved, payStamp, orderStamp);
    var held := ConsumeInventory(orders, Encode(reserved), orderStamp);
    var settled := ConsumePayment(held.db, Deliver(Decide(Encode(reserved), payStamp)), orderStamp);
    var follow := settled.emitted[0].event;
    assert Deliver(settled.emitted) == Encode(follow);
    InventorySettles(reserve.db, follow, invStamp);
    assert NonNegativeLines(Encode(follow));
    ConsumeOrdersKeepsInv(reserve.db, Encode(follow), invStamp);
  }

  /**
   * The whole saga of one load-script order. It reaches INVENTORY_RESERVED;
   * if its id does not end in "0" it ends CONFIRMED and one unit of
   * SKU-RED-1 leaves the stock (on_hand 99, reserved 0), otherwise it ends
   * CANCELLED and the stock is back to 100 on hand with nothing reserved.
   * Either way both services' tables stay consistent.
   */
  lemma SagaOutcome(vu: nat, iter: nat, ids: NewIds, invStamp: Stamp, payStamp: Stamp, orderStamp: Stamp)
    requires ids.eventId != "" && orderStamp.eventId != "" && orderStamp.eventId != ids.eventId
    ensures
      var created := CreateOrder(EmptyDb, LoadTest.IdempotencyKey(vu, iter), Some(LoadTest.Payload(vu)), ids);
      var relay := DrainOutbox(created.db, {});
      var orderId := NewOrderId(ids);
      var reserve := ConsumeOrders(SeedDb, Deliver(relay.published), invStamp);
      var held := ConsumeInventory(created.db.(outbox := relay.outbox), Deliver(reserve.emitted), orderStamp);
      var settled := ConsumePayment(held.db, Deliver(Decide(Deliver(reserve.emitted), payStamp)), orderStamp);
      var final := ConsumeOrders(reserve.db, Deliver(settled.emitted), invStamp);
      && orderId in held.db.orders && held.db.orders[orderId].status == InventoryHeld
      && orderId in settled.db.orders
      && (!HasSuffix(orderId, "0") ==>
            && settled.db.orders[orderId].status == Confirmed
            && "SKU-RED-1" in final.db.stock
            && final.db.stock["SKU-RED-1"] == Stock(99, 0))
      && (HasSuffix(orderId, "0") ==>
            && settled.db.orders[orderId].status == Cancelled
            && "SKU-RED-1" in final.db.stock
            && final.db.stock["SKU-RED-1"] == Stock(100, 0))
      && OrderInv(settled.db) && Inventory.Inv(final.db)
  {
    var created := CreateOrder(EmptyDb, LoadTest.IdempotencyKey(vu, iter), Some(LoadTest.Payload(vu)), ids);
    var relay := DrainOutbox(created.db, {});
    var reserve := ConsumeOrders(SeedDb, Deliver(relay.published), invStamp);
    SagaFront(vu, iter, ids, invStamp);
    SagaBack(created.db.(outbox := relay.outbox), reserve, invStamp, payStamp, orderStamp);
  }

  /**
   * After a failed reservation the order service hears nothing from the
   * inventory service as written, so the order keeps whatever status it
   * had; with the failure announced, the order is cancelled and
   * OrderCancelled carries the inventory service's reason.
   */
  lemma FailedReservationOutcome(odb: OrderDb, idb: InventoryDb, m: Message, invStamp: Stamp, orderStamp: Stamp)
    requires m.Envelope? && m.eventId != "" && m.eventId !in idb.processed
    requires m.eventType == ORDER_CREATED && m.decoded.Some?
    requires m.decoded.value.orderId in odb.orders
    requires !TryReserve(idb, m.decoded.value.orderId, m.decoded.value.items).ok
    ensures ConsumeInventory(odb, Deliver(ConsumeOrdersAsWritten(idb, m, invStamp).emitted), orderStamp) == OrderSaga.Step(odb, [])
    ensures var f := m.decoded.value;
      var answer := ConsumeInventory(odb, Deliver(ConsumeOrders(idb, m, invStamp).emitted), orderStamp);
      && answer.db.orders[f.orderId].status == Cancelled
      && |answer.emitted| == 1
      && answer.emitted[0].event.OrderCancelled?
      && answer.emitted[0].event.reason == TryReserve(idb, f.orderId, f.items).reason
  {
    FailedReservationAnnounced(idb, m, invStamp);
  }

  /** An order for 101 units of SKU-RED-1, one more than the seeded stock holds. */
  function OversizedRequest(): CreateOrderRequest {
    CreateOrderRequest("u_1", [OrderItem("SKU-RED-1", 101, 1999)])
  }

  /**
   * The oversized order: as written it stays PENDING for good; with the
   * failure announced it is cancelled for "insufficient stock for SKU-RED-1".
   */
  lemma OversizedOrderStranded(key: string, ids: NewIds, invStamp: Stamp, orderStamp: Stamp)
    requires Trim(key) != [] && ids.eventId != ""
    ensures
      var created := CreateOrder(EmptyDb, key, Some(OversizedRequest()), ids);
      var m := Encode(CreatedEvent(ids, OversizedRequest()));
      var asWritten := ConsumeInventory(created.db, Deliver(ConsumeOrdersAsWritten(SeedDb, m, invStamp).emitted), orderStamp);
      var corrected := ConsumeInventory(created.db, Deliver(ConsumeOrders(SeedDb, m, invStamp).emitted), orderStamp);
      && created.response.code == 201
      && asWritten.db.orders[NewOrderId(ids)].status == Pending
      && corrected.db.orders[NewOrderId(ids)].status == Cancelled
      && corrected.emitted[0].event.reason == "insufficient stock for SKU-RED-1"
  {
    var req := OversizedRequest();
    assert ValidRequest(req) by {
      assert req.items[0].qty > 0;
    }
    var created := CreateOrder(EmptyDb, key, Some(req), ids);
    assert created.response.code == 201;
    var m := Encode(CreatedEvent(ids, req));
    assert m.decoded.value.items == req.items;
    assert !Fits(SeedStock, req.items, 0);
    ReserveFirstFailure(SeedStock, req.items);
    assert TryReserve(SeedDb, NewOrderId(ids), req.items).reason == "insufficient stock for SKU-RED-1";
    FailedReservationOutcome(created.db, SeedDb, m, invStamp, orderStamp);
  }
}
