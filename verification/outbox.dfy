/**
 * The order service's outbox relay and its status-update helper: each
 * drain publishes the oldest pending outbox rows and marks the ones whose
 * publish succeeded; each status update is one transaction that skips
 * unchanged statuses.
 */
module Outbox {
  import opened Wrappers
  import opened Events
  import opened Orders

  /** The most rows one drain takes. */
  const BATCH_LIMIT: nat := 50

  datatype StatusError = OrderNotFound(orderId: string)

  /**
   * updateOrderStatus: an unknown order is an error; an order already in
   * the new status is left as it is; otherwise its status changes and one
   * audit row of the given type is appended.
   */
  function UpdateOrderStatus(db: OrderDb, orderId: string, newStatus: Status, eventType: string, payload: Payload)
    : (r: Result<OrderDb, StatusError>)
    ensures orderId !in db.orders <==> r.Failure?
    ensures r.Success? ==>
      && r.value.orders.Keys == db.orders.Keys
      && r.value.orders[orderId] == db.orders[orderId].(status := newStatus)
      && (forall id :: id in db.orders && id != orderId ==> r.value.orders[id] == db.orders[id])
      && r.value.items == db.items && r.value.idempotency == db.idempotency && r.value.outbox == db.outbox
    ensures r.Success? && db.orders[orderId].status == newStatus ==> r.value == db
    ensures r.Success? && db.orders[orderId].status != newStatus ==>
      r.value.audit == db.audit + [AuditRow(orderId, eventType, payload)]
  {
    if orderId !in db.orders then
      Failure(OrderNotFound(orderId))
    else if db.orders[orderId].status == newStatus then
      Success(db)
    else
      var order := db.orders[orderId];
      Success(db.(orders := db.orders[orderId := order.(status := newStatus)],
                  audit := db.audit + [AuditRow(orderId, eventType, payload)]))
  }

  /** The database after a status update whose error the caller discards. */
  function ApplyStatus(db: OrderDb, orderId: string, newStatus: Status, eventType: string, payload: Payload): OrderDb {
    match UpdateOrderStatus(db, orderId, newStatus, eventType, payload)
    case Success(db') => db'
    case Failure(_) => db
  }

  /** Repeating a status update changes nothing more than doing it once. */
  lemma UpdateOrderStatusIdempotent(db: OrderDb, orderId: string, newStatus: Status, eventType: string, payload: Payload)
    requires UpdateOrderStatus(db, orderId, newStatus, eventType, payload).Success?
    ensures var once := UpdateOrderStatus(db, orderId, newStatus, eventType, payload).value;
      UpdateOrderStatus(once, orderId, newStatus, eventType, payload) == Success(once)
  {
  }

  /** A status update keeps the order service's tables consistent, whether it succeeds or not. */
  lemma ApplyStatusKeepsInv(db: OrderDb, orderId: string, newStatus: Status, eventType: string, payload: Payload)
    requires OrderInv(db)
    ensures OrderInv(ApplyStatus(db, orderId, newStatus, eventType, payload))
  {
  }

  /**
   * The positions of the first `limit` pending rows at or after `from`.
   * They are pending, strictly ascending, at most `limit` of them, and any
   * pending row left out lies after all of them in a full batch.
   */
  function PendingFrom(outbox: seq<OutboxRow>, from: nat, limit: nat): (r: seq<nat>)
    requires from <= |outbox|
    ensures |r| <= limit
    ensures forall k :: 0 <= k < |r| ==> from <= r[k] < |outbox| && outbox[r[k]].status == OutboxPending
    ensures forall k, l :: 0 <= k < l < |r| ==> r[k] < r[l]
    ensures forall j :: from <= j < |outbox| && outbox[j].status == OutboxPending && j !in r ==>
      |r| == limit && forall k :: 0 <= k < |r| ==> r[k] < j
    decreases |outbox| - from
  {
    if from == |outbox| || limit == 0 then
      []
    else if outbox[from].status == OutboxPending then
      [from] + PendingFrom(outbox, from + 1, limit - 1)
    else
      PendingFrom(outbox, from + 1, limit)
  }

  /** `select ... where status='PENDING' order by id asc limit 50`, as outbox positions. */
  function SelectBatch(outbox: seq<OutboxRow>): (batch: seq<nat>)
    ensures |batch| <= BATCH_LIMIT
    ensures forall k :: 0 <= k < |batch| ==> batch[k] < |outbox| && outbox[batch[k]].status == OutboxPending
    ensures Ascending(batch)
    ensures forall j :: 0 <= j < |outbox| && outbox[j].status == OutboxPending && j !in batch ==>
      |batch| == BATCH_LIMIT && forall k :: 0 <= k < |batch| ==> batch[k] < j
  {
    PendingFrom(outbox, 0, BATCH_LIMIT)
  }

  predicate Ascending(ps: seq<nat>) {
    forall k, l :: 0 <= k < l < |ps| ==> ps[k] < ps[l]
  }

  /** The batch positions whose publish succeeds, in batch order. */
  function Succeeded(batch: seq<nat>, failed: set<nat>): (ok: seq<nat>)
    ensures |ok| <= |batch|
    ensures forall i :: i in ok <==> i in batch && i !in failed
    ensures forall k :: 0 <= k < |ok| ==> ok[k] in batch
    ensures Ascending(batch) ==> Ascending(ok)
  {
    if batch == [] then []
    else
      assert forall i :: i in batch <==> i == batch[0] || i in batch[1..];
      if batch[0] in failed then Succeeded(batch[1..], failed)
      else
        var rest := Succeeded(batch[1..], failed);
        assert Ascending(batch) ==> forall k :: 0 <= k < |rest| ==> rest[k] in batch[1..] && batch[0] < rest[k];
        [batch[0]] + rest
  }

  datatype Drained = Drained(outbox: seq<OutboxRow>, published: seq<Published>)

  /**
   * The publish-then-mark loop over a batch: each row is written to the
   * orders topic keyed by its aggregate id; a row whose publish fails
   * (its position is in `failed`) is skipped, the others are marked
   * PUBLISHED.
   */
  function PublishBatch(outbox: seq<OutboxRow>, batch: seq<nat>, failed: set<nat>): (r: Drained)
    requires forall i :: i in batch ==> i < |outbox|
    ensures |r.outbox| == |outbox|
    ensures forall i :: 0 <= i < |outbox| ==>
      r.outbox[i] == if i in batch && i !in failed then outbox[i].(status := OutboxPublished) else outbox[i]
    ensures var ok := Succeeded(batch, failed);
      && |r.published| == |ok|
      && forall k :: 0 <= k < |ok| ==> r.published[k] == Published(outbox[ok[k]].aggregateId, outbox[ok[k]].payload)
  {
    if batch == [] then
      Drained(outbox, [])
    else
      var i := batch[0];
      assert i in batch && forall j :: j in batch[1..] ==> j in batch;
      var rest := PublishBatch(outbox, batch[1..], failed);
      if i in failed then
        assert Succeeded(batch, failed) == Succeeded(batch[1..], failed);
        rest
      else
        assert Succeeded(batch, failed) == [i] + Succeeded(batch[1..], failed);
        Drained(rest.outbox[i := outbox[i].(status := OutboxPublished)],
                [Published(outbox[i].aggregateId, outbox[i].payload)] + rest.published)
  }

  /** drainOutbox: select the batch, then publish and mark it. */
  function DrainOutbox(db: OrderDb, failed: set<nat>): (r: Drained)
    ensures |r.outbox| == |db.outbox| && |r.published| <= BATCH_LIMIT
  {
    PublishBatch(db.outbox, SelectBatch(db.outbox), failed)
  }

  /**
   * A row is PUBLISHED after a drain exactly when it already was, or it was
   * pending, among the 50 oldest pending rows, and its publish succeeded.
   * Nothing but the status changes.
   */
  lemma DrainMarksOnlyPublished(db: OrderDb, failed: set<nat>, i: nat)
    requires i < |db.outbox|
    ensures var after := DrainOutbox(db, failed).outbox[i];
      && after.aggregateId == db.outbox[i].aggregateId
      && after.eventType == db.outbox[i].eventType
      && after.payload == db.outbox[i].payload
      && (after.status == OutboxPublished <==>
            (db.outbox[i].status == OutboxPublished || (i in SelectBatch(db.outbox) && i !in failed)))
  {
  }

  /**
   * A drain publishes, oldest first, exactly the batch rows whose publish
   * succeeded, each keyed by its order id.
   */
  lemma DrainPublishesOldestFirst(db: OrderDb, failed: set<nat>)
    ensures var ok := Succeeded(SelectBatch(db.outbox), failed);
      var published := DrainOutbox(db, failed).published;
      && Ascending(ok)
      && |published| == |ok|
      && forall k :: 0 <= k < |ok| ==>
           ok[k] < |db.outbox| && db.outbox[ok[k]].status == OutboxPending && ok[k] !in failed
           && published[k] == Published(db.outbox[ok[k]].aggregateId, db.outbox[ok[k]].payload)
  {
    var ok := Succeeded(SelectBatch(db.outbox), failed);
    forall k | 0 <= k < |ok|
      ensures ok[k] in SelectBatch(db.outbox)
    {
      assert ok[k] in ok;
    }
  }

  /** When fewer than 50 rows are pending and every publish succeeds, one drain leaves nothing pending. */
  lemma DrainClearsSmallBacklog(db: OrderDb)
    requires |SelectBatch(db.outbox)| < BATCH_LIMIT
    ensures forall i :: 0 <= i < |db.outbox| ==> DrainOutbox(db, {}).outbox[i].status == OutboxPublished
  {
  }

  /** Draining touches only the outbox, so the order service's tables stay consistent. */
  lemma DrainKeepsInv(db: OrderDb, failed: set<nat>)
    requires OrderInv(db)
    ensures OrderInv(db.(outbox := DrainOutbox(db, failed).outbox))
  {
    var out := DrainOutbox(db, failed).outbox;
    forall k | 0 <= k < |out|
      ensures out[k].aggregateId in db.orders
    {
      DrainMarksOnlyPublished(db, failed, k);
    }
  }
}
