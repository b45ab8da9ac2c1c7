/**
 * The inventory service: stock per SKU, reservations per order line and
 * the set of processed event ids. Reserving is all-or-nothing; finalizing
 * and releasing settle an order's open reservations once. Every consumed
 * message on the orders topic is one transition.
 */
module Inventory {
  import opened Wrappers
  import opened Events

  /** A row of `stock`. */
  datatype Stock = Stock(onHand: int, reserved: int)

  /** `reservations.status`: RESERVED, COMPLETED (finalized) or CANCELLED (released). */
  datatype ResStatus = Held | Completed | Released

  function ResStatusName(s: ResStatus): string {
    match s
    case Held => "RESERVED"
    case Completed => "COMPLETED"
    case Released => "CANCELLED"
  }

  /** A row of `reservations`. */
  datatype Reservation = Reservation(orderId: string, sku: string, qty: int, status: ResStatus)

  /** The inventory service's database: `stock`, `reservations` and `processed_events`. */
  datatype InventoryDb = InventoryDb(stock: map<string, Stock>, reservations: seq<Reservation>, processed: set<string>)

  /** The stock the service seeds at start-up. */
  const SeedStock: map<string, Stock> := map["SKU-RED-1" := Stock(100, 0), "SKU-RED-2" := Stock(50, 0)]

  const SeedDb := InventoryDb(SeedStock, [], {})

  function Available(s: Stock): int {
    s.onHand - s.reserved
  }

  /** The quantity an order asks of one SKU, over all its lines. */
  function SumQty(items: seq<OrderItem>, sku: string): int {
    if items == [] then 0
    else (if items[0].sku == sku then items[0].qty else 0) + SumQty(items[1..], sku)
  }

  /** The open (RESERVED) quantity the reservation rows hold of one SKU. */
  function HeldQty(rs: seq<Reservation>, sku: string): int {
    if rs == [] then 0
    else (if rs[0].sku == sku && rs[0].status == Held then rs[0].qty else 0) + HeldQty(rs[1..], sku)
  }

  /** The quantity a list of reservation rows holds of one SKU, whatever their status. */
  function RowsQty(rows: seq<Reservation>, sku: string): int {
    if rows == [] then 0
    else (if rows[0].sku == sku then rows[0].qty else 0) + RowsQty(rows[1..], sku)
  }

  /**
   * The stock invariant: for every SKU, 0 <= reserved <= on_hand and
   * reserved is the sum of the open reservations of that SKU; every
   * reservation's qty is non-negative and every open one is for a stocked SKU.
   */
  ghost predicate Inv(db: InventoryDb) {
    && (forall sku :: sku in db.stock ==>
          && 0 <= db.stock[sku].reserved <= db.stock[sku].onHand
          && db.stock[sku].reserved == HeldQty(db.reservations, sku))
    && (forall k :: 0 <= k < |db.reservations| ==>
          db.reservations[k].qty >= 0 && (db.reservations[k].status == Held ==> db.reservations[k].sku in db.stock))
  }

  lemma SeedDbInv()
    ensures Inv(SeedDb)
  {
  }

  // ---------------------------------------------------------------- reserve

  datatype ReserveFailure = SkuNotFound(sku: string) | InsufficientStock(sku: string)

  /** The reason string tryReserve returns with a failure. */
  function FailureReason(f: ReserveFailure): (reason: string)
    ensures f.SkuNotFound? ==> reason == "sku not found: " + f.sku
    ensures f.InsufficientStock? ==> reason == "insufficient stock for " + f.sku
  {
    match f
    case SkuNotFound(sku) => "sku not found: " + sku
    case InsufficientStock(sku) => "insufficient stock for " + sku
  }

  /** A reason names its failure: the kind and the SKU can be read back from the string. */
  lemma FailureReasonInjective(f1: ReserveFailure, f2: ReserveFailure)
    requires FailureReason(f1) == FailureReason(f2)
    ensures f1 == f2
  {
    var p1 := FailureReason(f1)[..|FailureReason(f1)| - |f1.sku|];
    var p2 := FailureReason(f2)[..|FailureReason(f2)| - |f2.sku|];
    assert FailureReason(f1) == p1 + f1.sku && FailureReason(f2) == p2 + f2.sku;
    assert p1[0] == FailureReason(f1)[0] == FailureReason(f2)[0] == p2[0];
    assert p1 == p2;
    assert f1.sku == FailureReason(f1)[|p1|..] == f2.sku;
  }

  /**
   * Line k of an order fits the stock as it was before the order: its SKU
   * exists and what is available covers that line together with the
   * earlier lines of the same SKU.
   */
  predicate Fits(stock: map<string, Stock>, items: seq<OrderItem>, k: int)
    requires 0 <= k < |items|
  {
    items[k].sku in stock && SumQty(items[..k + 1], items[k].sku) <= Available(stock[items[k].sku])
  }

  /** The failure tryReserve reports for a line that does not fit. */
  function FailureAt(stock: map<string, Stock>, items: seq<OrderItem>, k: int): ReserveFailure
    requires 0 <= k < |items|
  {
    if items[k].sku !in stock then SkuNotFound(items[k].sku) else InsufficientStock(items[k].sku)
  }

  /** The stock after reserving one line. */
  function Bump(stock: map<string, Stock>, it: OrderItem): map<string, Stock>
    requires it.sku in stock
  {
    stock[it.sku := Stock(stock[it.sku].onHand, stock[it.sku].reserved + it.qty)]
  }

  /**
   * The loop of tryReserve over the lines, each seeing the reservations of
   * the lines before it: a missing SKU or a line that asks for more than is
   * available stops it with that line's failure.
   */
  function Reserve(stock: map<string, Stock>, items: seq<OrderItem>): (r: Result<map<string, Stock>, ReserveFailure>)
    ensures r.Success? ==> r.value.Keys == stock.Keys
    ensures r.Success? ==> forall sku :: sku in stock ==>
      r.value[sku] == Stock(stock[sku].onHand, stock[sku].reserved + SumQty(items, sku))
  {
    if items == [] then
      Success(stock)
    else
      var it := items[0];
      if it.sku !in stock then Failure(SkuNotFound(it.sku))
      else if Available(stock[it.sku]) < it.qty then Failure(InsufficientStock(it.sku))
      else Reserve(Bump(stock, it), items[1..])
  }

  /** Once the first line is reserved, line j + 1 of the order fits exactly when line j of the rest fits the bumped stock. */
  lemma FitsShift(stock: map<string, Stock>, items: seq<OrderItem>, j: int)
    requires |items| > 0 && items[0].sku in stock
    requires 0 <= j < |items| - 1
    ensures Fits(Bump(stock, items[0]), items[1..], j) <==> Fits(stock, items, j + 1)
  {
    assert items[..j + 2][0] == items[0];
    assert items[..j + 2][1..] == items[1..][..j + 1];
  }

  /** The first line fits exactly when its SKU exists and its qty is available. */
  lemma FitsFirst(stock: map<string, Stock>, items: seq<OrderItem>)
    requires |items| > 0
    ensures Fits(stock, items, 0) <==> items[0].sku in stock && items[0].qty <= Available(stock[items[0].sku])
  {
    var first := items[..1];
    assert first[0] == items[0] && first[1..] == [];
    assert SumQty(first, items[0].sku) == items[0].qty + SumQty([], items[0].sku);
  }

  /**
   * tryReserve succeeds exactly when every line fits; when it fails, the
   * failure is that of the first line that does not fit.
   */
  lemma {:induction false} ReserveFirstFailure(stock: map<string, Stock>, items: seq<OrderItem>)
    ensures Reserve(stock, items).Success? <==> forall k :: 0 <= k < |items| ==> Fits(stock, items, k)
    ensures Reserve(stock, items).Failure? ==>
      exists k :: 0 <= k < |items| && (forall j :: 0 <= j < k ==> Fits(stock, items, j))
                  && !Fits(stock, items, k) && Reserve(stock, items).error == FailureAt(stock, items, k)
  {
    if items != [] {
      var it := items[0];
      FitsFirst(stock, items);
      if it.sku in stock && Available(stock[it.sku]) >= it.qty {
        var bumped := Bump(stock, it);
        ReserveFirstFailure(bumped, items[1..]);
        forall j | 0 <= j < |items| - 1
          ensures Fits(bumped, items[1..], j) <==> Fits(stock, items, j + 1)
        {
          FitsShift(stock, items, j);
        }
        if Reserve(stock, items).Success? {
          forall k | 0 <= k < |items|
            ensures Fits(stock, items, k)
          {
            if k > 0 {
              assert Fits(bumped, items[1..], k - 1);
            }
          }
        } else {
          var k' :| 0 <= k' < |items| - 1 && (forall j :: 0 <= j < k' ==> Fits(bumped, items[1..], j))
                    && !Fits(bumped, items[1..], k') && Reserve(bumped, items[1..]).error == FailureAt(bumped, items[1..], k');
          forall j | 0 <= j < k' + 1
            ensures Fits(stock, items, j)
          {
            if j > 0 {
              assert Fits(bumped, items[1..], j - 1);
            }
          }
          assert !Fits(stock, items, k' + 1);
          assert Reserve(stock, items).error == FailureAt(stock, items, k' + 1);
        }
      } else {
        assert !Fits(stock, items, 0);
        assert Reserve(stock, items).error == FailureAt(stock, items, 0);
      }
    }
  }

  /** Reserving lines of non-negative qty keeps 0 <= reserved <= on_hand for every SKU. */
  lemma {:induction false} ReserveKeepsBounds(stock: map<string, Stock>, items: seq<OrderItem>)
    requires forall sku :: sku in stock ==> 0 <= stock[sku].reserved <= stock[sku].onHand
    requires forall k :: 0 <= k < |items| ==> items[k].qty >= 0
    requires Reserve(stock, items).Success?
    ensures forall sku :: sku in stock ==>
      0 <= Reserve(stock, items).value[sku].reserved <= Reserve(stock, items).value[sku].onHand
  {
    if items != [] {
      ReserveKeepsBounds(Bump(stock, items[0]), items[1..]);
    }
  }

  /** One open reservation per line, in order. */
  function HeldRows(orderId: string, items: seq<OrderItem>): (rows: seq<Reservation>)
    ensures |rows| == |items|
    ensures forall k :: 0 <= k < |rows| ==> rows[k] == Reservation(orderId, items[k].sku, items[k].qty, Held)
  {
    if items == [] then [] else [Reservation(orderId, items[0].sku, items[0].qty, Held)] + HeldRows(orderId, items[1..])
  }

  datatype ReserveResult = ReserveResult(db: InventoryDb, ok: bool, reason: string)

  /**
   * tryReserve: one transaction that either reserves every line (raising
   * `reserved` and adding one RESERVED row per line) or changes nothing and
   * reports the first line's failure.
   */
  function TryReserve(db: InventoryDb, orderId: string, items: seq<OrderItem>): (r: ReserveResult)
    ensures !r.ok ==> r.db == db && r.reason != ""
    ensures !r.ok ==> Reserve(db.stock, items).Failure? && r.reason == FailureReason(Reserve(db.stock, items).error)
    ensures !r.ok ==> exists k :: 0 <= k < |items| && (forall j :: 0 <= j < k ==> Fits(db.stock, items, j))
                                  && !Fits(db.stock, items, k) && r.reason == FailureReason(FailureAt(db.stock, items, k))
    ensures r.ok ==>
      && r.reason == ""
      && r.db.processed == db.processed
      && r.db.reservations == db.reservations + HeldRows(orderId, items)
      && r.db.stock.Keys == db.stock.Keys
      && forall sku :: sku in db.stock ==>
           r.db.stock[sku] == Stock(db.stock[sku].onHand, db.stock[sku].reserved + SumQty(items, sku))
  {
    match Reserve(db.stock, items)
    case Success(stock) =>
      ReserveResult(db.(stock := stock, reservations := db.reservations + HeldRows(orderId, items)), true, "")
    case Failure(f) =>
      ReserveFirstFailure(db.stock, items);
      ReserveResult(db, false, FailureReason(f))
  }

  lemma {:induction false} HeldQtyAppend(a: seq<Reservation>, b: seq<Reservation>, sku: string)
    ensures HeldQty(a + b, sku) == HeldQty(a, sku) + HeldQty(b, sku)
  {
    if a == [] {
      assert a + b == b;
    } else {
      assert (a + b)[0] == a[0] && (a + b)[1..] == a[1..] + b;
      HeldQtyAppend(a[1..], b, sku);
    }
  }

  lemma {:induction false} HeldQtyOfHeldRows(orderId: string, items: seq<OrderItem>, sku: string)
    ensures HeldQty(HeldRows(orderId, items), sku) == SumQty(items, sku)
  {
    if items != [] {
      HeldQtyOfHeldRows(orderId, items[1..], sku);
      assert HeldRows(orderId, items)[1..] == HeldRows(orderId, items[1..]);
    }
  }

  /** tryReserve keeps the stock invariant for lines of non-negative qty. */
  lemma TryReserveKeepsInv(db: InventoryDb, orderId: string, items: seq<OrderItem>)
    requires Inv(db)
    requires forall k :: 0 <= k < |items| ==> items[k].qty >= 0
    ensures Inv(TryReserve(db, orderId, items).db)
  {
    var r := TryReserve(db, orderId, items);
    if r.ok {
      ReserveKeepsBounds(db.stock, items);
      forall sku | sku in db.stock
        ensures r.db.stock[sku].reserved == HeldQty(r.db.reservations, sku)
      {
        HeldQtyAppend(db.reservations, HeldRows(orderId, items), sku);
        HeldQtyOfHeldRows(orderId, items, sku);
      }
      ReserveFirstFailure(db.stock, items);
      forall k | 0 <= k < |r.db.reservations|
        ensures r.db.reservations[k].qty >= 0
        ensures r.db.reservations[k].status == Held ==> r.db.reservations[k].sku in r.db.stock
      {
        if k >= |db.reservations| {
          assert Fits(db.stock, items, k - |db.reservations|);
        }
      }
    }
  }

  // ---------------------------------------------------------------- settle

  /** `select sku, qty from reservations where order_id=$1 and status='RESERVED'`. */
  function OpenRows(rs: seq<Reservation>, orderId: string): (rows: seq<Reservation>)
    ensures forall k :: 0 <= k < |rows| ==> rows[k].orderId == orderId && rows[k].status == Held
    ensures forall x :: x in rows <==> x in rs && x.orderId == orderId && x.status == Held
  {
    if rs == [] then []
    else (if rs[0].orderId == orderId && rs[0].status == Held then [rs[0]] else []) + OpenRows(rs[1..], orderId)
  }

  /** The per-row stock updates: `reserved` (and `on_hand` too when finalizing) drops by the row's qty; an unknown SKU updates nothing. */
  function DeductRows(stock: map<string, Stock>, rows: seq<Reservation>, deductOnHand: bool): (r: map<string, Stock>)
    ensures r.Keys == stock.Keys
    ensures forall sku :: sku in stock ==>
      r[sku] == Stock(stock[sku].onHand - (if deductOnHand then RowsQty(rows, sku) else 0),
                      stock[sku].reserved - RowsQty(rows, sku))
  {
    if rows == [] then
      stock
    else
      var row := rows[0];
      var next :=
        if row.sku !in stock then stock
        else if deductOnHand then stock[row.sku := Stock(stock[row.sku].onHand - row.qty, stock[row.sku].reserved - row.qty)]
        else stock[row.sku := Stock(stock[row.sku].onHand, stock[row.sku].reserved - row.qty)];
      DeductRows(next, rows[1..], deductOnHand)
  }

  /** `update reservations set status=$2 where order_id=$1 and status='RESERVED'`. */
  function Relabel(rs: seq<Reservation>, orderId: string, status: ResStatus): (r: seq<Reservation>)
    ensures |r| == |rs|
    ensures forall k :: 0 <= k < |rs| ==>
      r[k] == if rs[k].orderId == orderId && rs[k].status == Held then rs[k].(status := status) else rs[k]
  {
    if rs == [] then [] else
      [if rs[0].orderId == orderId && rs[0].status == Held then rs[0].(status := status) else rs[0]]
      + Relabel(rs[1..], orderId, status)
  }

  /**
   * updateReservation: with no open rows for the order nothing changes;
   * otherwise each open row's qty is taken off the stock and the rows are
   * relabelled.
   */
  function UpdateReservation(db: InventoryDb, orderId: string, status: ResStatus, deductOnHand: bool): (r: InventoryDb)
    ensures OpenRows(db.reservations, orderId) == [] ==> r == db
    ensures r.processed == db.processed && r.stock.Keys == db.stock.Keys
    ensures r.reservations == Relabel(db.reservations, orderId, status)
    ensures forall sku :: sku in db.stock ==>
      var open := RowsQty(OpenRows(db.reservations, orderId), sku);
      r.stock[sku] == Stock(db.stock[sku].onHand - (if deductOnHand then open else 0), db.stock[sku].reserved - open)
  {
    var rows := OpenRows(db.reservations, orderId);
    if rows == [] then
      RelabelWithoutOpenRows(db.reservations, orderId, status);
      db
    else db.(stock := DeductRows(db.stock, rows, deductOnHand), reservations := Relabel(db.reservations, orderId, status))
  }

  /** Without open rows for the order, relabelling changes no row. */
  lemma {:induction false} RelabelWithoutOpenRows(rs: seq<Reservation>, orderId: string, status: ResStatus)
    requires OpenRows(rs, orderId) == []
    ensures Relabel(rs, orderId, status) == rs
  {
    if rs != [] {
      assert OpenRows(rs[1..], orderId) == [] by {
        assert OpenRows(rs, orderId) == (if rs[0].orderId == orderId && rs[0].status == Held then [rs[0]] else []) + OpenRows(rs[1..], orderId);
      }
      RelabelWithoutOpenRows(rs[1..], orderId, status);
    }
  }

  /**
   * finalizeReservation: the goods leave, so on_hand and reserved both drop
   * by the order's open quantity of each SKU; the rows become COMPLETED.
   */
  function Finalize(db: InventoryDb, orderId: string): (r: InventoryDb)
    ensures r.processed == db.processed && r.stock.Keys == db.stock.Keys
    ensures r.reservations == Relabel(db.reservations, orderId, Completed)
    ensures forall sku :: sku in db.stock ==>
      var open := RowsQty(OpenRows(db.reservations, orderId), sku);
      r.stock[sku] == Stock(db.stock[sku].onHand - open, db.stock[sku].reserved - open)
  {
    UpdateReservation(db, orderId, Completed, true)
  }

  /**
   * releaseReservation: the goods return to availability, so only reserved
   * drops by the order's open quantity of each SKU; the rows become CANCELLED.
   */
  function Release(db: InventoryDb, orderId: string): (r: InventoryDb)
    ensures r.processed == db.processed && r.stock.Keys == db.stock.Keys
    ensures r.reservations == Relabel(db.reservations, orderId, Released)
    ensures forall sku :: sku in db.stock ==>
      r.stock[sku] == Stock(db.stock[sku].onHand, db.stock[sku].reserved - RowsQty(OpenRows(db.reservations, orderId), sku))
  {
    UpdateReservation(db, orderId, Released, false)
  }

  /**
   * Finalizing and releasing differ only in on_hand: both settle the same
   * rows and take the same quantity off reserved, and finalizing also
   * takes it off on_hand.
   */
  lemma FinalizeReleaseDiffer(db: InventoryDb, orderId: string, sku: string)
    requires sku in db.stock
    ensures Finalize(db, orderId).stock[sku].reserved == Release(db, orderId).stock[sku].reserved
    ensures Release(db, orderId).stock[sku].onHand - Finalize(db, orderId).stock[sku].onHand
         == db.stock[sku].reserved - Release(db, orderId).stock[sku].reserved
    ensures OpenRows(Finalize(db, orderId).reservations, orderId) == []
    ensures OpenRows(Release(db, orderId).reservations, orderId) == []
  {
    NoOpenRowsAfterRelabel(db.reservations, orderId, Completed);
    NoOpenRowsAfterRelabel(db.reservations, orderId, Released);
  }

  /**
   * An order's open quantity splits off the open quantity of a SKU:
   * what stays open after relabelling the order's rows is the rest.
   */
  lemma {:induction false} HeldQtySplit(rs: seq<Reservation>, orderId: string, status: ResStatus, sku: string)
    requires status != Held
    ensures HeldQty(rs, sku) == RowsQty(OpenRows(rs, orderId), sku) + HeldQty(Relabel(rs, orderId, status), sku)
  {
    if rs != [] {
      HeldQtySplit(rs[1..], orderId, status, sku);
      var relabelled := Relabel(rs, orderId, status);
      assert relabelled[1..] == Relabel(rs[1..], orderId, status);
      var open := OpenRows(rs, orderId);
      if rs[0].orderId == orderId && rs[0].status == Held {
        assert open == [rs[0]] + OpenRows(rs[1..], orderId);
        assert open[0] == rs[0] && open[1..] == OpenRows(rs[1..], orderId);
        assert relabelled[0].status != Held;
      } else {
        assert open == [] + OpenRows(rs[1..], orderId);
        assert open == OpenRows(rs[1..], orderId);
        assert relabelled[0] == rs[0];
        assert HeldQty(relabelled, sku) == (if rs[0].sku == sku && rs[0].status == Held then rs[0].qty else 0)
                                          + HeldQty(Relabel(rs[1..], orderId, status), sku);
      }
    }
  }

  lemma {:induction false} HeldQtyNonNegative(rs: seq<Reservation>, sku: string)
    requires forall k :: 0 <= k < |rs| ==> rs[k].qty >= 0
    ensures HeldQty(rs, sku) >= 0
  {
    if rs != [] {
      HeldQtyNonNegative(rs[1..], sku);
    }
  }

  lemma {:induction false} RowsQtyNonNegative(rows: seq<Reservation>, sku: string)
    requires forall k :: 0 <= k < |rows| ==> rows[k].qty >= 0
    ensures RowsQty(rows, sku) >= 0
  {
    if rows != [] {
      RowsQtyNonNegative(rows[1..], sku);
    }
  }

  lemma {:induction false} OpenRowsFrom(rs: seq<Reservation>, orderId: string)
    ensures forall k :: 0 <= k < |OpenRows(rs, orderId)| ==> OpenRows(rs, orderId)[k] in rs
  {
    if rs != [] {
      OpenRowsFrom(rs[1..], orderId);
      var head := if rs[0].orderId == orderId && rs[0].status == Held then [rs[0]] else [];
      assert OpenRows(rs, orderId) == head + OpenRows(rs[1..], orderId);
      forall k | 0 <= k < |OpenRows(rs, orderId)|
        ensures OpenRows(rs, orderId)[k] in rs
      {
        if k >= |head| {
          assert OpenRows(rs, orderId)[k] == OpenRows(rs[1..], orderId)[k - |head|];
          assert OpenRows(rs[1..], orderId)[k - |head|] in rs[1..];
        }
      }
    }
  }

  /** Finalizing or releasing keeps the stock invariant. */
  lemma UpdateReservationKeepsInv(db: InventoryDb, orderId: string, status: ResStatus, deductOnHand: bool)
    requires Inv(db)
    requires status != Held
    ensures Inv(UpdateReservation(db, orderId, status, deductOnHand))
  {
    var rows := OpenRows(db.reservations, orderId);
    if rows != [] {
      var r := UpdateReservation(db, orderId, status, deductOnHand);
      OpenRowsFrom(db.reservations, orderId);
      forall sku | sku in db.stock
        ensures 0 <= r.stock[sku].reserved <= r.stock[sku].onHand
        ensures r.stock[sku].reserved == HeldQty(r.reservations, sku)
      {
        HeldQtySplit(db.reservations, orderId, status, sku);
        HeldQtyNonNegative(r.reservations, sku);
        RowsQtyNonNegative(rows, sku);
      }
    }
  }

  /** After settling, the order has no open rows left. */
  lemma {:induction false} NoOpenRowsAfterRelabel(rs: seq<Reservation>, orderId: string, status: ResStatus)
    requires status != Held
    ensures OpenRows(Relabel(rs, orderId, status), orderId) == []
  {
    if rs != [] {
      NoOpenRowsAfterRelabel(rs[1..], orderId, status);
      assert Relabel(rs, orderId, status)[1..] == Relabel(rs[1..], orderId, status);
    }
  }

  /**
   * Settling is idempotent: once an order is finalized or released, a
   * second finalize or release of it changes nothing.
   */
  lemma SettleIdempotent(db: InventoryDb, orderId: string, status: ResStatus, deductOnHand: bool,
                         status2: ResStatus, deductOnHand2: bool)
    requires status != Held
    ensures var once := UpdateReservation(db, orderId, status, deductOnHand);
      UpdateReservation(once, orderId, status2, deductOnHand2) == once
  {
    NoOpenRowsAfterRelabel(db.reservations, orderId, status);
  }

  // ---------------------------------------------------------------- consume

  datatype Step = Step(db: InventoryDb, emitted: seq<Published>)

  /** The InventoryReserved event the service publishes when an order's lines are all reserved. */
  function ReservedEvent(stamp: Stamp, f: Fields): (e: Event)
    ensures e.InventoryReserved? && WellTyped(e) && e.orderId == f.orderId && e.base.correlationId == f.correlationId
  {
    InventoryReserved(NewBase(stamp, INVENTORY_RESERVED, f.correlationId), f.orderId)
  }

  /** The InventoryFailed event the service builds when a reservation fails, carrying its reason. */
  function FailedEvent(stamp: Stamp, f: Fields, reason: string): (e: Event)
    ensures e.InventoryFailed? && WellTyped(e) && e.orderId == f.orderId && e.base.correlationId == f.correlationId
    ensures e.reason == reason
  {
    InventoryFailed(NewBase(stamp, INVENTORY_FAILED, f.correlationId), f.orderId, reason)
  }

  function MarkProcessed(db: InventoryDb, eventId: string): InventoryDb {
    db.(processed := db.processed + {eventId})
  }

  /**
   * consumeOrdersLoop, one message, with the reservation outcome always
   * announced. Unparseable messages, messages without an event id and
   * already-processed ids are only committed. OrderCreated reserves stock
   * and publishes InventoryReserved, or InventoryFailed with the reason;
   * OrderConfirmed finalizes, OrderCancelled releases, other types do
   * nothing. Each of these then records the id as processed, except an
   * OrderCreated whose typed decode fails, which is committed without
   * being recorded.
   */
  function ConsumeOrders(db: InventoryDb, m: Message, stamp: Stamp): (r: Step)
    ensures m.Unparseable? || m.eventId == "" || m.eventId in db.processed ==> r == Step(db, [])
    ensures r.db.processed >= db.processed
    ensures m.Envelope? && m.eventId != "" && !(m.eventType == ORDER_CREATED && m.decoded.None?) ==>
      m.eventId in r.db.processed
    ensures |r.emitted| <= 1
    ensures r.emitted != [] <==>
      && m.Envelope? && m.eventId != "" && m.eventId !in db.processed
      && m.eventType == ORDER_CREATED && m.decoded.Some?
    ensures r.emitted != [] ==>
      var f := m.decoded.value;
      var res := TryReserve(db, f.orderId, f.items);
      && r.emitted[0].key == f.orderId
      && r.emitted[0].event == (if res.ok then ReservedEvent(stamp, f) else FailedEvent(stamp, f, res.reason))
    ensures m.Envelope? && m.eventId != "" && m.eventId !in db.processed ==>
      if m.eventType == ORDER_CREATED then
        r.db == (if m.decoded.Some? then MarkProcessed(TryReserve(db, m.decoded.value.orderId, m.decoded.value.items).db, m.eventId)
                 else db)
      else if m.eventType == ORDER_CONFIRMED && m.decoded.Some? then
        r.db == MarkProcessed(Finalize(db, m.decoded.value.orderId), m.eventId)
      else if m.eventType == ORDER_CANCELLED && m.decoded.Some? then
        r.db == MarkProcessed(Release(db, m.decoded.value.orderId), m.eventId)
      else
        r.db == MarkProcessed(db, m.eventId)
  {
    match m
    case Unparseable => Step(db, [])
    case Envelope(eventType, eventId, decoded) =>
      if eventId == "" || eventId in db.processed then
        Step(db, [])
      else if eventType == ORDER_CREATED then
        if decoded.None? then
          Step(db, [])
        else
          var f := decoded.value;
          var res := TryReserve(db, f.orderId, f.items);
          var out := if res.ok then ReservedEvent(stamp, f) else FailedEvent(stamp, f, res.reason);
          Step(MarkProcessed(res.db, eventId), [Published(f.orderId, out)])
      else if eventType == ORDER_CONFIRMED then
        var settled := if decoded.Some? then Finalize(db, decoded.value.orderId) else db;
        Step(MarkProcessed(settled, eventId), [])
      else if eventType == ORDER_CANCELLED then
        var settled := if decoded.Some? then Release(db, decoded.value.orderId) else db;
        Step(MarkProcessed(settled, eventId), [])
      else
        Step(MarkProcessed(db, eventId), [])
  }

  /**
   * consumeOrdersLoop as written in the Go code: the same transition, but the
   * InventoryFailed event is built and never written, so a failed
   * reservation publishes nothing.
   */
  function ConsumeOrdersAsWritten(db: InventoryDb, m: Message, stamp: Stamp): (r: Step)
    ensures r.db == ConsumeOrders(db, m, stamp).db
    ensures forall k :: 0 <= k < |r.emitted| ==> r.emitted[k].event.InventoryReserved?
    ensures |r.emitted| <= 1
    ensures r.emitted != [] ==>
      m.Envelope? && m.eventType == ORDER_CREATED && m.decoded.Some? && m.eventId != "" && m.eventId !in db.processed
    ensures m.Envelope? && m.eventId != "" && m.eventId !in db.processed && m.eventType == ORDER_CREATED && m.decoded.Some? ==>
      var f := m.decoded.value;
      r.emitted == (if TryReserve(db, f.orderId, f.items).ok then [Published(f.orderId, ReservedEvent(stamp, f))] else [])
  {
    var corrected := ConsumeOrders(db, m, stamp);
    Step(corrected.db, if corrected.emitted != [] && corrected.emitted[0].event.InventoryFailed? then [] else corrected.emitted)
  }

  /** The OrderCreated messages whose lines the order service could have sent: no negative qty. */
  predicate NonNegativeLines(m: Message) {
    m.Envelope? && m.decoded.Some? ==> forall k :: 0 <= k < |m.decoded.value.items| ==> m.decoded.value.items[k].qty >= 0
  }

  /** Every consumed message keeps the stock invariant. */
  lemma ConsumeOrdersKeepsInv(db: InventoryDb, m: Message, stamp: Stamp)
    requires Inv(db)
    requires NonNegativeLines(m)
    ensures Inv(ConsumeOrders(db, m, stamp).db)
  {
    if m.Envelope? && m.eventId != "" && m.eventId !in db.processed && m.decoded.Some? {
      var f := m.decoded.value;
      var settled: InventoryDb;
      if m.eventType == ORDER_CREATED {
        TryReserveKeepsInv(db, f.orderId, f.items);
        settled := TryReserve(db, f.orderId, f.items).db;
      } else if m.eventType == ORDER_CONFIRMED {
        UpdateReservationKeepsInv(db, f.orderId, Completed, true);
        settled := Finalize(db, f.orderId);
      } else if m.eventType == ORDER_CANCELLED {
        UpdateReservationKeepsInv(db, f.orderId, Released, false);
        settled := Release(db, f.orderId);
      } else {
        settled := db;
      }
      MarkProcessedKeepsInv(settled, m.eventId);
      assert ConsumeOrders(db, m, stamp).db == MarkProcessed(settled, m.eventId);
    } else if m.Envelope? && m.eventId != "" && m.eventId !in db.processed && m.eventType != ORDER_CREATED {
      MarkProcessedKeepsInv(db, m.eventId);
    }
  }

  lemma MarkProcessedKeepsInv(db: InventoryDb, eventId: string)
    requires Inv(db)
    ensures Inv(MarkProcessed(db, eventId))
  {
    assert MarkProcessed(db, eventId).stock == db.stock;
    assert MarkProcessed(db, eventId).reservations == db.reservations;
  }

  /** Redelivering a message, with any fresh ids, changes nothing and publishes nothing. */
  lemma RedeliveryIsNoOp(db: InventoryDb, m: Message, stamp1: Stamp, stamp2: Stamp)
    ensures var first := ConsumeOrders(db, m, stamp1);
      ConsumeOrders(first.db, m, stamp2) == Step(first.db, [])
  {
  }

  /**
   * A reservation that fails leaves stock and reservations alone. The
   * service then announces InventoryFailed with the reason tryReserve gave;
   * as written it publishes nothing at all.
   */
  lemma FailedReservationAnnounced(db: InventoryDb, m: Message, stamp: Stamp)
    requires m.Envelope? && m.eventId != "" && m.eventId !in db.processed
    requires m.eventType == ORDER_CREATED && m.decoded.Some?
    requires !TryReserve(db, m.decoded.value.orderId, m.decoded.value.items).ok
    ensures var r := ConsumeOrders(db, m, stamp);
      && r.db.stock == db.stock && r.db.reservations == db.reservations
      && |r.emitted| == 1
      && r.emitted[0].event.InventoryFailed?
      && r.emitted[0].event.reason == TryReserve(db, m.decoded.value.orderId, m.decoded.value.items).reason
    ensures ConsumeOrdersAsWritten(db, m, stamp).emitted == []
  {
  }
}
