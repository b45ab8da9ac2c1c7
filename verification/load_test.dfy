/**
 * The k6 load script: each iteration of each virtual user posts one fixed
 * order under a per-iteration idempotency key and checks the status. The
 * k6 runtime (scheduling, duration, sleeps) is not modelled; the virtual
 * user and iteration indices are parameters.
 */
module LoadTest {
  import opened Wrappers
  import opened Text
  import opened Events
  import opened Orders

  const SKU := "SKU-RED-1"
  const QTY := 1
  const UNIT_PRICE := 1999

  /** `'u_' + __VU`. */
  function UserId(vu: nat): (u: string)
    ensures |u| > 2 && u[..2] == "u_" && u[2..] == Decimal(vu)
  {
    "u_" + Decimal(vu)
  }

  /** Distinct virtual users post under distinct user ids. */
  lemma UserIdInjective(vu1: nat, vu2: nat)
    requires UserId(vu1) == UserId(vu2)
    ensures vu1 == vu2
  {
    assert UserId(vu1)[2..] == Decimal(vu1) && UserId(vu2)[2..] == Decimal(vu2);
    DecimalInjective(vu1, vu2);
  }

  /** `'k6-' + __VU + '-' + __ITER`. */
  function IdempotencyKey(vu: nat, iter: nat): (key: string)
    ensures |key| > 4 && key[..3] == "k6-" && Trimmed(key)
  {
    var key := "k6-" + Decimal(vu) + "-" + Decimal(iter);
    assert key[0] == 'k' && key[|key| - 1] == Decimal(iter)[|Decimal(iter)| - 1];
    key
  }

  /** The fixed payload: the user and one line of SKU-RED-1, qty 1, unit price 1999. */
  function Payload(vu: nat): (req: CreateOrderRequest)
    ensures req.userId == UserId(vu) && |req.items| == 1
    ensures req.items[0] == OrderItem(SKU, QTY, UNIT_PRICE)
  {
    CreateOrderRequest(UserId(vu), [OrderItem(SKU, QTY, UNIT_PRICE)])
  }

  /** The check `status is 200/201`. */
  predicate StatusOk(code: int) {
    code == 200 || code == 201
  }

  /** Two iterations share a key only if they are the same iteration of the same virtual user. */
  lemma KeyInjective(vu1: nat, iter1: nat, vu2: nat, iter2: nat)
    requires IdempotencyKey(vu1, iter1) == IdempotencyKey(vu2, iter2)
    ensures vu1 == vu2 && iter1 == iter2
  {
    var a, b, c, d := Decimal(vu1), Decimal(iter1), Decimal(vu2), Decimal(iter2);
    assert a + "-" + b == IdempotencyKey(vu1, iter1)[3..];
    assert c + "-" + d == IdempotencyKey(vu2, iter2)[3..];
    DashSplit(a, b, c, d);
    DecimalInjective(vu1, vu2);
    DecimalInjective(iter1, iter2);
  }

  /** A dash after a run of digits marks where the run ends, so it splits the string uniquely. */
  lemma DashSplit(a: string, b: string, c: string, d: string)
    requires AllDigits(a) && AllDigits(c)
    requires a + "-" + b == c + "-" + d
    ensures a == c && b == d
  {
    var s := a + "-" + b;
    assert s[|a|] == '-';
    assert s[|c|] == '-';
    if |a| < |c| {
      assert false;
    } else if |c| < |a| {
      assert false;
    }
    assert a == s[..|a|] && c == s[..|c|];
    assert b == s[|a| + 1..] && d == s[|c| + 1..];
  }

  /** Virtual user 3, iteration 7; a 201 passes the check and a 500 fails it. */
  lemma ExampleIteration()
    ensures IdempotencyKey(3, 7) == "k6-3-7" && UserId(3) == "u_3"
    ensures StatusOk(201) && StatusOk(200) && !StatusOk(500)
  {
  }

  /** The generated body passes the order service's validation and costs 1999. */
  lemma PayloadIsValid(vu: nat)
    ensures ValidRequest(Payload(vu))
    ensures OrderTotal(Payload(vu).items) == 1999
  {
    assert Payload(vu).items[1..] == [];
  }

  /**
   * Against a consistent order database, every iteration passes its check
   * unless the new order id happens to collide: a fresh key creates the
   * order (201, total 1999, PENDING) and a repeated key replays it (200).
   */
  lemma IterationPasses(db: OrderDb, vu: nat, iter: nat, ids: NewIds)
    requires OrderInv(db)
    requires NewOrderId(ids) !in db.orders
    ensures var r := CreateOrder(db, IdempotencyKey(vu, iter), Some(Payload(vu)), ids);
      && StatusOk(r.response.code)
      && (IdempotencyKey(vu, iter) !in db.idempotency ==>
            && r.response.code == 201
            && r.response.order == Some(Order(NewOrderId(ids), UserId(vu), Pending, 1999, "INR")))
  {
    var key := IdempotencyKey(vu, iter);
    TrimOfTrimmed(key);
    PayloadIsValid(vu);
  }
}
