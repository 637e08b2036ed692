/** The deadline worker: claim a batch of overdue orders, cancel them, and go round until nothing is due. */
module Deadlines {
  import opened Schema
  import opened Lifecycle
  import opened Invariants
  import opened OrderProofs

  function BatchSize(configured: int): (n: nat)
    ensures 1 <= n
  {
    if configured > 0 then configured else 100
  }

  /** The lease in milliseconds, at least one so that a claimed order is not selected again at once. */
  function Lease(configured: int): int { if configured > 0 then configured else 30000 }

  predicate Unclaimed(order: Order, now: int) { order.claimedUntil.Some? ==> order.claimedUntil.value <= now }

  predicate Selectable(order: Order, rule: Rule, now: int) { Overdue(order, rule, now) && Unclaimed(order, now) }

  predicate Due(order: Order, now: int) { Selectable(order, PaymentRule, now) || Selectable(order, SellerRule, now) }

  function Deadline(order: Order, rule: Rule): int {
    var d := if rule == PaymentRule then order.expires else order.sellerDeadline;
    if d.Some? then d.value else 0
  }

  /** The first row of the claim query among the first `n` orders: earliest deadline, then smallest identifier. */
  function EarliestDue(orders: seq<Order>, rule: Rule, now: int, n: nat): (r: Option<Id>)
    requires n <= |orders|
    ensures r.None? <==> forall o: Id :: o < n ==> !Selectable(orders[o], rule, now)
    ensures r.Some? ==> r.value < n && Selectable(orders[r.value], rule, now)
    ensures r.Some? ==>
      forall o: Id :: o < n && o != r.value && Selectable(orders[o], rule, now) ==>
        var first, other := Deadline(orders[r.value], rule), Deadline(orders[o], rule);
        first < other || (first == other && r.value < o)
  {
    if n == 0 then None
    else
      var r := EarliestDue(orders, rule, now, n - 1);
      if !Selectable(orders[n - 1], rule, now) || (r.Some? && Deadline(orders[r.value], rule) <= Deadline(orders[n - 1], rule)) then r
      else Some(n - 1)
  }

  /** The payment query's first row is the pending order whose payment expired first. */
  lemma EarliestExpiry(orders: seq<Order>, now: int, o: Id)
    requires o < |orders| && (orders[o].claimedUntil.Some? ==> orders[o].claimedUntil.value <= now)
    requires orders[o].status == Unpaid && orders[o].payment == PaymentPending
    requires orders[o].expires.Some? && orders[o].expires.value <= now
    ensures var r := EarliestDue(orders, PaymentRule, now, |orders|);
      && r.Some? && orders[r.value].status == Unpaid && orders[r.value].expires.Some?
      && (|| orders[r.value].expires.value < orders[o].expires.value
          || (orders[r.value].expires.value == orders[o].expires.value && r.value <= o))
  {
    assert Selectable(orders[o], PaymentRule, now);
  }

  /** The seller query's first row is the order whose seller ran out of time first. */
  lemma EarliestSellerDeadline(orders: seq<Order>, now: int, o: Id)
    requires o < |orders| && (orders[o].claimedUntil.Some? ==> orders[o].claimedUntil.value <= now)
    requires orders[o].status in {Paid, OrderStatus.Processing}
    requires orders[o].sellerDeadline.Some? && orders[o].sellerDeadline.value <= now
    ensures var r := EarliestDue(orders, SellerRule, now, |orders|);
      && r.Some? && orders[r.value].status in {Paid, OrderStatus.Processing} && orders[r.value].sellerDeadline.Some?
      && (|| orders[r.value].sellerDeadline.value < orders[o].sellerDeadline.value
          || (orders[r.value].sellerDeadline.value == orders[o].sellerDeadline.value && r.value <= o))
  {
    assert Selectable(orders[o], SellerRule, now);
  }

  /** What enforcing its deadline makes of an order. */
  function Enforced(order: Order, now: int, until: int): Order {
    order.(status := Cancelled, claimedUntil := Some(until),
           payment := if Overdue(order, PaymentRule, now) then PaymentExpired else order.payment)
  }

  /** How far the drain has brought order `o`. A held order is claimed, and not cancelled yet or never because its job
      failed; any other is untouched, or cancelled with exactly one more status event. */
  ghost predicate OrderDrained(t0: Tables, t: Tables, now: int, until: int, held: set<Id>, o: Id)
    requires o < |t0.orders| == |t.orders|
  {
    if o in held then
      && Due(t0.orders[o], now) && t.orders[o] == t0.orders[o].(claimedUntil := Some(until))
      && Trail(t.events, o) == Trail(t0.events, o)
    else
      || (t.orders[o] == t0.orders[o] && Trail(t.events, o) == Trail(t0.events, o))
      || (Due(t0.orders[o], now) && t.orders[o] == Enforced(t0.orders[o], now, until)
          && Trail(t.events, o) == Trail(t0.events, o) + [Cancelled])
  }

  ghost predicate Drained(t0: Tables, t: Tables, now: int, until: int, held: set<Id>) {
    && Inv(t) && |t.orders| == |t0.orders| && (forall o <- held :: o < |t.orders|)
    && forall o: Id :: o < |t.orders| ==> OrderDrained(t0, t, now, until, held, o)
  }

  function DueOrders(orders: seq<Order>, now: int): set<Id> { set o: Id | o < |orders| && Due(orders[o], now) }

  function Members(s: seq<Id>): set<Id> { set o: Id | o in s }

  predicate Distinct(s: seq<Id>) { forall j, k :: 0 <= j < k < |s| ==> s[j] != s[k] }

  lemma JoinMembers(a: seq<Id>, b: seq<Id>)
    requires Distinct(a) && Distinct(b) && Members(a) !! Members(b)
    ensures Distinct(a + b) && Members(a + b) == Members(a) + Members(b)
  {
    assert forall j, k :: 0 <= j < |a| && 0 <= k < |b| ==> a[j] in Members(a) && b[k] in Members(b);
  }

  // ----- one claim and one cancellation -----

  lemma ClaimOne(t0: Tables, t: Tables, now: int, until: int, held: set<Id>, o: Id)
    requires Drained(t0, t, now, until, held) && o < |t.orders| && Due(t.orders[o], now) && now < until
    ensures Drained(t0, Claimed(t, o, until), now, until, held + {o})
    ensures o !in held
  {
    assert OrderDrained(t0, t, now, until, held, o);
    ClaimKeepsInv(t, o, until);
    forall q: Id | q < |t.orders| ensures OrderDrained(t0, Claimed(t, o, until), now, until, held + {o}, q) {
      assert OrderDrained(t0, t, now, until, held, q);
    }
  }

  lemma ExpireOne(t: Tables, o: Id, rule: Rule, now: int)
    requires Inv(t) && o < |t.orders| && Overdue(t.orders[o], rule, now)
    ensures var r := CancelOverdueTx(t, t.orders[o].shop, o, rule, now);
      && r.Ok? && Inv(r.value)
      && r.value.orders == t.orders[o := t.orders[o].(status := Cancelled,
           payment := if rule == PaymentRule then PaymentExpired else t.orders[o].payment)]
      && forall q: Id :: Trail(r.value.events, q) == Trail(t.events, q) + if q == o then [Cancelled] else []
  {
    assert OrderLinked(t, o);
    var payment := if rule == PaymentRule then Some(PaymentExpired) else None;
    var cause := if rule == PaymentRule then PaymentExpiredEvent(o) else SlaExpiredEvent(o);
    CancelKeepsInv(t, o, payment, Some(cause));
    CancelledTables(t, o, payment, Some(cause));
    forall q: Id ensures Trail(CancelWith(t, o, payment, Some(cause)).value.events, q)
      == Trail(t.events, q) + if q == o then [Cancelled] else []
    {
      CancelTrail(t, o, payment, Some(cause), q);
    }
  }

  lemma CancelOne(t0: Tables, t: Tables, now: int, until: int, held: set<Id>, o: Id, rule: Rule)
    requires Drained(t0, t, now, until, held) && o in held && Overdue(t.orders[o], rule, now)
    ensures var r := CancelOverdueTx(t, t.orders[o].shop, o, rule, now);
      r.Ok? && Drained(t0, r.value, now, until, held - {o})
    ensures var r := CancelOverdueTx(t, t.orders[o].shop, o, rule, now);
      r.value.orders == t.orders[o := r.value.orders[o]] && r.value.orders[o].status == Cancelled
  {
    ExpireOne(t, o, rule, now);
    var u := CancelOverdueTx(t, t.orders[o].shop, o, rule, now).value;
    forall q: Id | q < |t.orders| ensures OrderDrained(t0, u, now, until, held - {o}, q) {
      assert OrderDrained(t0, t, now, until, held, q);
    }
  }

  // ----- the worker -----

  /** The order of the claim query: earlier deadlines first, then smaller identifiers. */
  predicate Ahead(orders: seq<Order>, rule: Rule, a: Id, b: Id)
    requires a < |orders| && b < |orders|
  {
    Deadline(orders[a], rule) < Deadline(orders[b], rule) || (Deadline(orders[a], rule) == Deadline(orders[b], rule) && a < b)
  }

  /** A batch in the making: the claimed orders only gained a lease, and are ahead of all selectable orders left out. */
  ghost predicate Batch(before: seq<Order>, after: seq<Order>, claimed: seq<Id>, rule: Rule, now: int, until: int) {
    && |after| == |before| && Distinct(claimed)
    && (forall o <- claimed :: o < |after| && after[o] == before[o].(claimedUntil := Some(until)) && Selectable(before[o], rule, now))
    && (forall o: Id :: o < |after| && o !in claimed ==> after[o] == before[o])
    && (forall c <- claimed, o: Id :: o < |after| && Selectable(after[o], rule, now) ==> Ahead(after, rule, c, o))
  }

  lemma ExtendBatch(before: seq<Order>, after: seq<Order>, claimed: seq<Id>, rule: Rule, now: int, until: int, o: Id)
    requires Batch(before, after, claimed, rule, now, until) && now < until
    requires EarliestDue(after, rule, now, |after|) == Some(o)
    ensures Batch(before, after[o := after[o].(claimedUntil := Some(until))], claimed + [o], rule, now, until)
  {
    var next := after[o := after[o].(claimedUntil := Some(until))];
    forall c, q: Id | c in claimed + [o] && q < |next| && Selectable(next[q], rule, now) ensures Ahead(next, rule, c, q) {
      StillAhead(before, after, claimed, rule, now, until, o, c, q);
    }
  }

  lemma StillAhead(before: seq<Order>, after: seq<Order>, claimed: seq<Id>, rule: Rule, now: int, until: int, o: Id, c: Id, q: Id)
    requires Batch(before, after, claimed, rule, now, until) && now < until
    requires EarliestDue(after, rule, now, |after|) == Some(o) && (c in claimed || c == o) && q < |after|
    requires Selectable(after[o := after[o].(claimedUntil := Some(until))][q], rule, now)
    ensures c < |after| && Ahead(after[o := after[o].(claimedUntil := Some(until))], rule, c, q)
  {
    if c != o { assert Ahead(after, rule, c, q); }
  }

  lemma BatchLeavesDue(before: seq<Order>, after: seq<Order>, claimed: seq<Id>, rule: Rule, now: int, until: int)
    requires Batch(before, after, claimed, rule, now, until) && now < until
    ensures Members(claimed) <= DueOrders(before, now) && DueOrders(after, now) == DueOrders(before, now) - Members(claimed)
  {}

  lemma ClaimedDrains(t0: Tables, t: Tables, now: int, until: int, claimed: seq<Id>, held: set<Id>, o: Id)
    requires now < until && Drained(t0, t, now, until, held + Members(claimed))
    requires o < |t.orders| && Due(t.orders[o], now)
    ensures Drained(t0, Claimed(t, o, until), now, until, held + Members(claimed + [o]))
  {
    ClaimOne(t0, t, now, until, held + Members(claimed), o);
    assert held + Members(claimed + [o]) == held + Members(claimed) + {o};
  }

  /** Both what the drain and what the batch say of the next claim. */
  lemma ClaimedNext(t0: Tables, t: Tables, rule: Rule, now: int, until: int, claimed: seq<Id>, held: set<Id>, before: seq<Order>, o: Id)
    requires now < until && Drained(t0, t, now, until, held + Members(claimed))
    requires Batch(before, t.orders, claimed, rule, now, until) && EarliestDue(t.orders, rule, now, |t.orders|) == Some(o)
    ensures Drained(t0, Claimed(t, o, until), now, until, held + Members(claimed + [o]))
    ensures Batch(before, Claimed(t, o, until).orders, claimed + [o], rule, now, until)
  {
    ClaimedDrains(t0, t, now, until, claimed, held, o);
    ExtendBatch(before, t.orders, claimed, rule, now, until, o);
  }

  /** The claim statement's work on its next row: the first selectable order gets a lease. */
  method ClaimNext(tx: Tx, rule: Rule, now: int, until: int, claimed: seq<Id>, ghost held: set<Id>, ghost t0: Tables,
                   ghost before: seq<Order>)
    returns (next: Option<Id>)
    requires now < until && Drained(t0, tx.db, now, until, held + Members(claimed))
    requires Batch(before, tx.db.orders, claimed, rule, now, until)
    modifies tx
    ensures next.None? ==> tx.db == old(tx.db) && forall o: Id :: o < |tx.db.orders| ==> !Selectable(tx.db.orders[o], rule, now)
    ensures next.Some? ==> Drained(t0, tx.db, now, until, held + Members(claimed + [next.value]))
    ensures next.Some? ==> Batch(before, tx.db.orders, claimed + [next.value], rule, now, until)
  {
    next := EarliestDue(tx.db.orders, rule, now, |tx.db.orders|);
    if next.Some? {
      ClaimedNext(t0, tx.db, rule, now, until, claimed, held, before, next.value);
      tx.db := Claimed(tx.db, next.value, until);
    }
  }

  /** Claims the first selectable orders, at most `batch` of them, until `until`. */
  method ClaimDeadlineBatch(tx: Tx, rule: Rule, now: int, batch: nat, until: int, ghost held: set<Id>, ghost t0: Tables)
    returns (claimed: seq<Id>)
    requires now < until && Drained(t0, tx.db, now, until, held)
    modifies tx
    ensures Drained(t0, tx.db, now, until, held + Members(claimed)) && |claimed| <= batch
    ensures Batch(old(tx.db).orders, tx.db.orders, claimed, rule, now, until)
    ensures |claimed| < batch ==> forall o: Id :: o < |tx.db.orders| ==> !Selectable(tx.db.orders[o], rule, now)
    ensures claimed == [] ==> tx.db == old(tx.db)
  {
    claimed := [];
    assert held + Members(claimed) == held;
    while |claimed| < batch
      invariant |claimed| <= batch && Drained(t0, tx.db, now, until, held + Members(claimed))
      invariant Batch(old(tx.db).orders, tx.db.orders, claimed, rule, now, until)
      invariant claimed == [] ==> tx.db == old(tx.db)
    {
      var next := ClaimNext(tx, rule, now, until, claimed, held, t0, old(tx.db).orders);
      if next.None? { break; }
      claimed := claimed + [next.value];
    }
  }

  /** One job of a worker goroutine. `faults` are the orders whose transaction the database fails, and rolls back. */
  method EnforceOne(tx: Tx, rule: Rule, now: int, o: Id, until: int, faults: set<Id>, ghost held: set<Id>, ghost t0: Tables)
    returns (failed: bool)
    requires Drained(t0, tx.db, now, until, held) && o in held && Overdue(tx.db.orders[o], rule, now)
    modifies tx
    ensures failed == (o in faults) && (failed ==> tx.db == old(tx.db))
    ensures Drained(t0, tx.db, now, until, if failed then held else held - {o})
    ensures o < |tx.db.orders| && tx.db.orders == old(tx.db).orders[o := tx.db.orders[o]]
    ensures !failed ==> tx.db.orders[o].status == Cancelled
  {
    if o in faults { return true; }
    CancelOne(t0, tx.db, now, until, held, o, rule);
    InvChecked(tx.db);
    var e := CancelOverdue(tx, tx.db.orders[o].shop, o, rule, now);
    failed := e.Some? && e != Some(NotEligible);
  }

  /** A job moves its order from the pending to the reported ones, or lets go of it. */
  lemma JobDone(candidates: set<Id>, pending: set<Id>, errors: seq<Id>, faults: set<Id>, held: set<Id>, o: Id)
    requires o in pending && pending <= candidates && candidates !! held
    requires Distinct(errors) && Members(errors) == (candidates - pending) * faults
    ensures var rest, holding := pending - {o}, held + pending + Members(errors);
      if o in faults then
        && Distinct(errors + [o]) && Members(errors + [o]) == (candidates - rest) * faults
        && holding == held + rest + Members(errors + [o])
      else Members(errors) == (candidates - rest) * faults && holding - {o} == held + rest + Members(errors)
  {
    assert Members(errors + [o]) == Members(errors) + {o};
    assert forall k :: 0 <= k < |errors| ==> errors[k] in Members(errors);
  }

  lemma {:induction false} MembersCount(s: seq<Id>)
    requires Distinct(s)
    ensures |Members(s)| == |s|
  {
    if s == [] {
    } else {
      var init, last := s[..|s| - 1], s[|s| - 1];
      MembersCount(init);
      assert Members(s) == Members(init) + {last};
    }
  }

  /** A batch in progress: jobs not yet taken are held, failed ones are held and reported, the others are cancelled. */
  ghost predicate Processing(t0: Tables, t: Tables, rule: Rule, now: int, until: int, candidates: set<Id>, pending: set<Id>,
                             errors: seq<Id>, faults: set<Id>, held: set<Id>) {
    && pending <= candidates && candidates !! held && Distinct(errors) && Members(errors) == (candidates - pending) * faults
    && Drained(t0, t, now, until, held + pending + Members(errors))
    && forall o <- pending :: o < |t.orders| && Overdue(t.orders[o], rule, now) && !Due(t.orders[o], now)
  }

  method TakeJob(tx: Tx, rule: Rule, now: int, until: int, o: Id, before: seq<Id>, faults: set<Id>,
                 ghost candidates: set<Id>, ghost pending: set<Id>, ghost held: set<Id>, ghost t0: Tables)
    returns (errors: seq<Id>)
    requires Processing(t0, tx.db, rule, now, until, candidates, pending, before, faults, held) && o in pending
    modifies tx
    ensures Processing(t0, tx.db, rule, now, until, candidates, pending - {o}, errors, faults, held)
    ensures errors == before || errors == before + [o]
    ensures DueOrders(tx.db.orders, now) == DueOrders(old(tx.db).orders, now)
  {
    JobDone(candidates, pending, before, faults, held, o);
    var failed := EnforceOne(tx, rule, now, o, until, faults, held + pending + Members(before), t0);
    errors := if failed then before + [o] else before;
  }

  lemma StartProcessing(t0: Tables, t: Tables, rule: Rule, now: int, until: int, candidates: seq<Id>, faults: set<Id>, held: set<Id>)
    requires Drained(t0, t, now, until, held + Members(candidates)) && Members(candidates) !! held
    requires forall o <- candidates :: o < |t.orders| && Overdue(t.orders[o], rule, now) && !Due(t.orders[o], now)
    ensures Processing(t0, t, rule, now, until, Members(candidates), Members(candidates), [], faults, held)
  {
    assert Members([]) == {} && held + Members(candidates) + {} == held + Members(candidates);
  }

  lemma EndProcessing(t0: Tables, t: Tables, rule: Rule, now: int, until: int, candidates: set<Id>, errors: seq<Id>,
                      faults: set<Id>, held: set<Id>)
    requires Processing(t0, t, rule, now, until, candidates, {}, errors, faults, held)
    ensures Drained(t0, t, now, until, held + candidates * faults) && Distinct(errors) && Members(errors) == candidates * faults
  {
    assert held + {} + Members(errors) == held + candidates * faults;
  }

  /** Cancels the claimed orders, in whatever order the goroutines take them. The error channel has room for one error
      per candidate, so no goroutine ever waits to report; `errors` is what the channel holds in the end. */
  method ProcessDeadlineBatch(tx: Tx, rule: Rule, now: int, candidates: seq<Id>, until: int, faults: set<Id>,
                              ghost held: set<Id>, ghost t0: Tables)
    returns (errors: seq<Id>)
    requires Processing(t0, tx.db, rule, now, until, Members(candidates), Members(candidates), [], faults, held)
    requires Distinct(candidates)
    modifies tx
    ensures Processing(t0, tx.db, rule, now, until, Members(candidates), {}, errors, faults, held) && |errors| <= |candidates|
    ensures DueOrders(tx.db.orders, now) == DueOrders(old(tx.db).orders, now)
  {
    ghost var capacity := |candidates|;
    errors := [];
    var pending := Members(candidates);
    MembersCount(candidates);
    while pending != {}
      invariant Processing(t0, tx.db, rule, now, until, Members(candidates), pending, errors, faults, held)
      invariant |errors| + |pending| <= capacity
      invariant DueOrders(tx.db.orders, now) == DueOrders(old(tx.db).orders, now)
    {
      assert |errors| < capacity;
      var o :| o in pending;
      errors := TakeJob(tx, rule, now, until, o, errors, faults, Members(candidates), pending, held, t0);
      pending := pending - {o};
    }
  }

  /** A drain in progress: what is claimed was due, what was due and is not claimed still is, and what has failed is reported. */
  ghost predicate Draining(t0: Tables, t: Tables, now: int, until: int, faults: set<Id>, claims: seq<Id>, errors: seq<Id>) {
    && Drained(t0, t, now, until, Members(claims) * faults)
    && Distinct(claims) && Members(claims) <= DueOrders(t0.orders, now)
    && Distinct(errors) && Members(errors) == Members(claims) * faults
    && DueOrders(t.orders, now) == DueOrders(t0.orders, now) - Members(claims)
  }

  lemma HeldAreNotDue(t0: Tables, t: Tables, now: int, until: int, held: set<Id>)
    requires Drained(t0, t, now, until, held) && now < until
    ensures held !! DueOrders(t.orders, now)
  {
    forall o <- held ensures o !in DueOrders(t.orders, now) { assert OrderDrained(t0, t, now, until, held, o); }
  }

  /** A rule's claims and errors join the earlier ones, which they do not meet. */
  lemma Gather(claims: seq<Id>, more: seq<Id>, faults: set<Id>, errors: seq<Id>, failed: seq<Id>)
    requires Distinct(claims) && Distinct(more) && Members(claims) !! Members(more)
    requires Distinct(errors) && Members(errors) == Members(claims) * faults
    requires Distinct(failed) && Members(failed) == Members(more) * faults
    ensures Distinct(claims + more) && Members(claims + more) == Members(claims) + Members(more)
    ensures Distinct(errors + failed) && Members(errors + failed) == Members(claims + more) * faults
    ensures Members(claims) * faults + Members(more) * faults == Members(claims + more) * faults
  {
    JoinMembers(claims, more);
    JoinMembers(errors, failed);
  }

  /** Claims a batch for the rule, ready to be processed. */
  method StartBatch(tx: Tx, rule: Rule, now: int, batch: nat, until: int, faults: set<Id>, ghost held: set<Id>, ghost t0: Tables)
    returns (claimed: seq<Id>)
    requires now < until && Drained(t0, tx.db, now, until, held)
    modifies tx
    ensures Distinct(claimed) && Members(claimed) <= DueOrders(old(tx.db).orders, now)
    ensures Processing(t0, tx.db, rule, now, until, Members(claimed), Members(claimed), [], faults, held)
    ensures DueOrders(tx.db.orders, now) == DueOrders(old(tx.db).orders, now) - Members(claimed)
    ensures |claimed| < batch ==> forall o: Id :: o < |tx.db.orders| ==> !Selectable(tx.db.orders[o], rule, now)
    ensures claimed == [] ==> tx.db == old(tx.db)
  {
    claimed := ClaimDeadlineBatch(tx, rule, now, batch, until, held, t0);
    BatchLeavesDue(old(tx.db).orders, tx.db.orders, claimed, rule, now, until);
    HeldAreNotDue(t0, old(tx.db), now, until, held);
    StartProcessing(t0, tx.db, rule, now, until, claimed, faults, held);
  }

  /** One rule's turn: claim a batch and process it. */
  method EnforceRule(tx: Tx, rule: Rule, now: int, batch: nat, until: int, faults: set<Id>, claims: seq<Id>, errors: seq<Id>,
                     ghost t0: Tables)
    returns (claimed: seq<Id>, reported: seq<Id>)
    requires now < until && 0 < batch && Draining(t0, tx.db, now, until, faults, claims, errors)
    modifies tx
    ensures Draining(t0, tx.db, now, until, faults, claims + claimed, reported)
    ensures claimed != [] ==> DueOrders(tx.db.orders, now) < DueOrders(old(tx.db).orders, now)
    ensures claimed == [] ==> tx.db == old(tx.db) && forall o: Id :: o < |tx.db.orders| ==> !Selectable(tx.db.orders[o], rule, now)
  {
    ghost var held := Members(claims) * faults;
    claimed := StartBatch(tx, rule, now, batch, until, faults, held, t0);
    if claimed == [] {
      assert claims + claimed == claims;
      return claimed, errors;
    }
    assert claimed[0] in Members(claimed);
    var failed := ProcessDeadlineBatch(tx, rule, now, claimed, until, faults, held, t0);
    EndProcessing(t0, tx.db, rule, now, until, Members(claimed), failed, faults, held);
    Gather(claims, claimed, faults, errors, failed);
    reported := errors + failed;
  }

  /** One round over the rules. */
  method EnforceRules(tx: Tx, now: int, batch: nat, until: int, faults: set<Id>, before: seq<Id>, reported: seq<Id>, ghost t0: Tables)
    returns (claims: seq<Id>, errors: seq<Id>, claimedAny: bool)
    requires now < until && 0 < batch && Draining(t0, tx.db, now, until, faults, before, reported)
    modifies tx
    ensures Draining(t0, tx.db, now, until, faults, claims, errors)
    ensures if claimedAny then DueOrders(tx.db.orders, now) < DueOrders(old(tx.db).orders, now)
      else tx.db == old(tx.db) && DueOrders(tx.db.orders, now) == {}
  {
    var payment, seller: seq<Id>;
    payment, errors := EnforceRule(tx, PaymentRule, now, batch, until, faults, before, reported, t0);
    claims := before + payment;
    seller, errors := EnforceRule(tx, SellerRule, now, batch, until, faults, claims, errors, t0);
    claims := claims + seller;
    claimedAny := payment != [] || seller != [];
  }

  /** Once nothing is due, every order that was due is enforced, or claimed if its job failed, and no other has changed. */
  lemma DrainedOrder(t0: Tables, t: Tables, now: int, until: int, faults: set<Id>, claims: seq<Id>, errors: seq<Id>, o: Id)
    requires Draining(t0, t, now, until, faults, claims, errors) && o < |t.orders| && DueOrders(t.orders, now) == {}
    ensures if o in claims && o !in faults then
        t.orders[o] == Enforced(t0.orders[o], now, until) && Trail(t.events, o) == Trail(t0.events, o) + [Cancelled]
      else
        t.orders[o] == (if o in claims then t0.orders[o].(claimedUntil := Some(until)) else t0.orders[o])
        && Trail(t.events, o) == Trail(t0.events, o)
  {
    assert OrderDrained(t0, t, now, until, Members(claims) * faults, o);
    assert o in claims <==> o in Members(claims);
    assert Due(t0.orders[o], now) <==> o in DueOrders(t0.orders, now);
    assert !Due(t.orders[o], now) by { assert o !in DueOrders(t.orders, now); }
  }

  /** When an order is due, and what enforcing its deadline makes of it. */
  lemma DueExactly(order: Order, now: int, until: int)
    ensures Due(order, now) <==>
      && (order.claimedUntil.Some? ==> order.claimedUntil.value <= now)
      && (|| (order.status == Unpaid && order.payment == PaymentPending && order.expires.Some? && order.expires.value <= now)
          || (order.status in {Paid, OrderStatus.Processing} && order.sellerDeadline.Some? && order.sellerDeadline.value <= now))
    ensures Due(order, now) ==> Enforced(order, now, until) == order.(status := Cancelled, claimedUntil := Some(until),
      payment := if order.status == Unpaid then PaymentExpired else order.payment)
  {}

  /** Once nothing is due, each order was claimed if its deadline had passed and it had no live lease, and is cancelled
      unless its job failed. */
  lemma DrainedFields(t0: Tables, t: Tables, now: int, until: int, faults: set<Id>, claims: seq<Id>, errors: seq<Id>, o: Id)
    requires Draining(t0, t, now, until, faults, claims, errors) && o < |t.orders| && DueOrders(t.orders, now) == {}
    ensures var order := t0.orders[o];
      o in claims <==>
        && (order.claimedUntil.Some? ==> order.claimedUntil.value <= now)
        && (|| (order.status == Unpaid && order.payment == PaymentPending && order.expires.Some? && order.expires.value <= now)
            || (order.status in {Paid, OrderStatus.Processing} && order.sellerDeadline.Some? && order.sellerDeadline.value <= now))
    ensures var before, after := t0.orders[o], t.orders[o];
      if o in claims && o !in faults then
        && after == before.(status := Cancelled, claimedUntil := Some(until),
             payment := if before.status == Unpaid then PaymentExpired else before.payment)
        && Trail(t.events, o) == Trail(t0.events, o) + [Cancelled]
      else
        after == (if o in claims then before.(claimedUntil := Some(until)) else before)
        && Trail(t.events, o) == Trail(t0.events, o)
  {
    DrainedOrder(t0, t, now, until, faults, claims, errors, o);
    DueExactly(t0.orders[o], now, until);
    assert o in claims <==> o in Members(claims);
    assert o !in DueOrders(t.orders, now) && (o in DueOrders(t0.orders, now) <==> Due(t0.orders[o], now));
  }

  /** `enforceOrderDeadlines` at a frozen clock, whichever jobs the database fails. It stops. It claims, each exactly once,
      the orders without a live lease that are unpaid past their expiry, or paid or processing past the seller's deadline,
      and no others. A claimed order whose job did not fail is cancelled, with its payment expired if it was unpaid and one
      more status event; one whose job failed keeps its lease and is reported exactly once. An order whose deadlines are
      still ahead is not touched. */
  method EnforceOrderDeadlines(tx: Tx, now: int, batchConfigured: int, leaseConfigured: int, faults: set<Id>)
    returns (claims: seq<Id>, errors: seq<Id>)
    requires Inv(tx.db)
    modifies tx
    ensures Inv(tx.db) && |tx.db.orders| == |old(tx.db).orders|
    ensures DueOrders(tx.db.orders, now) == {}
    ensures Distinct(claims) && (forall o <- claims :: o < |tx.db.orders|)
    ensures Distinct(errors) && Members(errors) == Members(claims) * faults
    ensures forall o: Id :: o < |tx.db.orders| ==>
      var order := old(tx.db).orders[o];
      o in claims <==>
        && (order.claimedUntil.Some? ==> order.claimedUntil.value <= now)
        && (|| (order.status == Unpaid && order.payment == PaymentPending && order.expires.Some? && order.expires.value <= now)
            || (order.status in {Paid, OrderStatus.Processing} && order.sellerDeadline.Some? && order.sellerDeadline.value <= now))
    ensures forall o: Id :: o < |tx.db.orders| ==>
      var before, after := old(tx.db).orders[o], tx.db.orders[o];
      var until := now + if leaseConfigured > 0 then leaseConfigured else 30000;
      if o in claims && o !in faults then
        && after == before.(status := Cancelled, claimedUntil := Some(until),
             payment := if before.status == Unpaid then PaymentExpired else before.payment)
        && Trail(tx.db.events, o) == Trail(old(tx.db).events, o) + [Cancelled]
      else
        after == (if o in claims then before.(claimedUntil := Some(until)) else before)
        && Trail(tx.db.events, o) == Trail(old(tx.db).events, o)
    ensures forall o: Id :: o < |tx.db.orders| ==>
      var before := old(tx.db).orders[o];
      || (before.status == Unpaid && before.expires.Some? && now < before.expires.value)
      || (before.status in {Paid, OrderStatus.Processing} && before.sellerDeadline.Some? && now < before.sellerDeadline.value) ==>
        tx.db.orders[o] == before && Trail(tx.db.events, o) == Trail(old(tx.db).events, o)
  {
    ghost var t0 := tx.db;
    var until := now + Lease(leaseConfigured);
    claims, errors := [], [];
    assert Members(claims) == {} && Members(claims) * faults == {};
    var claimedAny := true;
    while claimedAny
      invariant Draining(t0, tx.db, now, until, faults, claims, errors)
      invariant !claimedAny ==> DueOrders(tx.db.orders, now) == {}
      decreases DueOrders(tx.db.orders, now), claimedAny
    {
      claims, errors, claimedAny := EnforceRules(tx, now, BatchSize(batchConfigured), until, faults, claims, errors, t0);
    }
    forall o: Id | o < |tx.db.orders| { DrainedFields(t0, tx.db, now, until, faults, claims, errors, o); }
    assert forall o <- claims :: o in Members(claims);
  }
}
