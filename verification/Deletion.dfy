/** Soft deletion of one webhook against everything that runs beside it: fan-out, manual deliveries, manual retries and
    in-flight delivery handlers, statement by statement, with PostgreSQL's row locks. A statement that would wait for
    a lock changes nothing and is tried again later. */
module Deletion {
  import opened Schema

  datatype Delivery = Delivery(status: DeliveryStatus, attempts: nat)

  /** An open transaction that holds the webhook row FOR SHARE: its uncommitted inserts, or the delivery it retries. */
  datatype Sharer = Inserts(rows: seq<Delivery>) | Retries(target: Id, written: bool)

  /** The deleting transaction after its first statement; `cancelled` are the rows its second statement has locked. */
  datatype Retirer = Retirer(cancelled: Option<set<Id>>)

  datatype World = World(deleted: bool, deliveries: seq<Delivery>, sharers: map<Id, Sharer>, retirer: Option<Retirer>)

  datatype Statement =
    | SelectForShare(tx: Id)
    | InsertDelivery(tx: Id)
    | SelectForRetry(tx: Id, delivery: Id)
    | WriteRetry(tx: Id)
    | Commit(tx: Id)
    | Rollback(tx: Id)
    | MarkDeleted
    | CancelPending
    | CommitRetire
    | RollbackRetire
    | CountAttempt(delivery: Id, attempt: nat)
    | RecordDelivered(delivery: Id, attempt: nat)
    | RecordFailed(delivery: Id, attempt: nat)
    | Reschedule(delivery: Id, attempt: nat)

  const START := World(false, [], map[], None)

  /** Another transaction has written delivery `d` and not finished. */
  predicate Locked(w: World, d: Id) {
    || (exists x <- w.sharers :: w.sharers[x].Retries? && w.sharers[x].written && w.sharers[x].target == d)
    || (w.retirer.Some? && w.retirer.value.cancelled.Some? && d in w.retirer.value.cancelled.value)
  }

  function WithStatus(w: World, d: Id, status: DeliveryStatus, attempts: nat): World
    requires d < |w.deliveries|
  {
    w.(deliveries := w.deliveries[d := Delivery(status, attempts)])
  }

  /** A statement of a handler, in its own transaction, that applies to delivery `d` only while it has `status`. */
  function Handler(w: World, d: Id, when: DeliveryStatus, status: DeliveryStatus, attempts: nat): World {
    if d < |w.deliveries| && !Locked(w, d) && w.deliveries[d].status == when then WithStatus(w, d, status, attempts) else w
  }

  function CommitSharer(w: World, x: Id): World
    requires x in w.sharers
  {
    var u := w.(sharers := w.sharers - {x});
    match w.sharers[x]
    case Inserts(rows) => u.(deliveries := w.deliveries + rows)
    case Retries(d, written) => if written && d < |w.deliveries| then WithStatus(u, d, DeliveryPending, w.deliveries[d].attempts) else u
  }

  function Max(a: nat, b: nat): nat { if a < b then b else a }

  function Next(w: World, s: Statement): World {
    match s
    case SelectForShare(x) =>
      if w.retirer.Some? || x in w.sharers || w.deleted then w else w.(sharers := w.sharers[x := Inserts([])])
    case InsertDelivery(x) =>
      if x in w.sharers && w.sharers[x].Inserts? then
        w.(sharers := w.sharers[x := Inserts(w.sharers[x].rows + [Delivery(DeliveryPending, 0)])])
      else w
    case SelectForRetry(x, d) =>
      if w.retirer.Some? || x in w.sharers || w.deleted || d >= |w.deliveries| then w
      else w.(sharers := w.sharers[x := Retries(d, false)])
    case WriteRetry(x) =>
      if x in w.sharers && w.sharers[x].Retries? && !Locked(w, w.sharers[x].target) then
        w.(sharers := w.sharers[x := Retries(w.sharers[x].target, true)])
      else w
    case Commit(x) => if x in w.sharers then CommitSharer(w, x) else w
    case Rollback(x) => w.(sharers := w.sharers - {x})
    case MarkDeleted =>
      if w.retirer.Some? || w.sharers != map[] || w.deleted then w else w.(retirer := Some(Retirer(None)))
    case CancelPending =>
      if w.retirer == Some(Retirer(None)) then
        w.(retirer := Some(Retirer(Some(set d: Id | d < |w.deliveries| && w.deliveries[d].status == DeliveryPending))))
      else w
    case CommitRetire =>
      if w.retirer.Some? && w.retirer.value.cancelled.Some? then
        w.(deleted := true, retirer := None, deliveries := Cancelled(w.deliveries, w.retirer.value.cancelled.value))
      else w
    case RollbackRetire => w.(retirer := None)
    case CountAttempt(d, attempt) =>
      Handler(w, d, DeliveryCancelled, DeliveryCancelled, if d < |w.deliveries| then Max(w.deliveries[d].attempts, attempt) else 0)
    case RecordDelivered(d, attempt) => Handler(w, d, DeliveryPending, DeliveryDelivered, attempt)
    case RecordFailed(d, attempt) => Handler(w, d, DeliveryPending, DeliveryFailed, attempt)
    case Reschedule(d, attempt) => Handler(w, d, DeliveryPending, DeliveryPending, attempt)
  }

  function Cancelled(ds: seq<Delivery>, cancelled: set<Id>): seq<Delivery> {
    seq(|ds|, d requires 0 <= d < |ds| => if d in cancelled then ds[d].(status := DeliveryCancelled) else ds[d])
  }

  function Run(w: World, ss: seq<Statement>): World {
    if ss == [] then w else Next(Run(w, ss[..|ss| - 1]), ss[|ss| - 1])
  }

  ghost predicate Valid(w: World) {
    && (w.deleted ==> w.sharers == map[] && w.retirer.None?)
    && (w.deleted ==> forall d: Id :: d < |w.deliveries| ==> w.deliveries[d].status != DeliveryPending)
    && (!w.deleted ==> forall d: Id :: d < |w.deliveries| ==> w.deliveries[d].status != DeliveryCancelled)
    && (w.retirer.Some? ==> w.sharers == map[])
    && (w.retirer.Some? && w.retirer.value.cancelled.Some? ==>
          w.retirer.value.cancelled.value == set d: Id | d < |w.deliveries| && w.deliveries[d].status == DeliveryPending)
    && (forall x <- w.sharers :: w.sharers[x].Inserts? ==>
          forall k :: 0 <= k < |w.sharers[x].rows| ==> w.sharers[x].rows[k] == Delivery(DeliveryPending, 0))
  }

  lemma StepKeepsValid(w: World, s: Statement)
    requires Valid(w)
    ensures Valid(Next(w, s))
  {}

  lemma {:induction false} ValidAlways(ss: seq<Statement>)
    ensures Valid(Run(START, ss))
  {
    if ss == [] {
    } else {
      ValidAlways(ss[..|ss| - 1]);
      StepKeepsValid(Run(START, ss[..|ss| - 1]), ss[|ss| - 1]);
    }
  }

  /** In no committed state does a deleted webhook have a pending delivery. */
  lemma NoPendingAfterDeletion(ss: seq<Statement>, d: Id)
    requires Run(START, ss).deleted && d < |Run(START, ss).deliveries|
    ensures Run(START, ss).deliveries[d].status != DeliveryPending
  {
    ValidAlways(ss);
  }

  /** Both states are after deletion; they hold the same deliveries in the same statuses, with no fewer attempts later. */
  predicate Frozen(t: World, u: World) {
    && t.deleted && u.deleted && |u.deliveries| == |t.deliveries|
    && forall d: Id :: d < |t.deliveries| ==>
      u.deliveries[d].status == t.deliveries[d].status && t.deliveries[d].attempts <= u.deliveries[d].attempts
  }

  lemma StepKeepsFrozen(t: World, w: World, s: Statement)
    requires Valid(w) && Frozen(t, w)
    ensures Frozen(t, Next(w, s))
  {}

  lemma Extend(ss: seq<Statement>, s: Statement)
    ensures Run(START, ss + [s]) == Next(Run(START, ss), s)
  {
    assert (ss + [s])[..|ss|] == ss;
  }

  /** From deletion on, no delivery is added and none changes status; recorded attempts only grow. */
  lemma {:induction false} DeletionIsFinal(past: seq<Statement>, future: seq<Statement>)
    requires Run(START, past).deleted
    ensures Frozen(Run(START, past), Run(START, past + future))
  {
    if future == [] {
      assert past + future == past;
    } else {
      var init, last := future[..|future| - 1], future[|future| - 1];
      DeletionIsFinal(past, init);
      ValidAlways(past + init);
      StepKeepsFrozen(Run(START, past), Run(START, past + init), last);
      Extend(past + init, last);
      assert past + init + [last] == past + future;
    }
  }

  /** A cancelled delivery stays cancelled, whatever handlers, retries and fan-outs are still running. */
  lemma CancelledIsFinal(past: seq<Statement>, future: seq<Statement>, d: Id)
    requires d < |Run(START, past).deliveries| && Run(START, past).deliveries[d].status == DeliveryCancelled
    ensures d < |Run(START, past + future).deliveries| && Run(START, past + future).deliveries[d].status == DeliveryCancelled
  {
    ValidAlways(past);
    DeletionIsFinal(past, future);
  }

  /** Deletion cancels every delivery that is pending when it commits and leaves every other one as it was. */
  lemma DeletionCancelsPending(ss: seq<Statement>, d: Id)
    requires var w := Run(START, ss);
      w.retirer.Some? && w.retirer.value.cancelled.Some? && d < |w.deliveries|
    ensures var before, after := Run(START, ss).deliveries, Next(Run(START, ss), CommitRetire).deliveries;
      && Next(Run(START, ss), CommitRetire).deleted && |after| == |before|
      && after[d] == if before[d].status == DeliveryPending then before[d].(status := DeliveryCancelled) else before[d]
  {
    ValidAlways(ss);
  }

  // ----- what still works -----

  /** Until its deletion starts, a fan-out or manual delivery of the webhook arrives as a new pending delivery. */
  lemma FanOutArrives(w: World, x: Id)
    requires !w.deleted && w.retirer.None? && x !in w.sharers
    ensures Next(Next(Next(w, SelectForShare(x)), InsertDelivery(x)), Commit(x)).deliveries
      == w.deliveries + [Delivery(DeliveryPending, 0)]
  {}

  /** So does a manual retry, as the delivery pending again with its attempts, unless another transaction holds the row. */
  lemma RetryArrives(w: World, x: Id, d: Id)
    requires !w.deleted && w.retirer.None? && x !in w.sharers && d < |w.deliveries|
    ensures var u := Next(Next(Next(w, SelectForRetry(x, d)), WriteRetry(x)), Commit(x));
      u.deliveries == if Locked(w, d) then w.deliveries else w.deliveries[d := Delivery(DeliveryPending, w.deliveries[d].attempts)]
  {
    var u := Next(w, SelectForRetry(x, d));
    assert u.sharers == w.sharers[x := Retries(d, false)];
    assert Locked(u, d) <==> Locked(w, d) by {
      if Locked(w, d) && exists y <- w.sharers :: w.sharers[y].Retries? && w.sharers[y].written && w.sharers[y].target == d {
        var y :| y in w.sharers && w.sharers[y].Retries? && w.sharers[y].written && w.sharers[y].target == d;
        assert u.sharers[y] == w.sharers[y];
      }
    }
  }

  /** A handler settles a delivery exactly while it is pending and no other transaction holds it. */
  lemma HandlerSettles(w: World, d: Id, attempt: nat)
    requires d < |w.deliveries|
    ensures var open := w.deliveries[d].status == DeliveryPending && !Locked(w, d);
      && Next(w, RecordDelivered(d, attempt)).deliveries
           == (if open then w.deliveries[d := Delivery(DeliveryDelivered, attempt)] else w.deliveries)
      && Next(w, RecordFailed(d, attempt)).deliveries
           == (if open then w.deliveries[d := Delivery(DeliveryFailed, attempt)] else w.deliveries)
      && Next(w, Reschedule(d, attempt)).deliveries
           == (if open then w.deliveries[d := Delivery(DeliveryPending, attempt)] else w.deliveries)
  {}

  /** After a cancellation it still counts its attempt, and nothing else of a delivery changes. */
  lemma HandlerCounts(w: World, d: Id, attempt: nat)
    requires d < |w.deliveries|
    ensures var before := w.deliveries[d];
      Next(w, CountAttempt(d, attempt)).deliveries
        == if before.status == DeliveryCancelled && !Locked(w, d) && before.attempts < attempt
           then w.deliveries[d := Delivery(DeliveryCancelled, attempt)] else w.deliveries
  {}

  /** Transactions that roll back leave no trace and no lock. */
  lemma RollbackLeavesNothing(w: World, x: Id)
    ensures Next(w, Rollback(x)) == w.(sharers := w.sharers - {x}) && Next(w, RollbackRetire) == w.(retirer := None)
  {}

  /** A deletion that runs undisturbed succeeds exactly when no fan-out, manual delivery or retry is under way. */
  lemma DeletionExactly(w: World)
    requires w.retirer.None? && !w.deleted
    ensures Next(Next(Next(w, MarkDeleted), CancelPending), CommitRetire).deleted <==> w.sharers == map[]
  {}
}
