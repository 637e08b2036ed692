/** The life of one webhook delivery: leases, handlers that run statement by statement and may overlap, outlive their
    lease or die, manual retries, and cancellation by webhook deletion. `now` is the database clock. */
module Attempts {
  import opened Schema

  const RETRY_SCHEDULE: seq<int> := [30, 120, 600, 1800]

  const MAX_ATTEMPTS: nat := 5

  /** The delay in seconds after a failed attempt. */
  function RetryAfter(attempt: int): int {
    if attempt < 1 then RETRY_SCHEDULE[0]
    else if attempt > |RETRY_SCHEDULE| then RETRY_SCHEDULE[|RETRY_SCHEDULE| - 1]
    else RETRY_SCHEDULE[attempt - 1]
  }

  datatype Attempt = Attempt(number: nat, ok: bool, at: int)

  /** A handler after loading the row (and perhaps after its HTTP call), after inserting its attempt, and after the
      statement for cancelled rows. */
  datatype Phase = Loaded(number: nat, called: bool) | Recorded(number: nat, ok: bool) | Counted(number: nat, ok: bool) | Over

  /** `retries`, `leases` and `calls` count manual retries, leases taken and HTTP calls made; `lost` notes a handler that
      recorded an attempt but ended without writing its number into the delivery. No statement reads these four. */
  datatype World = World(status: DeliveryStatus, count: nat, nextAt: Option<int>, leasedUntil: Option<int>, deleted: bool,
    now: int, recorded: seq<Attempt>, handlers: seq<Phase>, retries: nat, leases: nat, calls: nat, lost: bool)

  datatype Action = Tick(now: int) | Lease | Unlease | Load | Call(h: Id) | Record(h: Id, ok: bool) | CountIfCancelled(h: Id)
    | Settle(h: Id) | Die(h: Id) | ManualRetry | Retire

  function Start(now: int, delay: int): World { World(DeliveryPending, 0, Some(now + delay), None, false, now, [], [], 0, 0, 0, false) }

  predicate Past(t: Option<int>, now: int) { t.Some? ==> t.value <= now }

  function Advance(w: World, h: Id, p: Phase): World
    requires h < |w.handlers|
  {
    w.(handlers := w.handlers[h := p])
  }

  /** The attempt number is unique per delivery; a repeated one fails the handler. */
  function RecordStep(w: World, h: Id, number: nat, ok: bool): World
    requires h < |w.handlers|
  {
    if exists k :: 0 <= k < |w.recorded| && w.recorded[k].number == number then Advance(w, h, Over)
    else Advance(w, h, Recorded(number, ok)).(recorded := w.recorded + [Attempt(number, ok, w.now)])
  }

  /** After this statement a cancelled delivery has its count, and as it stays cancelled nothing is left to settle. */
  function CountStep(w: World, h: Id, number: nat, ok: bool): World
    requires h < |w.handlers|
  {
    if w.status == DeliveryCancelled then Advance(w, h, Over).(count := if w.count < number then number else w.count)
    else Advance(w, h, Counted(number, ok))
  }

  function SettleStep(w: World, h: Id, number: nat, ok: bool): World
    requires h < |w.handlers|
  {
    var u := Advance(w, h, Over);
    if w.status != DeliveryPending then u.(lost := true)
    else if ok then u.(status := DeliveryDelivered, count := number, nextAt := None, leasedUntil := None)
    else if number >= MAX_ATTEMPTS then u.(status := DeliveryFailed, count := number, nextAt := None, leasedUntil := None)
    else u.(count := number, nextAt := Some(w.now + RetryAfter(number)), leasedUntil := None)
  }

  function HandlerStep(w: World, a: Action, p: Phase): World
    requires (a.Call? || a.Record? || a.CountIfCancelled? || a.Settle? || a.Die?) && a.h < |w.handlers|
  {
    if a.Call? && p.Loaded? && !p.called then Advance(w, a.h, p.(called := true)).(calls := w.calls + 1)
    else if a.Record? && p.Loaded? then RecordStep(w, a.h, p.number, a.ok)
    else if a.CountIfCancelled? && p.Recorded? then CountStep(w, a.h, p.number, p.ok)
    else if a.Settle? && p.Counted? then SettleStep(w, a.h, p.number, p.ok)
    else if a.Die? then Advance(w, a.h, Over).(lost := w.lost || Midway(p))
    else w
  }

  function Next(w: World, a: Action): World {
    match a
    case Tick(now) => if now < w.now then w else w.(now := now)
    case Lease =>
      if w.status == DeliveryPending && Past(w.nextAt, w.now) && Past(w.leasedUntil, w.now) then
        w.(leasedUntil := Some(w.now + 30), leases := w.leases + 1)
      else w
    case Unlease => w.(leasedUntil := None)
    case Load =>
      if w.status == DeliveryPending && !w.deleted && w.leasedUntil.Some? && w.leasedUntil.value > w.now then
        w.(handlers := w.handlers + [Loaded(w.count + 1, false)])
      else w
    case ManualRetry =>
      if w.deleted then w else w.(status := DeliveryPending, nextAt := Some(w.now), leasedUntil := None, retries := w.retries + 1)
    case Retire =>
      if w.deleted then w
      else if w.status == DeliveryPending then w.(deleted := true, status := DeliveryCancelled, nextAt := None, leasedUntil := None)
      else w.(deleted := true)
    case _ => if a.h < |w.handlers| then HandlerStep(w, a, w.handlers[a.h]) else w
  }

  function Run(w: World, actions: seq<Action>): World {
    if actions == [] then w else Next(Run(w, actions[..|actions| - 1]), actions[|actions| - 1])
  }

  // ----- the invariant -----

  /** The handler has recorded its attempt and not yet written its number into the delivery. */
  predicate Midway(p: Phase) { p.Recorded? || p.Counted? }

  predicate AnyMidway(w: World) { exists h :: 0 <= h < |w.handlers| && Midway(w.handlers[h]) }

  /** A handler that can still record the next attempt. */
  predicate Fresh(w: World, p: Phase) { p.Loaded? && p.number == |w.recorded| + 1 }

  predicate AnyFresh(w: World) { exists h :: 0 <= h < |w.handlers| && Fresh(w, w.handlers[h]) }

  predicate HandlerFits(w: World, p: Phase) {
    var n := |w.recorded|;
    && (p.Loaded? ==> 1 <= p.number <= n + 1)
    && (Fresh(w, p) ==> w.count == n && (w.status == DeliveryPending || w.status == DeliveryCancelled))
    && (Midway(p) ==>
          && p.number == n && n == w.count + 1 && p.ok == w.recorded[n - 1].ok && !w.lost
          && (w.status == DeliveryPending || w.status == DeliveryCancelled))
  }

  predicate Figures(w: World) {
    var n := |w.recorded|;
    && (forall k :: 0 <= k < n ==> w.recorded[k].number == k + 1 && w.recorded[k].at <= w.now)
    && w.count <= n <= w.count + 1
    && (w.count == n <==> !w.lost && !AnyMidway(w))
    && (w.status == DeliveryDelivered || w.status == DeliveryFailed ==> w.count == n && 1 <= n)
    && (w.status == DeliveryFailed ==> MAX_ATTEMPTS <= n && !w.recorded[n - 1].ok)
    && (w.status == DeliveryDelivered ==> w.recorded[n - 1].ok)
    && (w.status == DeliveryCancelled ==> w.deleted) && (w.deleted ==> w.status != DeliveryPending)
  }

  /** Something can still lead to another recorded attempt without a further manual retry (or lease). */
  predicate Open(w: World) { (w.status == DeliveryPending && w.count == |w.recorded|) || AnyFresh(w) }

  predicate Bounded(w: World) {
    && |w.recorded| <= MAX_ATTEMPTS + w.retries
    && (Open(w) && MAX_ATTEMPTS <= |w.recorded| ==> |w.recorded| < MAX_ATTEMPTS + w.retries)
    && |w.recorded| <= w.leases
    && (AnyFresh(w) || (w.status == DeliveryPending && w.count == |w.recorded| && w.leasedUntil.Some?) ==> |w.recorded| < w.leases)
  }

  /** The earliest time for the attempt after the `n` recorded ones, when nobody retries by hand. */
  function Earliest(w: World): int {
    var n := |w.recorded|;
    if n == 0 then w.now else w.recorded[n - 1].at + RetryAfter(n)
  }

  predicate Spaced(w: World) {
    var n := |w.recorded|;
    && (forall k :: 0 <= k < n - 1 ==> !w.recorded[k].ok && w.recorded[k].at + RetryAfter(k + 1) <= w.recorded[k + 1].at)
    && (Open(w) && 1 <= n ==> !w.recorded[n - 1].ok)
    && (w.status == DeliveryPending && w.count == n && 1 <= n ==> w.nextAt.Some? && Earliest(w) <= w.nextAt.value)
    && (w.status == DeliveryPending && w.count == n && 1 <= n && w.leasedUntil.Some? ==> w.nextAt.value <= w.now)
    && (AnyFresh(w) ==> Earliest(w) <= w.now)
  }

  ghost predicate Valid(w: World) {
    && Figures(w) && Bounded(w) && (w.retries == 0 ==> Spaced(w))
    && (forall h :: 0 <= h < |w.handlers| ==> HandlerFits(w, w.handlers[h]))
    && (forall g, h :: 0 <= g < h < |w.handlers| && Midway(w.handlers[g]) ==> !Midway(w.handlers[h]))
  }

  /** The statements of the scheduler. */
  lemma SchedulerKeepsValid(w: World, a: Action)
    requires Valid(w) && (a.Tick? || a.Lease? || a.Unlease?)
    ensures Valid(Next(w, a))
  {}

  lemma RetryKeepsValid(w: World)
    requires Valid(w)
    ensures Valid(Next(w, ManualRetry))
  {}

  lemma RetireKeepsValid(w: World)
    requires Valid(w)
    ensures Valid(Next(w, Retire))
  {}

  lemma LoadKeepsValid(w: World)
    requires Valid(w)
    ensures Valid(Next(w, Load))
  {
    var u := Next(w, Load);
    if u != w {
      var m := |w.handlers|;
      forall h | 0 <= h < |u.handlers| ensures HandlerFits(u, u.handlers[h]) { if h < m { assert HandlerFits(w, w.handlers[h]); } }
      if AnyMidway(w) {
        var h :| 0 <= h < m && Midway(w.handlers[h]);
        assert Midway(u.handlers[h]);
      }
    }
  }

  lemma CallKeepsValid(w: World, h: Id)
    requires Valid(w) && h < |w.handlers| && w.handlers[h].Loaded?
    ensures Valid(HandlerStep(w, Call(h), w.handlers[h]))
  {
    var u := HandlerStep(w, Call(h), w.handlers[h]);
    forall g | 0 <= g < |u.handlers|
      ensures HandlerFits(u, u.handlers[g])
      ensures Fresh(u, u.handlers[g]) == Fresh(w, w.handlers[g]) && Midway(u.handlers[g]) == Midway(w.handlers[g])
    {
      assert HandlerFits(w, w.handlers[g]);
    }
    SameStages(w, u);
  }

  /** The invariant sees of a handler only what it can still do. */
  lemma SameStages(w: World, u: World)
    requires Valid(w) && u == w.(handlers := u.handlers, calls := u.calls) && |u.handlers| == |w.handlers|
    requires forall g :: 0 <= g < |u.handlers| ==>
      && HandlerFits(u, u.handlers[g])
      && Fresh(u, u.handlers[g]) == Fresh(w, w.handlers[g]) && Midway(u.handlers[g]) == Midway(w.handlers[g])
    ensures Valid(u)
  {
    assert AnyMidway(u) == AnyMidway(w) && AnyFresh(u) == AnyFresh(w);
  }

  lemma RecordKeepsValid(w: World, h: Id, ok: bool)
    requires Valid(w) && h < |w.handlers| && w.handlers[h].Loaded?
    ensures Valid(RecordStep(w, h, w.handlers[h].number, ok))
  {
    var number, n := w.handlers[h].number, |w.recorded|;
    var u := RecordStep(w, h, number, ok);
    assert HandlerFits(w, w.handlers[h]);
    if number <= n {
      assert w.recorded[number - 1].number == number;
      Ended(w, u, h);
    } else {
      AttemptRecorded(w, u, h, ok);
    }
  }

  lemma AttemptRecorded(w: World, u: World, h: Id, ok: bool)
    requires Valid(w) && h < |w.handlers| && Fresh(w, w.handlers[h])
    requires u == w.(handlers := w.handlers[h := Recorded(|w.recorded| + 1, ok)],
                     recorded := w.recorded + [Attempt(|w.recorded| + 1, ok, w.now)])
    ensures Valid(u)
  {
    assert HandlerFits(w, w.handlers[h]) && Midway(u.handlers[h]);
    forall g | 0 <= g < |u.handlers|
      ensures HandlerFits(u, u.handlers[g]) && !Fresh(u, u.handlers[g]) && (g != h ==> !Midway(u.handlers[g]))
    {
      assert HandlerFits(w, w.handlers[g]);
    }
    assert AnyMidway(u) && !AnyFresh(u);
  }

  /** A handler that could not have recorded anything more ends, with no other effect. */
  lemma Ended(w: World, u: World, h: Id)
    requires Valid(w) && h < |w.handlers| && u == Advance(w, h, Over) && !Midway(w.handlers[h])
    ensures Valid(u)
  {
    forall g | 0 <= g < |u.handlers| ensures HandlerFits(u, u.handlers[g]) { assert HandlerFits(w, w.handlers[g]); }
    if AnyMidway(w) {
      var g :| 0 <= g < |w.handlers| && Midway(w.handlers[g]);
      assert Midway(u.handlers[g]);
    }
    if AnyFresh(u) {
      var g :| 0 <= g < |u.handlers| && Fresh(u, u.handlers[g]);
      assert Fresh(w, w.handlers[g]);
    }
  }

  /** The handler midway through its statements ends, writing its number or losing it. */
  lemma Settled(w: World, u: World, h: Id)
    requires Valid(w) && h < |w.handlers| && Midway(w.handlers[h]) && u.handlers == w.handlers[h := Over]
    requires u.recorded == w.recorded && u.now == w.now && u.retries == w.retries && u.leases == w.leases && u.deleted == w.deleted
    requires u.count == if u.lost then w.count else |w.recorded|
    requires u.status == w.status || (!u.lost && w.status == DeliveryPending && u.status in {DeliveryDelivered, DeliveryFailed})
    requires u.status == DeliveryDelivered ==> w.handlers[h].ok
    requires u.status == DeliveryFailed ==> !w.handlers[h].ok && MAX_ATTEMPTS <= |w.recorded|
    requires u.status == DeliveryPending && !u.lost ==>
      && !w.handlers[h].ok && |w.recorded| < MAX_ATTEMPTS && u.leasedUntil.None?
      && u.nextAt == Some(w.now + RetryAfter(|w.recorded|))
    ensures Valid(u)
  {}

  lemma CountKeepsValid(w: World, h: Id)
    requires Valid(w) && h < |w.handlers| && w.handlers[h].Recorded?
    ensures Valid(CountStep(w, h, w.handlers[h].number, w.handlers[h].ok))
  {
    var u := CountStep(w, h, w.handlers[h].number, w.handlers[h].ok);
    assert HandlerFits(w, w.handlers[h]);
    if w.status == DeliveryCancelled {
      Settled(w, u, h);
    } else {
      assert Midway(u.handlers[h]);
      forall g | 0 <= g < |u.handlers| ensures HandlerFits(u, u.handlers[g]) && (Midway(u.handlers[g]) <==> Midway(w.handlers[g])) {
        assert HandlerFits(w, w.handlers[g]);
      }
      assert Midway(w.handlers[h]);
    }
  }

  lemma SettleKeepsValid(w: World, h: Id)
    requires Valid(w) && h < |w.handlers| && w.handlers[h].Counted?
    ensures Valid(SettleStep(w, h, w.handlers[h].number, w.handlers[h].ok))
  {
    assert HandlerFits(w, w.handlers[h]);
    Settled(w, SettleStep(w, h, w.handlers[h].number, w.handlers[h].ok), h);
  }

  lemma DieKeepsValid(w: World, h: Id)
    requires Valid(w) && h < |w.handlers|
    ensures Valid(HandlerStep(w, Die(h), w.handlers[h]))
  {
    var u := HandlerStep(w, Die(h), w.handlers[h]);
    assert HandlerFits(w, w.handlers[h]);
    if Midway(w.handlers[h]) { Settled(w, u, h); } else { Ended(w, u, h); }
  }

  lemma StepKeepsValid(w: World, a: Action)
    requires Valid(w)
    ensures Valid(Next(w, a))
  {
    match a
    case Load => LoadKeepsValid(w);
    case Call(h) => if h < |w.handlers| && w.handlers[h].Loaded? { CallKeepsValid(w, h); }
    case Record(h, ok) => if h < |w.handlers| && w.handlers[h].Loaded? { RecordKeepsValid(w, h, ok); }
    case CountIfCancelled(h) => if h < |w.handlers| && w.handlers[h].Recorded? { CountKeepsValid(w, h); }
    case Settle(h) => if h < |w.handlers| && w.handlers[h].Counted? { SettleKeepsValid(w, h); }
    case Die(h) => if h < |w.handlers| { DieKeepsValid(w, h); }
    case ManualRetry => RetryKeepsValid(w);
    case Retire => RetireKeepsValid(w);
    case _ => SchedulerKeepsValid(w, a);
  }

  lemma {:induction false} ValidAlways(now: int, delay: int, actions: seq<Action>)
    ensures Valid(Run(Start(now, delay), actions))
  {
    if actions == [] {
    } else {
      ValidAlways(now, delay, actions[..|actions| - 1]);
      StepKeepsValid(Run(Start(now, delay), actions[..|actions| - 1]), actions[|actions| - 1]);
    }
  }

  // ----- what holds over every interleaving -----

  /** Recorded attempts are numbered 1, 2, 3, ... without gaps or repeats; each had a lease of its own; and there are at
      most five more than manual retries, even when handlers overlap. */
  lemma AttemptsAreBounded(now: int, delay: int, actions: seq<Action>)
    ensures var w := Run(Start(now, delay), actions);
      && (forall k :: 0 <= k < |w.recorded| ==> w.recorded[k].number == k + 1)
      && |w.recorded| <= 5 + w.retries && |w.recorded| <= w.leases
  {
    ValidAlways(now, delay, actions);
  }

  /** Without manual retries, FAILED means exactly five attempts, all failures, with at least 30 seconds, 2, 10 and 30
      minutes between them. */
  lemma FailureTakesFiveAttempts(now: int, delay: int, actions: seq<Action>)
    requires var w := Run(Start(now, delay), actions); w.retries == 0 && w.status == DeliveryFailed
    ensures var w := Run(Start(now, delay), actions);
      && |w.recorded| == w.count == 5 && (forall k :: 0 <= k < 5 ==> !w.recorded[k].ok)
      && w.recorded[0].at + 30 <= w.recorded[1].at && w.recorded[1].at + 120 <= w.recorded[2].at
      && w.recorded[2].at + 600 <= w.recorded[3].at && w.recorded[3].at + 1800 <= w.recorded[4].at
  {
    ValidAlways(now, delay, actions);
    var w := Run(Start(now, delay), actions);
    assert forall k :: 0 <= k < 4 ==> w.recorded[k].at + RetryAfter(k + 1) <= w.recorded[k + 1].at;
  }

  /** The seconds until the attempt after failed attempt `n`: 30 seconds, 2, 10 and 30 minutes. */
  function Pause(n: nat): int { if n == 1 then 30 else if n == 2 then 120 else if n == 3 then 600 else 1800 }

  /** What settling makes of a pending delivery: a success delivers it, the fifth failure ends it, and an earlier failure
      has it wait for exactly the pause of that attempt. */
  lemma SettlesExactly(now: int, delay: int, actions: seq<Action>, h: Id)
    requires var w := Run(Start(now, delay), actions);
      h < |w.handlers| && w.handlers[h].Counted? && w.status == DeliveryPending
    ensures var w, u := Run(Start(now, delay), actions), Next(Run(Start(now, delay), actions), Settle(h));
      var n := |w.recorded|;
      && 1 <= n && u.count == n && u.leasedUntil.None? && u.handlers == w.handlers[h := Over]
      && u.status == (if w.recorded[n - 1].ok then DeliveryDelivered else if 5 <= n then DeliveryFailed else DeliveryPending)
      && u.nextAt == if !w.recorded[n - 1].ok && n < 5 then Some(w.now + Pause(n)) else None
  {
    CountedIsLast(now, delay, actions, h);
    var w := Run(Start(now, delay), actions);
    SettlesPending(w, h, |w.recorded|, w.recorded[|w.recorded| - 1].ok);
  }

  /** A handler that has yet to settle recorded the last attempt. */
  lemma CountedIsLast(now: int, delay: int, actions: seq<Action>, h: Id)
    requires h < |Run(Start(now, delay), actions).handlers| && Run(Start(now, delay), actions).handlers[h].Counted?
    ensures var w := Run(Start(now, delay), actions);
      1 <= |w.recorded| && w.handlers[h] == Counted(|w.recorded|, w.recorded[|w.recorded| - 1].ok)
  {
    ValidAlways(now, delay, actions);
    var w := Run(Start(now, delay), actions);
    assert HandlerFits(w, w.handlers[h]);
  }

  lemma SettlesPending(w: World, h: Id, n: nat, ok: bool)
    requires h < |w.handlers| && w.handlers[h] == Counted(n, ok) && w.status == DeliveryPending && 1 <= n
    ensures var u := Next(w, Settle(h));
      && u.count == n && u.leasedUntil.None? && u.handlers == w.handlers[h := Over]
      && u.status == (if ok then DeliveryDelivered else if 5 <= n then DeliveryFailed else DeliveryPending)
      && u.nextAt == if !ok && n < 5 then Some(w.now + Pause(n)) else None
  {}

  predicate Leased(w: World) { Next(w, Lease).leases == w.leases + 1 }

  predicate Loadable(w: World) { |Next(w, Load).handlers| == |w.handlers| + 1 }

  /** After a failed attempt the next one is scheduled from the end of the pause on, and not before. */
  lemma PausesExactly(now: int, delay: int, actions: seq<Action>, h: Id, at: int)
    requires var w := Run(Start(now, delay), actions);
      && h < |w.handlers| && w.handlers[h].Counted? && w.status == DeliveryPending && w.now <= at
      && |w.recorded| < 5 && !w.handlers[h].ok
    ensures var w := Run(Start(now, delay), actions);
      Leased(Next(Next(w, Settle(h)), Tick(at))) <==> w.now + Pause(|w.recorded|) <= at
  {
    CountedIsLast(now, delay, actions, h);
    SettlesExactly(now, delay, actions, h);
  }

  /** A lease lasts thirty seconds: until then a handler may load the delivery and nobody else may lease it; then the
      reverse. Giving the lease back makes the delivery available at once. */
  lemma LeaseLasts(now: int, delay: int, actions: seq<Action>, at: int)
    requires var w := Run(Start(now, delay), actions); Leased(w) && w.now <= at
    ensures var w := Run(Start(now, delay), actions);
      var u := Next(Next(w, Lease), Tick(at));
      && (Loadable(u) <==> at < w.now + 30) && (Leased(u) <==> w.now + 30 <= at)
      && (Loadable(u) ==> Next(u, Load).handlers[|u.handlers|] == Loaded(w.count + 1, false))
      && Leased(Next(Next(w, Lease), Unlease))
  {
    ValidAlways(now, delay, actions);
  }

  /** A manual retry makes the delivery of a live webhook due at once; deletion cancels it if it is pending. */
  lemma RetryAndRetire(now: int, delay: int, actions: seq<Action>)
    requires !Run(Start(now, delay), actions).deleted
    ensures var w := Run(Start(now, delay), actions);
      && Leased(Next(w, ManualRetry)) && Next(w, Retire).deleted
      && Next(w, Retire).status == if w.status == DeliveryPending then DeliveryCancelled else w.status
  {}

  /** Without manual retries, DELIVERED means that the last attempt succeeded and all earlier ones failed. */
  lemma DeliveryEndsAttempts(now: int, delay: int, actions: seq<Action>)
    requires var w := Run(Start(now, delay), actions); w.retries == 0 && w.status == DeliveryDelivered
    ensures var w := Run(Start(now, delay), actions);
      var n := |w.recorded|;
      1 <= n == w.count <= 5 && forall k :: 0 <= k < n ==> (w.recorded[k].ok <==> k == n - 1)
  {
    ValidAlways(now, delay, actions);
  }

  /** The stored count is the number of recorded attempts exactly when no handler is between recording its attempt and
      writing its number, or ended there; otherwise it is one behind. */
  lemma CountTellsAttempts(now: int, delay: int, actions: seq<Action>)
    ensures var w := Run(Start(now, delay), actions);
      && (w.count == |w.recorded| <==> !w.lost && !AnyMidway(w))
      && (w.count != |w.recorded| ==> w.count + 1 == |w.recorded|)
  {
    ValidAlways(now, delay, actions);
  }

  // ----- when a delivery is stuck -----

  lemma Extend(w: World, actions: seq<Action>, a: Action)
    ensures Run(w, actions + [a]) == Next(Run(w, actions), a)
  {
    assert (actions + [a])[..|actions|] == actions;
  }

  lemma AppendOne(w: World, past: seq<Action>, init: seq<Action>, last: Action)
    requires Run(w, past + init) == Run(Run(w, past), init)
    ensures Run(w, past + init + [last]) == Run(Run(w, past), init + [last])
  {
    Extend(w, past + init, last);
    Extend(Run(w, past), init, last);
  }

  lemma {:induction false} Append(w: World, past: seq<Action>, future: seq<Action>)
    ensures Run(w, past + future) == Run(Run(w, past), future)
  {
    if future == [] {
      assert past + future == past;
    } else {
      var init, last := future[..|future| - 1], future[|future| - 1];
      assert past + future == past + init + [last] && future == init + [last];
      Append(w, past, init);
      AppendOne(w, past, init, last);
    }
  }

  lemma OneStep(w: World, a: Action)
    ensures Run(w, [a]) == Next(w, a)
  {
    Extend(w, [], a);
    assert [] + [a] == [a];
  }

  lemma TwoSteps(w: World, a: Action, b: Action)
    ensures Run(w, [a, b]) == Next(Next(w, a), b)
  {
    OneStep(w, a);
    Extend(w, [a], b);
    assert [a] + [b] == [a, b];
  }

  lemma ThreeSteps(w: World, a: Action, b: Action, c: Action)
    ensures Run(w, [a, b, c]) == Next(Next(Next(w, a), b), c)
  {
    TwoSteps(w, a, b);
    Extend(w, [a, b], c);
    assert [a, b] + [c] == [a, b, c];
  }

  /** A pending delivery whose count tells its attempts can be leased and loaded once its time has come. */
  lemma Leasable(w: World) returns (at: int)
    requires Valid(w) && w.status == DeliveryPending && w.count == |w.recorded|
    ensures var u := Next(Next(Next(w, Tick(at)), Lease), Load);
      && u.status == DeliveryPending && u.count == w.count && u.recorded == w.recorded && u.deleted == w.deleted
      && u.handlers == w.handlers + [Loaded(|w.recorded| + 1, false)]
  {
    var due := if w.nextAt.Some? && w.nextAt.value > w.now then w.nextAt.value else w.now;
    at := if w.leasedUntil.Some? && w.leasedUntil.value > due then w.leasedUntil.value else due;
  }

  /** The handler's three statements, after a successful call, deliver. */
  lemma Deliver(w: World, h: Id)
    requires Valid(w) && w.status == DeliveryPending && h < |w.handlers| && Fresh(w, w.handlers[h])
    ensures var u := Next(Next(Next(w, Record(h, true)), CountIfCancelled(h)), Settle(h));
      u.status == DeliveryDelivered && |u.recorded| == |w.recorded| + 1
  {
    assert HandlerFits(w, w.handlers[h]);
  }

  /** A pending delivery whose count tells its attempts can be delivered without any help. */
  lemma Deliverable(w: World) returns (future: seq<Action>)
    requires Valid(w) && w.status == DeliveryPending && w.count == |w.recorded|
    ensures ManualRetry !in future && Run(w, future).status == DeliveryDelivered
    ensures |Run(w, future).recorded| == |w.recorded| + 1
  {
    var h := |w.handlers|;
    var at := Leasable(w);
    var a, b := [Tick(at), Lease, Load], [Record(h, true), CountIfCancelled(h), Settle(h)];
    ThreeSteps(w, Tick(at), Lease, Load);
    KeepsValid(w, a);
    ThreeSteps(Run(w, a), Record(h, true), CountIfCancelled(h), Settle(h));
    Deliver(Run(w, a), h);
    Append(w, a, b);
    future := a + b;
  }

  lemma {:induction false} KeepsValid(w: World, actions: seq<Action>)
    requires Valid(w)
    ensures Valid(Run(w, actions))
  {
    if actions == [] {
    } else {
      KeepsValid(w, actions[..|actions| - 1]);
      StepKeepsValid(Run(w, actions[..|actions| - 1]), actions[|actions| - 1]);
    }
  }

  /** A handler that is midway can finish its statements, and the count then tells the recorded attempts. */
  lemma Finished(w: World, h: Id) returns (future: seq<Action>)
    requires Valid(w) && h < |w.handlers| && Midway(w.handlers[h]) && w.status == DeliveryPending
    ensures ManualRetry !in future
    ensures var u := Run(w, future);
      Valid(u) && u.count == |u.recorded| && u.recorded == w.recorded && u.deleted == w.deleted && u.status != DeliveryCancelled
  {
    assert HandlerFits(w, w.handlers[h]);
    TwoSteps(w, CountIfCancelled(h), Settle(h));
    future := [CountIfCancelled(h), Settle(h)];
    KeepsValid(w, future);
  }

  /** Whatever is pending, delivered or failed can be attempted again when its count tells its attempts. */
  lemma Attemptable(w: World) returns (future: seq<Action>)
    requires Valid(w) && !w.deleted && w.count == |w.recorded|
    ensures |Run(w, future).recorded| == |w.recorded| + 1
  {
    var retried := Next(w, ManualRetry);
    StepKeepsValid(w, ManualRetry);
    var rest := Deliverable(retried);
    OneStep(w, ManualRetry);
    Append(w, [ManualRetry], rest);
    future := [ManualRetry] + rest;
  }

  /** What a delivery has left to happen to it: a handler about to record, or, while its webhook lives, a count that
      tells its attempts, if need be once a handler midway has finished. */
  predicate Alive(w: World) { AnyFresh(w) || (!w.deleted && (w.count == |w.recorded| || AnyMidway(w))) }

  lemma AliveCanRecord(w: World) returns (future: seq<Action>)
    requires Valid(w) && Alive(w)
    ensures |w.recorded| < |Run(w, future).recorded|
  {
    if AnyFresh(w) {
      var h :| 0 <= h < |w.handlers| && Fresh(w, w.handlers[h]);
      OneStep(w, Record(h, true));
      future := [Record(h, true)];
    } else if w.count == |w.recorded| {
      future := Attemptable(w);
    } else {
      var h :| 0 <= h < |w.handlers| && Midway(w.handlers[h]);
      assert HandlerFits(w, w.handlers[h]);
      var a := Finished(w, h);
      var b := Attemptable(Run(w, a));
      Append(w, a, b);
      future := a + b;
    }
  }

  lemma DeadStep(w: World, a: Action)
    requires Valid(w) && !Alive(w)
    ensures Next(w, a).recorded == w.recorded && !Alive(Next(w, a))
  {
    var u := Next(w, a);
    if a.Record? && a.h < |w.handlers| && w.handlers[a.h].Loaded? {
      var number := w.handlers[a.h].number;
      assert HandlerFits(w, w.handlers[a.h]) && !Fresh(w, w.handlers[a.h]);
      assert w.recorded[number - 1].number == number;
    }
    StepKeepsValid(w, a);
    forall h | 0 <= h < |u.handlers| ensures !Fresh(u, u.handlers[h]) {
      if h < |w.handlers| { assert !Fresh(w, w.handlers[h]); }
    }
  }

  lemma {:induction false} DeadStays(w: World, future: seq<Action>)
    requires Valid(w) && !Alive(w)
    ensures Run(w, future).recorded == w.recorded && !Alive(Run(w, future))
  {
    if future == [] {
    } else {
      var init := future[..|future| - 1];
      DeadStays(w, init);
      KeepsValid(w, init);
      DeadStep(Run(w, init), future[|future| - 1]);
    }
  }

  lemma LostStep(w: World, a: Action)
    requires Valid(w) && w.lost
    ensures var u := Next(w, a);
      u.lost && u.recorded == w.recorded && u.count == w.count && u.status in {DeliveryPending, DeliveryCancelled}
  {
    if (a.Call? || a.Record? || a.CountIfCancelled? || a.Settle? || a.Die?) && a.h < |w.handlers| {
      var p := w.handlers[a.h];
      assert HandlerFits(w, p) && !Midway(p);
      if p.Loaded? { assert w.recorded[p.number - 1].number == p.number; }
    }
  }

  lemma {:induction false} LostStays(w: World, future: seq<Action>)
    requires Valid(w) && w.lost
    ensures Run(w, future).lost && Run(w, future).status in {DeliveryPending, DeliveryCancelled}
  {
    if future == [] {
    } else {
      var init := future[..|future| - 1];
      LostStays(w, init);
      KeepsValid(w, init);
      LostStep(Run(w, init), future[|future| - 1]);
    }
  }

  /** Another attempt can be recorded in some future, manual retries included, exactly when a handler is about to record
      one, or the webhook lives and the stored count tells the recorded attempts, perhaps only once a handler midway has
      finished. Otherwise the count is one behind with nobody left to write it: every later handler computes the number
      that is already recorded, and fails. */
  lemma AttemptableExactly(now: int, delay: int, past: seq<Action>)
    ensures var w := Run(Start(now, delay), past);
      (exists future :: |w.recorded| < |Run(Start(now, delay), past + future).recorded|) <==> Alive(w)
  {
    ValidAlways(now, delay, past);
    var start, w := Start(now, delay), Run(Start(now, delay), past);
    if Alive(w) {
      var future := AliveCanRecord(w);
      Append(start, past, future);
    } else {
      forall future ensures Run(start, past + future).recorded == w.recorded {
        Append(start, past, future);
        DeadStays(w, future);
      }
    }
  }

  predicate Unaided(future: seq<Action>) { ManualRetry !in future }

  /** A pending delivery can still be settled exactly when its stored count tells its recorded attempts or a handler is
      midway; then it needs no manual retry. Otherwise no retry and no waiting settles it, and only deletion ends it. */
  lemma SettleableExactly(now: int, delay: int, past: seq<Action>)
    requires Run(Start(now, delay), past).status == DeliveryPending
    ensures var start, w := Start(now, delay), Run(Start(now, delay), past);
      var able := w.count == |w.recorded| || AnyMidway(w);
      && ((exists future :: Run(start, past + future).status in {DeliveryDelivered, DeliveryFailed}) <==> able)
      && (able ==> exists future :: Unaided(future) && Run(start, past + future).status in {DeliveryDelivered, DeliveryFailed})
  {
    ValidAlways(now, delay, past);
    var start, w := Start(now, delay), Run(Start(now, delay), past);
    if w.count == |w.recorded| || AnyMidway(w) {
      var future := Settling(w);
      Append(start, past, future);
      assert Unaided(future) && Run(start, past + future).status in {DeliveryDelivered, DeliveryFailed};
    } else {
      forall future ensures Run(start, past + future).status in {DeliveryPending, DeliveryCancelled} {
        Append(start, past, future);
        LostStays(w, future);
      }
    }
  }

  lemma Settling(w: World) returns (future: seq<Action>)
    requires Valid(w) && w.status == DeliveryPending && (w.count == |w.recorded| || AnyMidway(w))
    ensures Unaided(future) && Run(w, future).status in {DeliveryDelivered, DeliveryFailed}
  {
    if w.count == |w.recorded| {
      future := Deliverable(w);
    } else {
      var h :| 0 <= h < |w.handlers| && Midway(w.handlers[h]);
      future := Finished(w, h);
      if Run(w, future).status == DeliveryPending {
        var rest := Deliverable(Run(w, future));
        Append(w, future, rest);
        future := future + rest;
      }
    }
  }

  /** A run in which a worker dies between its two statements, and the delivery is stuck. */
  lemma DeathLosesAttempt()
    ensures var w := Run(Start(0, 0), [Lease, Load, Record(0, false)] + [Die(0)]);
      w.status == DeliveryPending && w.count == 0 && |w.recorded| == 1 && !AnyMidway(w) && !Alive(w)
  {
    ThreeSteps(Start(0, 0), Lease, Load, Record(0, false));
    Extend(Start(0, 0), [Lease, Load, Record(0, false)], Die(0));
    var loaded := Next(Next(Start(0, 0), Lease), Load);
    assert loaded == World(DeliveryPending, 0, Some(0), Some(30), false, 0, [], [Loaded(1, false)], 0, 1, 0, false);
    var dead := Next(Next(loaded, Record(0, false)), Die(0));
    assert dead == World(DeliveryPending, 0, Some(0), Some(30), false, 0, [Attempt(1, false, 0)], [Over], 0, 1, 0, true);
  }

  // ----- calls -----

  /** Each of `n` tasks is leased, loaded and called before any of them records: every lease but the last runs out. */
  function Overlapping(n: nat): seq<Action> {
    if n == 0 then [] else Overlapping(n - 1) + [Tick(30 * (n - 1)), Lease, Load] + [Call(n - 1)]
  }

  predicate OnlyCalled(w: World, n: nat) {
    && w.calls == w.leases == |w.handlers| == n && w.recorded == [] && w.retries == 0
    && w.status == DeliveryPending && w.count == 0 && !w.deleted && w.nextAt == Some(0)
    && w.now == (if n == 0 then 0 else 30 * n - 30) && w.leasedUntil == (if n == 0 then None else Some(30 * n))
  }

  lemma OneMoreCall(w: World, n: nat)
    requires OnlyCalled(w, n)
    ensures OnlyCalled(Next(Next(Next(Next(w, Tick(30 * n)), Lease), Load), Call(n)), n + 1)
  {
    var loaded := Next(Next(Next(w, Tick(30 * n)), Lease), Load);
    assert loaded.handlers == w.handlers + [Loaded(1, false)] && loaded.calls == n && loaded.recorded == [];
  }

  lemma FourSteps(past: seq<Action>, a: Action, b: Action, c: Action, d: Action)
    ensures Run(Start(0, 0), past + [a, b, c] + [d]) == Next(Next(Next(Next(Run(Start(0, 0), past), a), b), c), d)
  {
    ThreeSteps(Run(Start(0, 0), past), a, b, c);
    Append(Start(0, 0), past, [a, b, c]);
    Extend(Start(0, 0), past + [a, b, c], d);
  }

  /** Overlapping handlers can make any number of HTTP calls before a single attempt is recorded, with one lease each. */
  lemma {:induction false} CallsAreUnbounded(n: nat)
    ensures OnlyCalled(Run(Start(0, 0), Overlapping(n)), n)
  {
    if n == 0 {
    } else {
      CallsAreUnbounded(n - 1);
      FourSteps(Overlapping(n - 1), Tick(30 * (n - 1)), Lease, Load, Call(n - 1));
      OneMoreCall(Run(Start(0, 0), Overlapping(n - 1)), n - 1);
    }
  }
}
