/** The fixed-window rate limiter: one Redis counter per credential and clock minute, expiring a minute after its first
    hit. Times are milliseconds since the epoch, read from a clock that Redis shares. */
module RateLimit {
  import opened Schema

  const MINUTE := 60000

  /** A stored counter; without `expires` it would live for ever. */
  datatype Counter = Counter(n: nat, expires: Option<int>)

  type Key = (Id, int)

  function Window(credential: Id, now: int): Key { (credential, now / 1000 / 60) }

  predicate Live(counters: map<Key, Counter>, k: Key, now: int) {
    k in counters && (counters[k].expires.Some? ==> now < counters[k].expires.value)
  }

  /** The counter after INCR, and after EXPIRE if INCR answered 1. */
  function Hit(counters: map<Key, Counter>, k: Key, now: int): Counter {
    if !Live(counters, k, now) then Counter(1, Some(now + MINUTE))
    else if counters[k].n == 0 then Counter(1, Some(now + MINUTE))
    else Counter(counters[k].n + 1, counters[k].expires)
  }

  class FixedWindow {
    var counters: map<Key, Counter>

    constructor ()
      ensures counters == map[]
    {
      counters := map[];
    }

    method Incr(k: Key, now: int) returns (n: nat)
      modifies this
      ensures n == (if Live(old(counters), k, now) then old(counters)[k].n else 0) + 1
      ensures counters == old(counters)[k := Counter(n, if Live(old(counters), k, now) then old(counters)[k].expires else None)]
    {
      n := if Live(counters, k, now) then counters[k].n + 1 else 1;
      counters := counters[k := Counter(n, if Live(counters, k, now) then counters[k].expires else None)];
    }

    method Allow(credential: Id, limit: int, now: int) returns (allowed: bool, remaining: nat)
      modifies this
      ensures var k := Window(credential, now);
        var c := Hit(old(counters), k, now);
        && counters == old(counters)[k := c]
        && allowed == (c.n <= limit)
        && remaining == if c.n <= limit then limit - c.n else 0
    {
      var k := Window(credential, now);
      var n := Incr(k, now);
      if n == 1 { counters := counters[k := counters[k].(expires := Some(now + MINUTE))]; }
      remaining := if limit - n < 0 then 0 else limit - n;
      allowed := n <= limit;
    }
  }

  // ----- call sequences -----

  datatype Call = Call(credential: Id, limit: int, at: int)

  function Counters(calls: seq<Call>): map<Key, Counter> {
    if calls == [] then map[]
    else
      var before, last := Counters(calls[..|calls| - 1]), calls[|calls| - 1];
      var k := Window(last.credential, last.at);
      before[k := Hit(before, k, last.at)]
  }

  /** Whether the last call of a sequence is allowed. */
  predicate LastAllowed(calls: seq<Call>)
    requires calls != []
  {
    var last := calls[|calls| - 1];
    Hit(Counters(calls[..|calls| - 1]), Window(last.credential, last.at), last.at).n <= last.limit
  }

  /** Time starts at the epoch and never runs backwards. */
  predicate Ordered(calls: seq<Call>) {
    && (forall k :: 0 <= k < |calls| ==> 0 <= calls[k].at)
    && (forall j, k :: 0 <= j < k < |calls| ==> calls[j].at <= calls[k].at)
  }

  function CallsIn(calls: seq<Call>, k: Key): nat {
    if calls == [] then 0
    else
      var last := calls[|calls| - 1];
      CallsIn(calls[..|calls| - 1], k) + if Window(last.credential, last.at) == k then 1 else 0
  }

  function AllowedIn(calls: seq<Call>, k: Key): nat {
    if calls == [] then 0
    else
      var last := calls[|calls| - 1];
      AllowedIn(calls[..|calls| - 1], k) + if Window(last.credential, last.at) == k && LastAllowed(calls) then 1 else 0
  }

  /** The allowed calls of `credential` from time `from` on and before `to`. */
  function AllowedBetween(calls: seq<Call>, credential: Id, from: int, to: int): nat {
    if calls == [] then 0
    else
      var last := calls[|calls| - 1];
      AllowedBetween(calls[..|calls| - 1], credential, from, to)
      + if last.credential == credential && from <= last.at < to && LastAllowed(calls) then 1 else 0
  }

  /** A window's counter holds the number of its calls, and outlives the window. */
  lemma {:induction false} CounterCounts(calls: seq<Call>, k: Key)
    requires Ordered(calls)
    ensures k in Counters(calls) <==> 0 < CallsIn(calls, k)
    ensures k in Counters(calls) ==>
      var c := Counters(calls)[k];
      c.n == CallsIn(calls, k) && c.expires.Some? && (k.1 + 1) * MINUTE <= c.expires.value
  {
    if calls == [] {
    } else {
      CounterCounts(calls[..|calls| - 1], k);
    }
  }

  /** The expiry never resets a window in which calls still arrive: a call is allowed exactly when fewer than its limit
      came before it in the same clock minute. */
  lemma AllowedByPosition(calls: seq<Call>)
    requires Ordered(calls) && calls != []
    ensures var last := calls[|calls| - 1];
      LastAllowed(calls) <==> CallsIn(calls[..|calls| - 1], Window(last.credential, last.at)) < last.limit
  {
    var last := calls[|calls| - 1];
    CounterCounts(calls[..|calls| - 1], Window(last.credential, last.at));
  }

  lemma {:induction false} AllowedWithinLimit(calls: seq<Call>, k: Key, limit: nat)
    requires Ordered(calls) && forall j :: 0 <= j < |calls| && calls[j].credential == k.0 ==> calls[j].limit <= limit
    ensures AllowedIn(calls, k) <= limit && AllowedIn(calls, k) <= CallsIn(calls, k)
  {
    if calls == [] {
    } else {
      AllowedWithinLimit(calls[..|calls| - 1], k, limit);
      AllowedByPosition(calls);
    }
  }

  lemma {:induction false} IntervalSpansTwoWindows(calls: seq<Call>, credential: Id, from: int)
    requires Ordered(calls) && 0 <= from
    ensures AllowedBetween(calls, credential, from, from + MINUTE)
      <= AllowedIn(calls, (credential, from / MINUTE)) + AllowedIn(calls, (credential, from / MINUTE + 1))
  {
    if calls == [] {
    } else {
      IntervalSpansTwoWindows(calls[..|calls| - 1], credential, from);
      var at := calls[|calls| - 1].at;
      assert at / 1000 / 60 == at / MINUTE;
      if from <= at < from + MINUTE { assert at / MINUTE == from / MINUTE || at / MINUTE == from / MINUTE + 1; }
    }
  }

  /** At most `limit` calls of a credential are allowed in any clock minute, and at most twice that in any 60 seconds. */
  lemma RateIsBounded(calls: seq<Call>, credential: Id, minute: int, from: int, limit: nat)
    requires Ordered(calls) && 0 <= from
    requires forall j :: 0 <= j < |calls| && calls[j].credential == credential ==> calls[j].limit <= limit
    ensures AllowedIn(calls, (credential, minute)) <= limit
    ensures AllowedBetween(calls, credential, from, from + MINUTE) <= 2 * limit
  {
    AllowedWithinLimit(calls, (credential, minute), limit);
    AllowedWithinLimit(calls, (credential, from / MINUTE), limit);
    AllowedWithinLimit(calls, (credential, from / MINUTE + 1), limit);
    IntervalSpansTwoWindows(calls, credential, from);
  }
}
