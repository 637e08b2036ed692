/** What each statement of the claim protocol answers after any run, and what retries of a completed request are answered. */
module Answers {
  import opened Schema
  import opened Idempotency

  /** The latest grant; there is one whenever the key is claimed. */
  function Latest(w: World): Option<Grant> { if w.grants == [] then None else Some(w.grants[|w.grants| - 1]) }

  /** The key is claimed for this hash by the request with the latest grant, and not answered yet. */
  predicate ClaimedBy(w: World, hash: string, g: Grant) {
    w.row.Some? && w.row.value.response.None? && w.row.value.hash == hash && Latest(w) == Some(g)
  }

  lemma ClaimIsLatest(w: World, start: Option<Row>)
    requires Valid(w, start) && w.row.Some? && w.row.value.response.None?
    ensures Latest(w).Some? && ClaimedBy(w, w.row.value.hash, Latest(w).value)
    ensures w.row.value.owner == Some(Latest(w).value.request) && w.row.value.lockedUntil == Some(Latest(w).value.lease)
    ensures w.row.value.hash != "" && Latest(w).value.request < |w.requests|
      && w.requests[Latest(w).value.request].hash == w.row.value.hash
  {}

  /** The insert claims a key that has no row, until a lease after the clock; otherwise the request goes on to read, and
      after three attempts it gives up. A claim stands even if its answer is lost. */
  lemma InsertExactly(start: Option<Row>, actions: seq<Action>, lease: int, r: Id, clock: int, lost: bool)
    requires Legacy(start) && r < |Run(start, actions, lease).requests| && Run(start, actions, lease).requests[r].phase.Inserting?
    ensures var w := Run(start, actions, lease);
      var u, attempt := Next(w, Insert(r, clock, lost), lease), w.requests[r].phase.attempt;
      && attempt <= 3
      && u.requests[r].phase == (
           if attempt == 3 then Done(InProgress)
           else if w.row.Some? then Reading(attempt, clock + lease)
           else if lost then Done(Broken) else Executing(clock + lease))
      && u.grants == w.grants + (if attempt < 3 && w.row.None? then [Grant(r, clock + lease, w.now)] else [])
      && (attempt < 3 && w.row.None? ==> ClaimedBy(u, w.requests[r].hash, Grant(r, clock + lease, w.now)))
  {
    ValidAlways(start, actions, lease);
    assert RequestFits(Run(start, actions, lease), start, r);
  }

  /** The read finds no row; or a row of another hash, a conflict; or an answer to replay; or a claim of the same hash whose
      lease is ahead, in progress; or one whose lease is not, to be taken over. */
  lemma ReadExactly(start: Option<Row>, actions: seq<Action>, lease: int, r: Id, clock: int)
    requires Legacy(start) && r < |Run(start, actions, lease).requests| && Run(start, actions, lease).requests[r].phase.Reading?
    ensures var w := Run(start, actions, lease);
      var p, hash := w.requests[r].phase, w.requests[r].hash;
      var next := Next(w, Read(r, clock), lease).requests[r].phase;
      && (next == Inserting(p.attempt + 1) <==> w.row.None?)
      && (next == Done(Conflict) <==> w.row.Some? && w.row.value.hash != "" && w.row.value.hash != hash)
      && (forall x :: next == Done(Replayed(x)) <==>
            w.row.Some? && (w.row.value.hash == "" || w.row.value.hash == hash) && w.row.value.response == Some(x))
      && (next == Done(InProgress) <==> exists g :: ClaimedBy(w, hash, g) && clock < g.lease)
      && (next == TakingOver(p.lease) <==> exists g :: ClaimedBy(w, hash, g) && g.lease <= clock)
  {
    ValidAlways(start, actions, lease);
    ReadOutcome(Run(start, actions, lease), start, r, clock, lease);
  }

  lemma ReadOutcome(w: World, start: Option<Row>, r: Id, clock: int, lease: int)
    requires Valid(w, start) && r < |w.requests| && w.requests[r].phase.Reading?
    ensures var p, hash, next := w.requests[r].phase, w.requests[r].hash, Next(w, Read(r, clock), lease).requests[r].phase;
      && (next == Inserting(p.attempt + 1) <==> w.row.None?)
      && (next == Done(Conflict) <==> w.row.Some? && w.row.value.hash != "" && w.row.value.hash != hash)
      && (forall x :: next == Done(Replayed(x)) <==>
            w.row.Some? && (w.row.value.hash == "" || w.row.value.hash == hash) && w.row.value.response == Some(x))
      && (next == Done(InProgress) <==> exists g :: ClaimedBy(w, hash, g) && clock < g.lease)
      && (next == TakingOver(p.lease) <==> exists g :: ClaimedBy(w, hash, g) && g.lease <= clock)
  {
    if w.row.Some? && w.row.value.response.None? { ClaimIsLatest(w, start); }
  }

  /** A takeover is granted exactly when the key is still claimed for the same hash, by a request whose lease has run out
      by the database clock; again even if its answer is lost. */
  lemma TakeOverExactly(start: Option<Row>, actions: seq<Action>, lease: int, r: Id, lost: bool)
    requires Legacy(start) && r < |Run(start, actions, lease).requests| && Run(start, actions, lease).requests[r].phase.TakingOver?
    ensures var w := Run(start, actions, lease);
      var u, own, hash := Next(w, TakeOver(r, lost), lease), w.requests[r].phase.lease, w.requests[r].hash;
      if exists g :: ClaimedBy(w, hash, g) && g.lease <= w.now then
        && u.requests[r].phase == (if lost then Done(Broken) else Executing(own))
        && ClaimedBy(u, hash, Grant(r, own, w.now)) && u.grants == w.grants + [Grant(r, own, w.now)]
      else u.requests[r].phase == Done(InProgress) && u.row == w.row && u.grants == w.grants
  {
    ValidAlways(start, actions, lease);
    var w := Run(start, actions, lease);
    assert RequestFits(w, start, r);
    if w.row.Some? && w.row.value.response.None? { ClaimIsLatest(w, start); }
  }

  /** A request that has executed stores a success, a status from 200 to 299, exactly when the claim is still its own; it
      sends the success if it learns that it is stored. */
  lemma CompleteExactly(start: Option<Row>, actions: seq<Action>, lease: int, r: Id, response: Response, lost: bool)
    requires Legacy(start) && r < |Run(start, actions, lease).requests| && Run(start, actions, lease).requests[r].phase.Executing?
    requires 200 <= response.status < 300
    ensures var w := Run(start, actions, lease);
      var u := Next(Next(w, Handle(r, response), lease), Complete(r, lost), lease);
      if exists g :: ClaimedBy(w, w.requests[r].hash, g) && g.request == r then
        && u.requests[r].phase == Done(if lost then FinalizationFailed else Answered(response)) && u.row.Some?
        && u.row.value.hash == w.requests[r].hash && u.row.value.response == Some(response)
      else u.requests[r].phase == Done(FinalizationFailed) && u.row == w.row
  {
    ValidAlways(start, actions, lease);
    var w := Run(start, actions, lease);
    if w.row.Some? && w.row.value.response.None? { ClaimIsLatest(w, start); }
  }

  /** Any other response is sent as it is and stored nowhere, and the key is free again if the claim was still its own. */
  lemma ReleaseExactly(start: Option<Row>, actions: seq<Action>, lease: int, r: Id, response: Response)
    requires Legacy(start) && r < |Run(start, actions, lease).requests| && Run(start, actions, lease).requests[r].phase.Executing?
    requires response.status < 200 || 300 <= response.status
    ensures var w := Run(start, actions, lease);
      var u := Next(Next(w, Handle(r, response), lease), Release(r), lease);
      && u.requests[r].phase == Done(Failed(response))
      && u.row == if exists g :: ClaimedBy(w, w.requests[r].hash, g) && g.request == r then None else w.row
  {
    ValidAlways(start, actions, lease);
    var w := Run(start, actions, lease);
    if w.row.Some? && w.row.value.response.None? { ClaimIsLatest(w, start); }
  }

  // ----- a request that never finishes -----

  /** A request that claims a free key keeps others with its hash waiting for a minute from its clock, or for the request
      lifetime and ten seconds, whichever is longer; from then on they may take over. */
  lemma ClaimBlocksExactly(start: Option<Row>, actions: seq<Action>, lifetime: int, r: Id, clock: int, lost: bool, q: Id, later: int)
    requires Legacy(start)
    requires var w := Run(start, actions, ConfiguredLease(lifetime));
      && w.row.None? && r < |w.requests| && q < |w.requests| && q != r && w.requests[q].hash == w.requests[r].hash
      && w.requests[r].phase.Inserting? && w.requests[r].phase.attempt < 3 && w.requests[q].phase.Reading?
    ensures var w, lease := Run(start, actions, ConfiguredLease(lifetime)), ConfiguredLease(lifetime);
      var p := w.requests[q].phase;
      Next(Next(w, Insert(r, clock, lost), lease), Read(q, later), lease).requests[q].phase
        == if later < clock + 60000 || later < clock + lifetime + 10000 then Done(InProgress) else TakingOver(p.lease)
  {}

  // ----- retries -----

  predicate AnsweredWith(w: World, hash: string, response: Response) {
    w.row.Some? && w.row.value.hash == hash && w.row.value.response == Some(response)
  }

  lemma StepKeepsAnswer(w: World, a: Action, lease: int, hash: string, response: Response)
    requires AnsweredWith(w, hash, response)
    ensures AnsweredWith(Next(w, a, lease), hash, response)
  {}

  lemma {:induction false} AnswerStays(start: Option<Row>, past: seq<Action>, future: seq<Action>, lease: int, hash: string,
                                       response: Response)
    requires AnsweredWith(Run(start, past, lease), hash, response)
    ensures AnsweredWith(Run(start, past + future, lease), hash, response)
  {
    if future == [] {
      assert past + future == past;
    } else {
      var init, last := future[..|future| - 1], future[|future| - 1];
      AnswerStays(start, past, init, lease, hash, response);
      StepKeepsAnswer(Run(start, past + init, lease), last, lease, hash, response);
      Extend(start, past + init, last, lease);
      assert past + init + [last] == past + future;
    }
  }

  predicate OfOthers(actions: seq<Action>, r: Id) {
    forall k :: 0 <= k < |actions| ==> actions[k].Arrive? || actions[k].Tick? || actions[k].r != r
  }

  lemma OtherStep(w: World, a: Action, lease: int, r: Id)
    requires r < |w.requests| && (a.Arrive? || a.Tick? || a.r != r)
    ensures r < |Next(w, a, lease).requests| && Next(w, a, lease).requests[r] == w.requests[r]
  {}

  /** What others do leaves a request where it is. */
  lemma {:induction false} OthersLeave(start: Option<Row>, past: seq<Action>, others: seq<Action>, lease: int, r: Id)
    requires r < |Run(start, past, lease).requests| && OfOthers(others, r)
    ensures var w, u := Run(start, past, lease), Run(start, past + others, lease);
      r < |u.requests| && u.requests[r] == w.requests[r]
  {
    if others == [] {
      assert past + others == past;
    } else {
      var init, last := others[..|others| - 1], others[|others| - 1];
      assert forall k :: 0 <= k < |init| ==> init[k] == others[k];
      OthersLeave(start, past, init, lease, r);
      OtherStep(Run(start, past + init, lease), last, lease, r);
      Extend(start, past + init, last, lease);
      assert past + init + [last] == past + others;
    }
  }

  /** Once request `c` has completed with a response, any request that inserts and then reads, whatever others do before
      and in between, is answered: with exactly that response if its hash is the same, and with a conflict if it is not. */
  lemma RetriesAreAnswered(start: Option<Row>, past: seq<Action>, c: Id, lost: bool, future: seq<Action>, r: Id,
                           clock: int, between: seq<Action>, later: int, lease: int)
    requires Legacy(start)
    requires var w := Run(start, past, lease);
      && c < |w.requests| && w.requests[c].phase.Completing?
      && |w.completed| < |Run(start, past + [Complete(c, lost)], lease).completed|
    requires var u := Run(start, past + [Complete(c, lost)] + future, lease);
      r < |u.requests| && u.requests[r].phase.Inserting? && u.requests[r].phase.attempt < 3
    requires OfOthers(between, r)
    ensures var w := Run(start, past, lease);
      var u := Run(start, past + [Complete(c, lost)] + future + [Insert(r, clock, false)] + between + [Read(r, later)], lease);
      var response := w.requests[c].phase.response;
      && r < |u.requests|
      && u.requests[r].phase == Done(if u.requests[r].hash == w.requests[c].hash then Replayed(response) else Conflict)
  {
    var w := Run(start, past, lease);
    var hash, response := w.requests[c].hash, w.requests[c].phase.response;
    ValidAlways(start, past, lease);
    assert RequestFits(w, start, c);
    Extend(start, past, Complete(c, lost), lease);
    var stored := past + [Complete(c, lost)];
    assert AnsweredWith(Run(start, stored, lease), hash, response);
    RetryIsAnswered(start, stored, future, r, clock, between, later, lease, hash, response);
  }

  lemma RetryIsAnswered(start: Option<Row>, stored: seq<Action>, future: seq<Action>, r: Id, clock: int, between: seq<Action>,
                        later: int, lease: int, hash: string, response: Response)
    requires AnsweredWith(Run(start, stored, lease), hash, response) && hash != "" && OfOthers(between, r)
    requires var u := Run(start, stored + future, lease);
      r < |u.requests| && u.requests[r].phase.Inserting? && u.requests[r].phase.attempt < 3
    ensures var u := Run(start, stored + future + [Insert(r, clock, false)] + between + [Read(r, later)], lease);
      r < |u.requests| && u.requests[r].phase == Done(if u.requests[r].hash == hash then Replayed(response) else Conflict)
  {
    var before := stored + future;
    var inserted := before + [Insert(r, clock, false)];
    var waited := inserted + between;
    AnswerStays(start, stored, future, lease, hash, response);
    Extend(start, before, Insert(r, clock, false), lease);
    StepKeepsAnswer(Run(start, before, lease), Insert(r, clock, false), lease, hash, response);
    AnswerStays(start, inserted, between, lease, hash, response);
    OthersLeave(start, inserted, between, lease, r);
    Extend(start, waited, Read(r, later), lease);
  }
}
