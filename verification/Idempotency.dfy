/** The claim protocol for one (credential, operation, key). Requests run their SQL statements in any interleaving, may
    overrun their lease, lose a statement's answer or die; the database clock only moves forward, application clocks
    are arbitrary. */
module Idempotency {
  import opened Schema

  datatype Response = Response(status: int, body: string)

  predicate Successful(r: Response) { 200 <= r.status < 300 }

  /** The row of the key. A row without a response is PROCESSING; a legacy row has no owner and an empty hash. */
  datatype Row = Row(owner: Option<Id>, hash: string, response: Option<Response>, lockedUntil: Option<int>)

  datatype Reply = Answered(response: Response) | Replayed(response: Response) | Failed(response: Response)
    | Conflict | InProgress | FinalizationFailed | Broken

  /** The statement that a request runs next; `lease` is the end of the lease it computed or was granted. */
  datatype Phase = Inserting(attempt: nat) | Reading(attempt: nat, lease: int) | TakingOver(lease: int)
    | Executing(lease: int) | Completing(lease: int, response: Response) | Releasing(lease: int, response: Response)
    | Done(reply: Reply)

  datatype Request = Request(hash: string, arrived: int, phase: Phase)

  /** Permission to execute, given to `request` until `lease` at database time `at`. */
  datatype Grant = Grant(request: Id, lease: int, at: int)

  /** `grants`, `released` and `completed` record what has happened; no statement reads them. */
  datatype World = World(row: Option<Row>, requests: seq<Request>, now: int,
    grants: seq<Grant>, released: set<Id>, completed: seq<Id>)

  /** `lost`: the statement takes effect but its answer does not arrive. */
  datatype Action =
    | Arrive(hash: string)
    | Tick(now: int)
    | Insert(r: Id, clock: int, lost: bool)
    | Read(r: Id, clock: int)
    | TakeOver(r: Id, lost: bool)
    | Handle(r: Id, response: Response)
    | Complete(r: Id, lost: bool)
    | Release(r: Id)
    | Die(r: Id)

  const MAX_ATTEMPTS: nat := 3

  function WithPhase(w: World, r: Id, phase: Phase): World
    requires r < |w.requests|
  {
    w.(requests := w.requests[r := w.requests[r].(phase := phase)])
  }

  function Granted(w: World, r: Id, row: Row, lease: int, lost: bool): World
    requires r < |w.requests|
  {
    WithPhase(w, r, if lost then Done(Broken) else Executing(lease)).(row := Some(row), grants := w.grants + [Grant(r, lease, w.now)])
  }

  function InsertStep(w: World, r: Id, attempt: nat, clock: int, lease: int, lost: bool): World
    requires r < |w.requests|
  {
    if attempt >= MAX_ATTEMPTS then WithPhase(w, r, Done(InProgress))
    else if w.row.None? then
      Granted(w, r, Row(Some(r), w.requests[r].hash, None, Some(clock + lease)), clock + lease, lost)
    else WithPhase(w, r, Reading(attempt, clock + lease))
  }

  function ReadStep(w: World, r: Id, attempt: nat, lease: int, clock: int): World
    requires r < |w.requests|
  {
    match w.row
    case None => WithPhase(w, r, Inserting(attempt + 1))
    case Some(row) =>
      if row.hash != "" && row.hash != w.requests[r].hash then WithPhase(w, r, Done(Conflict))
      else if row.response.Some? then WithPhase(w, r, Done(Replayed(row.response.value)))
      else if row.lockedUntil.Some? && row.lockedUntil.value > clock then WithPhase(w, r, Done(InProgress))
      else WithPhase(w, r, TakingOver(lease))
  }

  function TakeOverStep(w: World, r: Id, lease: int, lost: bool): World
    requires r < |w.requests|
  {
    if w.row.Some? && w.row.value.response.None? && (w.row.value.lockedUntil.Some? ==> w.row.value.lockedUntil.value <= w.now)
      && (w.row.value.hash == "" || w.row.value.hash == w.requests[r].hash)
    then Granted(w, r, Row(Some(r), w.requests[r].hash, None, Some(lease)), lease, lost)
    else WithPhase(w, r, Done(InProgress))
  }

  /** The row is request `r`'s own unfinished claim: the guard of both `Complete` and `Release`. */
  predicate Owns(w: World, r: Id)
    requires r < |w.requests|
  {
    w.row.Some? && w.row.value.owner == Some(r) && w.row.value.hash == w.requests[r].hash && w.row.value.response.None?
  }

  function CompleteStep(w: World, r: Id, response: Response, lost: bool): World
    requires r < |w.requests|
  {
    if !Owns(w, r) then WithPhase(w, r, Done(FinalizationFailed))
    else WithPhase(w, r, Done(if lost then FinalizationFailed else Answered(response))).(
      row := Some(w.row.value.(response := Some(response), lockedUntil := None)), completed := w.completed + [r])
  }

  function ReleaseStep(w: World, r: Id, response: Response): World
    requires r < |w.requests|
  {
    var sent := WithPhase(w, r, Done(Failed(response)));
    if Owns(w, r) then sent.(row := None, released := w.released + {r}) else sent
  }

  /** A request runs the statement its phase calls for. */
  function RequestStep(w: World, a: Action, p: Phase, lease: int): World
    requires !a.Arrive? && !a.Tick? && a.r < |w.requests|
  {
    if a.Insert? && p.Inserting? then InsertStep(w, a.r, p.attempt, a.clock, lease, a.lost)
    else if a.Read? && p.Reading? then ReadStep(w, a.r, p.attempt, p.lease, a.clock)
    else if a.TakeOver? && p.TakingOver? then TakeOverStep(w, a.r, p.lease, a.lost)
    else if a.Handle? && p.Executing? then
      WithPhase(w, a.r, if Successful(a.response) then Completing(p.lease, a.response) else Releasing(p.lease, a.response))
    else if a.Complete? && p.Completing? then CompleteStep(w, a.r, p.response, a.lost)
    else if a.Release? && p.Releasing? then ReleaseStep(w, a.r, p.response)
    else if a.Die? && !p.Done? then WithPhase(w, a.r, Done(Broken))
    else w
  }

  /** One action; an action that is not enabled changes nothing. `lease` is the configured lease. */
  function Next(w: World, a: Action, lease: int): World {
    match a
    case Arrive(hash) => if hash == "" then w else w.(requests := w.requests + [Request(hash, w.now, Inserting(0))])
    case Tick(now) => if now < w.now then w else w.(now := now)
    case _ => if a.r < |w.requests| then RequestStep(w, a, w.requests[a.r].phase, lease) else w
  }

  function Run(start: Option<Row>, actions: seq<Action>, lease: int): World {
    if actions == [] then World(start, [], 0, [], {}, [])
    else Next(Run(start, actions[..|actions| - 1], lease), actions[|actions| - 1], lease)
  }

  /** A key starts without a row, or with a completed row from before hashes were stored. */
  predicate Legacy(start: Option<Row>) {
    start.Some? ==> start.value.owner.None? && start.value.hash == "" && start.value.response.Some?
  }

  // ----- the invariant -----

  predicate Running(p: Phase) { p.Executing? || p.Completing? || p.Releasing? }

  /** The successful answer a request has sent, if it has sent one. */
  function Sent(p: Phase): Option<Response> {
    if p.Done? && (p.reply.Answered? || p.reply.Replayed?) then Some(p.reply.response) else None
  }

  /** Grant `g` was over by database time `at`: released by its owner, or past its lease. */
  predicate Over(w: World, g: Grant, at: int) { g.request in w.released || g.lease <= at }

  predicate RowFits(w: World, start: Option<Row>) {
    match w.row
    case None => w.completed == [] && start.None? && (w.grants != [] ==> w.grants[|w.grants| - 1].request in w.released)
    case Some(row) =>
      if row.response.None? then
        && w.completed == [] && start.None? && row.hash != ""
        && w.grants != [] && var g := w.grants[|w.grants| - 1];
        && row.owner == Some(g.request) && row.lockedUntil == Some(g.lease) && g.request !in w.released
        && g.request < |w.requests| && w.requests[g.request].hash == row.hash
      else if start.Some? then w.row == start && w.grants == [] && w.completed == []
      else |w.completed| == 1 && row.hash != ""
  }

  predicate RequestFits(w: World, start: Option<Row>, r: Id)
    requires r < |w.requests|
  {
    var p := w.requests[r].phase;
    && w.requests[r].hash != ""
    && (p.Inserting? || p.Reading? || p.TakingOver? ==>
          r !in w.released && forall k :: 0 <= k < |w.grants| ==> w.grants[k].request != r)
    && (Running(p) ==> r !in w.released && exists k :: 0 <= k < |w.grants| && w.grants[k].request == r && w.grants[k].lease == p.lease)
    && (p.Inserting? ==> p.attempt <= MAX_ATTEMPTS) && (p.Reading? ==> p.attempt < MAX_ATTEMPTS)
    && (Sent(p).Some? ==> w.row.Some? && w.row.value.response == Sent(p) && (start.None? ==> w.row.value.hash == w.requests[r].hash))
  }

  predicate GrantsFit(w: World) {
    && (forall k :: 0 <= k < |w.grants| ==> w.grants[k].at <= w.now && w.grants[k].request < |w.requests|)
    && (forall r <- w.released :: r < |w.requests|)
    && (forall j, k :: 0 <= j < k < |w.grants| ==>
          w.grants[j].request != w.grants[k].request && Over(w, w.grants[j], w.grants[k].at))
  }

  ghost predicate Valid(w: World, start: Option<Row>) {
    && Legacy(start) && RowFits(w, start) && GrantsFit(w)
    && forall r: Id :: r < |w.requests| ==> RequestFits(w, start, r)
  }

  lemma PhaseKeepsValid(w: World, start: Option<Row>, r: Id, phase: Phase)
    requires Valid(w, start) && r < |w.requests|
    requires var u := WithPhase(w, r, phase); RequestFits(u, start, r)
    ensures Valid(WithPhase(w, r, phase), start)
  {
    var u := WithPhase(w, r, phase);
    forall q: Id | q < |u.requests| ensures RequestFits(u, start, q) { assert RequestFits(w, start, q); }
  }

  lemma GrantKeepsValid(w: World, start: Option<Row>, r: Id, lease: int, lost: bool)
    requires Valid(w, start) && r < |w.requests| && start.None?
    requires w.requests[r].phase.Inserting? || w.requests[r].phase.TakingOver?
    requires w.row.None? || (w.row.value.response.None? && w.row.value.lockedUntil.Some? && w.row.value.lockedUntil.value <= w.now)
    ensures Valid(Granted(w, r, Row(Some(r), w.requests[r].hash, None, Some(lease)), lease, lost), start)
  {
    var u := Granted(w, r, Row(Some(r), w.requests[r].hash, None, Some(lease)), lease, lost);
    var n := |w.grants|;
    assert RequestFits(w, start, r);
    assert u.grants[n] == Grant(r, lease, w.now);
    forall q: Id | q < |u.requests| ensures RequestFits(u, start, q) {
      assert RequestFits(w, start, q);
      if Running(w.requests[q].phase) {
        var k :| 0 <= k < n && w.grants[k].request == q && w.grants[k].lease == w.requests[q].phase.lease;
        assert u.grants[k] == w.grants[k];
      }
    }
  }

  /** The statements that neither grant nor end a claim only move the request on. */
  lemma QuietStepKeepsValid(w: World, start: Option<Row>, a: Action, lease: int)
    requires Valid(w, start) && !a.Arrive? && !a.Tick? && a.r < |w.requests|
    requires var u := RequestStep(w, a, w.requests[a.r].phase, lease);
      u == WithPhase(w, a.r, u.requests[a.r].phase)
    ensures Valid(RequestStep(w, a, w.requests[a.r].phase, lease), start)
  {
    assert RequestFits(w, start, a.r);
    PhaseKeepsValid(w, start, a.r, RequestStep(w, a, w.requests[a.r].phase, lease).requests[a.r].phase);
  }

  lemma InsertKeepsValid(w: World, start: Option<Row>, r: Id, clock: int, lease: int, lost: bool)
    requires Valid(w, start) && r < |w.requests| && w.requests[r].phase.Inserting?
    ensures Valid(InsertStep(w, r, w.requests[r].phase.attempt, clock, lease, lost), start)
  {
    if w.requests[r].phase.attempt < MAX_ATTEMPTS && w.row.None? {
      GrantKeepsValid(w, start, r, clock + lease, lost);
    } else {
      QuietStepKeepsValid(w, start, Insert(r, clock, lost), lease);
    }
  }

  lemma TakeOverKeepsValid(w: World, start: Option<Row>, r: Id, lost: bool)
    requires Valid(w, start) && r < |w.requests| && w.requests[r].phase.TakingOver?
    ensures Valid(TakeOverStep(w, r, w.requests[r].phase.lease, lost), start)
  {
    var p := w.requests[r].phase;
    if TakeOverStep(w, r, p.lease, lost) == WithPhase(w, r, Done(InProgress)) {
      QuietStepKeepsValid(w, start, TakeOver(r, lost), 0);
    } else {
      GrantKeepsValid(w, start, r, p.lease, lost);
    }
  }

  lemma RequestStepKeepsValid(w: World, start: Option<Row>, a: Action, lease: int)
    requires Valid(w, start) && !a.Arrive? && !a.Tick? && a.r < |w.requests|
    ensures Valid(RequestStep(w, a, w.requests[a.r].phase, lease), start)
  {
    var p := w.requests[a.r].phase;
    if a.Insert? && p.Inserting? {
      InsertKeepsValid(w, start, a.r, a.clock, lease, a.lost);
    } else if a.TakeOver? && p.TakingOver? {
      TakeOverKeepsValid(w, start, a.r, a.lost);
    } else if a.Complete? && p.Completing? && Owns(w, a.r) {
      CompletionKeepsValid(w, start, a.r, a.lost);
    } else if a.Release? && p.Releasing? && Owns(w, a.r) {
      ReleaseKeepsValid(w, start, a.r);
    } else {
      var u := RequestStep(w, a, p, lease);
      assert u.row == w.row && u.released == w.released && u.completed == w.completed && u.grants == w.grants;
      QuietStepKeepsValid(w, start, a, lease);
    }
  }

  lemma StepKeepsValid(w: World, start: Option<Row>, a: Action, lease: int)
    requires Valid(w, start)
    ensures Valid(Next(w, a, lease), start)
  {
    var u := Next(w, a, lease);
    if a.Arrive? || a.Tick? {
      forall q: Id | q < |u.requests| ensures RequestFits(u, start, q) { if q < |w.requests| { assert RequestFits(w, start, q); } }
    } else if a.r < |w.requests| {
      RequestStepKeepsValid(w, start, a, lease);
    }
  }

  lemma CompletionKeepsValid(w: World, start: Option<Row>, r: Id, lost: bool)
    requires Valid(w, start) && r < |w.requests| && w.requests[r].phase.Completing? && Owns(w, r)
    ensures Valid(CompleteStep(w, r, w.requests[r].phase.response, lost), start)
  {
    var u := CompleteStep(w, r, w.requests[r].phase.response, lost);
    forall q: Id | q < |u.requests| ensures RequestFits(u, start, q) { assert RequestFits(w, start, q); }
  }

  lemma ReleaseKeepsValid(w: World, start: Option<Row>, r: Id)
    requires Valid(w, start) && r < |w.requests| && w.requests[r].phase.Releasing? && Owns(w, r)
    ensures Valid(ReleaseStep(w, r, w.requests[r].phase.response), start)
  {
    var u := ReleaseStep(w, r, w.requests[r].phase.response);
    forall q: Id | q < |u.requests| ensures RequestFits(u, start, q) { assert RequestFits(w, start, q); }
  }

  lemma {:induction false} ValidAlways(start: Option<Row>, actions: seq<Action>, lease: int)
    requires Legacy(start)
    ensures Valid(Run(start, actions, lease), start)
  {
    if actions == [] {
    } else {
      ValidAlways(start, actions[..|actions| - 1], lease);
      StepKeepsValid(Run(start, actions[..|actions| - 1], lease), start, actions[|actions| - 1], lease);
    }
  }

  // ----- what the protocol promises -----

  /** All successful answers ever sent for a key are the same, and belong to the same request hash; only a legacy
      response, stored without a hash, answers requests of any hash. */
  lemma OneAnswerPerKey(start: Option<Row>, actions: seq<Action>, lease: int, i: Id, j: Id)
    requires Legacy(start)
    requires var w := Run(start, actions, lease);
      i < |w.requests| && j < |w.requests| && Sent(w.requests[i].phase).Some? && Sent(w.requests[j].phase).Some?
    ensures var w := Run(start, actions, lease);
      && Sent(w.requests[i].phase) == Sent(w.requests[j].phase)
      && (start.None? ==> w.requests[i].hash == w.requests[j].hash)
      && (start.Some? ==> Sent(w.requests[i].phase) == start.value.response)
  {
    ValidAlways(start, actions, lease);
    var w := Run(start, actions, lease);
    assert RequestFits(w, start, i) && RequestFits(w, start, j);
  }

  /** At most one `Complete` ever succeeds, and none for a key with a legacy response. */
  lemma OneCompletionPerKey(start: Option<Row>, actions: seq<Action>, lease: int)
    requires Legacy(start)
    ensures |Run(start, actions, lease).completed| <= if start.None? then 1 else 0
  {
    ValidAlways(start, actions, lease);
  }

  /** Between two grants the earlier owner released the claim or its lease had expired by the database clock; a
      request is granted at most once. */
  lemma GrantsAreSuccessive(start: Option<Row>, actions: seq<Action>, lease: int, j: nat, k: nat)
    requires Legacy(start) && j < k < |Run(start, actions, lease).grants|
    ensures var w := Run(start, actions, lease);
      w.grants[j].request != w.grants[k].request && Over(w, w.grants[j], w.grants[k].at)
  {
    ValidAlways(start, actions, lease);
  }

  /** Once a later grant exists, the replaced owner's `Complete` and `Release` leave the row as it is. */
  lemma ReplacedOwnerIsHarmless(start: Option<Row>, actions: seq<Action>, lease: int, j: nat, a: Action)
    requires Legacy(start)
    requires var w := Run(start, actions, lease); j + 1 < |w.grants| && (a.Complete? || a.Release?) && a.r == w.grants[j].request
    ensures var w := Run(start, actions, lease); Next(w, a, lease).row == w.row && Next(w, a, lease).completed == w.completed
  {
    ValidAlways(start, actions, lease);
    var w := Run(start, actions, lease);
    assert w.grants[j].request != w.grants[|w.grants| - 1].request;
  }

  /** Two requests execute at once only if one of them has overrun its lease by the database clock. */
  lemma OverlapNeedsOverrun(start: Option<Row>, actions: seq<Action>, lease: int, i: Id, j: Id)
    requires Legacy(start)
    requires var w := Run(start, actions, lease);
      i < |w.requests| && j < |w.requests| && i != j && Running(w.requests[i].phase) && Running(w.requests[j].phase)
    ensures var w := Run(start, actions, lease); w.requests[i].phase.lease <= w.now || w.requests[j].phase.lease <= w.now
  {
    ValidAlways(start, actions, lease);
    var w := Run(start, actions, lease);
    assert RequestFits(w, start, i) && RequestFits(w, start, j);
    var a :| 0 <= a < |w.grants| && w.grants[a].request == i && w.grants[a].lease == w.requests[i].phase.lease;
    var b :| 0 <= b < |w.grants| && w.grants[b].request == j && w.grants[b].lease == w.requests[j].phase.lease;
    assert a < b || b < a;
  }

  // ----- the configured lease -----

  const MARGIN := 10000

  /** The lease that the server configures, in milliseconds: it outlasts a request by the margin, and is a minute at least. */
  function ConfiguredLease(lifetime: int): int { if lifetime + MARGIN < 60000 then 60000 else lifetime + MARGIN }

  /** What `Complete` and `Release` may take on top of the request's lifetime. */
  const SETTLING := 2000

  /** The time from arrival by which a request is through with this phase. */
  function Due(p: Phase, lifetime: int): int { if p.Executing? then lifetime else lifetime + SETTLING }

  /** Every execution is within `lifetime` of its request's arrival, and settling its claim within two seconds more. */
  predicate InTime(w: World, lifetime: int) {
    forall r: Id :: r < |w.requests| && Running(w.requests[r].phase) ==>
      w.now <= w.requests[r].arrived + Due(w.requests[r].phase, lifetime)
  }

  /** In every state of the run executions are in time, and no application clock is as far behind the database's as the
      rest of the margin when a request computes its lease. */
  predicate Punctual(start: Option<Row>, actions: seq<Action>, lifetime: int) {
    && InTime(Run(start, actions, ConfiguredLease(lifetime)), lifetime)
    && (actions != [] ==>
          var before, last := Run(start, actions[..|actions| - 1], ConfiguredLease(lifetime)), actions[|actions| - 1];
          Punctual(start, actions[..|actions| - 1], lifetime) && (last.Insert? ==> before.now - last.clock < MARGIN - SETTLING))
  }

  predicate HasLease(p: Phase) { p.Reading? || p.TakingOver? || Running(p) }

  predicate LeasesOutlast(w: World, lifetime: int) {
    forall r: Id :: r < |w.requests| ==>
      var q := w.requests[r];
      q.arrived <= w.now && (HasLease(q.phase) ==> q.arrived + lifetime + SETTLING < q.phase.lease)
  }

  lemma StepOutlasts(w: World, a: Action, lifetime: int)
    requires LeasesOutlast(w, lifetime) && (a.Insert? ==> w.now - a.clock < MARGIN - SETTLING)
    ensures LeasesOutlast(Next(w, a, ConfiguredLease(lifetime)), lifetime)
  {
    if !a.Arrive? && !a.Tick? && a.r < |w.requests| {
      RequestStepOutlasts(w, a, w.requests[a.r].phase, ConfiguredLease(lifetime), lifetime);
    }
  }

  lemma RequestStepOutlasts(w: World, a: Action, p: Phase, lease: int, lifetime: int)
    requires LeasesOutlast(w, lifetime) && (a.Insert? ==> w.now - a.clock < MARGIN - SETTLING) && lifetime + MARGIN <= lease
    requires !a.Arrive? && !a.Tick? && a.r < |w.requests| && p == w.requests[a.r].phase
    ensures LeasesOutlast(RequestStep(w, a, p, lease), lifetime)
  {}

  lemma {:induction false} LeasesAlwaysOutlast(start: Option<Row>, actions: seq<Action>, lifetime: int)
    requires Punctual(start, actions, lifetime)
    ensures LeasesOutlast(Run(start, actions, ConfiguredLease(lifetime)), lifetime)
  {
    if actions == [] {
    } else {
      var init := actions[..|actions| - 1];
      LeasesAlwaysOutlast(start, init, lifetime);
      StepOutlasts(Run(start, init, ConfiguredLease(lifetime)), actions[|actions| - 1], lifetime);
    }
  }

  /** With the configured lease, clocks less than eight seconds apart, executions within the request lifetime and claims
      settled within two seconds more, no two requests for a key are ever executing or settling at once. */
  lemma PunctualExecutionsDoNotOverlap(start: Option<Row>, actions: seq<Action>, lifetime: int, i: Id, j: Id)
    requires Legacy(start) && Punctual(start, actions, lifetime)
    requires var w := Run(start, actions, ConfiguredLease(lifetime)); i < |w.requests| && j < |w.requests| && i != j
    ensures var w := Run(start, actions, ConfiguredLease(lifetime));
      !Running(w.requests[i].phase) || !Running(w.requests[j].phase)
  {
    var w := Run(start, actions, ConfiguredLease(lifetime));
    LeasesAlwaysOutlast(start, actions, lifetime);
    if Running(w.requests[i].phase) && Running(w.requests[j].phase) {
      OverlapNeedsOverrun(start, actions, ConfiguredLease(lifetime), i, j);
      assert HasLease(w.requests[i].phase) && HasLease(w.requests[j].phase);
      assert false;
    }
  }

  // ----- legacy rows -----

  lemma Extend(start: Option<Row>, actions: seq<Action>, a: Action, lease: int)
    ensures Run(start, actions + [a], lease) == Next(Run(start, actions, lease), a, lease)
  {
    assert (actions + [a])[..|actions|] == actions;
  }

  /** A request of any hash that comes to a legacy row is answered with its response. */
  lemma LegacyAnswers(start: Option<Row>, actions: seq<Action>, hash: string, lease: int) returns (more: seq<Action>)
    requires Legacy(start) && start.Some? && hash != "" && Run(start, actions, lease).row == start
    ensures var w, u := Run(start, actions, lease), Run(start, more, lease);
      && u.row == start && |u.requests| == |w.requests| + 1 && u.requests[..|w.requests|] == w.requests
      && u.requests[|w.requests|] == Request(hash, w.now, Done(Replayed(start.value.response.value)))
  {
    var clock := if start.value.lockedUntil.Some? then start.value.lockedUntil.value else 0;
    var r := |Run(start, actions, lease).requests|;
    var arrived := actions + [Arrive(hash)];
    var inserted := arrived + [Insert(r, clock, false)];
    more := inserted + [Read(r, clock)];
    Extend(start, actions, Arrive(hash), lease);
    Extend(start, arrived, Insert(r, clock, false), lease);
    Extend(start, inserted, Read(r, clock), lease);
    LegacyTurn(Run(start, actions, lease), hash, clock, lease);
  }

  lemma LegacyTurn(w: World, hash: string, clock: int, lease: int)
    requires w.row.Some? && w.row.value.hash == "" && w.row.value.response.Some? && hash != ""
    ensures var r := |w.requests|;
      var u := Next(Next(Next(w, Arrive(hash), lease), Insert(r, clock, false), lease), Read(r, clock), lease);
      && u.row == w.row && |u.requests| == r + 1 && u.requests[..r] == w.requests
      && u.requests[r] == Request(hash, w.now, Done(Replayed(w.row.value.response.value)))
  {}

  /** Two requests of different hashes get the same stored answer from a legacy row: the one hash per key of
      `OneAnswerPerKey` really fails there. */
  lemma LegacyAnswersTwoHashes(start: Option<Row>, a: string, b: string, lease: int) returns (actions: seq<Action>)
    requires Legacy(start) && start.Some? && a != "" && b != "" && a != b
    ensures var w := Run(start, actions, lease);
      && |w.requests| == 2 && w.requests[0].hash == a && w.requests[1].hash == b
      && Sent(w.requests[0].phase) == Sent(w.requests[1].phase) == start.value.response
  {
    actions := LegacyAnswers(start, [], a, lease);
    var first := Run(start, actions, lease);
    actions := LegacyAnswers(start, actions, b, lease);
    assert Run(start, actions, lease).requests[..1][0] == first.requests[0];
  }
}
