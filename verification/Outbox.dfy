/** Outbox publication: any number of publishers work through candidate lists that may be stale, while events are
    recorded and replayed and subscriptions change. */
module Outbox {
  import opened Schema

  /** An event and its outbox row. `fanouts` and `replays` count fan-outs and effective replays; no statement reads them. */
  datatype Entry = Entry(shop: Id, kind: Id, published: bool, fanouts: nat, replays: nat)

  datatype Hook = Hook(shop: Id, enabled: bool, deleted: bool, kinds: set<Id>)

  /** A delivery row, for a webhook and an event. */
  datatype Delivery = Delivery(hook: Id, event: Id)

  /** `duplicating` are the shops whose scenario asks for duplicate deliveries. */
  datatype Feed = Feed(entries: seq<Entry>, hooks: seq<Hook>, duplicating: set<Id>, deliveries: seq<Delivery>)

  const START := Feed([], [], {}, [])

  predicate Matches(h: Hook, e: Entry) { h.shop == e.shop && h.enabled && !h.deleted && e.kind in h.kinds }

  function Copies(f: Feed, e: Id): nat
    requires e < |f.entries|
  {
    if f.entries[e].shop in f.duplicating then 2 else 1
  }

  /** The webhooks among the first `n` that the subscription query returns for event `e`. */
  function Subscribers(f: Feed, e: Id, n: nat): (r: seq<Id>)
    requires e < |f.entries| && n <= |f.hooks|
    ensures forall h: Id :: h in r <==> h < n && Matches(f.hooks[h], f.entries[e])
    ensures forall j, k :: 0 <= j < k < |r| ==> r[j] != r[k]
  {
    if n == 0 then []
    else
      var before := Subscribers(f, e, n - 1);
      if Matches(f.hooks[n - 1], f.entries[e]) then
        assert forall j :: 0 <= j < |before| ==> before[j] in before;
        before + [n - 1]
      else before
  }

  /** `copies` deliveries of event `e` for each hook in turn. */
  function Rows(hooks: seq<Id>, e: Id, copies: nat): seq<Delivery> {
    if hooks == [] then []
    else Rows(hooks[..|hooks| - 1], e, copies) + seq(copies, i => Delivery(hooks[|hooks| - 1], e))
  }

  function FannedOut(f: Feed, e: Id, copies: nat): seq<Delivery>
    requires e < |f.entries|
  {
    f.deliveries + Rows(Subscribers(f, e, |f.hooks|), e, copies)
  }

  /** One publisher's transaction for one candidate. */
  function PublishTx(f: Feed, e: Id): Feed {
    if e >= |f.entries| || f.entries[e].published then f
    else f.(deliveries := FannedOut(f, e, Copies(f, e)),
            entries := f.entries[e := f.entries[e].(published := true, fanouts := f.entries[e].fanouts + 1)])
  }

  function PublishAll(f: Feed, candidates: seq<Id>): Feed {
    if candidates == [] then f else PublishTx(PublishAll(f, candidates[..|candidates| - 1]), candidates[|candidates| - 1])
  }

  function ReplayTx(f: Feed, e: Id): Feed {
    if e >= |f.entries| then f
    else
      var was := f.entries[e];
      f.(entries := f.entries[e := was.(published := false, replays := was.replays + if was.published then 1 else 0)])
  }

  class Worker {
    var feed: Feed

    constructor (feed: Feed)
      ensures this.feed == feed
    {
      this.feed := feed;
    }

    /** The nested insert loops of the fan-out. */
    method FanOut(e: Id, copies: nat)
      requires e < |feed.entries|
      modifies this
      ensures feed == old(feed).(deliveries := FannedOut(old(feed), e, copies))
    {
      var hooks := Subscribers(feed, e, |feed.hooks|);
      for j := 0 to |hooks|
        invariant feed == old(feed).(deliveries := old(feed).deliveries + Rows(hooks[..j], e, copies))
      {
        assert hooks[..j + 1][..j] == hooks[..j];
        ghost var before := feed.deliveries;
        for i := 0 to copies
          invariant feed == old(feed).(deliveries := before + seq(i, x => Delivery(hooks[j], e)))
        {
          feed := feed.(deliveries := feed.deliveries + [Delivery(hooks[j], e)]);
        }
      }
      assert hooks[..|hooks|] == hooks;
    }

    /** `publishOutbox` over the candidates that its first query returned, however old they are by now. */
    method PublishOutbox(candidates: seq<Id>)
      modifies this
      ensures feed == PublishAll(old(feed), candidates)
    {
      for j := 0 to |candidates|
        invariant feed == PublishAll(old(feed), candidates[..j])
      {
        assert candidates[..j + 1][..j] == candidates[..j];
        var e := candidates[j];
        if e >= |feed.entries| || feed.entries[e].published { continue; }
        var copies := if feed.entries[e].shop in feed.duplicating then 2 else 1;
        FanOut(e, copies);
        feed := feed.(entries := feed.entries[e := feed.entries[e].(published := true, fanouts := feed.entries[e].fanouts + 1)]);
      }
      assert candidates[..|candidates|] == candidates;
    }
  }

  // ----- counting deliveries -----

  function Count(ds: seq<Delivery>, h: Id, e: Id): nat { multiset(ds)[Delivery(h, e)] }

  lemma {:induction false} RowsCount(hooks: seq<Id>, e: Id, copies: nat, h: Id, x: Id)
    requires forall j, k :: 0 <= j < k < |hooks| ==> hooks[j] != hooks[k]
    ensures Count(Rows(hooks, e, copies), h, x) == if h in hooks && x == e then copies else 0
  {
    if hooks == [] {
    } else {
      var m := |hooks| - 1;
      var init, last := hooks[..m], hooks[m];
      RowsCount(init, e, copies, h, x);
      CopiesCount(Delivery(last, e), copies, Delivery(h, x));
      assert h in hooks <==> h in init || h == last;
      assert multiset(Rows(hooks, e, copies)) == multiset(Rows(init, e, copies)) + multiset(seq(copies, i => Delivery(last, e)));
    }
  }

  lemma {:induction false} CopiesCount(d: Delivery, n: nat, x: Delivery)
    ensures multiset(seq(n, i => d))[x] == if x == d then n else 0
  {
    if n == 0 {
    } else {
      CopiesCount(d, n - 1, x);
      assert seq(n, i => d) == seq(n - 1, i => d) + [d];
    }
  }

  /** A fan-out adds exactly `copies` deliveries for each enabled and live webhook of the event's shop that subscribes to
      its kind, and no others. */
  lemma FanOutCount(f: Feed, e: Id, copies: nat, h: Id, x: Id)
    requires e < |f.entries|
    ensures Count(FannedOut(f, e, copies), h, x) == Count(f.deliveries, h, x)
      + if && x == e && h < |f.hooks| && f.hooks[h].shop == f.entries[e].shop && f.entries[e].kind in f.hooks[h].kinds
           && f.hooks[h].enabled && !f.hooks[h].deleted then copies else 0
  {
    var rows := Rows(Subscribers(f, e, |f.hooks|), e, copies);
    RowsCount(Subscribers(f, e, |f.hooks|), e, copies, h, x);
    assert multiset(f.deliveries + rows) == multiset(f.deliveries) + multiset(rows);
  }

  // ----- runs -----

  datatype Step = Recorded(shop: Id, kind: Id) | Publishes(candidate: Id) | Replays(event: Id)
    | Manual(event: Id, copies: nat) | Subscribes(hook: Hook) | EditsHook(id: Id, hook: Hook) | Duplicates(shop: Id, on: bool)

  function Next(f: Feed, s: Step): Feed {
    match s
    case Recorded(shop, kind) => f.(entries := f.entries + [Entry(shop, kind, false, 0, 0)])
    case Publishes(e) => PublishTx(f, e)
    case Replays(e) => ReplayTx(f, e)
    case Manual(e, copies) => if e < |f.entries| then f.(deliveries := FannedOut(f, e, copies)) else f
    case Subscribes(hook) => f.(hooks := f.hooks + [hook])
    case EditsHook(id, hook) => if id < |f.hooks| then f.(hooks := f.hooks[id := hook]) else f
    case Duplicates(shop, on) => f.(duplicating := if on then f.duplicating + {shop} else f.duplicating - {shop})
  }

  function Run(steps: seq<Step>): Feed {
    if steps == [] then START else Next(Run(steps[..|steps| - 1]), steps[|steps| - 1])
  }

  /** However many publishers compete, an event is fanned out once, and once more for each effective replay; the last
      fan-out is still to come while the event is unpublished. */
  lemma {:induction false} FanOutsMatchReplays(steps: seq<Step>, e: Id)
    requires e < |Run(steps).entries|
    ensures var r := Run(steps).entries[e]; r.fanouts + (if r.published then 0 else 1) == 1 + r.replays
  {
    if steps == [] {
    } else {
      var f := Run(steps[..|steps| - 1]);
      if e < |f.entries| { FanOutsMatchReplays(steps[..|steps| - 1], e); }
    }
  }

  /** The deliveries that a step owes webhook `h` for event `e`: none unless the webhook is of the event's shop, enabled,
      live and subscribed to its kind; then one for publishing it, or two in a shop that asks for duplicates, and as many
      as a manual delivery names. */
  function Owed(f: Feed, s: Step, h: Id, e: Id): nat {
    if e >= |f.entries| || h >= |f.hooks| then 0
    else
      var event, hook := f.entries[e], f.hooks[h];
      if hook.shop != event.shop || !hook.enabled || hook.deleted || event.kind !in hook.kinds then 0
      else match s
        case Publishes(candidate) =>
          if candidate != e || event.published then 0 else if event.shop in f.duplicating then 2 else 1
        case Manual(chosen, copies) => if chosen == e then copies else 0
        case _ => 0
  }

  function TotalOwed(steps: seq<Step>, h: Id, e: Id): nat {
    if steps == [] then 0
    else TotalOwed(steps[..|steps| - 1], h, e) + Owed(Run(steps[..|steps| - 1]), steps[|steps| - 1], h, e)
  }

  /** Every run creates exactly the deliveries owed: none twice, none missing, none to a webhook that does not match. */
  lemma {:induction false} DeliveriesAreExactlyOwed(steps: seq<Step>, h: Id, e: Id)
    ensures Count(Run(steps).deliveries, h, e) == TotalOwed(steps, h, e)
  {
    if steps == [] {
    } else {
      var f, s := Run(steps[..|steps| - 1]), steps[|steps| - 1];
      DeliveriesAreExactlyOwed(steps[..|steps| - 1], h, e);
      if s.Publishes? && s.candidate < |f.entries| && !f.entries[s.candidate].published {
        FanOutCount(f, s.candidate, Copies(f, s.candidate), h, e);
      } else if s.Manual? && s.event < |f.entries| {
        FanOutCount(f, s.event, s.copies, h, e);
      }
    }
  }

  /** A recorded event is published once, and once more after each replay. */
  lemma ReplaysAreEffective(steps: seq<Step>, shop: Id, kind: Id, e: Id)
    ensures var f := Run(steps);
      && Next(f, Recorded(shop, kind)).entries == f.entries + [Entry(shop, kind, false, 0, 0)]
      && (e < |f.entries| ==>
            && Next(f, Publishes(e)).entries[e].published && !Next(f, Replays(e)).entries[e].published
            && Next(Next(f, Publishes(e)), Publishes(e)) == Next(f, Publishes(e)))
  {}

  /** A second publisher that works through the same candidates finds nothing left to do. */
  lemma {:induction false} SecondPublisherIsIdle(f: Feed, candidates: seq<Id>, others: seq<Id>)
    requires forall c <- others :: c in candidates
    ensures PublishAll(PublishAll(f, candidates), others) == PublishAll(f, candidates)
  {
    if others == [] {
    } else {
      SecondPublisherIsIdle(f, candidates, others[..|others| - 1]);
      assert others[|others| - 1] in candidates;
      AllPublished(f, candidates, others[|others| - 1]);
    }
  }

  lemma {:induction false} AllPublished(f: Feed, candidates: seq<Id>, e: Id)
    requires e in candidates
    ensures var g := PublishAll(f, candidates); |g.entries| == |f.entries| && (e < |g.entries| ==> g.entries[e].published)
  {
    var init, last := candidates[..|candidates| - 1], candidates[|candidates| - 1];
    SameLength(f, init);
    if e in init { AllPublished(f, init, e); }
  }

  lemma {:induction false} SameLength(f: Feed, candidates: seq<Id>)
    ensures |PublishAll(f, candidates).entries| == |f.entries|
  {
    if candidates == [] {
    } else {
      SameLength(f, candidates[..|candidates| - 1]);
    }
  }
}
