/**
 Server and client together: replayed events carry the projected items they touch,
 and folding those rebuilds the projection on the client.
 */
module EventReplay {
  import opened Common
  import opened RunPresentation
  import opened Projection
  import opened FactsGrowth
  import Sorting

  const TERMINAL_TYPES := {"run.completed", "run.failed", "run.canceled", "run.cleanup_required"}

  const PRESENTATION_TYPES := TERMINAL_TYPES + {
    "assistant.round.committed", "tool.requested", "tool.completed", "tool.failed", "tool.canceled",
    "subagent.spawned", "subagent.started", "subagent.waiting", "subagent.completed", "subagent.failed",
    "subagent.canceled", "subagent.outcome_unknown", "permission.required", "permission.resolved",
    "question.asked", "question.answered", "plan.approval_required", "plan.resolved",
    "tool.reconciliation_required", "tool.reconciliation_resolved", "artifact.created"
  }

  // ----- the changes sent with an event -----

  predicate Touches(e: Event, y: Item) {
    y.revision == e.number || y.eventSeq == e.number
  }

  predicate IsCall(y: Item) {
    y.kind in {"tool", "subagent", "verification"}
  }

  function Select(items: seq<Item>, keep: Item -> bool): seq<Change> {
    if items == [] then [] else (if keep(items[0]) then [Upsert(items[0])] else []) + Select(items[1..], keep)
  }

  /** The items an event touches; a terminal event also repeats every other call. */
  function ChangesOf(e: Event, projected: seq<Item>): seq<Change> {
    if e.eventType !in PRESENTATION_TYPES then []
    else
      Select(projected, y => Touches(e, y))
      + if e.eventType in TERMINAL_TYPES then Select(projected, y => IsCall(y) && !Touches(e, y)) else []
  }

  function Replay(batch: seq<Event>, projected: seq<Item>): seq<Change> {
    if batch == [] then [] else ChangesOf(batch[0], projected) + Replay(batch[1..], projected)
  }

  lemma {:induction false} SelectMembers(items: seq<Item>, keep: Item -> bool)
    ensures forall c :: c in Select(items, keep) ==> c.Upsert? && c.item in items && keep(c.item)
    ensures forall y :: y in items && keep(y) ==> Upsert(y) in Select(items, keep)
  {
    if items != [] {
      SelectMembers(items[1..], keep);
      assert items == [items[0]] + items[1..];
    }
  }

  /** The item shows a tool call, a subagent or a verification. */
  predicate ShowsCall(y: Item) {
    y.kind == "tool" || y.kind == "subagent" || y.kind == "verification"
  }

  /** The event carries the item: it placed or revised it, or it is terminal and the item shows a call. */
  predicate Carries(e: Event, y: Item) {
    && e.eventType in PRESENTATION_TYPES
    && (e.number == y.eventSeq || e.number == y.revision || (e.eventType in TERMINAL_TYPES && ShowsCall(y)))
  }

  ghost predicate Sent(batch: seq<Event>, y: Item) {
    exists e :: e in batch && Carries(e, y)
  }

  lemma ChangesMembers(e: Event, projected: seq<Item>)
    ensures forall c :: c in ChangesOf(e, projected) ==> c.Upsert? && c.item in projected && Carries(e, c.item)
    ensures forall y :: y in projected && Carries(e, y) ==> Upsert(y) in ChangesOf(e, projected)
  {
    SelectMembers(projected, y => Touches(e, y));
    SelectMembers(projected, y => IsCall(y) && !Touches(e, y));
  }

  /** A batch sends exactly the projected items that some event of it carries. */
  lemma {:induction false} ReplayMembers(batch: seq<Event>, projected: seq<Item>)
    ensures forall c :: c in Replay(batch, projected) ==> c.Upsert? && c.item in projected && Sent(batch, c.item)
    ensures forall y :: y in projected && Sent(batch, y) ==> Upsert(y) in Replay(batch, projected)
  {
    if batch != [] {
      var e, rest := batch[0], batch[1..];
      assert batch == [e] + rest;
      ChangesMembers(e, projected);
      ReplayMembers(rest, projected);
      forall c | c in Replay(batch, projected) ensures c.Upsert? && c.item in projected && Sent(batch, c.item) {
        if c in ChangesOf(e, projected) {
          assert Carries(e, c.item);
        } else {
          var f :| f in rest && Carries(f, c.item);
          assert f in batch;
        }
      }
      forall y | y in projected && Sent(batch, y) ensures Upsert(y) in Replay(batch, projected) {
        var f :| f in batch && Carries(f, y);
        if f != e {
          assert f in rest && Sent(rest, y);
        }
      }
    }
  }

  lemma UpsertedIffSent(batch: seq<Event>, projected: seq<Item>, y: Item)
    ensures y in Upserted(Replay(batch, projected)) <==> y in projected && Sent(batch, y)
  {
    ReplayMembers(batch, projected);
    if y in projected && Sent(batch, y) {
      assert Upsert(y) in Replay(batch, projected);
    }
  }

  // ----- folding a replay -----

  /** What is shown after a replay: what was sent, and what was held under other ids. */
  ghost predicate Stays(z: Item, held: seq<Item>, sent: set<Item>) {
    z in sent || (z in held && forall y :: y in sent ==> y.id != z.id)
  }

  /** An upsert that is not older replaces the item of its id, whatever that item holds. */
  lemma UpsertReplaces(items: seq<Item>, y: Item, before: IdOrder)
    requires StrictTotal(before) && DistinctIds(items)
    requires forall x :: x in items && x.id == y.id ==> y.revision >= x.revision
    ensures var next := Sort(Merge(Entries(items), y), before);
      DistinctIds(next) && forall z :: z in next <==> z == y || (z in items && z.id != y.id)
  {
    var i := IndexOf(items, y.id);
    assert i < |items| ==> items[i] in items;
    SetEntryMembers(items, y);
    SortSorts(SetEntry(items, y), before);
  }

  lemma {:induction false} FoldReplaces(
    held: seq<Item>, w: int, changes: seq<Change>, projected: seq<Item>, before: IdOrder)
    requires StrictTotal(before) && DistinctIds(held) && DistinctIds(projected) && NoNewer(held, projected)
    requires forall c :: c in changes ==> c.Upsert? && c.item in projected
    ensures var shown := ApplyAll(Create(held, w), changes, before).items;
      DistinctIds(shown) && forall z :: z in shown <==> Stays(z, held, Upserted(changes))
  {
    if changes != [] {
      var n := |changes| - 1;
      var front, y := changes[..n], changes[n].item;
      assert forall c :: c in front ==> c in changes;
      assert changes[n] in changes;
      FoldReplaces(held, w, front, projected, before);
      var items := ApplyAll(Create(held, w), front, before).items;
      forall x | x in items && x.id == y.id ensures y.revision >= x.revision {
        assert Stays(x, held, Upserted(front));
        if x in Upserted(front) {
          SameId(projected, x, y);
        }
      }
      UpsertReplaces(items, y, before);
      UpsertedSnoc(changes);
      SentReplaces(held, Upserted(front), y, projected);
    }
  }

  lemma SentReplaces(held: seq<Item>, sent: set<Item>, y: Item, projected: seq<Item>)
    requires DistinctIds(projected) && y in projected && forall x :: x in sent ==> x in projected
    ensures forall z :: Stays(z, held, sent + {y}) <==> z == y || (Stays(z, held, sent) && z.id != y.id)
  {
    forall z ensures Stays(z, held, sent + {y}) <==> z == y || (Stays(z, held, sent) && z.id != y.id) {
      if z in sent && z.id == y.id {
        SameId(projected, z, y);
      }
    }
  }

  // ----- catching up -----

  /** Every item is held already or sent. */
  ghost predicate Supplied(held: seq<Item>, batch: seq<Event>, projected: seq<Item>) {
    forall y :: y in projected ==> y in held || Sent(batch, y)
  }

  /**
   A client that folds a replay onto items that are nowhere newer shows exactly the current projection, if and
   only if each id it held is still projected and each projected item was held as it is or is sent.
   */
  lemma ResumeCatchesUpIff(held: seq<Item>, w: int, batch: seq<Event>, projected: seq<Item>, before: IdOrder)
    requires StrictTotal(before) && DistinctIds(held) && DistinctIds(projected) && NoNewer(held, projected)
    ensures var shown := ApplyAll(Create(held, w), Replay(batch, projected), before).items;
      && DistinctIds(shown)
      && ((forall y :: y in shown <==> y in projected) <==> NoneDropped(held, projected) && Supplied(held, batch, projected))
  {
    var shown := ApplyAll(Create(held, w), Replay(batch, projected), before).items;
    var sent := Upserted(Replay(batch, projected));
    ReplayMembers(batch, projected);
    FoldReplaces(held, w, Replay(batch, projected), projected, before);
    forall y ensures y in sent <==> y in projected && Sent(batch, y) {
      UpsertedIffSent(batch, projected, y);
    }
    if NoneDropped(held, projected) && Supplied(held, batch, projected) {
      forall z ensures z in shown <==> z in projected {
        SuppliedIsShown(held, batch, projected, sent, z);
      }
    }
    if forall y :: y in shown <==> y in projected {
      forall y | y in projected ensures y in held || Sent(batch, y) {
        assert Stays(y, held, sent);
      }
      forall x | x in held ensures HasId(projected, x.id) {
        if y :| y in sent && y.id == x.id {
          assert y in projected;
        } else {
          assert Stays(x, held, sent);
        }
      }
    }
  }

  lemma SuppliedIsShown(held: seq<Item>, batch: seq<Event>, projected: seq<Item>, sent: set<Item>, z: Item)
    requires DistinctIds(held) && DistinctIds(projected)
    requires NoneDropped(held, projected) && Supplied(held, batch, projected)
    requires forall y :: y in sent <==> y in projected && Sent(batch, y)
    ensures Stays(z, held, sent) <==> z in projected
  {
    if z in held && z !in sent {
      assert HasId(projected, z.id);
      var y :| y in projected && y.id == z.id;
      if y in held {
        SameId(held, y, z);
      }
      forall x | x in sent && x.id == z.id ensures x == y {
        SameId(projected, x, y);
      }
    }
  }

  // ----- from growing facts -----

  /** The store reads only these events as facts. */
  predicate Filtered(facts: Facts) {
    forall e :: e in facts.events ==> e.eventType in PRESENTATION_TYPES
  }

  function HighWatermark(facts: Facts): int {
    if facts.events == [] then 0 else facts.events[|facts.events| - 1].number
  }

  /** A batch of events above w that leaves out none of the facts' events above w. */
  ghost predicate NewerThan(batch: seq<Event>, facts: Facts, w: int) {
    && (forall e :: e in facts.events && e.number > w ==> e in batch)
    && forall e :: e in batch ==> e.number > w
  }

  ghost predicate HasTerminal(batch: seq<Event>) {
    exists e :: e in batch && e.eventType in TERMINAL_TYPES
  }

  /** What changed, or first appeared, without a newer event is a call that a terminal event repeats. */
  ghost predicate SilentChangesRepeated(held: seq<Item>, projected: seq<Item>, w: int, batch: seq<Event>) {
    forall y :: y in projected && y.revision <= w && y !in held ==> ShowsCall(y) && HasTerminal(batch)
  }

  ghost predicate CarriedAbove(batch: seq<Event>, w: int, y: Item) {
    Sent(batch, y) <==> y.revision > w || (ShowsCall(y) && HasTerminal(batch))
  }

  lemma SuppliedIff(held: seq<Item>, projected: seq<Item>, w: int, batch: seq<Event>)
    requires forall y :: y in projected ==> CarriedAbove(batch, w, y)
    ensures Supplied(held, batch, projected) <==> SilentChangesRepeated(held, projected, w, batch)
  {
    forall y | y in projected
      ensures (y in held || Sent(batch, y))
        <==> (y.revision <= w && y !in held ==> ShowsCall(y) && HasTerminal(batch))
    {
      assert CarriedAbove(batch, w, y);
    }
  }

  /** What events above w carry of a dated item: all of it if it was revised above w, else only repeated calls. */
  lemma SentAbove(batch: seq<Event>, facts: Facts, w: int, y: Item)
    requires Filtered(facts) && NewerThan(batch, facts, w) && Dated(y, facts.events)
    ensures CarriedAbove(batch, w, y)
  {
    if y.revision > w {
      var e :| e in facts.events && e.number == y.revision;
      assert e in batch && Carries(e, y);
    } else if ShowsCall(y) && HasTerminal(batch) {
      var e :| e in batch && e.eventType in TERMINAL_TYPES;
      assert Carries(e, y);
    }
  }

  /**
   A client that holds the projection of earlier facts and folds a replay of everything newer shows exactly the
   projection of the facts as they are now, if and only if its notice was not replaced and whatever changed
   without a newer event is a call while the replay holds a terminal event.
   */
  lemma ResumeCatchesUp(
    before: Facts, after: Facts, batch: seq<Event>, serverOrder: IdOrder, clientOrder: IdOrder)
    requires WellFormed(before) && WellFormed(after) && Grown(before, after) && Filtered(after)
    requires StrictTotal(serverOrder) && StrictTotal(clientOrder)
    requires NewerThan(batch, after, HighWatermark(before))
    ensures var held, projected := Project(before, serverOrder), Project(after, serverOrder);
      var w := HighWatermark(before);
      var shown := ApplyAll(Create(held, w), Replay(batch, projected), clientOrder).items;
      (forall y :: y in shown <==> y in projected)
      <==> NoticeKept(before, after) && SilentChangesRepeated(held, projected, w, batch)
  {
    var held, projected := Project(before, serverOrder), Project(after, serverOrder);
    var w := HighWatermark(before);
    ProjectionIsSound(before, serverOrder);
    ProjectionIsSound(after, serverOrder);
    ProjectionsGrow(before, after, serverOrder);
    ResumeCatchesUpIff(held, w, batch, projected, clientOrder);
    forall y | y in projected ensures CarriedAbove(batch, w, y) {
      SentAbove(batch, after, w, y);
    }
    SuppliedIff(held, projected, w, batch);
  }

  /** Orders agreed, catching up means the same list. */
  lemma CaughtUpIsEqual(before: Facts, after: Facts, batch: seq<Event>, order: IdOrder)
    requires WellFormed(before) && WellFormed(after) && StrictTotal(order)
    ensures var held, projected := Project(before, order), Project(after, order);
      var shown := ApplyAll(Create(held, HighWatermark(before)), Replay(batch, projected), order).items;
      shown == projected <==> forall y :: y in shown <==> y in projected
  {
    var held, projected := Project(before, order), Project(after, order);
    var shown := ApplyAll(Create(held, HighWatermark(before)), Replay(batch, projected), order).items;
    ProjectionIsSound(before, order);
    ProjectionIsSound(after, order);
    FoldIsNewest(Create(held, HighWatermark(before)), Replay(batch, projected), order);
    if forall y :: y in shown <==> y in projected {
      SortedUnique(shown, projected, order);
    }
  }

  /** Replaying the whole log to an empty client rebuilds the projection. */
  lemma ReplayRebuilds(facts: Facts, serverOrder: IdOrder, clientOrder: IdOrder)
    requires WellFormed(facts) && Filtered(facts) && StrictTotal(serverOrder) && StrictTotal(clientOrder)
    ensures var projected := Project(facts, serverOrder);
      var shown := ApplyAll(Create([], 0), Replay(facts.events, projected), clientOrder).items;
      && Sorted(shown, clientOrder)
      && forall y :: y in shown <==> y in projected
  {
    var projected := Project(facts, serverOrder);
    ProjectionIsSound(facts, serverOrder);
    FoldIsNewest(Create([], 0), Replay(facts.events, projected), clientOrder);
    ResumeCatchesUpIff([], 0, facts.events, projected, clientOrder);
    forall y | y in projected ensures Sent(facts.events, y) {
      var e :| e in facts.events && e.number == y.revision;
      assert Carries(e, y);
    }
  }

  // ----- two ways of not catching up -----

  const NO_PAYLOAD := Payload("", "", "", "", "", 0, "", "")

  /**
   Resolving a plan logs an event that is not of a presentation type and changes only the wait candidate: the
   item changes at its old revision, nothing is sent for it, and the client goes on showing the plan as waiting.
   */
  lemma PlanResolutionIsMissed(order: IdOrder) returns (before: Facts, after: Facts, batch: seq<Event>)
    requires StrictTotal(order)
    ensures WellFormed(before) && WellFormed(after) && Grown(before, after) && Filtered(before) && Filtered(after)
    ensures NewerThan(batch, after, HighWatermark(before))
    ensures batch == [Event("e6", 6, "plan.approval_resolved", Some(NO_PAYLOAD.(requestId := "p")))]
    ensures Replay(batch, Project(after, order)) == []
    ensures Project(before, order) == [Item("wait:p", "plan", 5, 5, 0, "waiting")]
    ensures Project(after, order) == [Item("wait:p", "plan", 5, 5, 0, "completed")]
    ensures ApplyAll(Create(Project(before, order), 5), Replay(batch, Project(after, order)), order).items
         == Project(before, order)
  {
    var asked := Event("e5", 5, "plan.approval_required", Some(NO_PAYLOAD.(requestId := "p")));
    var resolved := Event("e6", 6, "plan.approval_resolved", Some(NO_PAYLOAD.(requestId := "p")));
    before := Facts([asked], [], [Candidate("p", "plan", "waiting")], [], None);
    after := before.(candidates := [Candidate("p", "plan", "completed")]);
    batch := [resolved];
    PlanTypes(asked, resolved);
    OneEvent(asked, resolved, before);
    OneEvent(asked, resolved, after);
    OnlyCandidateChanged(before, after);
    OnePlan(asked, before, "waiting", order);
    OnePlan(asked, after, "completed", order);
    NothingSent(resolved, Project(after, order));
  }

  lemma PlanTypes(asked: Event, resolved: Event)
    requires asked.eventType == "plan.approval_required" && resolved.eventType == "plan.approval_resolved"
    ensures asked.eventType in PRESENTATION_TYPES && resolved.eventType !in PRESENTATION_TYPES
  {
  }

  lemma OneEvent(asked: Event, resolved: Event, facts: Facts)
    requires asked.eventType in PRESENTATION_TYPES && asked.number == 5 && resolved.number == 6
    requires facts.events == [asked] && facts.receipts == [] && facts.artifacts == [] && |facts.candidates| == 1
    ensures WellFormed(facts) && Filtered(facts) && HighWatermark(facts) == 5 && NewerThan([resolved], facts, 5)
  {
  }

  lemma OnlyCandidateChanged(before: Facts, after: Facts)
    requires after == before.(candidates := after.candidates) && |before.candidates| == |after.candidates| == 1
    requires before.candidates[0].id == after.candidates[0].id && before.candidates[0].kind == after.candidates[0].kind
    requires before.receipts == [] && before.artifacts == [] && before.assistant.None?
    ensures Grown(before, after)
  {
    assert after.candidates[0] in after.candidates;
    assert HasCandidate(after.candidates, before.candidates[0]);
  }

  lemma NothingSent(e: Event, projected: seq<Item>)
    requires e.eventType !in PRESENTATION_TYPES
    ensures Replay([e], projected) == []
  {
    assert [e][1..] == [];
    assert ChangesOf(e, projected) == [];
  }

  lemma CollectOne<T>(x: T, item: T -> Option<Item>)
    ensures Collect([x], item) == if item(x).None? then [] else [item(x).value]
  {
    assert [x][..0] == [];
  }

  lemma NoCalls(e: Event)
    requires e.payload.Some? && e.payload.value.toolCallId == ""
    ensures CallIds([e]) == []
  {
    var events := [e];
    var front := events[..|events| - 1];
    assert front == [];
    assert CallIds(front) == [];
    assert events[|events| - 1] == e;
  }

  lemma OnePlanWait(asked: Event, facts: Facts, status: string)
    requires asked == Event("e5", 5, "plan.approval_required", Some(NO_PAYLOAD.(requestId := "p")))
    requires facts == Facts([asked], [], [Candidate("p", "plan", status)], [], None)
    ensures WaitItems(facts) == [Item("wait:p", "plan", 5, 5, 0, status)]
  {
    var c := facts.candidates[0];
    Sorting.FilterOne(asked, e => AboutRequest(e, c.id));
    assert AboutRequest(asked, c.id) && WaitId("p") == "wait:p" && WaitKind("plan") == Some("plan");
    assert Sorting.Filter(facts.events, e => AboutRequest(e, c.id)) == [asked];
    assert WaitItem(c, facts.events) == Some(Item("wait:p", "plan", 5, 5, 0, status));
    CollectOne(c, (c: Candidate) => WaitItem(c, facts.events));
  }

  lemma OnePlan(asked: Event, facts: Facts, status: string, order: IdOrder)
    requires asked == Event("e5", 5, "plan.approval_required", Some(NO_PAYLOAD.(requestId := "p")))
    requires facts == Facts([asked], [], [Candidate("p", "plan", status)], [], None)
    ensures Project(facts, order) == [Item("wait:p", "plan", 5, 5, 0, status)]
  {
    var events := facts.events;
    OnePlanWait(asked, facts, status);
    NoCalls(asked);
    assert events[..|events| - 1] == [] && events[0] == asked;
    assert asked.payload.value.toolCallId == "" && !IsRound(asked);
    assert Rounds(events) == [] && CallIds(events) == [];
    var y := Item("wait:p", "plan", 5, 5, 0, status);
    assert Last(events, IsTrouble) == None && Last(events, OfType("run.completed")) == None;
    assert Unsorted(facts) == [y];
    assert Sorting.Sort([y], ItemOrder(order)) == [y];
  }

  /** Whenever a later failure replaces the notice, the client goes on showing the old one, which is projected no more. */
  lemma ReplacedNoticeStays(before: Facts, after: Facts, batch: seq<Event>, w: int, order: IdOrder)
    requires WellFormed(before) && WellFormed(after) && Grown(before, after) && StrictTotal(order)
    requires !NoticeKept(before, after)
    ensures var id := NoticeId(Last(before.events, IsTrouble).value.id);
      && HasId(ApplyAll(Create(Project(before, order), w), Replay(batch, Project(after, order)), order).items, id)
      && !HasId(Project(after, order), id)
  {
    var held, projected := Project(before, order), Project(after, order);
    var x, sent := NoticeItems(before.events)[0], Upserted(Replay(batch, projected));
    ProjectionIsSound(before, order);
    ProjectionIsSound(after, order);
    ProjectionsGrow(before, after, order);
    ReplayMembers(batch, projected);
    FoldReplaces(held, w, Replay(batch, projected), projected, order);
    assert x in Unsorted(before);
    forall z | z in projected ensures z.id != x.id {
      ReplacedNoticeIsGone(before, after, x, z);
    }
    assert Stays(x, held, sent);
  }

  /** A run whose cleanup was required and then confirmed as failed is such a case. */
  lemma CleanupThenFailure() returns (before: Facts, after: Facts)
    ensures before.events == [Event("e5", 5, "run.cleanup_required", Some(NO_PAYLOAD))]
    ensures after.events == before.events + [Event("e6", 6, "run.failed", Some(NO_PAYLOAD))]
    ensures WellFormed(before) && WellFormed(after) && Grown(before, after) && Filtered(before) && Filtered(after)
    ensures !NoticeKept(before, after)
  {
    var required := Event("e5", 5, "run.cleanup_required", Some(NO_PAYLOAD));
    before := Facts([required], [], [], [], None);
    after := before.(events := [required, Event("e6", 6, "run.failed", Some(NO_PAYLOAD))]);
    assert Last(before.events, IsTrouble).value == required;
    assert Last(before.events, OfType("run.completed")) == None by {
      assert before.events[..0] == [];
    }
  }
}
