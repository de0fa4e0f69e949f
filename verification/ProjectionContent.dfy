/**
 What the projection of a run shows, told from its facts alone: which items there are, what they hold, and
 where each is placed and last revised.
 */
module ProjectionContent {
  import opened Common
  import opened RunPresentation
  import opened Projection
  import opened FactsGrowth
  import Sorting

  // ----- events of a log -----

  predicate InMain(namespace: string) {
    namespace == "" || namespace == "main"
  }

  /** An event of the main agent about a tool call. */
  function AboutCall(callId: string): Event -> bool {
    (e: Event) =>
      callId != "" && e.payload.Some? && InMain(e.payload.value.namespace) && e.payload.value.toolCallId == callId
  }

  function RequestsCall(callId: string, eventType: string): Event -> bool {
    (e: Event) => AboutCall(callId)(e) && e.eventType == eventType
  }

  function AboutWait(requestId: string): Event -> bool {
    (e: Event) => e.payload.Some? && e.payload.value.requestId == requestId
  }

  function MakesArtifact(artifactId: string): Event -> bool {
    (e: Event) =>
      artifactId != "" && e.eventType == "artifact.created" && e.payload.Some? && e.payload.value.artifactId == artifactId
  }

  function Completes(): Event -> bool {
    (e: Event) => e.eventType == "run.completed"
  }

  function Fails(): Event -> bool {
    (e: Event) => e.eventType == "run.failed" || e.eventType == "run.canceled" || e.eventType == "run.cleanup_required"
  }

  ghost predicate Earliest(events: seq<Event>, wanted: Event -> bool, e: Event) {
    e in events && wanted(e) && forall f :: f in events && wanted(f) ==> e.number <= f.number
  }

  ghost predicate Latest(events: seq<Event>, wanted: Event -> bool, e: Event) {
    e in events && wanted(e) && forall f :: f in events && wanted(f) ==> f.number <= e.number
  }

  // ----- what is shown -----

  /** A committed round of the main agent that called tools. */
  predicate CallsTools(e: Event) {
    && e.eventType == "assistant.round.committed" && e.payload.Some? && InMain(e.payload.value.namespace)
    && e.payload.value.roundId != "" && e.payload.value.toolCallCount > 0
  }

  predicate IsReasoningOf(y: Item, e: Event) {
    && CallsTools(e) && e.payload.value.reasoning != ""
    && y == Item("round:" + e.payload.value.roundId + ":reasoning", "reasoning_summary", e.number, e.number, 0,
         e.payload.value.reasoning)
  }

  /** The text of a round, after its reasoning if it has any. */
  predicate IsProgressOf(y: Item, e: Event) {
    && CallsTools(e) && e.payload.value.text != ""
    && y == Item("round:" + e.payload.value.roundId + ":progress", "progress", e.number, e.number,
         if e.payload.value.reasoning != "" then 1 else 0, e.payload.value.text)
  }

  ghost predicate ShownByRound(facts: Facts, y: Item) {
    exists e :: e in facts.events && (IsReasoningOf(y, e) || IsProgressOf(y, e))
  }

  /** The event that requests the call of a receipt. */
  function RequestOf(r: Receipt): Event -> bool {
    RequestsCall(r.toolCallId, if r.toolName == "task" then "subagent.spawned" else "tool.requested")
  }

  /** A main receipt is shown from the first request on, revised by the last event of its call. */
  ghost predicate IsCallOf(y: Item, r: Receipt, events: seq<Event>, first: Event, last: Event) {
    && InMain(r.namespace) && Earliest(events, RequestOf(r), first) && Latest(events, AboutCall(r.toolCallId), last)
    && y == Item("tool-call:" + r.toolCallId,
         if r.toolName == "task" then "subagent" else if r.toolName == "task.verify" then "verification" else "tool",
         last.number, first.number, 0, r.details)
  }

  ghost predicate ShownByReceipt(facts: Facts, y: Item) {
    exists r, first, last :: r in facts.receipts && IsCallOf(y, r, facts.events, first, last)
  }

  ghost predicate HasShownReceipt(facts: Facts, callId: string) {
    exists r, first ::
      r in facts.receipts && r.toolCallId == callId && InMain(r.namespace) && Earliest(facts.events, RequestOf(r), first)
  }

  /** A call that no receipt shows is shown from its events alone. */
  ghost predicate IsBareCall(y: Item, callId: string, events: seq<Event>, first: Event, last: Event) {
    && Earliest(events, RequestsCall(callId, "tool.requested"), first) && Latest(events, AboutCall(callId), last)
    && y == Item("tool-call:" + callId, "tool", last.number, first.number, 0, last.eventType)
  }

  ghost predicate ShownBare(facts: Facts, y: Item) {
    exists callId, first, last :: IsBareCall(y, callId, facts.events, first, last) && !HasShownReceipt(facts, callId)
  }

  /** The kinds of waits that are shown, with what they are shown as. */
  predicate WaitShownAs(kind: string, shown: string) {
    || (kind == "tool_review" && shown == "approval") || (kind == "question" && shown == "question")
    || (kind == "plan" && shown == "plan") || (kind == "tool_reconciliation" && shown == "reconciliation")
  }

  ghost predicate IsWaitOf(y: Item, c: Candidate, events: seq<Event>, first: Event, last: Event) {
    && c.id != "" && WaitShownAs(c.kind, y.kind)
    && Earliest(events, AboutWait(c.id), first) && Latest(events, AboutWait(c.id), last)
    && y == Item("wait:" + c.id, y.kind, last.number, first.number, 0, c.details)
  }

  ghost predicate ShownAsWait(facts: Facts, y: Item) {
    exists c, first, last :: c in facts.candidates && IsWaitOf(y, c, facts.events, first, last)
  }

  ghost predicate IsArtifactOf(y: Item, a: Artifact, events: seq<Event>, last: Event) {
    && Latest(events, MakesArtifact(a.id), last)
    && y == Item("artifact:" + a.id, "artifact", last.number, last.number, 0, a.details)
  }

  ghost predicate ShownAsArtifact(facts: Facts, y: Item) {
    exists a, last :: a in facts.artifacts && IsArtifactOf(y, a, facts.events, last)
  }

  ghost predicate ShownAsAnswer(facts: Facts, y: Item) {
    && facts.assistant.Some? && facts.assistant.value.content != ""
    && exists last :: Latest(facts.events, Completes(), last)
         && y == Item("answer:" + facts.assistant.value.id, "final_answer", last.number, last.number, 0,
              facts.assistant.value.content)
  }

  ghost predicate ShownAsNotice(facts: Facts, y: Item) {
    exists last :: Latest(facts.events, Fails(), last)
      && y == Item("notice:" + last.id, "notice", last.number, last.number, 0, last.eventType)
  }

  // ----- searching -----

  lemma {:induction false} FirstIff(events: seq<Event>, wanted: Event -> bool, e: Event)
    requires Increasing(events)
    ensures First(events, wanted) == Some(e) <==> Earliest(events, wanted, e)
  {
    if events != [] {
      var rest := events[1..];
      FirstIff(rest, wanted, e);
      assert events == [events[0]] + rest;
      forall f | f in rest ensures events[0].number < f.number {
        var i :| 0 <= i < |rest| && rest[i] == f;
        assert events[i + 1] == f;
      }
    }
  }

  lemma {:induction false} LastIff(events: seq<Event>, wanted: Event -> bool, e: Event)
    requires Increasing(events)
    ensures Last(events, wanted) == Some(e) <==> Latest(events, wanted, e)
  {
    if events != [] {
      var n := |events| - 1;
      var rest := events[..n];
      LastIff(rest, wanted, e);
      assert events == rest + [events[n]];
      forall f | f in rest ensures f.number < events[n].number {
        var i :| 0 <= i < |rest| && rest[i] == f;
        assert events[i] == f;
      }
    }
  }

  lemma {:induction false} FirstOfFilter(
    events: seq<Event>, keep: Event -> bool, wanted: Event -> bool, both: Event -> bool)
    requires forall e :: e in events ==> (both(e) <==> keep(e) && wanted(e))
    ensures First(Sorting.Filter(events, keep), wanted) == First(events, both)
  {
    if events != [] {
      var rest := events[1..];
      assert events == [events[0]] + rest && events[0] in events;
      Sorting.FilterConcat([events[0]], rest, keep);
      Sorting.FilterOne(events[0], keep);
      FirstOfFilter(rest, keep, wanted, both);
      var kept := Sorting.Filter(rest, keep);
      assert keep(events[0]) ==> ([events[0]] + kept)[1..] == kept;
      assert !keep(events[0]) ==> [] + kept == kept;
    }
  }

  lemma {:induction false} LastOfFilter(events: seq<Event>, keep: Event -> bool)
    ensures var kept := Sorting.Filter(events, keep);
      Last(events, keep) == if kept == [] then None else Some(kept[|kept| - 1])
  {
    if events != [] {
      LastOfFilter(events[..|events| - 1], keep);
    }
  }

  lemma {:induction false} HeadOfFilter(events: seq<Event>, keep: Event -> bool)
    ensures var kept := Sorting.Filter(events, keep);
      First(events, keep) == if kept == [] then None else Some(kept[0])
  {
    var kept := Sorting.Filter(events, keep);
    FirstOfFilter(events, keep, keep, keep);
    Sorting.FilterMembers(events, keep);
    assert kept != [] ==> kept[0] in kept;
  }

  lemma CollectIff<T>(xs: seq<T>, item: T -> Option<Item>, y: Item)
    ensures y in Collect(xs, item) <==> exists x :: x in xs && item(x) == Some(y)
  {
    if y in Collect(xs, item) {
      var x := CollectedFrom(xs, item, y);
    }
    if x :| x in xs && item(x) == Some(y) {
      CollectKeeps(xs, item, x, y);
    }
  }

  // ----- each kind of item -----

  lemma {:induction false} RoundsShow(events: seq<Event>, y: Item)
    ensures y in Rounds(events) <==> exists e :: e in events && (IsReasoningOf(y, e) || IsProgressOf(y, e))
  {
    if events != [] {
      var n := |events| - 1;
      RoundsShow(events[..n], y);
      RoundShows(events[n], y);
      assert events == events[..n] + [events[n]];
    }
  }

  lemma RoundShows(e: Event, y: Item)
    ensures y in RoundItems(e) <==> IsReasoningOf(y, e) || IsProgressOf(y, e)
  {
  }

  lemma AboutCallIs(e: Event, callId: string)
    ensures AboutCall(callId)(e) <==> OfCall(e, callId)
  {
  }

  /** The events of a call: its first request, and its last event with the largest number. */
  lemma CallEvents(events: seq<Event>, callId: string, eventType: string, first: Event, last: Event)
    requires Increasing(events)
    ensures var matching := Matching(events, callId);
      && (First(matching, OfType(eventType)) == Some(first) <==> Earliest(events, RequestsCall(callId, eventType), first))
      && (matching != [] && matching[|matching| - 1] == last <==> Latest(events, AboutCall(callId), last))
      && (matching != [] ==> MaxNumber(matching) == matching[|matching| - 1].number)
  {
    var matching, mine := Matching(events, callId), (e: Event) => OfCall(e, callId);
    forall e ensures mine(e) <==> AboutCall(callId)(e) {
      AboutCallIs(e, callId);
    }
    forall e ensures RequestsCall(callId, eventType)(e) <==> mine(e) && OfType(eventType)(e) {
    }
    FirstOfFilter(events, mine, OfType(eventType), RequestsCall(callId, eventType));
    FirstIff(events, RequestsCall(callId, eventType), first);
    LastOfFilter(events, mine);
    LastIff(events, mine, last);
    FilterKeepsOrder(events, mine);
    assert Latest(events, mine, last) <==> Latest(events, AboutCall(callId), last);
    if matching != [] {
      MaxIsLast(matching);
    }
  }

  lemma FirstNeedsEvents(matching: seq<Event>, wanted: Event -> bool)
    ensures First(matching, wanted).Some? ==> matching != []
  {
  }

  lemma ReceiptShown(r: Receipt, events: seq<Event>, y: Item)
    requires Increasing(events)
    ensures ReceiptItem(r, events) == Some(y) <==> exists first, last :: IsCallOf(y, r, events, first, last)
  {
    var matching := Matching(events, r.toolCallId);
    var wanted := RequestedType(r.toolName);
    if ReceiptItem(r, events) == Some(y) {
      var first, last := First(matching, OfType(wanted)).value, matching[|matching| - 1];
      CallEvents(events, r.toolCallId, wanted, first, last);
      assert IsCallOf(y, r, events, first, last);
    }
    if first, last :| IsCallOf(y, r, events, first, last) {
      CallEvents(events, r.toolCallId, wanted, first, last);
    }
  }

  lemma ReceiptsShow(facts: Facts, y: Item)
    requires WellFormed(facts)
    ensures y in ReceiptItems(facts) <==> ShownByReceipt(facts, y)
  {
    CollectIff(facts.receipts, (r: Receipt) => ReceiptItem(r, facts.events), y);
    forall r ensures ReceiptItem(r, facts.events) == Some(y) <==>
      exists first, last :: IsCallOf(y, r, facts.events, first, last)
    {
      ReceiptShown(r, facts.events, y);
    }
  }

  lemma ReceiptedIff(facts: Facts, callId: string)
    requires WellFormed(facts)
    ensures callId in Receipted(facts.receipts, facts.events) <==> HasShownReceipt(facts, callId)
  {
    var events := facts.events;
    if callId in Receipted(facts.receipts, events) {
      var r :| r in facts.receipts && ReceiptItem(r, events).Some? && r.toolCallId == callId;
      ReceiptShown(r, events, ReceiptItem(r, events).value);
    }
    if HasShownReceipt(facts, callId) {
      var r, first :| r in facts.receipts && r.toolCallId == callId && InMain(r.namespace) && Earliest(events, RequestOf(r), first);
      CallEvents(events, callId, RequestedType(r.toolName), first, first);
      FirstNeedsEvents(Matching(events, callId), OfType(RequestedType(r.toolName)));
      assert ReceiptItem(r, events).Some?;
    }
  }

  lemma {:induction false} CallIdsAre(events: seq<Event>, callId: string)
    ensures callId in CallIds(events) <==> exists e :: e in events && AboutCall(callId)(e)
  {
    if events != [] {
      var n := |events| - 1;
      CallIdsAre(events[..n], callId);
      AboutCallIs(events[n], callId);
      assert events == events[..n] + [events[n]];
      if e :| e in events && AboutCall(callId)(e) {
        assert e in events[..n] || e == events[n];
      }
      if e :| e in events[..n] && AboutCall(callId)(e) {
        assert e in events;
      }
    }
  }

  lemma BareShown(callId: string, events: seq<Event>, y: Item)
    requires Increasing(events)
    ensures LegacyItem(callId, events) == Some(y) <==> exists first, last :: IsBareCall(y, callId, events, first, last)
  {
    var matching := Matching(events, callId);
    if LegacyItem(callId, events) == Some(y) {
      var first, last := First(matching, OfType("tool.requested")).value, matching[|matching| - 1];
      CallEvents(events, callId, "tool.requested", first, last);
      assert IsBareCall(y, callId, events, first, last);
    }
    if first, last :| IsBareCall(y, callId, events, first, last) {
      CallEvents(events, callId, "tool.requested", first, last);
    }
  }

  lemma BareCallsShow(facts: Facts, y: Item)
    requires WellFormed(facts)
    ensures y in LegacyItems(facts) <==> ShownBare(facts, y)
  {
    var events, receipted := facts.events, Receipted(facts.receipts, facts.events);
    var item := (id: string) => UnreceiptedItem(id, receipted, events);
    CollectIff(CallIds(events), item, y);
    if y in LegacyItems(facts) {
      var id :| id in CallIds(events) && item(id) == Some(y);
      BareShown(id, events, y);
      ReceiptedIff(facts, id);
    }
    if ShownBare(facts, y) {
      var id, first, last :| IsBareCall(y, id, events, first, last) && !HasShownReceipt(facts, id);
      BareShown(id, events, y);
      ReceiptedIff(facts, id);
      CallIdsAre(events, id);
      assert item(id) == Some(y);
    }
  }

  lemma WaitKindIs(kind: string, shown: string)
    ensures WaitKind(kind) == Some(shown) <==> WaitShownAs(kind, shown)
  {
  }

  lemma WaitShown(c: Candidate, events: seq<Event>, y: Item)
    requires Increasing(events)
    ensures WaitItem(c, events) == Some(y) <==> exists first, last :: IsWaitOf(y, c, events, first, last)
  {
    var about := e => AboutRequest(e, c.id);
    var matching := Sorting.Filter(events, about);
    WaitKindIs(c.kind, y.kind);
    assert forall e :: about(e) <==> AboutWait(c.id)(e);
    HeadOfFilter(events, about);
    LastOfFilter(events, about);
    if WaitItem(c, events) == Some(y) {
      var first, last := matching[0], matching[|matching| - 1];
      FirstIff(events, about, first);
      LastIff(events, about, last);
      assert IsWaitOf(y, c, events, first, last);
    }
    if first, last :| IsWaitOf(y, c, events, first, last) {
      FirstIff(events, about, first);
      LastIff(events, about, last);
      assert Earliest(events, about, first) && Latest(events, about, last);
    }
  }

  lemma WaitsShow(facts: Facts, y: Item)
    requires WellFormed(facts)
    ensures y in WaitItems(facts) <==> ShownAsWait(facts, y)
  {
    CollectIff(facts.candidates, (c: Candidate) => WaitItem(c, facts.events), y);
    forall c ensures WaitItem(c, facts.events) == Some(y) <==>
      exists first, last :: IsWaitOf(y, c, facts.events, first, last)
    {
      WaitShown(c, facts.events, y);
    }
  }

  lemma ArtifactShown(a: Artifact, events: seq<Event>, y: Item)
    requires Increasing(events)
    ensures ArtifactItem(a, events) == Some(y) <==> exists last :: IsArtifactOf(y, a, events, last)
  {
    var creates := e => Creates(e, a.id);
    assert forall e :: creates(e) <==> MakesArtifact(a.id)(e);
    if ArtifactItem(a, events) == Some(y) {
      var last := Last(events, creates).value;
      LastIff(events, creates, last);
      assert IsArtifactOf(y, a, events, last);
    }
    if last :| IsArtifactOf(y, a, events, last) {
      assert Latest(events, creates, last);
      LastIff(events, creates, last);
    }
  }

  lemma ArtifactsShow(facts: Facts, y: Item)
    requires WellFormed(facts)
    ensures y in ArtifactItems(facts) <==> ShownAsArtifact(facts, y)
  {
    CollectIff(facts.artifacts, (a: Artifact) => ArtifactItem(a, facts.events), y);
    forall a ensures ArtifactItem(a, facts.events) == Some(y) <==> exists last :: IsArtifactOf(y, a, facts.events, last) {
      ArtifactShown(a, facts.events, y);
    }
  }

  lemma SameLatest(events: seq<Event>, a: Event -> bool, b: Event -> bool, e: Event)
    requires Increasing(events) && forall f :: f in events ==> (a(f) <==> b(f))
    ensures Last(events, a) == Some(e) <==> Latest(events, b, e)
  {
    LastIff(events, a, e);
  }

  lemma AnswerShows(facts: Facts, y: Item)
    requires WellFormed(facts)
    ensures y in AnswerItems(facts.assistant, facts.events) <==> ShownAsAnswer(facts, y)
  {
    var last := Last(facts.events, OfType("run.completed"));
    if last.Some? {
      SameLatest(facts.events, OfType("run.completed"), Completes(), last.value);
    }
    if ShownAsAnswer(facts, y) {
      var e :| Latest(facts.events, Completes(), e)
        && y == Item("answer:" + facts.assistant.value.id, "final_answer", e.number, e.number, 0,
             facts.assistant.value.content);
      SameLatest(facts.events, OfType("run.completed"), Completes(), e);
    }
  }

  lemma NoticeShows(facts: Facts, y: Item)
    requires WellFormed(facts)
    ensures y in NoticeItems(facts.events) <==> ShownAsNotice(facts, y)
  {
    var last := Last(facts.events, IsTrouble);
    if last.Some? {
      SameLatest(facts.events, IsTrouble, Fails(), last.value);
    }
    if ShownAsNotice(facts, y) {
      var e :| Latest(facts.events, Fails(), e)
        && y == Item("notice:" + e.id, "notice", e.number, e.number, 0, e.eventType);
      SameLatest(facts.events, IsTrouble, Fails(), e);
    }
  }

  /** The projection shows exactly what the facts call for, with the contents, places and revisions they give. */
  lemma ProjectionShows(facts: Facts, before: IdOrder, y: Item)
    requires WellFormed(facts) && StrictTotal(before)
    ensures y in Project(facts, before) <==>
      || ShownByRound(facts, y) || ShownByReceipt(facts, y) || ShownBare(facts, y) || ShownAsWait(facts, y)
      || ShownAsArtifact(facts, y) || ShownAsAnswer(facts, y) || ShownAsNotice(facts, y)
  {
    ProjectionIsSound(facts, before);
    RoundsShow(facts.events, y);
    ReceiptsShow(facts, y);
    BareCallsShow(facts, y);
    WaitsShow(facts, y);
    ArtifactsShow(facts, y);
    AnswerShows(facts, y);
    NoticeShows(facts, y);
  }
}
