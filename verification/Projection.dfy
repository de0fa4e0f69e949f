/**
 The server's read-time projection of a run's durable facts into presentation items,
 and the upserts it sends when events are replayed.
 */
module Projection {
  import opened Common
  import opened RunPresentation
  import Sorting

  // ----- facts -----

  /** Texts are as the source normalizes them: missing is "", surrounding blanks are stripped. */
  datatype Payload = Payload(
    namespace: string, toolCallId: string, roundId: string, text: string, reasoning: string, toolCallCount: nat,
    requestId: string, artifactId: string)

  /** No payload means that the stored payload is not an object. */
  datatype Event = Event(id: string, number: int, eventType: string, payload: Option<Payload>)

  /** `details` stands for fields that are only copied or shortened for display. */
  datatype Receipt = Receipt(namespace: string, toolCallId: string, toolName: string, details: string)
  datatype Candidate = Candidate(id: string, kind: string, details: string)
  datatype Artifact = Artifact(id: string, details: string)
  datatype AssistantItem = AssistantItem(id: string, content: string)

  datatype Facts = Facts(
    events: seq<Event>, receipts: seq<Receipt>, candidates: seq<Candidate>, artifacts: seq<Artifact>,
    assistant: Option<AssistantItem>)

  predicate IsMain(namespace: string) {
    namespace == "" || namespace == "main"
  }

  predicate OnMain(e: Event) {
    e.payload.Some? && IsMain(e.payload.value.namespace)
  }

  // ----- searching events -----

  function First(events: seq<Event>, wanted: Event -> bool): Option<Event> {
    if events == [] then None
    else if wanted(events[0]) then Some(events[0])
    else First(events[1..], wanted)
  }

  function Last(events: seq<Event>, wanted: Event -> bool): Option<Event> {
    if events == [] then None
    else
      var n := |events| - 1;
      if wanted(events[n]) then Some(events[n]) else Last(events[..n], wanted)
  }

  function MaxNumber(events: seq<Event>): int
    requires events != []
  {
    var n := |events| - 1;
    if n == 0 then events[0].number else Max(MaxNumber(events[..n]), events[n].number)
  }

  predicate OfCall(e: Event, callId: string) {
    OnMain(e) && e.payload.value.toolCallId == callId && callId != ""
  }

  function Matching(events: seq<Event>, callId: string): seq<Event> {
    Sorting.Filter(events, e => OfCall(e, callId))
  }

  function OfType(eventType: string): Event -> bool {
    (e: Event) => e.eventType == eventType
  }

  /** The tool call ids in order of first appearance. */
  function CallIds(events: seq<Event>): seq<string> {
    if events == [] then []
    else
      var n := |events| - 1;
      var before := CallIds(events[..n]);
      if OnMain(events[n]) && events[n].payload.value.toolCallId != "" && events[n].payload.value.toolCallId !in before
      then before + [events[n].payload.value.toolCallId]
      else before
  }

  // ----- items -----

  predicate IsRound(e: Event) {
    && OnMain(e) && e.eventType == "assistant.round.committed"
    && e.payload.value.roundId != "" && e.payload.value.toolCallCount > 0
  }

  function ReasoningId(roundId: string): string { "round:" + roundId + ":reasoning" }
  function ProgressId(roundId: string): string { "round:" + roundId + ":progress" }
  function CallItemId(callId: string): string { "tool-call:" + callId }
  function WaitId(requestId: string): string { "wait:" + requestId }
  function ArtifactId(artifactId: string): string { "artifact:" + artifactId }
  function AnswerId(itemId: string): string { "answer:" + itemId }
  function NoticeId(eventId: string): string { "notice:" + eventId }

  function RoundItems(e: Event): seq<Item> {
    if !IsRound(e) then []
    else
      var p := e.payload.value;
      (if p.reasoning == "" then []
       else [Item(ReasoningId(p.roundId), "reasoning_summary", e.number, e.number, 0, p.reasoning)])
      + (if p.text == "" then []
         else [Item(ProgressId(p.roundId), "progress", e.number, e.number, if p.reasoning == "" then 0 else 1, p.text)])
  }

  function Rounds(events: seq<Event>): seq<Item> {
    if events == [] then []
    else
      var n := |events| - 1;
      Rounds(events[..n]) + RoundItems(events[n])
  }

  function RequestedType(toolName: string): string {
    if toolName == "task" then "subagent.spawned" else "tool.requested"
  }

  function ToolKind(toolName: string): string {
    if toolName == "task" then "subagent" else if toolName == "task.verify" then "verification" else "tool"
  }

  function ReceiptItem(r: Receipt, events: seq<Event>): Option<Item> {
    ItemOfReceipt(r, Matching(events, r.toolCallId))
  }

  /** Only a main receipt whose request is among its events is shown. */
  function ItemOfReceipt(r: Receipt, matching: seq<Event>): Option<Item> {
    if !IsMain(r.namespace) then None
    else
      match First(matching, OfType(RequestedType(r.toolName)))
      case None => None
      case Some(requested) =>
        if matching == [] then None
        else Some(Item(CallItemId(r.toolCallId), ToolKind(r.toolName), MaxNumber(matching), requested.number, 0, r.details))
  }

  /** A call with no receipt shown, kept from its events alone. */
  function LegacyItem(callId: string, events: seq<Event>): Option<Item> {
    ItemOfCall(callId, Matching(events, callId))
  }

  function ItemOfCall(callId: string, matching: seq<Event>): Option<Item> {
    match First(matching, OfType("tool.requested"))
    case None => None
    case Some(requested) =>
      if matching == [] then None
      else
        var latest := matching[|matching| - 1];
        Some(Item(CallItemId(callId), "tool", latest.number, requested.number, 0, latest.eventType))
  }

  function WaitKind(kind: string): Option<string> {
    if kind == "tool_review" then Some("approval")
    else if kind == "question" then Some("question")
    else if kind == "plan" then Some("plan")
    else if kind == "tool_reconciliation" then Some("reconciliation")
    else None
  }

  predicate AboutRequest(e: Event, requestId: string) {
    e.payload.Some? && e.payload.value.requestId == requestId
  }

  function WaitItem(c: Candidate, events: seq<Event>): Option<Item> {
    var matching := Sorting.Filter(events, e => AboutRequest(e, c.id));
    if c.id == "" || matching == [] then None
    else
      match WaitKind(c.kind)
      case None => None
      case Some(kind) =>
        Some(Item(WaitId(c.id), kind, matching[|matching| - 1].number, matching[0].number, 0, c.details))
  }

  predicate Creates(e: Event, artifactId: string) {
    e.eventType == "artifact.created" && e.payload.Some? && artifactId != "" && e.payload.value.artifactId == artifactId
  }

  function ArtifactItem(a: Artifact, events: seq<Event>): Option<Item> {
    match Last(events, e => Creates(e, a.id))
    case None => None
    case Some(e) => Some(Item(ArtifactId(a.id), "artifact", e.number, e.number, 0, a.details))
  }

  function AnswerItems(assistant: Option<AssistantItem>, events: seq<Event>): seq<Item> {
    match (Last(events, OfType("run.completed")), assistant)
    case (Some(e), Some(item)) =>
      if item.content == "" then [] else [Item(AnswerId(item.id), "final_answer", e.number, e.number, 0, item.content)]
    case _ => []
  }

  predicate IsTrouble(e: Event) {
    e.eventType in {"run.failed", "run.canceled", "run.cleanup_required"}
  }

  function NoticeItems(events: seq<Event>): seq<Item> {
    match Last(events, IsTrouble)
    case None => []
    case Some(e) => [Item(NoticeId(e.id), "notice", e.number, e.number, 0, e.eventType)]
  }

  // ----- the projection -----

  function Collect<T>(xs: seq<T>, item: T -> Option<Item>): seq<Item> {
    if xs == [] then []
    else
      var n := |xs| - 1;
      Collect(xs[..n], item) + match item(xs[n]) case None => [] case Some(y) => [y]
  }

  /** The calls that a receipt already shows. */
  function Receipted(receipts: seq<Receipt>, events: seq<Event>): set<string> {
    set r | r in receipts && ReceiptItem(r, events).Some? :: r.toolCallId
  }

  function UnreceiptedItem(callId: string, receipted: set<string>, events: seq<Event>): Option<Item> {
    if callId in receipted then None else LegacyItem(callId, events)
  }

  function ReceiptItems(facts: Facts): seq<Item> {
    Collect(facts.receipts, r => ReceiptItem(r, facts.events))
  }

  function LegacyItems(facts: Facts): seq<Item> {
    var receipted := Receipted(facts.receipts, facts.events);
    Collect(CallIds(facts.events), id => UnreceiptedItem(id, receipted, facts.events))
  }

  function WaitItems(facts: Facts): seq<Item> {
    Collect(facts.candidates, c => WaitItem(c, facts.events))
  }

  function ArtifactItems(facts: Facts): seq<Item> {
    Collect(facts.artifacts, a => ArtifactItem(a, facts.events))
  }

  function Unsorted(facts: Facts): seq<Item> {
    Rounds(facts.events) + ReceiptItems(facts) + LegacyItems(facts) + WaitItems(facts) + ArtifactItems(facts)
    + AnswerItems(facts.assistant, facts.events) + NoticeItems(facts.events)
  }

  function Project(facts: Facts, before: IdOrder): seq<Item> {
    Sort(Unsorted(facts), before)
  }

  // ----- the loops that compute it -----

  function Get(byCall: map<string, seq<Event>>, callId: string): seq<Event> {
    if callId in byCall then byCall[callId] else []
  }

  /** One pass over the events: the round items, and the events of each call. */
  method ScanEvents(events: seq<Event>)
    returns (items: seq<Item>, calls: seq<string>, byCall: map<string, seq<Event>>)
    ensures items == Rounds(events) && calls == CallIds(events)
    ensures forall id :: Get(byCall, id) == Matching(events, id)
  {
    items, calls, byCall := [], [], map[];
    for i := 0 to |events|
      invariant items == Rounds(events[..i]) && calls == CallIds(events[..i])
      invariant forall id :: id in byCall <==> id in calls
      invariant forall id :: Get(byCall, id) == Matching(events[..i], id)
    {
      var e := events[i];
      assert events[..i + 1][..i] == events[..i];
      assert forall id ::
        Matching(events[..i + 1], id) == Matching(events[..i], id) + if OfCall(e, id) then [e] else [];
      if e.payload.None? || !IsMain(e.payload.value.namespace) {
        continue;
      }
      var callId := e.payload.value.toolCallId;
      if callId != "" {
        if callId !in byCall {
          calls := calls + [callId];
        }
        byCall := byCall[callId := Get(byCall, callId) + [e]];
      }
      if IsRound(e) {
        items := items + RoundItems(e);
      }
    }
    assert events[..|events|] == events;
  }

  method ScanReceipts(receipts: seq<Receipt>, events: seq<Event>, byCall: map<string, seq<Event>>)
    returns (items: seq<Item>, receipted: set<string>)
    requires forall id :: Get(byCall, id) == Matching(events, id)
    ensures items == Collect(receipts, r => ReceiptItem(r, events))
    ensures receipted == Receipted(receipts, events)
  {
    items, receipted := [], {};
    for i := 0 to |receipts|
      invariant items == Collect(receipts[..i], r => ReceiptItem(r, events))
      invariant receipted == Receipted(receipts[..i], events)
    {
      var r := receipts[i];
      assert receipts[..i + 1][..i] == receipts[..i];
      assert Receipted(receipts[..i + 1], events)
        == receipted + if ReceiptItem(r, events).Some? then {r.toolCallId} else {};
      var shown := ItemOfReceipt(r, Get(byCall, r.toolCallId));
      if shown.Some? {
        receipted := receipted + {r.toolCallId};
        items := items + [shown.value];
      }
    }
    assert receipts[..|receipts|] == receipts;
  }

  method ScanCalls(calls: seq<string>, receipted: set<string>, events: seq<Event>, byCall: map<string, seq<Event>>)
    returns (items: seq<Item>)
    requires forall id :: Get(byCall, id) == Matching(events, id)
    ensures items == Collect(calls, id => UnreceiptedItem(id, receipted, events))
  {
    items := [];
    for i := 0 to |calls|
      invariant items == Collect(calls[..i], id => UnreceiptedItem(id, receipted, events))
    {
      assert calls[..i + 1][..i] == calls[..i];
      if calls[i] in receipted {
        continue;
      }
      var shown := ItemOfCall(calls[i], Get(byCall, calls[i]));
      if shown.Some? {
        items := items + [shown.value];
      }
    }
    assert calls[..|calls|] == calls;
  }

  method CollectItems<T>(xs: seq<T>, item: T -> Option<Item>) returns (items: seq<Item>)
    ensures items == Collect(xs, item)
  {
    items := [];
    for i := 0 to |xs|
      invariant items == Collect(xs[..i], item)
    {
      assert xs[..i + 1][..i] == xs[..i];
      var made := item(xs[i]);
      if made.Some? {
        items := items + [made.value];
      }
    }
    assert xs[..|xs|] == xs;
  }

  method ProjectRunPresentation(facts: Facts, before: IdOrder) returns (items: seq<Item>)
    ensures items == Project(facts, before)
  {
    var rounds, calls, byCall := ScanEvents(facts.events);
    var receipts, receipted := ScanReceipts(facts.receipts, facts.events, byCall);
    var bare := ScanCalls(calls, receipted, facts.events, byCall);
    var waits := CollectItems(facts.candidates, c => WaitItem(c, facts.events));
    var artifacts := CollectItems(facts.artifacts, a => ArtifactItem(a, facts.events));
    items := rounds + receipts + bare + waits + artifacts
      + AnswerItems(facts.assistant, facts.events) + NoticeItems(facts.events);
    items := Sort(items, before);
  }

  // ----- what the log guarantees -----

  predicate Increasing(events: seq<Event>) {
    forall i, j :: 0 <= i < j < |events| ==> events[i].number < events[j].number
  }

  predicate DistinctCalls(receipts: seq<Receipt>) {
    forall i, j :: 0 <= i < j < |receipts| && IsMain(receipts[i].namespace) && IsMain(receipts[j].namespace) ==>
      receipts[i].toolCallId != receipts[j].toolCallId
  }

  predicate DistinctRounds(events: seq<Event>) {
    forall i, j :: 0 <= i < j < |events| && IsRound(events[i]) && IsRound(events[j]) ==>
      events[i].payload.value.roundId != events[j].payload.value.roundId
  }

  predicate WellFormed(facts: Facts) {
    && Increasing(facts.events)
    && DistinctRounds(facts.events)
    && DistinctCalls(facts.receipts)
    && (forall i, j :: 0 <= i < j < |facts.candidates| ==> facts.candidates[i].id != facts.candidates[j].id)
    && (forall i, j :: 0 <= i < j < |facts.artifacts| ==> facts.artifacts[i].id != facts.artifacts[j].id)
  }

  // ----- lemmas about events -----

  lemma {:induction false} FilterKeepsOrder(events: seq<Event>, keep: Event -> bool)
    requires Increasing(events)
    ensures Increasing(Sorting.Filter(events, keep))
    ensures forall e :: e in Sorting.Filter(events, keep) ==> e in events && keep(e)
  {
    if events != [] {
      var n := |events| - 1;
      var front := Sorting.Filter(events[..n], keep);
      FilterKeepsOrder(events[..n], keep);
      forall i | 0 <= i < |front| ensures front[i].number < events[n].number {
        assert front[i] in events[..n];
      }
    }
  }

  lemma {:induction false} FirstMember(events: seq<Event>, wanted: Event -> bool)
    ensures First(events, wanted).Some? ==> First(events, wanted).value in events
  {
    if events != [] && !wanted(events[0]) {
      FirstMember(events[1..], wanted);
    }
  }

  lemma {:induction false} LastMember(events: seq<Event>, wanted: Event -> bool)
    ensures Last(events, wanted).Some? ==> Last(events, wanted).value in events
  {
    if events != [] && !wanted(events[|events| - 1]) {
      LastMember(events[..|events| - 1], wanted);
    }
  }

  lemma {:induction false} MaxNumberBounds(events: seq<Event>)
    requires events != []
    ensures forall e :: e in events ==> e.number <= MaxNumber(events)
    ensures HasNumber(events, MaxNumber(events))
  {
    var n := |events| - 1;
    assert events == events[..n] + [events[n]];
    assert events[n] in events;
    if n > 0 {
      var before := events[..n];
      MaxNumberBounds(before);
      var e :| e in before && e.number == MaxNumber(before);
      assert e in events;
      forall x | x in events ensures x.number <= MaxNumber(events) {
        assert x in before || x == events[n];
      }
    }
  }

  lemma {:induction false} CallIdsDistinct(events: seq<Event>)
    ensures forall i, j :: 0 <= i < j < |CallIds(events)| ==> CallIds(events)[i] != CallIds(events)[j]
  {
    if events != [] {
      CallIdsDistinct(events[..|events| - 1]);
    }
  }

  // ----- ids and numbers of items -----

  ghost predicate HasNumber(events: seq<Event>, number: int) {
    exists e :: e in events && e.number == number
  }

  /** Placed at one event of the log and revised by the same or a later one. */
  ghost predicate Dated(y: Item, events: seq<Event>) {
    y.eventSeq <= y.revision && HasNumber(events, y.eventSeq) && HasNumber(events, y.revision)
  }

  lemma DatedBy(y: Item, events: seq<Event>, placed: Event, revised: Event)
    requires placed in events && revised in events
    requires y.eventSeq == placed.number && y.revision == revised.number && placed.number <= revised.number
    ensures Dated(y, events)
  {
  }

  lemma LastIsLatest(events: seq<Event>, e: Event)
    requires Increasing(events) && e in events
    ensures e.number <= events[|events| - 1].number
  {
  }

  lemma CallItemDated(callId: string, events: seq<Event>, wanted: Event -> bool, y: Item)
    requires Increasing(events)
    requires First(Matching(events, callId), wanted).Some? && Matching(events, callId) != []
    requires y.eventSeq == First(Matching(events, callId), wanted).value.number
    requires var m := Matching(events, callId); y.revision == MaxNumber(m) || y.revision == m[|m| - 1].number
    ensures Dated(y, events)
  {
    var matching := Matching(events, callId);
    FilterKeepsOrder(events, e => OfCall(e, callId));
    FirstMember(matching, wanted);
    var placed := First(matching, wanted).value;
    if y.revision == MaxNumber(matching) {
      MaxNumberBounds(matching);
      var revised :| revised in matching && revised.number == MaxNumber(matching);
      DatedBy(y, events, placed, revised);
    } else {
      LastIsLatest(matching, placed);
      DatedBy(y, events, placed, matching[|matching| - 1]);
    }
  }

  lemma ReceiptDated(r: Receipt, events: seq<Event>)
    requires Increasing(events) && ReceiptItem(r, events).Some?
    ensures Dated(ReceiptItem(r, events).value, events)
  {
    CallItemDated(r.toolCallId, events, OfType(RequestedType(r.toolName)), ReceiptItem(r, events).value);
  }

  lemma LegacyDated(callId: string, events: seq<Event>)
    requires Increasing(events) && LegacyItem(callId, events).Some?
    ensures Dated(LegacyItem(callId, events).value, events)
  {
    CallItemDated(callId, events, OfType("tool.requested"), LegacyItem(callId, events).value);
  }

  lemma WaitDated(c: Candidate, events: seq<Event>)
    requires Increasing(events) && WaitItem(c, events).Some?
    ensures Dated(WaitItem(c, events).value, events)
  {
    var matching := Sorting.Filter(events, e => AboutRequest(e, c.id));
    FilterKeepsOrder(events, e => AboutRequest(e, c.id));
    assert matching[0] in matching && matching[|matching| - 1] in matching;
    LastIsLatest(matching, matching[0]);
    DatedBy(WaitItem(c, events).value, events, matching[0], matching[|matching| - 1]);
  }

  lemma ArtifactDated(a: Artifact, events: seq<Event>)
    requires ArtifactItem(a, events).Some?
    ensures Dated(ArtifactItem(a, events).value, events)
  {
    LastMember(events, e => Creates(e, a.id));
    var e := Last(events, e => Creates(e, a.id)).value;
    DatedBy(ArtifactItem(a, events).value, events, e, e);
  }

  // ----- groups of items -----

  /** Distinct ids that share a prefix, all dated by the log. */
  ghost predicate Group(items: seq<Item>, prefix: string, events: seq<Event>) {
    && DistinctIds(items)
    && forall i :: 0 <= i < |items| ==> prefix <= items[i].id && Dated(items[i], events)
  }

  lemma GroupSnoc(items: seq<Item>, y: Item, prefix: string, events: seq<Event>)
    requires Group(items, prefix, events)
    requires forall i :: 0 <= i < |items| ==> items[i].id != y.id
    requires prefix <= y.id && Dated(y, events)
    ensures Group(items + [y], prefix, events)
  {
  }

  /** What `Collect` needs of its items: ids by key, keys distinct. */
  lemma {:induction false} CollectGroup<T>(
    xs: seq<T>, item: T -> Option<Item>, prefix: string, events: seq<Event>)
    requires forall i :: 0 <= i < |xs| && item(xs[i]).Some? ==>
      prefix <= item(xs[i]).value.id && Dated(item(xs[i]).value, events)
    requires forall i, j :: 0 <= i < j < |xs| && item(xs[i]).Some? && item(xs[j]).Some? ==>
      item(xs[i]).value.id != item(xs[j]).value.id
    ensures Group(Collect(xs, item), prefix, events)
    ensures forall k :: 0 <= k < |Collect(xs, item)| ==> FromOneOf(Collect(xs, item)[k], xs, item)
  {
    if xs != [] {
      var n := |xs| - 1;
      var front := Collect(xs[..n], item);
      CollectGroup(xs[..n], item, prefix, events);
      forall k | 0 <= k < |front| ensures FromOneOf(front[k], xs, item) {
        assert FromOneOf(front[k], xs[..n], item);
        var i :| 0 <= i < n && item(xs[..n][i]) == Some(front[k]);
        assert xs[i] == xs[..n][i];
      }
      if item(xs[n]).Some? {
        var y := item(xs[n]).value;
        forall k | 0 <= k < |front| ensures front[k].id != y.id {
          assert FromOneOf(front[k], xs[..n], item);
          var i :| 0 <= i < n && item(xs[..n][i]) == Some(front[k]);
          assert item(xs[i]) == Some(front[k]);
        }
        GroupSnoc(front, y, prefix, events);
      }
    }
  }

  ghost predicate FromOneOf<T>(y: Item, xs: seq<T>, item: T -> Option<Item>) {
    exists i :: 0 <= i < |xs| && item(xs[i]) == Some(y)
  }

  lemma RoundIds(a: string, b: string)
    ensures ReasoningId(a) == ReasoningId(b) ==> a == b
    ensures ProgressId(a) == ProgressId(b) ==> a == b
    ensures ReasoningId(a) != ProgressId(b)
  {
    assert ReasoningId(a)[6..|ReasoningId(a)| - 10] == a;
    assert ReasoningId(b)[6..|ReasoningId(b)| - 10] == b;
    assert ProgressId(a)[6..|ProgressId(a)| - 9] == a;
    assert ProgressId(b)[6..|ProgressId(b)| - 9] == b;
    assert ReasoningId(a)[|ReasoningId(a)| - 1] == 'g';
    assert ProgressId(b)[|ProgressId(b)| - 1] == 's';
  }

  lemma KeyedIds(a: string, b: string)
    ensures CallItemId(a) == CallItemId(b) ==> a == b
    ensures WaitId(a) == WaitId(b) ==> a == b
    ensures ArtifactId(a) == ArtifactId(b) ==> a == b
  {
    assert CallItemId(a)[10..] == a && CallItemId(b)[10..] == b;
    assert WaitId(a)[5..] == a && WaitId(b)[5..] == b;
    assert ArtifactId(a)[9..] == a && ArtifactId(b)[9..] == b;
  }

  predicate OfRound(y: Item, e: Event) {
    IsRound(e) && (y.id == ReasoningId(e.payload.value.roundId) || y.id == ProgressId(e.payload.value.roundId))
  }

  ghost predicate FromRound(y: Item, events: seq<Event>) {
    exists i :: 0 <= i < |events| && OfRound(y, events[i])
  }

  lemma DifferentRounds(y: Item, z: Item, e: Event, f: Event)
    requires OfRound(y, e) && OfRound(z, f) && e.payload.value.roundId != f.payload.value.roundId
    ensures y.id != z.id
  {
    RoundIds(e.payload.value.roundId, f.payload.value.roundId);
    RoundIds(f.payload.value.roundId, e.payload.value.roundId);
  }

  lemma RoundItemsGroup(e: Event, events: seq<Event>)
    requires e in events
    ensures Group(RoundItems(e), "ro", events)
    ensures forall i :: 0 <= i < |RoundItems(e)| ==> OfRound(RoundItems(e)[i], e)
  {
    if IsRound(e) {
      RoundIds(e.payload.value.roundId, e.payload.value.roundId);
      forall i | 0 <= i < |RoundItems(e)| ensures Dated(RoundItems(e)[i], events) {
        DatedBy(RoundItems(e)[i], events, e, e);
      }
    }
  }

  lemma GroupConcat(a: seq<Item>, b: seq<Item>, prefix: string, events: seq<Event>)
    requires Group(a, prefix, events) && Group(b, prefix, events)
    requires forall i, j :: 0 <= i < |a| && 0 <= j < |b| ==> a[i].id != b[j].id
    ensures Group(a + b, prefix, events)
  {
  }

  lemma {:induction false} RoundsGroup(log: seq<Event>, events: seq<Event>)
    requires DistinctRounds(log) && forall e :: e in log ==> e in events
    ensures Group(Rounds(log), "ro", events)
    ensures forall k :: 0 <= k < |Rounds(log)| ==> FromRound(Rounds(log)[k], log)
  {
    if log != [] {
      var n := |log| - 1;
      var a, b := Rounds(log[..n]), RoundItems(log[n]);
      assert log[n] in log && forall e :: e in log[..n] ==> e in log;
      RoundsGroup(log[..n], events);
      RoundItemsGroup(log[n], events);
      forall i | 0 <= i < |a| ensures FromRound(a[i], log) {
        assert FromRound(a[i], log[..n]);
        var k :| 0 <= k < n && OfRound(a[i], log[..n][k]);
        assert OfRound(a[i], log[k]);
      }
      forall j | 0 <= j < |b| ensures FromRound(b[j], log) {
        assert OfRound(b[j], log[n]);
      }
      forall i, j | 0 <= i < |a| && 0 <= j < |b| ensures a[i].id != b[j].id {
        assert FromRound(a[i], log[..n]);
        var k :| 0 <= k < n && OfRound(a[i], log[..n][k]);
        DifferentRounds(a[i], b[j], log[k], log[n]);
      }
      GroupConcat(a, b, "ro", events);
    }
  }

  /** Shows a call that is in the set, or one that is not. */
  ghost predicate Shows(y: Item, calls: set<string>, inside: bool) {
    exists id :: (id in calls <==> inside) && y.id == CallItemId(id)
  }

  lemma ReceiptsGroup(facts: Facts)
    requires WellFormed(facts)
    ensures Group(ReceiptItems(facts), "to", facts.events)
    ensures forall k :: 0 <= k < |ReceiptItems(facts)| ==>
      Shows(ReceiptItems(facts)[k], Receipted(facts.receipts, facts.events), true)
  {
    var item := (r: Receipt) => ReceiptItem(r, facts.events);
    var xs, items := facts.receipts, ReceiptItems(facts);
    forall i | 0 <= i < |xs| && item(xs[i]).Some?
      ensures "to" <= item(xs[i]).value.id && Dated(item(xs[i]).value, facts.events)
    {
      ReceiptDated(xs[i], facts.events);
    }
    forall i, j | 0 <= i < j < |xs| && item(xs[i]).Some? && item(xs[j]).Some?
      ensures item(xs[i]).value.id != item(xs[j]).value.id
    {
      KeyedIds(xs[i].toolCallId, xs[j].toolCallId);
    }
    CollectGroup(xs, item, "to", facts.events);
    assert items == Collect(xs, item);
    forall k | 0 <= k < |items| ensures Shows(items[k], Receipted(xs, facts.events), true) {
      ReceiptShows(items[k], xs, item, facts.events);
    }
  }

  lemma ReceiptShows(y: Item, xs: seq<Receipt>, item: Receipt -> Option<Item>, events: seq<Event>)
    requires FromOneOf(y, xs, item) && forall r :: item(r) == ReceiptItem(r, events)
    ensures Shows(y, Receipted(xs, events), true)
  {
    var i :| 0 <= i < |xs| && item(xs[i]) == Some(y);
    assert xs[i].toolCallId in Receipted(xs, events);
  }

  lemma LegacyIds(callId: string, receipted: set<string>, events: seq<Event>)
    requires Increasing(events) && UnreceiptedItem(callId, receipted, events).Some?
    ensures var y := UnreceiptedItem(callId, receipted, events).value;
      y.id == CallItemId(callId) && "to" <= y.id && callId !in receipted && Dated(y, events)
  {
    LegacyDated(callId, events);
  }

  lemma LegacyGroup(facts: Facts)
    requires WellFormed(facts)
    ensures Group(LegacyItems(facts), "to", facts.events)
    ensures forall k :: 0 <= k < |LegacyItems(facts)| ==>
      Shows(LegacyItems(facts)[k], Receipted(facts.receipts, facts.events), false)
  {
    CallIdsDistinct(facts.events);
    UnreceiptedGroup(CallIds(facts.events), Receipted(facts.receipts, facts.events), facts.events);
  }

  lemma UnreceiptedGroup(xs: seq<string>, receipted: set<string>, events: seq<Event>)
    requires Increasing(events)
    requires forall i, j :: 0 <= i < j < |xs| ==> xs[i] != xs[j]
    ensures var items := Collect(xs, id => UnreceiptedItem(id, receipted, events));
      Group(items, "to", events) && forall k :: 0 <= k < |items| ==> Shows(items[k], receipted, false)
  {
    var item := (id: string) => UnreceiptedItem(id, receipted, events);
    var items := Collect(xs, item);
    forall i | 0 <= i < |xs| && item(xs[i]).Some?
      ensures "to" <= item(xs[i]).value.id && Dated(item(xs[i]).value, events)
    {
      LegacyIds(xs[i], receipted, events);
    }
    forall i, j | 0 <= i < j < |xs| && item(xs[i]).Some? && item(xs[j]).Some?
      ensures item(xs[i]).value.id != item(xs[j]).value.id
    {
      LegacyIds(xs[i], receipted, events);
      LegacyIds(xs[j], receipted, events);
      KeyedIds(xs[i], xs[j]);
    }
    CollectGroup(xs, item, "to", events);
    forall k | 0 <= k < |items| ensures Shows(items[k], receipted, false) {
      assert FromOneOf(items[k], xs, item);
      var i :| 0 <= i < |xs| && item(xs[i]) == Some(items[k]);
      LegacyIds(xs[i], receipted, events);
    }
  }

  /** Receipts and bare events never show the same call. */
  lemma CallsGroup(facts: Facts)
    requires WellFormed(facts)
    ensures Group(ReceiptItems(facts) + LegacyItems(facts), "to", facts.events)
  {
    ReceiptsGroup(facts);
    LegacyGroup(facts);
    var a, b, calls := ReceiptItems(facts), LegacyItems(facts), Receipted(facts.receipts, facts.events);
    forall i, j | 0 <= i < |a| && 0 <= j < |b| ensures a[i].id != b[j].id {
      assert Shows(a[i], calls, true) && Shows(b[j], calls, false);
      var x :| x in calls && a[i].id == CallItemId(x);
      var y :| y !in calls && b[j].id == CallItemId(y);
      KeyedIds(x, y);
    }
    GroupConcat(a, b, "to", facts.events);
  }

  lemma WaitsGroup(facts: Facts)
    requires WellFormed(facts)
    ensures Group(WaitItems(facts), "wa", facts.events)
  {
    var item := (c: Candidate) => WaitItem(c, facts.events);
    var xs := facts.candidates;
    forall i | 0 <= i < |xs| && item(xs[i]).Some?
      ensures "wa" <= item(xs[i]).value.id && Dated(item(xs[i]).value, facts.events)
    {
      WaitDated(xs[i], facts.events);
    }
    forall i, j | 0 <= i < j < |xs| && item(xs[i]).Some? && item(xs[j]).Some?
      ensures item(xs[i]).value.id != item(xs[j]).value.id
    {
      KeyedIds(xs[i].id, xs[j].id);
    }
    CollectGroup(xs, item, "wa", facts.events);
    assert WaitItems(facts) == Collect(xs, item);
  }

  lemma ArtifactsGroup(facts: Facts)
    requires WellFormed(facts)
    ensures Group(ArtifactItems(facts), "ar", facts.events)
  {
    var item := (a: Artifact) => ArtifactItem(a, facts.events);
    var xs := facts.artifacts;
    forall i | 0 <= i < |xs| && item(xs[i]).Some?
      ensures "ar" <= item(xs[i]).value.id && Dated(item(xs[i]).value, facts.events)
    {
      ArtifactDated(xs[i], facts.events);
    }
    forall i, j | 0 <= i < j < |xs| && item(xs[i]).Some? && item(xs[j]).Some?
      ensures item(xs[i]).value.id != item(xs[j]).value.id
    {
      KeyedIds(xs[i].id, xs[j].id);
    }
    CollectGroup(xs, item, "ar", facts.events);
    assert ArtifactItems(facts) == Collect(xs, item);
  }

  lemma AnswerGroup(facts: Facts)
    ensures Group(AnswerItems(facts.assistant, facts.events), "an", facts.events)
  {
    LastMember(facts.events, OfType("run.completed"));
    var items := AnswerItems(facts.assistant, facts.events);
    if items != [] {
      var e := Last(facts.events, OfType("run.completed")).value;
      DatedBy(items[0], facts.events, e, e);
    }
  }

  lemma NoticeGroup(facts: Facts)
    ensures Group(NoticeItems(facts.events), "no", facts.events)
  {
    LastMember(facts.events, IsTrouble);
    var items := NoticeItems(facts.events);
    if items != [] {
      var e := Last(facts.events, IsTrouble).value;
      DatedBy(items[0], facts.events, e, e);
    }
  }

  /** A list already checked, and a group whose two-letter prefix it does not use. */
  lemma AddGroup(items: seq<Item>, used: set<string>, group: seq<Item>, prefix: string, events: seq<Event>)
    requires Checked(items, used, events) && Group(group, prefix, events) && |prefix| == 2 && prefix !in used
    ensures Checked(items + group, used + {prefix}, events)
  {
    forall j | 0 <= j < |group| ensures |group[j].id| >= 2 && group[j].id[..2] == prefix {
      assert prefix <= group[j].id;
    }
    var all := items + group;
    forall i | 0 <= i < |all| ensures Fits(all[i], used + {prefix}, events) {
      assert i < |items| ==> Fits(items[i], used, events);
    }
    forall i, j | 0 <= i < |items| && 0 <= j < |group| ensures items[i].id != group[j].id {
      assert Fits(items[i], used, events);
    }
  }

  ghost predicate Fits(y: Item, used: set<string>, events: seq<Event>) {
    |y.id| >= 2 && y.id[..2] in used && Dated(y, events)
  }

  ghost predicate Checked(items: seq<Item>, used: set<string>, events: seq<Event>) {
    && DistinctIds(items)
    && forall i :: 0 <= i < |items| ==> Fits(items[i], used, events)
  }

  lemma CallsAndRoundsChecked(facts: Facts)
    requires WellFormed(facts)
    ensures Checked(Rounds(facts.events) + (ReceiptItems(facts) + LegacyItems(facts)), {"ro", "to"}, facts.events)
  {
    RoundsGroup(facts.events, facts.events);
    CallsGroup(facts);
    FirstGroups(Rounds(facts.events), ReceiptItems(facts) + LegacyItems(facts), facts.events);
  }

  lemma FirstGroups(rounds: seq<Item>, calls: seq<Item>, events: seq<Event>)
    requires Group(rounds, "ro", events) && Group(calls, "to", events)
    ensures Checked(rounds + calls, {"ro", "to"}, events)
  {
    AddGroup([], {}, rounds, "ro", events);
    assert [] + rounds == rounds && {} + {"ro"} == {"ro"};
    AddGroup(rounds, {"ro"}, calls, "to", events);
    assert {"ro"} + {"to"} == {"ro", "to"};
  }

  lemma WaitsAndArtifactsChecked(facts: Facts, items: seq<Item>)
    requires WellFormed(facts) && Checked(items, {"ro", "to"}, facts.events)
    ensures Checked(items + WaitItems(facts) + ArtifactItems(facts), {"ro", "to", "wa", "ar"}, facts.events)
  {
    WaitsGroup(facts);
    ArtifactsGroup(facts);
    AddGroup(items, {"ro", "to"}, WaitItems(facts), "wa", facts.events);
    assert {"ro", "to"} + {"wa"} == {"ro", "to", "wa"};
    AddGroup(items + WaitItems(facts), {"ro", "to", "wa"}, ArtifactItems(facts), "ar", facts.events);
    assert {"ro", "to", "wa"} + {"ar"} == {"ro", "to", "wa", "ar"};
  }

  lemma TerminalChecked(facts: Facts, items: seq<Item>)
    requires Checked(items, {"ro", "to", "wa", "ar"}, facts.events)
    ensures Checked(
      items + AnswerItems(facts.assistant, facts.events) + NoticeItems(facts.events),
      {"ro", "to", "wa", "ar", "an", "no"}, facts.events)
  {
    AnswerGroup(facts);
    NoticeGroup(facts);
    var answer := AnswerItems(facts.assistant, facts.events);
    AddGroup(items, {"ro", "to", "wa", "ar"}, answer, "an", facts.events);
    assert {"ro", "to", "wa", "ar"} + {"an"} == {"ro", "to", "wa", "ar", "an"};
    AddGroup(items + answer, {"ro", "to", "wa", "ar", "an"}, NoticeItems(facts.events), "no", facts.events);
    assert {"ro", "to", "wa", "ar", "an"} + {"no"} == {"ro", "to", "wa", "ar", "an", "no"};
  }

  lemma UnsortedChecked(facts: Facts)
    requires WellFormed(facts)
    ensures Checked(Unsorted(facts), {"ro", "to", "wa", "ar", "an", "no"}, facts.events)
  {
    var a := Rounds(facts.events) + (ReceiptItems(facts) + LegacyItems(facts));
    CallsAndRoundsChecked(facts);
    WaitsAndArtifactsChecked(facts, a);
    var b := a + WaitItems(facts) + ArtifactItems(facts);
    TerminalChecked(facts, b);
    UnsortedParts(facts, a, b);
  }

  lemma UnsortedParts(facts: Facts, a: seq<Item>, b: seq<Item>)
    requires a == Rounds(facts.events) + (ReceiptItems(facts) + LegacyItems(facts))
    requires b == a + WaitItems(facts) + ArtifactItems(facts)
    ensures Unsorted(facts) == b + AnswerItems(facts.assistant, facts.events) + NoticeItems(facts.events)
  {
    assert a == Rounds(facts.events) + ReceiptItems(facts) + LegacyItems(facts);
  }

  /**
   The projection of a well-formed log: distinct ids (so each tool call once at most), strict order by
   event, slot and id, and every item placed and revised by events of the log, in that order.
   */
  lemma ProjectionIsSound(facts: Facts, before: IdOrder)
    requires WellFormed(facts) && StrictTotal(before)
    ensures var items := Project(facts, before);
      && DistinctIds(items)
      && Sorted(items, before)
      && (forall y :: y in items <==> y in Unsorted(facts))
      && (forall y :: y in items ==> Dated(y, facts.events) && y.revision <= MaxNumber(facts.events))
  {
    UnsortedChecked(facts);
    SortSorts(Unsorted(facts), before);
    forall y | y in Unsorted(facts) ensures Dated(y, facts.events) {
      var i :| 0 <= i < |Unsorted(facts)| && Unsorted(facts)[i] == y;
      assert Fits(Unsorted(facts)[i], {"ro", "to", "wa", "ar", "an", "no"}, facts.events);
    }
    if facts.events != [] {
      MaxNumberBounds(facts.events);
    }
  }
}
