/**
 What a later projection of the same run keeps of an earlier one: events are appended, while receipts,
 waits and artifacts keep their keys and may change in everything else.
 */
module FactsGrowth {
  import opened Common
  import opened RunPresentation
  import opened Projection
  import Sorting

  // ----- growing facts -----

  predicate SameReceipt(r: Receipt, s: Receipt) {
    r.namespace == s.namespace && r.toolCallId == s.toolCallId && r.toolName == s.toolName
  }

  ghost predicate HasReceipt(receipts: seq<Receipt>, r: Receipt) {
    exists s :: s in receipts && SameReceipt(r, s)
  }

  ghost predicate HasCandidate(candidates: seq<Candidate>, c: Candidate) {
    exists d :: d in candidates && d.id == c.id && d.kind == c.kind
  }

  ghost predicate HasArtifact(artifacts: seq<Artifact>, a: Artifact) {
    exists b :: b in artifacts && b.id == a.id
  }

  /** A shown answer stays the answer. */
  predicate AnswerStays(before: Facts, after: Facts) {
    AnswerItems(before.assistant, before.events) != [] ==>
      after.assistant.Some? && after.assistant.value.id == before.assistant.value.id && after.assistant.value.content != ""
  }

  ghost predicate Grown(before: Facts, after: Facts) {
    && before.events <= after.events
    && (forall r :: r in before.receipts ==> HasReceipt(after.receipts, r))
    && (forall c :: c in before.candidates ==> HasCandidate(after.candidates, c))
    && (forall a :: a in before.artifacts ==> HasArtifact(after.artifacts, a))
    && AnswerStays(before, after)
  }

  /** The notice shown before is still the notice: no other terminal failure has been logged since. */
  predicate NoticeKept(before: Facts, after: Facts) {
    Last(before.events, IsTrouble).Some? ==>
      Last(after.events, IsTrouble).Some?
      && Last(after.events, IsTrouble).value.id == Last(before.events, IsTrouble).value.id
  }

  ghost predicate Persists(x: Item, items: seq<Item>) {
    exists y :: y in items && y.id == x.id && y.revision >= x.revision
  }

  // ----- searching a longer log -----

  lemma {:induction false} FirstStays(events: seq<Event>, more: seq<Event>, wanted: Event -> bool)
    requires First(events, wanted).Some?
    ensures First(events + more, wanted) == First(events, wanted)
  {
    assert (events + more)[1..] == events[1..] + more;
    if !wanted(events[0]) {
      FirstStays(events[1..], more, wanted);
    }
  }

  /** The last match of a longer log is a match of the old log or of what was added. */
  lemma {:induction false} LastMoves(events: seq<Event>, more: seq<Event>, wanted: Event -> bool)
    requires Last(events, wanted).Some?
    ensures Last(events + more, wanted) == Last(events, wanted)
      || (Last(events + more, wanted).Some? && Last(events + more, wanted).value in more)
  {
    if more == [] {
      assert events + more == events;
    } else {
      var n := |more| - 1;
      assert (events + more)[..|events| + n] == events + more[..n];
      LastMoves(events, more[..n], wanted);
    }
  }

  lemma LastIsLater(events: seq<Event>, longer: seq<Event>, wanted: Event -> bool)
    requires events <= longer && Increasing(longer) && Last(events, wanted).Some?
    ensures Last(longer, wanted).Some? && Last(longer, wanted).value.number >= Last(events, wanted).value.number
  {
    var more := longer[|events|..];
    assert longer == events + more;
    LastMoves(events, more, wanted);
    LastMember(events, wanted);
    var e, f := Last(events, wanted).value, Last(longer, wanted).value;
    if f in more {
      var i :| 0 <= i < |events| && events[i] == e;
      var j :| 0 <= j < |more| && more[j] == f;
      assert longer[i] == e && longer[|events| + j] == f;
    }
  }

  /** The events of a call in a longer log: the same ones first, then later ones. */
  lemma MatchingGrows(events: seq<Event>, longer: seq<Event>, callId: string)
    requires events <= longer && Increasing(longer)
    ensures Matching(events, callId) <= Matching(longer, callId)
    ensures Increasing(Matching(longer, callId))
  {
    assert longer == events + longer[|events|..];
    Sorting.FilterConcat(events, longer[|events|..], (e: Event) => OfCall(e, callId));
    FilterKeepsOrder(longer, (e: Event) => OfCall(e, callId));
  }

  /** In an increasing log the largest number is the last one. */
  lemma MaxIsLast(events: seq<Event>)
    requires Increasing(events) && events != []
    ensures MaxNumber(events) == events[|events| - 1].number
  {
    MaxNumberBounds(events);
    var e :| e in events && e.number == MaxNumber(events);
    LastIsLatest(events, e);
    assert events[|events| - 1] in events;
  }

  // ----- collected items -----

  lemma {:induction false} CollectedFrom<T>(xs: seq<T>, item: T -> Option<Item>, y: Item) returns (x: T)
    requires y in Collect(xs, item)
    ensures x in xs && item(x) == Some(y)
  {
    var n := |xs| - 1;
    if item(xs[n]) == Some(y) {
      x := xs[n];
    } else {
      x := CollectedFrom(xs[..n], item, y);
    }
  }

  lemma {:induction false} CollectKeeps<T>(xs: seq<T>, item: T -> Option<Item>, x: T, y: Item)
    requires x in xs && item(x) == Some(y)
    ensures y in Collect(xs, item)
  {
    var n := |xs| - 1;
    assert xs == xs[..n] + [xs[n]];
    if x in xs[..n] {
      CollectKeeps(xs[..n], item, x, y);
    }
  }

  // ----- each kind of item persists -----

  lemma {:induction false} RoundsGrow(events: seq<Event>, more: seq<Event>, x: Item)
    requires x in Rounds(events)
    ensures x in Rounds(events + more)
  {
    if more == [] {
      assert events + more == events;
    } else {
      var n := |more| - 1;
      assert (events + more)[..|events| + n] == events + more[..n];
      RoundsGrow(events, more[..n], x);
    }
  }

  /** A receipt that is shown stays shown, at its old revision or a later one. */
  lemma ReceiptGrows(r: Receipt, s: Receipt, events: seq<Event>, longer: seq<Event>)
    requires SameReceipt(r, s) && events <= longer && Increasing(longer) && ReceiptItem(r, events).Some?
    ensures var x := ReceiptItem(r, events).value;
      ReceiptItem(s, longer).Some?
      && ReceiptItem(s, longer).value.id == x.id && ReceiptItem(s, longer).value.revision >= x.revision
  {
    MatchingGrows(events, longer, r.toolCallId);
    var m, n := Matching(events, r.toolCallId), Matching(longer, r.toolCallId);
    assert n == m + n[|m|..];
    FirstStays(m, n[|m|..], OfType(RequestedType(r.toolName)));
    LaterMax(m, n);
  }

  lemma LaterMax(m: seq<Event>, n: seq<Event>)
    requires m != [] && m <= n && Increasing(n)
    ensures MaxNumber(n) >= MaxNumber(m) && MaxNumber(m) == m[|m| - 1].number && MaxNumber(n) == n[|n| - 1].number
  {
    assert Increasing(m) by {
      assert forall i :: 0 <= i < |m| ==> m[i] == n[i];
    }
    MaxIsLast(m);
    MaxIsLast(n);
    assert m[|m| - 1] == n[|m| - 1];
  }

  lemma ReceiptPersists(before: Facts, after: Facts, x: Item)
    requires Grown(before, after) && WellFormed(after) && x in ReceiptItems(before)
    ensures Persists(x, Unsorted(after))
  {
    var r := CollectedFrom(before.receipts, (r: Receipt) => ReceiptItem(r, before.events), x);
    assert HasReceipt(after.receipts, r);
    var s :| s in after.receipts && SameReceipt(r, s);
    ReceiptGrows(r, s, before.events, after.events);
    var y := ReceiptItem(s, after.events).value;
    CollectKeeps(after.receipts, (r: Receipt) => ReceiptItem(r, after.events), s, y);
    assert y in Unsorted(after);
  }

  lemma {:induction false} CallIdsGrow(events: seq<Event>, more: seq<Event>, id: string)
    requires id in CallIds(events)
    ensures id in CallIds(events + more)
  {
    if more == [] {
      assert events + more == events;
    } else {
      var n := |more| - 1;
      assert (events + more)[..|events| + n] == events + more[..n];
      CallIdsGrow(events, more[..n], id);
    }
  }

  lemma LegacyGrows(id: string, events: seq<Event>, longer: seq<Event>)
    requires events <= longer && Increasing(longer) && LegacyItem(id, events).Some?
    ensures var x, n := LegacyItem(id, events).value, Matching(longer, id);
      && n != [] && x.id == CallItemId(id) && MaxNumber(n) >= x.revision && MaxNumber(n) == n[|n| - 1].number
      && LegacyItem(id, longer).Some? && LegacyItem(id, longer).value.id == x.id
      && LegacyItem(id, longer).value.revision == MaxNumber(n)
  {
    MatchingGrows(events, longer, id);
    var m, n := Matching(events, id), Matching(longer, id);
    assert n == m + n[|m|..];
    FirstStays(m, n[|m|..], OfType("tool.requested"));
    LaterMax(m, n);
  }

  /** A call shown from its events alone is later shown by those or by a receipt, under the same id. */
  lemma LegacyPersists(before: Facts, after: Facts, x: Item)
    requires Grown(before, after) && WellFormed(after) && x in LegacyItems(before)
    ensures Persists(x, Unsorted(after))
  {
    var receipted := Receipted(before.receipts, before.events);
    var id := CollectedFrom(CallIds(before.events), (id: string) => UnreceiptedItem(id, receipted, before.events), x);
    LegacyGrows(id, before.events, after.events);
    var later := Receipted(after.receipts, after.events);
    if id in later {
      var r :| r in after.receipts && ReceiptItem(r, after.events).Some? && r.toolCallId == id;
      var y := ReceiptItem(r, after.events).value;
      CollectKeeps(after.receipts, (r: Receipt) => ReceiptItem(r, after.events), r, y);
      assert y in Unsorted(after);
    } else {
      var y := LegacyItem(id, after.events).value;
      assert after.events == before.events + after.events[|before.events|..];
      CallIdsGrow(before.events, after.events[|before.events|..], id);
      CollectKeeps(CallIds(after.events), (id: string) => UnreceiptedItem(id, later, after.events), id, y);
      assert y in Unsorted(after);
    }
  }

  lemma WaitGrows(c: Candidate, d: Candidate, events: seq<Event>, longer: seq<Event>)
    requires c.id == d.id && c.kind == d.kind && events <= longer && Increasing(longer) && WaitItem(c, events).Some?
    ensures var x := WaitItem(c, events).value;
      WaitItem(d, longer).Some?
      && WaitItem(d, longer).value.id == x.id && WaitItem(d, longer).value.revision >= x.revision
  {
    var about := (e: Event) => AboutRequest(e, c.id);
    assert longer == events + longer[|events|..];
    Sorting.FilterConcat(events, longer[|events|..], about);
    FilterKeepsOrder(longer, about);
    var m, n := Sorting.Filter(events, about), Sorting.Filter(longer, about);
    assert m <= n && m[|m| - 1] == n[|m| - 1];
  }

  lemma WaitPersists(before: Facts, after: Facts, x: Item)
    requires Grown(before, after) && WellFormed(after) && x in WaitItems(before)
    ensures Persists(x, Unsorted(after))
  {
    var c := CollectedFrom(before.candidates, (c: Candidate) => WaitItem(c, before.events), x);
    assert HasCandidate(after.candidates, c);
    var d :| d in after.candidates && d.id == c.id && d.kind == c.kind;
    WaitGrows(c, d, before.events, after.events);
    var y := WaitItem(d, after.events).value;
    CollectKeeps(after.candidates, (c: Candidate) => WaitItem(c, after.events), d, y);
    assert y in Unsorted(after);
  }

  lemma ArtifactPersists(before: Facts, after: Facts, x: Item)
    requires Grown(before, after) && WellFormed(after) && x in ArtifactItems(before)
    ensures Persists(x, Unsorted(after))
  {
    var a := CollectedFrom(before.artifacts, (a: Artifact) => ArtifactItem(a, before.events), x);
    assert HasArtifact(after.artifacts, a);
    var b :| b in after.artifacts && b.id == a.id;
    LastIsLater(before.events, after.events, e => Creates(e, a.id));
    var y := ArtifactItem(b, after.events).value;
    CollectKeeps(after.artifacts, (a: Artifact) => ArtifactItem(a, after.events), b, y);
    assert y in Unsorted(after);
  }

  lemma AnswerPersists(before: Facts, after: Facts, x: Item)
    requires Grown(before, after) && WellFormed(after) && x in AnswerItems(before.assistant, before.events)
    ensures Persists(x, Unsorted(after))
  {
    LastIsLater(before.events, after.events, OfType("run.completed"));
    var y := AnswerItems(after.assistant, after.events)[0];
    assert y in Unsorted(after);
  }

  lemma NoticePersists(before: Facts, after: Facts, x: Item)
    requires Grown(before, after) && WellFormed(after) && NoticeKept(before, after) && x in NoticeItems(before.events)
    ensures Persists(x, Unsorted(after))
  {
    LastIsLater(before.events, after.events, IsTrouble);
    var y := NoticeItems(after.events)[0];
    assert y in Unsorted(after);
  }

  /** Every item but a replaced notice is still there later, at its old revision or a later one. */
  lemma ItemPersists(before: Facts, after: Facts, x: Item)
    requires Grown(before, after) && WellFormed(after) && x in Unsorted(before)
    requires x in NoticeItems(before.events) ==> NoticeKept(before, after)
    ensures Persists(x, Unsorted(after))
  {
    if x in Rounds(before.events) {
      assert after.events == before.events + after.events[|before.events|..];
      RoundsGrow(before.events, after.events[|before.events|..], x);
      assert x in Unsorted(after);
    } else if x in ReceiptItems(before) {
      ReceiptPersists(before, after, x);
    } else if x in LegacyItems(before) {
      LegacyPersists(before, after, x);
    } else if x in WaitItems(before) {
      WaitPersists(before, after, x);
    } else if x in ArtifactItems(before) {
      ArtifactPersists(before, after, x);
    } else if x in AnswerItems(before.assistant, before.events) {
      AnswerPersists(before, after, x);
    } else {
      NoticePersists(before, after, x);
    }
  }

  // ----- replaced notices -----

  lemma InGroup(y: Item, items: seq<Item>, prefix: string, events: seq<Event>)
    requires Group(items, prefix, events) && y in items && prefix != ""
    ensures y.id != "" && y.id[0] == prefix[0]
  {
    assert prefix <= y.id;
  }

  /** Only a notice has an id that starts like one. */
  lemma OnlyNotices(facts: Facts, y: Item)
    requires WellFormed(facts) && y in Unsorted(facts) && y.id != "" && y.id[0] == 'n'
    ensures y in NoticeItems(facts.events)
  {
    var events := facts.events;
    RoundsGroup(events, events);
    CallsGroup(facts);
    WaitsGroup(facts);
    ArtifactsGroup(facts);
    AnswerGroup(facts);
    var calls := ReceiptItems(facts) + LegacyItems(facts);
    if y in Rounds(events) {
      InGroup(y, Rounds(events), "ro", events);
    } else if y in calls {
      InGroup(y, calls, "to", events);
    } else if y in WaitItems(facts) {
      InGroup(y, WaitItems(facts), "wa", events);
    } else if y in ArtifactItems(facts) {
      InGroup(y, ArtifactItems(facts), "ar", events);
    } else if y in AnswerItems(facts.assistant, events) {
      InGroup(y, AnswerItems(facts.assistant, events), "an", events);
    }
  }

  lemma NoticeIds(a: string, b: string)
    ensures NoticeId(a) == NoticeId(b) ==> a == b
    ensures NoticeId(a)[0] == 'n'
  {
    assert NoticeId(a)[7..] == a && NoticeId(b)[7..] == b;
  }

  /** A replaced notice leaves no item of its id behind. */
  lemma ReplacedNoticeIsGone(before: Facts, after: Facts, x: Item, y: Item)
    requires WellFormed(after) && !NoticeKept(before, after)
    requires x in NoticeItems(before.events) && y in Unsorted(after)
    ensures y.id != x.id
  {
    var e := Last(before.events, IsTrouble).value;
    if y.id == x.id {
      NoticeIds(e.id, e.id);
      OnlyNotices(after, y);
      NoticeIds(e.id, Last(after.events, IsTrouble).value.id);
    }
  }

  // ----- two projections of one run -----

  /** Nothing held is newer than the projected item of its id. */
  ghost predicate NoNewer(held: seq<Item>, projected: seq<Item>) {
    forall x, y :: x in held && y in projected && x.id == y.id ==> y.revision >= x.revision
  }

  ghost predicate HasId(items: seq<Item>, id: string) {
    exists y :: y in items && y.id == id
  }

  /** Every id held is still projected. */
  ghost predicate NoneDropped(held: seq<Item>, projected: seq<Item>) {
    forall x :: x in held ==> HasId(projected, x.id)
  }

  lemma SameId(items: seq<Item>, x: Item, y: Item)
    requires DistinctIds(items) && x in items && y in items && x.id == y.id
    ensures x == y
  {
  }

  /** While facts grow no revision falls back, and the only item that can disappear is a replaced notice. */
  lemma ProjectionsGrow(before: Facts, after: Facts, order: IdOrder)
    requires WellFormed(before) && WellFormed(after) && Grown(before, after) && StrictTotal(order)
    ensures NoNewer(Project(before, order), Project(after, order))
    ensures NoneDropped(Project(before, order), Project(after, order)) <==> NoticeKept(before, after)
  {
    var held, projected := Project(before, order), Project(after, order);
    ProjectionIsSound(before, order);
    ProjectionIsSound(after, order);
    forall x, y | x in held && y in projected && x.id == y.id ensures y.revision >= x.revision {
      if x in NoticeItems(before.events) && !NoticeKept(before, after) {
        ReplacedNoticeIsGone(before, after, x, y);
      } else {
        ItemPersists(before, after, x);
        var z :| z in Unsorted(after) && z.id == x.id && z.revision >= x.revision;
        SameId(projected, y, z);
      }
    }
    if NoticeKept(before, after) {
      forall x | x in held ensures HasId(projected, x.id) {
        ItemPersists(before, after, x);
        var z :| z in Unsorted(after) && z.id == x.id && z.revision >= x.revision;
        assert z in projected;
      }
    } else {
      var x := NoticeItems(before.events)[0];
      assert x in Unsorted(before);
      assert x in held;
      if HasId(projected, x.id) {
        var y :| y in projected && y.id == x.id;
        ReplacedNoticeIsGone(before, after, x, y);
      }
    }
  }
}
