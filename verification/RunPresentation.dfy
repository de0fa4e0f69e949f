/**
 The client's reducer for run presentations: revisioned upserts folded into a
 sorted list, with drafts beside it.
 */
module RunPresentation {
  import opened Common
  import Sorting

  /** `body` stands for the fields the reducer only carries along. */
  datatype Item = Item(id: string, kind: string, revision: int, eventSeq: int, slot: int, body: string) {
    predicate IsFinalAnswer() {
      kind == "final_answer"
    }
  }

  datatype State = State(items: seq<Item>, watermark: int, drafts: map<string, string>)

  datatype Change =
    | Upsert(item: Item)
    | DraftDelta(roundId: string, content: string)
    | DraftClosed(roundId: string)

  // ----- the order of items -----

  predicate Less(x: Item, y: Item, before: IdOrder) {
    if x.eventSeq != y.eventSeq then x.eventSeq < y.eventSeq
    else if x.slot != y.slot then x.slot < y.slot
    else before(x.id, y.id)
  }

  function ItemOrder(before: IdOrder): Sorting.Less<Item> {
    (x, y) => Less(x, y, before)
  }

  ghost predicate Sorted(items: seq<Item>, before: IdOrder) {
    Sorting.Strictly(items, ItemOrder(before))
  }

  function Sort(items: seq<Item>, before: IdOrder): seq<Item> {
    Sorting.Sort(items, ItemOrder(before))
  }

  // ----- the map keyed by id, in insertion order -----

  predicate DistinctIds(items: seq<Item>) {
    forall i, j :: 0 <= i < j < |items| ==> items[i].id != items[j].id
  }

  function IndexOf(items: seq<Item>, id: string): (i: nat)
    ensures i <= |items|
    ensures i < |items| ==> items[i].id == id
    ensures forall j :: 0 <= j < i ==> items[j].id != id
  {
    if items == [] || items[0].id == id then 0 else 1 + IndexOf(items[1..], id)
  }

  function SetEntry(items: seq<Item>, x: Item): seq<Item> {
    var i := IndexOf(items, x.id);
    if i < |items| then items[i := x] else items + [x]
  }

  function Entries(items: seq<Item>): (entries: seq<Item>)
    ensures DistinctIds(entries)
    ensures DistinctIds(items) ==> entries == items
  {
    if items == [] then []
    else
      var n := |items| - 1;
      SetEntry(Entries(items[..n]), items[n])
  }

  // ----- the reducer -----

  /** Replaces an entry unless it is newer than the item. */
  function Merge(entries: seq<Item>, x: Item): seq<Item> {
    var i := IndexOf(entries, x.id);
    if i == |entries| || x.revision >= entries[i].revision then SetEntry(entries, x) else entries
  }

  function Max(a: int, b: int): int {
    if a > b then a else b
  }

  function Create(items: seq<Item>, watermark: int): State {
    State(items, watermark, map[])
  }

  function Apply(state: State, change: Change, before: IdOrder): State {
    match change
    case DraftDelta(roundId, content) =>
      var current := if roundId in state.drafts then state.drafts[roundId] else "";
      state.(drafts := state.drafts[roundId := current + content])
    case DraftClosed(roundId) => state.(drafts := state.drafts - {roundId})
    case Upsert(item) =>
      State(
        Sort(Merge(Entries(state.items), item), before),
        Max(state.watermark, item.revision),
        if item.IsFinalAnswer() then map[] else state.drafts)
  }

  function ApplyAll(state: State, changes: seq<Change>, before: IdOrder): State {
    if changes == [] then state
    else
      var n := |changes| - 1;
      Apply(ApplyAll(state, changes[..n], before), changes[n], before)
  }

  // ----- sorting -----

  lemma ItemOrderIsStrict(before: IdOrder)
    requires StrictTotal(before)
    ensures Sorting.StrictWeak(ItemOrder(before))
  {
  }

  /** Items with distinct ids are sorted strictly, and none is lost or added. */
  lemma SortSorts(items: seq<Item>, before: IdOrder)
    requires StrictTotal(before) && DistinctIds(items)
    ensures Sorted(Sort(items, before), before)
    ensures forall y :: y in Sort(items, before) <==> y in items
    ensures DistinctIds(Sort(items, before))
  {
    var sorted := Sort(items, before);
    ItemOrderIsStrict(before);
    Sorting.SortOrders(items, ItemOrder(before));
    PermutationKeepsDistinctIds(items, sorted);
    Sorting.SameMembers(items, sorted);
  }

  lemma PermutationKeepsDistinctIds(items: seq<Item>, sorted: seq<Item>)
    requires DistinctIds(items) && multiset(items) == multiset(sorted)
    ensures DistinctIds(sorted)
  {
    Sorting.SameMembers(items, sorted);
    Sorting.PermutationNoDuplicates(items, sorted);
    forall i, j | 0 <= i < j < |sorted| ensures sorted[i].id != sorted[j].id {
      assert sorted[i] in items && sorted[j] in items;
    }
  }

  /** A sorted list is determined by its elements. */
  lemma SortedUnique(a: seq<Item>, b: seq<Item>, before: IdOrder)
    requires StrictTotal(before) && Sorted(a, before) && Sorted(b, before)
    requires forall y :: y in a <==> y in b
    ensures a == b
  {
    ItemOrderIsStrict(before);
    Sorting.StrictUnique(a, b, ItemOrder(before));
  }

  // ----- the specification: the newest item of each id -----

  function ToSet(items: seq<Item>): set<Item> {
    set x | x in items
  }

  /** Equal ids and revisions mean equal items. */
  ghost predicate Deterministic(pool: set<Item>) {
    forall x, y :: x in pool && y in pool && x.id == y.id && x.revision == y.revision ==> x == y
  }

  ghost predicate Covered(y: Item, items: seq<Item>) {
    exists x :: x in items && x.id == y.id && x.revision >= y.revision
  }

  /** One item of the pool for each of its ids, none older than another of the same id. */
  ghost predicate Newest(items: seq<Item>, pool: set<Item>) {
    && DistinctIds(items)
    && (forall x :: x in items ==> x in pool)
    && (forall y {:trigger Covered(y, items)} :: y in pool ==> Covered(y, items))
  }

  lemma NewestUnique(a: seq<Item>, b: seq<Item>, pool: set<Item>, x: Item)
    requires Newest(a, pool) && Newest(b, pool) && Deterministic(pool) && x in a
    ensures x in b
  {
    assert Covered(x, b);
    var y :| y in b && y.id == x.id && y.revision >= x.revision;
    assert Covered(y, a);
    var z :| z in a && z.id == y.id && z.revision >= y.revision;
    assert z == x;
  }

  /** Two sorted lists of the newest items of the same pool are the same list. */
  lemma NewestSortedUnique(a: seq<Item>, b: seq<Item>, pool: set<Item>, before: IdOrder)
    requires StrictTotal(before) && Deterministic(pool)
    requires Newest(a, pool) && Newest(b, pool) && Sorted(a, before) && Sorted(b, before)
    ensures a == b
  {
    forall y ensures y in a <==> y in b {
      if y in a { NewestUnique(a, b, pool, y); }
      if y in b { NewestUnique(b, a, pool, y); }
    }
    SortedUnique(a, b, before);
  }

  lemma SetEntryMembers(entries: seq<Item>, x: Item)
    requires DistinctIds(entries)
    ensures DistinctIds(SetEntry(entries, x))
    ensures forall y :: y in SetEntry(entries, x) <==> y == x || (y in entries && y.id != x.id)
  {
    var i, next := IndexOf(entries, x.id), SetEntry(entries, x);
    assert next[i] == x;
    forall y | y in entries && y.id != x.id ensures y in next {
      var j :| 0 <= j < |entries| && entries[j] == y;
      assert next[j] == y;
    }
  }

  /** One merge extends the pool by one item. */
  lemma MergeKeepsNewest(entries: seq<Item>, x: Item, pool: set<Item>)
    requires Newest(entries, pool)
    ensures Newest(Merge(entries, x), pool + {x})
  {
    var i, next := IndexOf(entries, x.id), Merge(entries, x);
    SetEntryMembers(entries, x);
    if i < |entries| && x.revision < entries[i].revision {
      assert entries[i] in next;
      assert Covered(x, next);
    } else {
      assert x in next;
      forall y | y in pool ensures Covered(y, next) {
        assert Covered(y, entries);
        var z :| z in entries && z.id == y.id && z.revision >= y.revision;
        if z.id == x.id {
          var j :| 0 <= j < |entries| && entries[j] == z;
          assert j == i;
        } else {
          assert z in next;
        }
      }
    }
  }

  // ----- folding -----

  function Upserted(changes: seq<Change>): set<Item> {
    set c | c in changes && c.Upsert? :: c.item
  }

  function Known(state: State): set<Item> {
    ToSet(Entries(state.items))
  }

  lemma EntriesAreNewest(entries: seq<Item>)
    requires DistinctIds(entries)
    ensures Newest(entries, ToSet(entries))
  {
  }

  lemma UpsertKeepsNewest(items: seq<Item>, x: Item, pool: set<Item>, before: IdOrder)
    requires StrictTotal(before) && Newest(Entries(items), pool)
    ensures var next := Sort(Merge(Entries(items), x), before);
      Newest(next, pool + {x}) && Sorted(next, before)
  {
    var merged := Merge(Entries(items), x);
    MergeKeepsNewest(Entries(items), x, pool);
    SortSorts(merged, before);
    NewestByMembers(merged, Sort(merged, before), pool + {x});
  }

  /** Only the set of upserts counts: the result lists the newest known or upserted items, in order. */
  lemma {:induction false} FoldIsNewest(state: State, changes: seq<Change>, before: IdOrder)
    requires StrictTotal(before)
    ensures var result := ApplyAll(state, changes, before);
      if Upserted(changes) == {} then result.items == state.items
      else Newest(result.items, Known(state) + Upserted(changes)) && Sorted(result.items, before)
  {
    if changes != [] {
      var n := |changes| - 1;
      var front, last := changes[..n], changes[n];
      FoldIsNewest(state, front, before);
      UpsertedSnoc(changes);
      if last.Upsert? {
        var held := ApplyAll(state, front, before).items;
        var pool := Known(state) + Upserted(front);
        if Upserted(front) == {} {
          EntriesAreNewest(Entries(state.items));
          assert pool == Known(state);
        }
        UpsertKeepsNewest(held, last.item, pool, before);
        assert pool + {last.item} == Known(state) + Upserted(changes);
      }
    }
  }

  lemma UpsertedSnoc(changes: seq<Change>)
    requires changes != []
    ensures var n := |changes| - 1;
      Upserted(changes) == Upserted(changes[..n]) + if changes[n].Upsert? then {changes[n].item} else {}
  {
    var n := |changes| - 1;
    assert changes == changes[..n] + [changes[n]];
  }

  lemma NewestByMembers(a: seq<Item>, b: seq<Item>, pool: set<Item>)
    requires Newest(a, pool) && DistinctIds(b)
    requires forall y :: y in b <==> y in a
    ensures Newest(b, pool)
  {
    forall y | y in pool ensures Covered(y, b) {
      assert Covered(y, a);
      var x :| x in a && x.id == y.id && x.revision >= y.revision;
      assert x in b;
    }
  }

  lemma ApplyWatermark(state: State, change: Change, before: IdOrder)
    ensures change.Upsert? ==>
      && Apply(state, change, before).watermark == Max(state.watermark, change.item.revision)
      && Apply(state, change, before).drafts == if change.item.IsFinalAnswer() then map[] else state.drafts
    ensures !change.Upsert? ==> Apply(state, change, before).watermark == state.watermark
  {
  }

  /** The watermark is the largest of the old one and the upserted revisions. */
  lemma {:induction false} FoldWatermark(state: State, changes: seq<Change>, before: IdOrder)
    ensures var w := ApplyAll(state, changes, before).watermark;
      && w >= state.watermark
      && (forall x :: x in Upserted(changes) ==> w >= x.revision)
      && (w == state.watermark || exists x :: x in Upserted(changes) && x.revision == w)
  {
    if changes != [] {
      var n := |changes| - 1;
      var front, last := changes[..n], changes[n];
      FoldWatermark(state, front, before);
      UpsertedSnoc(changes);
      ApplyWatermark(ApplyAll(state, front, before), last, before);
    }
  }

  /** A final answer among the upserts drops the drafts; otherwise upserts leave them alone. */
  lemma {:induction false} UpsertsAndDrafts(state: State, changes: seq<Change>, before: IdOrder)
    requires forall c :: c in changes ==> c.Upsert?
    ensures ApplyAll(state, changes, before).drafts
         == if exists x :: x in Upserted(changes) && x.IsFinalAnswer() then map[] else state.drafts
  {
    if changes != [] {
      var n := |changes| - 1;
      var front, last := changes[..n], changes[n];
      assert changes == front + [last];
      assert last in changes && forall c :: c in front ==> c in changes;
      UpsertsAndDrafts(state, front, before);
      UpsertedSnoc(changes);
      ApplyWatermark(ApplyAll(state, front, before), last, before);
    }
  }

  /**
   Convergence: the same upserts, however ordered, repeated or mixed with draft changes, give the
   same items and the same watermark.
   */
  lemma Convergence(state: State, a: seq<Change>, b: seq<Change>, before: IdOrder)
    requires StrictTotal(before)
    requires Upserted(a) == Upserted(b)
    requires Deterministic(Known(state) + Upserted(a))
    ensures ApplyAll(state, a, before).items == ApplyAll(state, b, before).items
    ensures ApplyAll(state, a, before).watermark == ApplyAll(state, b, before).watermark
  {
    FoldIsNewest(state, a, before);
    FoldIsNewest(state, b, before);
    FoldWatermark(state, a, before);
    FoldWatermark(state, b, before);
    if Upserted(a) != {} {
      NewestSortedUnique(
        ApplyAll(state, a, before).items, ApplyAll(state, b, before).items, Known(state) + Upserted(a), before);
    }
  }

  /** With upserts alone the whole state converges. */
  lemma StateConvergence(state: State, a: seq<Change>, b: seq<Change>, before: IdOrder)
    requires StrictTotal(before)
    requires forall c :: c in a || c in b ==> c.Upsert?
    requires Upserted(a) == Upserted(b)
    requires Deterministic(Known(state) + Upserted(a))
    ensures ApplyAll(state, a, before) == ApplyAll(state, b, before)
  {
    Convergence(state, a, b, before);
    UpsertsAndDrafts(state, a, before);
    UpsertsAndDrafts(state, b, before);
  }

  function UpTo(history: set<Item>, w: int): set<Item> {
    set x | x in history && x.revision <= w
  }

  /**
   Recovery: from a snapshot of everything up to revision w, the upserts above w in any order, mixed
   with older ones delivered again, lead to the items of folding the whole history.
   */
  lemma Recovery(history: seq<Change>, w: int, snapshot: seq<Item>, later: seq<Change>, before: IdOrder)
    requires StrictTotal(before) && Deterministic(Upserted(history))
    requires Sorted(snapshot, before) && Newest(snapshot, UpTo(Upserted(history), w))
    requires Upserted(later) <= Upserted(history)
    requires forall x :: x in Upserted(history) && x.revision > w ==> x in Upserted(later)
    ensures ApplyAll(Create(snapshot, w), later, before).items == ApplyAll(Create([], 0), history, before).items
  {
    var all := Upserted(history);
    var start := Create(snapshot, w);
    var result := ApplyAll(start, later, before).items;
    FoldIsNewest(start, later, before);
    FoldIsNewest(Create([], 0), history, before);
    assert Known(Create([], 0)) + all == all;
    assert UpTo(all, w) + Upserted(later) == all;
    if Upserted(later) == {} {
      assert UpTo(all, w) == all;
    } else {
      var pool := Known(start) + Upserted(later);
      forall y | y in all ensures Covered(y, result) {
        if y.revision <= w {
          assert Covered(y, snapshot);
          var z :| z in snapshot && z.id == y.id && z.revision >= y.revision;
          assert z in pool && Covered(z, result);
        } else {
          assert y in pool;
        }
      }
      assert Newest(result, all);
    }
    NewestSortedUnique(result, ApplyAll(Create([], 0), history, before).items, all, before);
  }

  // ----- order and drafts, told from fields and changes -----

  /** Earlier event first, then smaller slot, then smaller id. */
  predicate Precedes(x: Item, y: Item, before: IdOrder) {
    || x.eventSeq < y.eventSeq
    || (x.eventSeq == y.eventSeq && x.slot < y.slot)
    || (x.eventSeq == y.eventSeq && x.slot == y.slot && before(x.id, y.id))
  }

  /** After any upsert the items are in order of event, slot and id. */
  lemma ShownInOrder(state: State, changes: seq<Change>, before: IdOrder, i: nat, j: nat)
    requires StrictTotal(before) && Upserted(changes) != {}
    requires i < j < |ApplyAll(state, changes, before).items|
    ensures Precedes(ApplyAll(state, changes, before).items[i], ApplyAll(state, changes, before).items[j], before)
  {
    FoldIsNewest(state, changes, before);
  }

  // ----- which of several items with one id is shown -----

  /** No later item of the list has the id of the i-th. */
  predicate IsLastOf(items: seq<Item>, i: nat)
    requires i < |items|
  {
    forall j :: i < j < |items| ==> items[j].id != items[i].id
  }

  ghost predicate IsLast(items: seq<Item>, y: Item) {
    exists i :: 0 <= i < |items| && items[i] == y && IsLastOf(items, i)
  }

  /** Of the items of a snapshot with one id, the last is known. */
  lemma {:induction false} EntriesKeepLast(items: seq<Item>, y: Item)
    ensures y in Entries(items) <==> IsLast(items, y)
  {
    if items != [] {
      var n := |items| - 1;
      EntriesKeepLast(items[..n], y);
      SetEntryMembers(Entries(items[..n]), items[n]);
      LastOfLonger(items, y);
    }
  }

  lemma LastOfLonger(items: seq<Item>, y: Item)
    requires items != []
    ensures var n := |items| - 1;
      IsLast(items, y) <==> y == items[n] || (IsLast(items[..n], y) && y.id != items[n].id)
  {
    var n := |items| - 1;
    if i :| 0 <= i < |items| && items[i] == y && IsLastOf(items, i) {
      if i < n {
        assert items[..n][i] == y && IsLastOf(items[..n], i);
      }
    }
    if y == items[n] {
      assert IsLastOf(items, n);
    }
    if y.id != items[n].id && IsLast(items[..n], y) {
      var i :| 0 <= i < n && items[..n][i] == y && IsLastOf(items[..n], i);
      assert forall j :: i < j < n ==> items[j] == items[..n][j];
      assert IsLastOf(items, i);
    }
  }

  lemma MergeShows(entries: seq<Item>, x: Item, y: Item)
    requires DistinctIds(entries)
    ensures y in Merge(entries, x) <==>
      if y.id != x.id then y in entries
      else if forall z :: z in entries && z.id == x.id ==> z.revision <= x.revision then y == x
      else y in entries
  {
    SetEntryMembers(entries, x);
    var i := IndexOf(entries, x.id);
    if i < |entries| {
      assert entries[i] in entries;
      assert forall z :: z in entries && z.id == x.id ==> z == entries[i];
    }
  }

  /** An upsert is shown if it is not older than what was shown, even at the same revision, and replaces that alone. */
  lemma UpsertShows(state: State, x: Item, before: IdOrder, y: Item)
    requires StrictTotal(before) && DistinctIds(state.items)
    ensures y in Apply(state, Upsert(x), before).items <==>
      if y.id != x.id then y in state.items
      else if forall z :: z in state.items && z.id == x.id ==> z.revision <= x.revision then y == x
      else y in state.items
  {
    var merged := Merge(Entries(state.items), x);
    MergeShows(Entries(state.items), x, y);
    MergeKeepsNewest(Entries(state.items), x, ToSet(Entries(state.items)));
    SortSorts(merged, before);
  }

  /** Nothing known or upserted with this id, in this list of changes, is above the revision. */
  ghost predicate NoneAbove(state: State, changes: seq<Change>, id: string, revision: int) {
    && (forall y :: y in state.items && y.id == id ==> y.revision <= revision)
    && forall i :: 0 <= i < |changes| && changes[i].Upsert? && changes[i].item.id == id ==>
         changes[i].item.revision <= revision
  }

  lemma HeldIsKnown(state: State, changes: seq<Change>, before: IdOrder, y: Item)
    requires StrictTotal(before) && DistinctIds(state.items) && y in ApplyAll(state, changes, before).items
    ensures DistinctIds(ApplyAll(state, changes, before).items)
    ensures y in state.items || exists i :: 0 <= i < |changes| && changes[i] == Upsert(y)
  {
    FoldIsNewest(state, changes, before);
    if y !in state.items {
      assert y in Upserted(changes);
      var c :| c in changes && c.Upsert? && c.item == y;
      var i :| 0 <= i < |changes| && changes[i] == c;
    }
  }

  /** Nothing upserted under this id after change j has this revision or a later one. */
  predicate OlderAfter(changes: seq<Change>, j: nat, id: string, revision: int) {
    forall i :: j < i < |changes| && changes[i].Upsert? && changes[i].item.id == id ==> changes[i].item.revision < revision
  }

  function After(state: State, changes: seq<Change>, k: nat, before: IdOrder): State
    requires k <= |changes|
  {
    ApplyAll(state, changes[..k], before)
  }

  lemma AfterNext(state: State, changes: seq<Change>, k: nat, before: IdOrder)
    requires k < |changes|
    ensures After(state, changes, k + 1, before) == Apply(After(state, changes, k, before), changes[k], before)
  {
    assert changes[..k + 1][..k] == changes[..k];
  }

  /** Of all items of one id, the last upsert of the largest revision is shown, whatever else arrives and when. */
  lemma LastOfNewestIsShown(state: State, changes: seq<Change>, j: nat, before: IdOrder)
    requires StrictTotal(before) && DistinctIds(state.items) && j < |changes| && changes[j].Upsert?
    requires NoneAbove(state, changes[..j], changes[j].item.id, changes[j].item.revision)
    requires OlderAfter(changes, j, changes[j].item.id, changes[j].item.revision)
    ensures changes[j].item in ApplyAll(state, changes, before).items
  {
    var x := changes[j].item;
    NewestComes(state, changes[..j], x, before);
    AfterNext(state, changes, j, before);
    for k := j + 1 to |changes|
      invariant x in After(state, changes, k, before).items
    {
      NewestStays(state, changes[..k], changes[k], x, before);
      AfterNext(state, changes, k, before);
    }
    assert changes[..|changes|] == changes;
  }

  lemma NewestComes(state: State, changes: seq<Change>, x: Item, before: IdOrder)
    requires StrictTotal(before) && DistinctIds(state.items) && NoneAbove(state, changes, x.id, x.revision)
    ensures x in Apply(ApplyAll(state, changes, before), Upsert(x), before).items
  {
    var held := ApplyAll(state, changes, before);
    FoldIsNewest(state, changes, before);
    forall z | z in held.items && z.id == x.id ensures z.revision <= x.revision {
      HeldIsKnown(state, changes, before, z);
    }
    UpsertShows(held, x, before, x);
  }

  lemma NewestStays(state: State, changes: seq<Change>, last: Change, x: Item, before: IdOrder)
    requires StrictTotal(before) && DistinctIds(state.items) && x in ApplyAll(state, changes, before).items
    requires last.Upsert? && last.item.id == x.id ==> last.item.revision < x.revision
    ensures x in Apply(ApplyAll(state, changes, before), last, before).items
  {
    FoldIsNewest(state, changes, before);
    if last.Upsert? {
      UpsertShows(ApplyAll(state, changes, before), last.item, before, x);
    }
  }

  /** The change ends the draft of a round: it closes it, or it is a final answer. */
  predicate Clears(change: Change, roundId: string) {
    (change.DraftClosed? && change.roundId == roundId) || (change.Upsert? && change.item.kind == "final_answer")
  }

  predicate Drafts(change: Change, roundId: string) {
    change.DraftDelta? && change.roundId == roundId
  }

  /** The texts of a round's deltas, one after the other. */
  function DraftText(changes: seq<Change>, roundId: string): string {
    if changes == [] then ""
    else (if Drafts(changes[0], roundId) then changes[0].content else "") + DraftText(changes[1..], roundId)
  }

  lemma {:induction false} DraftTextSnoc(changes: seq<Change>, last: Change, roundId: string)
    ensures DraftText(changes + [last], roundId)
         == DraftText(changes, roundId) + if Drafts(last, roundId) then last.content else ""
  {
    if changes == [] {
      assert [last][1..] == [];
    } else {
      var first, rest := if Drafts(changes[0], roundId) then changes[0].content else "", DraftText(changes[1..], roundId);
      var added := if Drafts(last, roundId) then last.content else "";
      assert (changes + [last])[1..] == changes[1..] + [last];
      DraftTextSnoc(changes[1..], last, roundId);
      assert first + (rest + added) == first + rest + added;
    }
  }

  /** The drafts alone, without the items. */
  function DraftsAfter(drafts: map<string, string>, change: Change): map<string, string> {
    match change
    case DraftDelta(roundId, content) =>
      drafts[roundId := (if roundId in drafts then drafts[roundId] else "") + content]
    case DraftClosed(roundId) => drafts - {roundId}
    case Upsert(item) => if item.IsFinalAnswer() then map[] else drafts
  }

  function AllDrafts(drafts: map<string, string>, changes: seq<Change>): map<string, string> {
    if changes == [] then drafts
    else
      var n := |changes| - 1;
      DraftsAfter(AllDrafts(drafts, changes[..n]), changes[n])
  }

  lemma ApplyDrafts(state: State, change: Change, before: IdOrder)
    ensures Apply(state, change, before).drafts == DraftsAfter(state.drafts, change)
  {
  }

  lemma {:induction false} AllDraftsAre(state: State, changes: seq<Change>, before: IdOrder)
    ensures ApplyAll(state, changes, before).drafts == AllDrafts(state.drafts, changes)
  {
    if changes != [] {
      var n := |changes| - 1;
      AllDraftsAre(state, changes[..n], before);
      ApplyDrafts(ApplyAll(state, changes[..n], before), changes[n], before);
    }
  }

  ghost predicate IsDraft(drafts: map<string, string>, changes: seq<Change>, roundId: string, i: nat)
    requires i <= |changes|
  {
    && (roundId in drafts <==> HasDraft(changes, roundId, i))
    && (roundId in drafts ==> drafts[roundId] == DraftText(changes[i..], roundId))
  }

  /** One more change that does not end the draft. */
  lemma IsDraftNext(drafts: map<string, string>, changes: seq<Change>, roundId: string, i: nat)
    requires i < |changes| && !Clears(changes[|changes| - 1], roundId)
    requires IsDraft(drafts, changes[..|changes| - 1], roundId, i)
    ensures IsDraft(DraftsAfter(drafts, changes[|changes| - 1]), changes, roundId, i)
  {
    var n := |changes| - 1;
    var front, last := changes[..n], changes[n];
    assert changes[i..] == front[i..] + [last];
    DraftTextSnoc(front[i..], last, roundId);
    LaterDraft(changes, roundId, i);
    if !HasDraft(front, roundId, i) {
      NoDraftText(front[i..], roundId);
    }
  }

  lemma {:induction false} DraftsFrom(drafts: map<string, string>, changes: seq<Change>, roundId: string, i: nat)
    requires i <= |changes| && if i == 0 then roundId !in drafts else Clears(changes[i - 1], roundId)
    requires forall j :: i <= j < |changes| ==> !Clears(changes[j], roundId)
    ensures IsDraft(AllDrafts(drafts, changes), changes, roundId, i)
    decreases |changes|
  {
    if i < |changes| {
      DraftsFrom(drafts, changes[..|changes| - 1], roundId, i);
      IsDraftNext(AllDrafts(drafts, changes[..|changes| - 1]), changes, roundId, i);
    }
  }

  /**
   A round's draft is the text of its deltas since it was last ended, from change i on; it is there exactly when there
   has been such a delta.
   */
  lemma DraftIsText(state: State, changes: seq<Change>, before: IdOrder, roundId: string, i: nat)
    requires i <= |changes| && if i == 0 then roundId !in state.drafts else Clears(changes[i - 1], roundId)
    requires forall j :: i <= j < |changes| ==> !Clears(changes[j], roundId)
    ensures IsDraft(ApplyAll(state, changes, before).drafts, changes, roundId, i)
  {
    AllDraftsAre(state, changes, before);
    DraftsFrom(state.drafts, changes, roundId, i);
  }

  predicate HasDraft(changes: seq<Change>, roundId: string, i: nat) {
    exists j :: i <= j < |changes| && Drafts(changes[j], roundId)
  }

  lemma LaterDraft(changes: seq<Change>, roundId: string, i: nat)
    requires i < |changes|
    ensures var n := |changes| - 1;
      HasDraft(changes, roundId, i) <==> HasDraft(changes[..n], roundId, i) || Drafts(changes[n], roundId)
  {
    var n := |changes| - 1;
    if j :| i <= j < n && Drafts(changes[..n][j], roundId) {
      assert Drafts(changes[j], roundId);
    }
    if j :| i <= j < |changes| && Drafts(changes[j], roundId) {
      assert j < n ==> Drafts(changes[..n][j], roundId);
    }
  }

  lemma {:induction false} NoDraftText(changes: seq<Change>, roundId: string)
    requires forall j :: 0 <= j < |changes| ==> !Drafts(changes[j], roundId)
    ensures DraftText(changes, roundId) == ""
  {
    if changes != [] {
      NoDraftText(changes[1..], roundId);
    }
  }
}
