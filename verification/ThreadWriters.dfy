/**
 The writers of a thread: turns append two items, a rewrite replaces everything from a message on, a run settles
 its item, and each write raises the version. Together with the reader they make every snapshot whole.
 */
module ThreadWriters {
  import opened Common
  import opened ThreadSnapshot
  import Sorting

  // ----- the stored thread -----

  /** Rows are never removed; superseded ones are no longer visible. */
  datatype Row = Row(item: ThreadItem, client: Option<string>, fromUser: bool, superseded: bool)

  datatype Store = Store(version: int, deleted: bool, rows: seq<Row>)

  datatype Message = Message(id: string, text: string)

  /** A user message and the assistant item that its run will settle. */
  datatype Turn = Turn(client: string, user: Message, assistantClient: Option<string>, assistantId: string)

  datatype Write =
    | Create(history: seq<Message>, turn: Turn)
    | Append(turn: Turn)
    | Rewrite(target: string, turn: Turn)
    | Settle(id: string, text: string)
    | Update
    | Delete

  /** The visible items, in the order of their rows. */
  function Visible(rows: seq<Row>): seq<ThreadItem> {
    if rows == [] then []
    else
      var n := |rows| - 1;
      Visible(rows[..n]) + if rows[n].superseded then [] else [rows[n].item]
  }

  /** The largest position, or 0 if there is none. */
  function Top(items: seq<ThreadItem>): int {
    if items == [] then 0
    else if |items| == 1 then items[0].position
    else
      var n := |items| - 1;
      if items[n].position > Top(items[..n]) then items[n].position else Top(items[..n])
  }

  /** The visible user message with this client id. */
  function Target(rows: seq<Row>, client: string): Option<int> {
    if rows == [] then None
    else if rows[0].client == Some(client) && rows[0].fromUser && !rows[0].superseded then Some(rows[0].item.position)
    else Target(rows[1..], client)
  }

  predicate HasId(rows: seq<Row>, id: string) {
    exists i :: 0 <= i < |rows| && rows[i].item.id == id
  }

  predicate HasClient(rows: seq<Row>, client: string) {
    exists i :: 0 <= i < |rows| && rows[i].client == Some(client)
  }

  /** Ids and client ids are unique in the table; an insert that breaks this fails, and the write with it. */
  predicate Fits(rows: seq<Row>, turn: Turn) {
    && !HasId(rows, turn.user.id) && !HasId(rows, turn.assistantId) && turn.user.id != turn.assistantId
    && !HasClient(rows, turn.client)
    && (turn.assistantClient.Some? ==>
          turn.assistantClient.value != turn.client && !HasClient(rows, turn.assistantClient.value))
  }

  function AddTurn(rows: seq<Row>, base: int, turn: Turn): seq<Row> {
    rows + [
      Row(ThreadItem(turn.user.id, base + 1, turn.user.text), Some(turn.client), true, false),
      Row(ThreadItem(turn.assistantId, base + 2, ""), turn.assistantClient, false, false)]
  }

  function Seed(history: seq<Message>): seq<Row> {
    seq(|history|, i requires 0 <= i < |history| =>
      Row(ThreadItem(history[i].id, i + 1, history[i].text), None, false, false))
  }

  predicate DistinctMessages(history: seq<Message>) {
    forall i, j :: 0 <= i < j < |history| ==> history[i].id != history[j].id
  }

  function Supersede(rows: seq<Row>, base: int): seq<Row> {
    seq(|rows|, i requires 0 <= i < |rows| =>
      if rows[i].item.position > base then rows[i].(superseded := true) else rows[i])
  }

  function Edit(rows: seq<Row>, id: string, text: string): seq<Row> {
    seq(|rows|, i requires 0 <= i < |rows| =>
      if rows[i].item.id == id then rows[i].(item := rows[i].item.(body := text)) else rows[i])
  }

  /** A write takes place whole or not at all. */
  function Apply(store: Option<Store>, write: Write): Option<Store> {
    if store.None? then
      if write.Create? && DistinctMessages(write.history) && Fits(Seed(write.history), write.turn) then
        Some(Store(1, false, AddTurn(Seed(write.history), |write.history|, write.turn)))
      else None
    else
      var s := store.value;
      match write
      case Create(_, _) => store
      case Append(turn) =>
        if s.deleted || !Fits(s.rows, turn) then store
        else Some(s.(version := s.version + 1, rows := AddTurn(s.rows, Top(Visible(s.rows)), turn)))
      case Rewrite(target, turn) =>
        var position := Target(s.rows, target);
        if s.deleted || !Fits(s.rows, turn) || position.None? then store
        else
          var base := position.value - 1;
          Some(s.(version := s.version + 1, rows := AddTurn(Supersede(s.rows, base), base, turn)))
      case Settle(id, text) =>
        if HasId(s.rows, id) then Some(s.(version := s.version + 1, rows := Edit(s.rows, id, text))) else store
      case Update => if s.deleted then store else Some(s.(version := s.version + 1))
      case Delete => if s.deleted then store else Some(s.(version := s.version + 1, deleted := true))
  }

  function Run(start: Option<Store>, writes: seq<Write>): Option<Store> {
    if writes == [] then start
    else
      var n := |writes| - 1;
      Apply(Run(start, writes[..n]), writes[n])
  }

  /** What a page request sees: the visible items by position, then id. */
  function Published(store: Option<Store>, order: IdOrder): Option<Thread> {
    if store.None? || store.value.deleted then None
    else Some(Thread(store.value.version, Sorting.Sort(Visible(store.value.rows), RowOrder(order))))
  }

  // ----- what every write keeps -----

  /** Positions start at `low`, never fall, and rise above 0. */
  predicate Spread(items: seq<ThreadItem>, low: int) {
    && (forall i :: 0 <= i < |items| ==> items[i].position >= low)
    && forall i, j :: 0 <= i < j < |items| ==>
      items[i].position <= items[j].position && (items[j].position > 0 ==> items[i].position < items[j].position)
  }

  predicate DistinctRows(rows: seq<Row>) {
    forall i, j :: 0 <= i < j < |rows| ==> rows[i].item.id != rows[j].item.id
  }

  predicate PositionsFrom(rows: seq<Row>, low: int) {
    forall i :: 0 <= i < |rows| ==> rows[i].item.position >= low
  }

  ghost predicate Kept(rows: seq<Row>, low: int) {
    DistinctRows(rows) && PositionsFrom(rows, low) && Spread(Visible(rows), low)
  }

  predicate Shows(row: Row, x: ThreadItem) {
    !row.superseded && row.item == x
  }

  lemma {:induction false} VisibleFrom(rows: seq<Row>, x: ThreadItem) returns (i: nat)
    requires x in Visible(rows)
    ensures i < |rows| && Shows(rows[i], x)
  {
    var n := |rows| - 1;
    if Shows(rows[n], x) {
      i := n;
    } else {
      i := VisibleFrom(rows[..n], x);
    }
  }

  lemma {:induction false} VisibleDistinct(rows: seq<Row>)
    requires DistinctRows(rows)
    ensures DistinctIds(Visible(rows))
  {
    if rows != [] {
      var n := |rows| - 1;
      VisibleDistinct(rows[..n]);
      var front := Visible(rows[..n]);
      forall i | 0 <= i < |front| ensures front[i].id != rows[n].item.id {
        var k := VisibleFrom(rows[..n], front[i]);
        assert rows[k] == rows[..n][k];
      }
    }
  }

  lemma {:induction false} TopBounds(items: seq<ThreadItem>, low: int)
    requires 0 <= low <= 1 && Spread(items, low)
    ensures forall i :: 0 <= i < |items| ==> items[i].position <= Top(items)
    ensures Top(items) >= 0
  {
    if |items| > 1 {
      TopBounds(items[..|items| - 1], low);
    }
  }

  /** A turn at a base that no visible item exceeds keeps the rows in order. */
  lemma TurnKeeps(rows: seq<Row>, low: int, base: int, turn: Turn)
    requires Kept(rows, low) && 0 <= low <= base + 1 && Fits(rows, turn)
    requires forall i :: 0 <= i < |Visible(rows)| ==> Visible(rows)[i].position <= base
    ensures Kept(AddTurn(rows, base, turn), low)
  {
    TurnVisible(rows, base, turn);
    TurnSpread(Visible(rows), low, base, turn);
    TurnDistinct(rows, base, turn);
  }

  lemma TurnVisible(rows: seq<Row>, base: int, turn: Turn)
    ensures Visible(AddTurn(rows, base, turn))
         == Visible(rows) + [ThreadItem(turn.user.id, base + 1, turn.user.text), ThreadItem(turn.assistantId, base + 2, "")]
  {
    var added := AddTurn(rows, base, turn);
    var front := added[..|rows| + 1];
    assert front[..|rows|] == rows;
    assert Visible(front) == Visible(rows) + [added[|rows|].item];
    assert Visible(added) == Visible(front) + [added[|rows| + 1].item];
  }

  lemma TurnSpread(items: seq<ThreadItem>, low: int, base: int, turn: Turn)
    requires Spread(items, low) && 0 <= low <= base + 1
    requires forall i :: 0 <= i < |items| ==> items[i].position <= base
    ensures Spread(items +
      [ThreadItem(turn.user.id, base + 1, turn.user.text), ThreadItem(turn.assistantId, base + 2, "")], low)
  {
  }

  lemma TurnDistinct(rows: seq<Row>, base: int, turn: Turn)
    requires DistinctRows(rows) && Fits(rows, turn)
    ensures DistinctRows(AddTurn(rows, base, turn))
  {
    forall i | 0 <= i < |rows| ensures rows[i].item.id != turn.user.id && rows[i].item.id != turn.assistantId {
    }
  }

  lemma {:induction false} SupersedeVisible(rows: seq<Row>, base: int)
    ensures Visible(Supersede(rows, base)) == Sorting.Filter(Visible(rows), (x: ThreadItem) => x.position <= base)
  {
    if rows != [] {
      var n := |rows| - 1;
      var keep := (x: ThreadItem) => x.position <= base;
      SupersedeVisible(rows[..n], base);
      assert Supersede(rows, base)[..n] == Supersede(rows[..n], base);
      var last := if rows[n].superseded then [] else [rows[n].item];
      Sorting.FilterConcat(Visible(rows[..n]), last, keep);
      Sorting.FilterOne(rows[n].item, keep);
    }
  }

  lemma {:induction false} FilterSpread(items: seq<ThreadItem>, low: int, keep: ThreadItem -> bool)
    requires Spread(items, low)
    ensures Spread(Sorting.Filter(items, keep), low)
    ensures forall x :: x in Sorting.Filter(items, keep) ==> x in items && keep(x)
  {
    if items != [] {
      var n := |items| - 1;
      FilterSpread(items[..n], low, keep);
      var front := Sorting.Filter(items[..n], keep);
      forall i | 0 <= i < |front|
        ensures front[i].position <= items[n].position
        ensures items[n].position > 0 ==> front[i].position < items[n].position
      {
        assert front[i] in items[..n];
        var k :| 0 <= k < n && items[..n][k] == front[i];
        assert items[k] == front[i];
      }
    }
  }

  lemma SupersedeKeeps(rows: seq<Row>, low: int, base: int)
    requires Kept(rows, low)
    ensures Kept(Supersede(rows, base), low)
    ensures forall i :: 0 <= i < |Visible(Supersede(rows, base))| ==> Visible(Supersede(rows, base))[i].position <= base
  {
    var keep := (x: ThreadItem) => x.position <= base;
    SupersedeVisible(rows, base);
    FilterSpread(Visible(rows), low, keep);
    forall i | 0 <= i < |Visible(Supersede(rows, base))|
      ensures Visible(Supersede(rows, base))[i].position <= base
    {
      assert Visible(Supersede(rows, base))[i] in Sorting.Filter(Visible(rows), keep);
    }
  }

  lemma SupersedeFits(rows: seq<Row>, base: int, turn: Turn)
    requires Fits(rows, turn)
    ensures Fits(Supersede(rows, base), turn)
  {
    var after := Supersede(rows, base);
    assert forall i :: 0 <= i < |after| ==> after[i].item == rows[i].item && after[i].client == rows[i].client;
  }

  lemma {:induction false} TargetIsRow(rows: seq<Row>, client: string)
    requires Target(rows, client).Some?
    ensures exists i :: 0 <= i < |rows| && rows[i].item.position == Target(rows, client).value
  {
    if !(rows[0].client == Some(client) && rows[0].fromUser && !rows[0].superseded) {
      TargetIsRow(rows[1..], client);
      var i :| 0 <= i < |rows[1..]| && rows[1..][i].item.position == Target(rows, client).value;
      assert rows[i + 1] == rows[1..][i];
    }
  }

  lemma {:induction false} EditVisible(rows: seq<Row>, id: string, text: string)
    ensures |Visible(Edit(rows, id, text))| == |Visible(rows)|
    ensures forall i :: 0 <= i < |Visible(rows)| ==>
      Visible(Edit(rows, id, text))[i].position == Visible(rows)[i].position
  {
    if rows != [] {
      var n := |rows| - 1;
      EditVisible(rows[..n], id, text);
      assert Edit(rows, id, text)[..n] == Edit(rows[..n], id, text);
    }
  }

  lemma {:induction false} SeedVisible(history: seq<Message>)
    ensures |Visible(Seed(history))| == |history|
    ensures forall i :: 0 <= i < |history| ==> Visible(Seed(history))[i].position == i + 1
  {
    if history != [] {
      var n := |history| - 1;
      SeedVisible(history[..n]);
      assert Seed(history)[..n] == Seed(history[..n]);
    }
  }

  ghost predicate StoreKept(store: Option<Store>, low: int) {
    store.Some? ==> Kept(store.value.rows, low)
  }

  lemma CreateKeeps(history: seq<Message>, turn: Turn)
    requires DistinctMessages(history) && Fits(Seed(history), turn)
    ensures Kept(AddTurn(Seed(history), |history|, turn), 1)
  {
    SeedVisible(history);
    assert Kept(Seed(history), 1);
    TurnKeeps(Seed(history), 1, |history|, turn);
  }

  lemma AppendKeeps(rows: seq<Row>, low: int, turn: Turn)
    requires 0 <= low <= 1 && Kept(rows, low) && Fits(rows, turn)
    ensures Kept(AddTurn(rows, Top(Visible(rows)), turn), low)
  {
    TopBounds(Visible(rows), low);
    TurnKeeps(rows, low, Top(Visible(rows)), turn);
  }

  lemma RewriteKeeps(rows: seq<Row>, low: int, target: string, turn: Turn)
    requires 0 <= low <= 1 && Kept(rows, low) && Fits(rows, turn) && Target(rows, target).Some?
    ensures var base := Target(rows, target).value - 1; Kept(AddTurn(Supersede(rows, base), base, turn), low)
  {
    var base := Target(rows, target).value - 1;
    TargetIsRow(rows, target);
    SupersedeKeeps(rows, low, base);
    SupersedeFits(rows, base, turn);
    TurnKeeps(Supersede(rows, base), low, base, turn);
  }

  lemma SettleKeeps(rows: seq<Row>, low: int, id: string, text: string)
    requires Kept(rows, low)
    ensures Kept(Edit(rows, id, text), low)
  {
    EditVisible(rows, id, text);
  }

  /** Every write keeps the rows in order, from position 1 on in a thread that was created here. */
  lemma WriteKeeps(store: Option<Store>, write: Write, low: int)
    requires 0 <= low <= 1 && StoreKept(store, low) && (low == 1 || store.Some?)
    ensures StoreKept(Apply(store, write), low)
  {
    if store.None? {
      if write.Create? && DistinctMessages(write.history) && Fits(Seed(write.history), write.turn) {
        CreateKeeps(write.history, write.turn);
      }
    } else {
      var rows := store.value.rows;
      match write {
        case Append(turn) =>
          if Fits(rows, turn) {
            AppendKeeps(rows, low, turn);
          }
        case Rewrite(target, turn) =>
          if Fits(rows, turn) && Target(rows, target).Some? {
            RewriteKeeps(rows, low, target, turn);
          }
        case Settle(id, text) =>
          SettleKeeps(rows, low, id, text);
        case _ =>
      }
    }
  }

  // ----- versions -----

  /** A write that changes anything raises the version, and a thread never goes back to not being there. */
  predicate Raised(before: Option<Store>, after: Option<Store>) {
    after == before || (after.Some? && (before.Some? ==> after.value.version > before.value.version))
  }

  lemma WriteRaises(store: Option<Store>, write: Write)
    ensures Raised(store, Apply(store, write))
  {
  }

  lemma {:induction false} VersionsRise(start: Option<Store>, writes: seq<Write>, i: nat, j: nat)
    requires i <= j <= |writes|
    ensures Raised(Run(start, writes[..i]), Run(start, writes[..j]))
    decreases j
  {
    if i < j {
      VersionsRise(start, writes, i, j - 1);
      assert writes[..j][..j - 1] == writes[..j - 1];
      WriteRaises(Run(start, writes[..j - 1]), writes[j - 1]);
    }
  }

  /** A thread that was migrated from before there were positions: all its items are at position 0. */
  predicate Migrated(store: Store) {
    && DistinctRows(store.rows)
    && forall i :: 0 <= i < |store.rows| ==> store.rows[i].item.position == 0 && !store.rows[i].superseded
  }

  /** A run of writes starts with no thread, or with a migrated one. */
  predicate Starts(start: Option<Store>) {
    start.Some? ==> Migrated(start.value)
  }

  function Lowest(start: Option<Store>): int {
    if start.None? then 1 else 0
  }

  lemma {:induction false} RunKeeps(start: Option<Store>, writes: seq<Write>)
    requires Starts(start)
    ensures StoreKept(Run(start, writes), Lowest(start)) && (start.Some? ==> Run(start, writes).Some?)
  {
    if writes == [] {
      if start.Some? {
        var rows := start.value.rows;
        forall x | x in Visible(rows) ensures x.position == 0 {
          var i := VisibleFrom(rows, x);
        }
        assert forall i :: 0 <= i < |Visible(rows)| ==> Visible(rows)[i] in Visible(rows);
      }
    } else {
      var n := |writes| - 1;
      RunKeeps(start, writes[..n]);
      WriteKeeps(Run(start, writes[..n]), writes[n], Lowest(start));
    }
  }

  // ----- what the readers see -----

  /** Sorting by position and id gives a list as the reader needs it. */
  lemma PublishedIsValid(store: Store, low: int, order: IdOrder)
    requires StrictTotal(order) && 0 <= low && Kept(store.rows, low) && !store.deleted
    ensures var thread := Published(Some(store), order).value;
      && Valid(thread) && multiset(thread.items) == multiset(Visible(store.rows))
      && forall i :: 0 <= i < |thread.items| ==> thread.items[i].position >= low
  {
    var visible := Visible(store.rows);
    var items := Sorting.Sort(visible, RowOrder(order));
    VisibleDistinct(store.rows);
    ConnectedByIds(visible, order);
    Sorting.SortOrders(visible, RowOrder(order));
    SortedIsValid(visible, items, low, order, store.version);
  }

  lemma SortedIsValid(visible: seq<ThreadItem>, items: seq<ThreadItem>, low: int, order: IdOrder, version: int)
    requires Spread(visible, low) && DistinctIds(visible) && 0 <= low
    requires multiset(items) == multiset(visible) && Sorting.Ordered(items, RowOrder(order))
    ensures Valid(Thread(version, items)) && forall i :: 0 <= i < |items| ==> items[i].position >= low
  {
    Sorting.SameMembers(visible, items);
    Sorting.PermutationNoDuplicates(visible, items);
    forall i | 0 <= i < |items| ensures items[i].position >= low {
      assert items[i] in visible;
    }
    forall i, j | 0 <= i < j < |items| ensures InOrder(items[i], items[j]) {
      assert !RowOrder(order)(items[j], items[i]);
      assert items[i] in visible && items[j] in visible;
      TwoApart(visible, low, items[i], items[j]);
    }
    OrderedIsValid(version, items, low);
  }

  predicate InOrder(x: ThreadItem, y: ThreadItem) {
    x.id != y.id && x.position <= y.position && (y.position > 0 ==> x.position < y.position)
  }

  lemma OrderedIsValid(version: int, items: seq<ThreadItem>, low: int)
    requires 0 <= low && forall i :: 0 <= i < |items| ==> items[i].position >= low
    requires forall i, j :: 0 <= i < j < |items| ==> InOrder(items[i], items[j])
    ensures Valid(Thread(version, items))
  {
    assert forall i, j :: 0 <= i < j < |items| ==> InOrder(items[i], items[j]);
  }

  lemma TwoApart(visible: seq<ThreadItem>, low: int, x: ThreadItem, y: ThreadItem)
    requires Spread(visible, low) && DistinctIds(visible) && x in visible && y in visible && x != y
    ensures x.id != y.id && (x.position == y.position ==> y.position <= 0)
  {
    var i :| 0 <= i < |visible| && visible[i] == x;
    var j :| 0 <= j < |visible| && visible[j] == y;
  }

  /** `at(k)` is the number of writes that have taken place when request k is answered. */
  ghost predicate Interleaved(
    threads: nat -> Option<Thread>, start: Option<Store>, writes: seq<Write>, at: nat -> nat, order: IdOrder)
  {
    forall k {:trigger threads(k)} :: at(k) <= |writes| && threads(k) == Published(Run(start, writes[..at(k)]), order)
  }

  lemma SeenIsValid(
    threads: nat -> Option<Thread>, start: Option<Store>, writes: seq<Write>, at: nat -> nat, order: IdOrder, k: nat)
    requires StrictTotal(order) && Starts(start) && Interleaved(threads, start, writes, at, order) && threads(k).Some?
    ensures Valid(threads(k).value)
    ensures forall i :: 0 <= i < |threads(k).value.items| ==> threads(k).value.items[i].position >= Lowest(start)
  {
    RunKeeps(start, writes[..at(k)]);
    PublishedIsValid(Run(start, writes[..at(k)]).value, Lowest(start), order);
  }

  /** Whatever is written while a thread is read, its versions identify its items. */
  lemma WritersAreVersioned(
    threads: nat -> Option<Thread>, start: Option<Store>, writes: seq<Write>, at: nat -> nat, order: IdOrder)
    requires StrictTotal(order) && Starts(start) && Interleaved(threads, start, writes, at, order)
    ensures Versioned(threads)
  {
    forall k | threads(k).Some? ensures Valid(threads(k).value) {
      SeenIsValid(threads, start, writes, at, order, k);
    }
    forall j, k | threads(j).Some? && threads(k).Some? && threads(j).value.version == threads(k).value.version
      ensures threads(j).value.items == threads(k).value.items
    {
      if at(j) <= at(k) {
        VersionsRise(start, writes, at(j), at(k));
      } else {
        VersionsRise(start, writes, at(k), at(j));
      }
    }
  }

  ghost predicate WholeAt(version: int, items: seq<ThreadItem>, threads: nat -> Option<Thread>, before: IdOrder, k: nat) {
    && threads(k).Some? && threads(k).value.version == version
    && multiset(items) == multiset(threads(k).value.items) && Sorting.Ordered(items, RowOrder(before))
  }

  /**
   Every snapshot returned while these writers run holds all items of one version, each once and in order; in a
   thread created here it is that version's list itself.
   */
  lemma EverySnapshotIsWhole(
    server: Server, threads: nat -> Option<Thread>, start: Option<Store>, writes: seq<Write>, at: nat -> nat,
    order: IdOrder, before: IdOrder)
    requires StrictTotal(order) && StrictTotal(before) && Starts(start)
    requires Interleaved(threads, start, writes, at, order) && Conforms(server, threads)
    ensures match ReadAttempts(server, before, 0, 0)
      case Snapshot(version, items) =>
        exists k :: WholeAt(version, items, threads, before, k) && (start.None? ==> items == threads(k).value.items)
      case Error(e) => e == RequestRefused || e == LimitExceeded
      case ChangedRepeatedly => true
  {
    WritersAreVersioned(threads, start, writes, at, order);
    ReadIsAtomic(server, threads, before, 0, 0);
    match ReadAttempts(server, before, 0, 0) {
      case Snapshot(version, items) =>
        var k :| threads(k).Some? && IsSnapshotOf(version, items, threads(k).value, before);
        SnapshotIsWhole(version, items, threads(k).value, before);
        SeenIsValid(threads, start, writes, at, order, k);
        assert WholeAt(version, items, threads, before, k);
      case _ =>
    }
  }

  /** A thread created here, of at most two million items, is never refused by its own pages. */
  lemma CreatedThreadIsRead(
    server: Server, threads: nat -> Option<Thread>, writes: seq<Write>, at: nat -> nat, order: IdOrder, before: IdOrder,
    thread: Thread)
    requires StrictTotal(order) && StrictTotal(before)
    requires Interleaved(threads, None, writes, at, order) && Conforms(server, threads) && Quiet(threads, thread)
    ensures ReadAttempts(server, before, 0, 0) ==
      if |thread.items| <= 200 * MAX_PAGES then Snapshot(thread.version, thread.items) else Error(LimitExceeded)
  {
    assert threads(0) == Some(thread);
    SeenIsValid(threads, None, writes, at, order, 0);
    QuietRead(server, threads, before, thread);
    var sorted := Sorting.Sort(thread.items, RowOrder(before));
    SnapshotIsWhole(thread.version, sorted, thread, before);
  }

  /** A migrated thread of more than 200 items cannot be read at all: its second page is asked for below position 0. */
  lemma MigratedThreadIsRefused(
    server: Server, threads: nat -> Option<Thread>, store: Store, order: IdOrder, before: IdOrder)
    requires StrictTotal(order) && StrictTotal(before) && Migrated(store) && !store.deleted && |store.rows| > 200
    requires Conforms(server, threads) && Quiet(threads, Published(Some(store), order).value)
    ensures ReadAttempts(server, before, 0, 0) == Error(RequestRefused)
  {
    var thread := Published(Some(store), order).value;
    RunKeeps(Some(store), []);
    PublishedIsValid(store, 0, order);
    AllVisible(store.rows);
    forall x | x in thread.items ensures x.position == 0 {
      assert x in multiset(Visible(store.rows));
      var i := VisibleFrom(store.rows, x);
    }
    assert |thread.items| == |multiset(thread.items)| == |store.rows|;
    assert thread.items[|thread.items| - 200] in thread.items;
    assert AtZero(thread.items, |thread.items|, 1);
    QuietRead(server, threads, before, thread);
  }

  lemma {:induction false} AllVisible(rows: seq<Row>)
    requires forall i :: 0 <= i < |rows| ==> !rows[i].superseded
    ensures |Visible(rows)| == |rows|
  {
    if rows != [] {
      AllVisible(rows[..|rows| - 1]);
    }
  }

  // ----- what the writers write -----

  /** A new thread shows its history from position 1 on, and then its first turn. */
  lemma CreateShows(history: seq<Message>, turn: Turn)
    requires DistinctMessages(history) && Fits(Seed(history), turn)
    ensures var store := Apply(None, Create(history, turn));
      && store.Some? && store.value.version == 1 && !store.value.deleted
      && var items := Visible(store.value.rows);
      && |items| == |history| + 2
      && (forall i :: 0 <= i < |history| ==> items[i] == ThreadItem(history[i].id, i + 1, history[i].text))
      && items[|history|] == ThreadItem(turn.user.id, |history| + 1, turn.user.text)
      && items[|history| + 1] == ThreadItem(turn.assistantId, |history| + 2, "")
  {
    SeedShows(history);
    TurnVisible(Seed(history), |history|, turn);
  }

  lemma {:induction false} SeedShows(history: seq<Message>)
    ensures |Visible(Seed(history))| == |history|
    ensures forall i :: 0 <= i < |history| ==>
      Visible(Seed(history))[i] == ThreadItem(history[i].id, i + 1, history[i].text)
  {
    if history != [] {
      var n := |history| - 1;
      SeedShows(history[..n]);
      assert Seed(history)[..n] == Seed(history[..n]);
    }
  }

  /** A turn leaves the visible items alone and adds the user's message and an empty answer after the last of them. */
  lemma AppendShows(store: Store, turn: Turn)
    requires !store.deleted && Fits(store.rows, turn) && Spread(Visible(store.rows), 0)
    ensures var after := Apply(Some(store), Append(turn)).value;
      && after.version == store.version + 1
      && exists top :: IsTop(Visible(store.rows), top) && Visible(after.rows) == Visible(store.rows)
           + [ThreadItem(turn.user.id, top + 1, turn.user.text), ThreadItem(turn.assistantId, top + 2, "")]
  {
    var top := Top(Visible(store.rows));
    TopIs(Visible(store.rows));
    TurnVisible(store.rows, top, turn);
    assert IsTop(Visible(store.rows), top);
  }

  /** The largest position, or 0 in an empty list. */
  predicate IsTop(items: seq<ThreadItem>, top: int) {
    && (items == [] ==> top == 0)
    && (items != [] ==> exists i :: 0 <= i < |items| && items[i].position == top)
    && forall i :: 0 <= i < |items| ==> items[i].position <= top
  }

  lemma {:induction false} TopIs(items: seq<ThreadItem>)
    ensures IsTop(items, Top(items))
  {
    if |items| > 1 {
      var n := |items| - 1;
      TopIs(items[..n]);
      var i :| 0 <= i < n && items[..n][i].position == Top(items[..n]);
      assert items[i].position == Top(items[..n]);
      assert forall k :: 0 <= k < n ==> items[..n][k] == items[k];
    } else if |items| == 1 {
      assert items[0].position == Top(items);
    }
  }

  /** The position of a visible user message with this client id. */
  ghost predicate IsTargetAt(rows: seq<Row>, target: string, position: int) {
    exists i :: 0 <= i < |rows| && IsTargetRow(rows[i], target) && rows[i].item.position == position
  }

  predicate IsTargetRow(row: Row, target: string) {
    row.client == Some(target) && row.fromUser && !row.superseded
  }

  lemma {:induction false} TargetIs(rows: seq<Row>, target: string)
    ensures Target(rows, target).Some? ==> IsTargetAt(rows, target, Target(rows, target).value)
    ensures Target(rows, target).None? ==> forall i :: 0 <= i < |rows| ==> !IsTargetRow(rows[i], target)
  {
    if rows != [] {
      TargetIs(rows[1..], target);
      if IsTargetRow(rows[0], target) {
      } else if Target(rows, target).Some? {
        var i :| 0 <= i < |rows[1..]| && IsTargetRow(rows[1..][i], target)
          && rows[1..][i].item.position == Target(rows, target).value;
        assert rows[i + 1] == rows[1..][i];
      } else {
        assert forall i :: 0 < i < |rows| ==> rows[i] == rows[1..][i - 1];
      }
    }
  }

  /** A rewrite of a message keeps what comes before it and puts the new turn in its place; without one it does nothing. */
  lemma RewriteShows(store: Store, target: string, turn: Turn)
    requires !store.deleted && Fits(store.rows, turn)
    ensures var after := Apply(Some(store), Rewrite(target, turn)).value;
      if after == store then forall i :: 0 <= i < |store.rows| ==> !IsTargetRow(store.rows[i], target)
      else
        after.version == store.version + 1
        && exists p :: IsTargetAt(store.rows, target, p) && Visible(after.rows)
             == Sorting.Filter(Visible(store.rows), (x: ThreadItem) => x.position < p)
                + [ThreadItem(turn.user.id, p, turn.user.text), ThreadItem(turn.assistantId, p + 1, "")]
  {
    TargetIs(store.rows, target);
    if Target(store.rows, target).Some? {
      var p := Target(store.rows, target).value;
      SupersedeVisible(store.rows, p - 1);
      TurnVisible(Supersede(store.rows, p - 1), p - 1, turn);
      SameFilter(Visible(store.rows), (x: ThreadItem) => x.position <= p - 1, (x: ThreadItem) => x.position < p);
    }
  }

  lemma {:induction false} SameFilter(items: seq<ThreadItem>, a: ThreadItem -> bool, b: ThreadItem -> bool)
    requires forall x :: a(x) <==> b(x)
    ensures Sorting.Filter(items, a) == Sorting.Filter(items, b)
  {
    if items != [] {
      SameFilter(items[..|items| - 1], a, b);
    }
  }

  /** Settling gives the item of that id its text, and changes nothing else that is visible. */
  lemma SettleShows(store: Store, id: string, text: string)
    requires HasId(store.rows, id)
    ensures var before, after := Visible(store.rows), Apply(Some(store), Settle(id, text)).value;
      && after.version == store.version + 1 && after.deleted == store.deleted && |Visible(after.rows)| == |before|
      && forall i :: 0 <= i < |before| ==>
           Visible(after.rows)[i] == if before[i].id == id then before[i].(body := text) else before[i]
  {
    EditShows(store.rows, id, text);
  }

  lemma {:induction false} EditShows(rows: seq<Row>, id: string, text: string)
    ensures |Visible(Edit(rows, id, text))| == |Visible(rows)|
    ensures forall i :: 0 <= i < |Visible(rows)| ==>
      Visible(Edit(rows, id, text))[i]
      == if Visible(rows)[i].id == id then Visible(rows)[i].(body := text) else Visible(rows)[i]
  {
    if rows != [] {
      var n := |rows| - 1;
      EditShows(rows[..n], id, text);
      assert Edit(rows, id, text)[..n] == Edit(rows[..n], id, text);
    }
  }

  /** Renaming changes no item; deleting hides the thread from every reader. */
  lemma UpdateShows(store: Store, order: IdOrder)
    requires !store.deleted
    ensures Apply(Some(store), Update) == Some(store.(version := store.version + 1))
    ensures Published(Apply(Some(store), Delete), order) == None
  {
  }
}
