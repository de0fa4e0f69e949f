/**
 Reading a thread snapshot page by page, newest first, while writers may change the
 thread between requests: the version check, the single retry, and what is returned.
 */
module ThreadSnapshot {
  import opened Common
  import Sorting

  datatype ThreadItem = ThreadItem(id: string, position: int, body: string)

  /** The visible items, oldest first. */
  datatype Thread = Thread(version: int, items: seq<ThreadItem>)

  const PAGE_LIMIT := 200
  const MAX_PAGES := 10_000
  const MAX_ATTEMPTS := 2

  // ----- the server -----

  datatype Request = Request(beforePosition: Option<int>, expectedVersion: Option<int>)

  datatype Response = Page(version: int, items: seq<ThreadItem>, hasMore: bool, next: Option<int>) | Conflict | Refused

  function Below(items: seq<ThreadItem>, bound: Option<int>): seq<ThreadItem> {
    if bound.None? then items else Sorting.Filter(items, (x: ThreadItem) => x.position < bound.value)
  }

  function Newest(items: seq<ThreadItem>): seq<ThreadItem> {
    if |items| > PAGE_LIMIT then items[|items| - PAGE_LIMIT..] else items
  }

  /** A missing thread or a bound below 1 is refused, another version is a conflict. */
  function Serve(thread: Option<Thread>, request: Request): Response {
    if thread.None? || (request.beforePosition.Some? && request.beforePosition.value < 1) then Refused
    else if request.expectedVersion.Some? && request.expectedVersion.value != thread.value.version then Conflict
    else
      var rows := Below(thread.value.items, request.beforePosition);
      var page := Newest(rows);
      Page(thread.value.version, page, |rows| > PAGE_LIMIT, if |rows| > PAGE_LIMIT then Some(page[0].position) else None)
  }

  // ----- the client -----

  /** What the server answers to its k-th request. */
  type Server = (nat, Request) -> Response

  predicate RowLess(x: ThreadItem, y: ThreadItem, before: IdOrder) {
    if x.position != y.position then x.position < y.position else before(x.id, y.id)
  }

  function RowOrder(before: IdOrder): Sorting.Less<ThreadItem> {
    (x, y) => RowLess(x, y, before)
  }

  /** A map keyed by item id, in insertion order. */
  function SetEntry(entries: seq<ThreadItem>, x: ThreadItem): seq<ThreadItem> {
    if entries == [] then [x]
    else if entries[0].id == x.id then [x] + entries[1..]
    else [entries[0]] + SetEntry(entries[1..], x)
  }

  function SetAll(entries: seq<ThreadItem>, page: seq<ThreadItem>): seq<ThreadItem>
    decreases |page|
  {
    if page == [] then entries else SetAll(SetEntry(entries, page[0]), page[1..])
  }

  /** `first` is the request that opened the attempt. */
  datatype Attempt =
    | Complete(version: int, items: seq<ThreadItem>, first: nat)
    | Changed(requests: nat)
    | RequestRefused
    | InvalidCursor
    | LimitExceeded

  /** The rest of an attempt: page n, answered by request k. */
  function ReadPages(
    server: Server, before: IdOrder, k: nat, n: nat, version: Option<int>, bound: Option<int>, entries: seq<ThreadItem>)
    : Attempt
    requires n <= k
    decreases MAX_PAGES - n
  {
    if n >= MAX_PAGES then LimitExceeded
    else
      match server(k, Request(bound, if bound.Some? then version else None))
      case Refused => RequestRefused
      case Conflict => if version.Some? then Changed(k + 1) else RequestRefused
      case Page(v, items, hasMore, next) =>
        var kept := if version.Some? then version.value else v;
        var gathered := SetAll(entries, items);
        if !hasMore then Complete(kept, Sorting.Sort(gathered, RowOrder(before)), k - n)
        else if next.None? then InvalidCursor
        else ReadPages(server, before, k + 1, n + 1, Some(kept), next, gathered)
  }

  datatype Outcome = Snapshot(version: int, items: seq<ThreadItem>) | Error(attempt: Attempt) | ChangedRepeatedly

  function ReadAttempts(server: Server, before: IdOrder, k: nat, attempt: nat): Outcome
    decreases MAX_ATTEMPTS - attempt
  {
    if attempt >= MAX_ATTEMPTS then ChangedRepeatedly
    else
      match ReadPages(server, before, k, 0, None, None, [])
      case Complete(version, items, first) => Snapshot(version, items)
      case Changed(next) => ReadAttempts(server, before, next, attempt + 1)
      case error => Error(error)
  }

  method ReadAttempt(server: Server, before: IdOrder, start: nat) returns (attempt: Attempt, requests: nat)
    ensures attempt == ReadPages(server, before, start, 0, None, None, [])
    ensures start <= requests <= start + MAX_PAGES
    ensures attempt.Changed? ==> attempt.requests == requests
  {
    var entries: seq<ThreadItem> := [];
    var version: Option<int>, bound: Option<int> := None, None;
    requests := start;
    ghost var whole := ReadPages(server, before, start, 0, None, None, []);
    for pageNumber := 0 to MAX_PAGES
      invariant requests == start + pageNumber
      invariant ReadPages(server, before, requests, pageNumber, version, bound, entries) == whole
    {
      var response := server(requests, Request(bound, if bound.Some? then version else None));
      requests := requests + 1;
      if response.Conflict? && version.Some? {
        return Changed(requests), requests;
      }
      if !response.Page? {
        return RequestRefused, requests;
      }
      if version.None? {
        version := Some(response.version);
      }
      entries := SetAll(entries, response.items);
      if !response.hasMore {
        return Complete(version.value, Sorting.Sort(entries, RowOrder(before)), start), requests;
      }
      if response.next.None? {
        return InvalidCursor, requests;
      }
      bound := response.next;
    }
    return LimitExceeded, requests;
  }

  /** At most two attempts; a second one starts from nothing. */
  method GetLocalThreadSnapshot(server: Server, before: IdOrder) returns (outcome: Outcome, requests: nat)
    ensures outcome == ReadAttempts(server, before, 0, 0)
    ensures requests <= MAX_ATTEMPTS * MAX_PAGES
  {
    requests := 0;
    for attempt := 0 to MAX_ATTEMPTS
      invariant requests <= attempt * MAX_PAGES
      invariant ReadAttempts(server, before, requests, attempt) == ReadAttempts(server, before, 0, 0)
    {
      var result;
      result, requests := ReadAttempt(server, before, requests);
      match result {
        case Complete(version, items, _) => return Snapshot(version, items), requests;
        case Changed(_) =>
        case error => return Error(error), requests;
      }
    }
    outcome := ChangedRepeatedly;
  }

  // ----- a server whose versions identify contents -----

  predicate NonDecreasing(items: seq<ThreadItem>) {
    forall i, j :: 0 <= i < j < |items| ==> items[i].position <= items[j].position
  }

  predicate DistinctIds(items: seq<ThreadItem>) {
    forall i, j :: 0 <= i < j < |items| ==> items[i].id != items[j].id
  }

  predicate StrictPositions(items: seq<ThreadItem>) {
    forall i, j :: 0 <= i < j < |items| ==> items[i].position < items[j].position
  }

  /** Only position 0 may be shared. */
  ghost predicate Valid(thread: Thread) {
    && NonDecreasing(thread.items) && DistinctIds(thread.items)
    && (forall i :: 0 <= i < |thread.items| ==> thread.items[i].position >= 0)
    && Apart(thread.items)
  }

  predicate Apart(items: seq<ThreadItem>) {
    forall i, j :: 0 <= i < j < |items| && items[j].position > 0 ==> items[i].position < items[j].position
  }

  /** `threads(k)` is the thread when request k is answered; every change gives it another version. */
  ghost predicate Versioned(threads: nat -> Option<Thread>) {
    && (forall k :: threads(k).Some? ==> Valid(threads(k).value))
    && forall j, k :: threads(j).Some? && threads(k).Some? && threads(j).value.version == threads(k).value.version ==>
      threads(j).value.items == threads(k).value.items
  }

  ghost predicate Answers(server: Server, threads: nat -> Option<Thread>, k: nat, request: Request) {
    server(k, request) == Serve(threads(k), request)
  }

  ghost predicate Conforms(server: Server, threads: nat -> Option<Thread>) {
    forall k, request {:trigger Answers(server, threads, k, request)} :: Answers(server, threads, k, request)
  }

  /** Wherever the thread's version is seen, its items are. */
  ghost predicate Identifies(threads: nat -> Option<Thread>, thread: Thread) {
    forall j :: threads(j).Some? && threads(j).value.version == thread.version ==>
      threads(j).value.items == thread.items
  }

  /** Nothing writes to the thread while it is read. */
  ghost predicate Quiet(threads: nat -> Option<Thread>, thread: Thread) {
    forall j :: threads(j) == Some(thread)
  }

  // ----- what becomes of an attempt -----

  /** All pages are read, a page starts at position 0 with more below it, or there are too many pages. */
  datatype Fate = Whole | Blocked | TooLong

  /** With c items still to read below the position of item c, and so many requests left. */
  function Pending(items: seq<ThreadItem>, c: nat, left: nat): Fate
    requires c < |items|
    decreases left
  {
    if left == 0 then TooLong
    else if items[c].position < 1 then Blocked
    else if c <= PAGE_LIMIT then Whole
    else Pending(items, c - PAGE_LIMIT, left - 1)
  }

  function FateOf(items: seq<ThreadItem>): Fate {
    if |items| <= PAGE_LIMIT then Whole else Pending(items, |items| - PAGE_LIMIT, MAX_PAGES - 1)
  }

  /** A page that is not the last one starts with an item at position 0. */
  ghost predicate BoundaryAtZero(items: seq<ThreadItem>) {
    exists j: nat :: AtZero(items, |items|, j) && 1 <= j < MAX_PAGES
  }

  predicate AtZero(items: seq<ThreadItem>, c: nat, j: nat)
    requires c <= |items|
  {
    0 < c - 200 * j < |items| && items[c - 200 * j].position < 1
  }

  lemma {:induction false} PendingIff(items: seq<ThreadItem>, c: nat, left: nat)
    requires 0 < c < |items|
    ensures Pending(items, c, left) == Blocked <==> exists j: nat :: AtZero(items, c, j) && j < left
    ensures Pending(items, c, left) == TooLong ==> c > 200 * left
    ensures Pending(items, c, left) == Whole ==> c <= 200 * left
    decreases left
  {
    if left > 0 {
      assert items[c].position < 1 ==> AtZero(items, c, 0);
      if c > PAGE_LIMIT {
        var d := c - 200;
        PendingIff(items, d, left - 1);
        if j: nat :| AtZero(items, d, j) && j < left - 1 {
          assert AtZero(items, c, j + 1);
        }
        if j: nat :| AtZero(items, c, j) && j < left && j > 0 {
          assert AtZero(items, d, j - 1);
        }
      }
    }
  }

  /** An attempt on an unchanging thread is blocked exactly when a page boundary falls on an item at position 0. */
  lemma FateIff(items: seq<ThreadItem>)
    ensures FateOf(items) == Blocked <==> BoundaryAtZero(items)
    ensures FateOf(items) == Whole <==> !BoundaryAtZero(items) && |items| <= 2_000_000
  {
    if |items| > PAGE_LIMIT {
      var c := |items| - 200;
      PendingIff(items, c, 9_999);
      if j: nat :| AtZero(items, c, j) && j < 9_999 {
        assert AtZero(items, |items|, j + 1);
      }
      if j: nat :| AtZero(items, |items|, j) && 1 <= j < MAX_PAGES {
        assert AtZero(items, c, j - 1);
      }
    }
  }

  // ----- gathering pages -----

  lemma {:induction false} BelowIsPrefix(items: seq<ThreadItem>, bound: int, c: nat)
    requires c <= |items|
    requires forall i :: 0 <= i < c ==> items[i].position < bound
    requires forall i :: c <= i < |items| ==> items[i].position >= bound
    ensures Below(items, Some(bound)) == items[..c]
  {
    if items != [] {
      var n := |items| - 1;
      if c <= n {
        BelowIsPrefix(items[..n], bound, c);
        assert items[..n][..c] == items[..c];
      } else {
        BelowIsPrefix(items[..n], bound, n);
        assert items[..n][..n] == items[..n] && items[..c] == items[..n] + [items[n]];
      }
    }
  }

  lemma {:induction false} SetEntryAppends(entries: seq<ThreadItem>, x: ThreadItem)
    requires forall i :: 0 <= i < |entries| ==> entries[i].id != x.id
    ensures SetEntry(entries, x) == entries + [x]
  {
    if entries != [] {
      SetEntryAppends(entries[1..], x);
    }
  }

  lemma {:induction false} SetAllAppends(entries: seq<ThreadItem>, page: seq<ThreadItem>)
    requires DistinctIds(page)
    requires forall i, j :: 0 <= i < |entries| && 0 <= j < |page| ==> entries[i].id != page[j].id
    ensures SetAll(entries, page) == entries + page
    decreases |page|
  {
    if page == [] {
    } else {
      SetEntryAppends(entries, page[0]);
      SetAllAppends(entries + [page[0]], page[1..]);
      assert entries + [page[0]] + page[1..] == entries + page;
    }
  }

  /** As often among the entries as in the list from c on. */
  predicate Counted(x: ThreadItem, items: seq<ThreadItem>, c: nat, entries: seq<ThreadItem>)
    requires c <= |items|
  {
    multiset(entries)[x] == multiset(items[c..])[x]
  }

  /** Between two pages: the entries are the items from c on, in some order. */
  ghost predicate Gathered(items: seq<ThreadItem>, c: nat, entries: seq<ThreadItem>)
    requires c <= |items|
  {
    forall x {:trigger Counted(x, items, c, entries)} :: Counted(x, items, c, entries)
  }

  function PageStart(c: nat): nat {
    if c > PAGE_LIMIT then c - PAGE_LIMIT else 0
  }

  lemma NotGatheredYet(items: seq<ThreadItem>, c: nat, entries: seq<ThreadItem>, x: ThreadItem, i: nat)
    requires DistinctIds(items) && i < c <= |items| && Gathered(items, c, entries) && x in entries
    ensures x.id != items[i].id
  {
    assert Counted(x, items, c, entries);
    assert x in multiset(items[c..]);
    var k :| 0 <= k < |items[c..]| && items[c..][k] == x;
    assert items[c + k] == x;
  }

  /** A page of what is not gathered yet is appended. */
  ghost predicate NewPage(items: seq<ThreadItem>, c: nat, entries: seq<ThreadItem>) {
    c <= |items| && Gathered(items, c, entries) ==>
      && SetAll(entries, Newest(items[..c])) == entries + items[PageStart(c)..c]
      && Gathered(items, PageStart(c), entries + items[PageStart(c)..c])
  }

  ghost predicate LastPage(
    items: seq<ThreadItem>, c: nat, entries: seq<ThreadItem>, sorted: seq<ThreadItem>, before: IdOrder)
  {
    c <= |items| && c <= PAGE_LIMIT && Gathered(items, c, entries) ==>
      Sorting.Sort(SetAll(entries, Newest(items[..c])), RowOrder(before)) == sorted
  }

  lemma NewestIsPage(items: seq<ThreadItem>, c: nat)
    requires DistinctIds(items) && c <= |items|
    ensures Newest(items[..c]) == items[PageStart(c)..c] && DistinctIds(items[PageStart(c)..c])
  {
    var page := items[PageStart(c)..c];
    forall i, j | 0 <= i < j < |page| ensures page[i].id != page[j].id {
      assert page[i] == items[PageStart(c) + i] && page[j] == items[PageStart(c) + j];
    }
  }

  /** The next page brings only new items, so the map appends them. */
  lemma NextPageIsNew(items: seq<ThreadItem>, c: nat, entries: seq<ThreadItem>)
    requires DistinctIds(items) && c <= |items| && Gathered(items, c, entries)
    ensures Newest(items[..c]) == items[PageStart(c)..c]
    ensures SetAll(entries, Newest(items[..c])) == entries + items[PageStart(c)..c]
    ensures Gathered(items, PageStart(c), entries + items[PageStart(c)..c])
  {
    var m := PageStart(c);
    var page := items[m..c];
    NewestIsPage(items, c);
    forall i, j | 0 <= i < |entries| && 0 <= j < |page| ensures entries[i].id != page[j].id {
      assert page[j] == items[m + j];
      NotGatheredYet(items, c, entries, entries[i], m + j);
    }
    SetAllAppends(entries, page);
    PageIsGathered(items, c, entries);
  }

  lemma PageIsGathered(items: seq<ThreadItem>, c: nat, entries: seq<ThreadItem>)
    requires c <= |items| && Gathered(items, c, entries)
    ensures Gathered(items, PageStart(c), entries + items[PageStart(c)..c])
  {
    var m := PageStart(c);
    var page := items[m..c];
    assert items[m..] == page + items[c..];
    forall x ensures Counted(x, items, m, entries + page) {
      assert Counted(x, items, c, entries);
    }
  }

  lemma ConnectedByIds(items: seq<ThreadItem>, before: IdOrder)
    requires StrictTotal(before) && DistinctIds(items)
    ensures Sorting.Connected(items, RowOrder(before)) && Sorting.StrictWeak(RowOrder(before))
  {
  }

  /** The last page completes the list. */
  lemma LastPageCompletes(items: seq<ThreadItem>, c: nat, entries: seq<ThreadItem>, before: IdOrder)
    requires StrictTotal(before) && DistinctIds(items)
    requires c <= |items| && c <= PAGE_LIMIT && Gathered(items, c, entries)
    ensures Sorting.Sort(SetAll(entries, Newest(items[..c])), RowOrder(before)) == Sorting.Sort(items, RowOrder(before))
  {
    NextPageIsNew(items, c, entries);
    var gathered := entries + items[0..c];
    assert items[0..] == items;
    forall x ensures multiset(gathered)[x] == multiset(items)[x] {
      assert Counted(x, items, 0, gathered);
    }
    ConnectedByIds(items, before);
    Sorting.SameMembers(gathered, items);
    Sorting.SortPermutation(items, gathered, RowOrder(before));
  }

  // ----- one attempt -----

  /** One step of the page loop after the first page. */
  lemma ReadPagesStep(
    server: Server, before: IdOrder, k: nat, n: nat, version: int, bound: int, entries: seq<ThreadItem>)
    requires n <= k && n < MAX_PAGES
    ensures ReadPages(server, before, k, n, Some(version), Some(bound), entries) ==
      match server(k, Request(Some(bound), Some(version)))
      case Refused => RequestRefused
      case Conflict => Changed(k + 1)
      case Page(_, items, hasMore, next) =>
        if !hasMore then Complete(version, Sorting.Sort(SetAll(entries, items), RowOrder(before)), k - n)
        else if next.None? then InvalidCursor
        else ReadPages(server, before, k + 1, n + 1, Some(version), next, SetAll(entries, items))
  {
  }

  /** The page of a thread of the wanted version, below the position of its item c. */
  ghost predicate ServedPage(server: Server, thread: Thread, quiet: bool, k: nat, c: nat) {
    0 < c < |thread.items| ==>
      ServedResponse(thread, quiet, c, server(k, Request(Some(thread.items[c].position), Some(thread.version))))
  }

  ghost predicate ServedResponse(thread: Thread, quiet: bool, c: nat, response: Response)
    requires 0 < c < |thread.items|
  {
    && (thread.items[c].position < 1 ==> response == Refused)
    && (response.Page? ==> response == Page(
          thread.version, Newest(thread.items[..c]), c > PAGE_LIMIT,
          if c > PAGE_LIMIT then Some(thread.items[c - PAGE_LIMIT].position) else None))
    && (quiet && thread.items[c].position >= 1 ==> response.Page?)
  }

  lemma PageIsServed(server: Server, threads: nat -> Option<Thread>, k: nat, thread: Thread, c: nat)
    requires Conforms(server, threads) && Valid(thread) && Identifies(threads, thread)
    ensures ServedPage(server, thread, Quiet(threads, thread), k, c)
  {
    if 0 < c < |thread.items| {
      var bound := thread.items[c].position;
      assert Answers(server, threads, k, Request(Some(bound), Some(thread.version)));
      if bound >= 1 {
        BelowIsPrefix(thread.items, bound, c);
      }
    }
  }

  /** All that the page loop needs to know of the server and the list; `sorted` is what the last page leads to. */
  ghost predicate Ready(server: Server, before: IdOrder, thread: Thread, sorted: seq<ThreadItem>, quiet: bool) {
    && (forall k, c {:trigger ServedPage(server, thread, quiet, k, c)} :: ServedPage(server, thread, quiet, k, c))
    && (forall c, entries {:trigger NewPage(thread.items, c, entries)} :: NewPage(thread.items, c, entries))
    && forall c, entries {:trigger LastPage(thread.items, c, entries, sorted, before)} ::
         LastPage(thread.items, c, entries, sorted, before)
  }

  lemma GetReady(server: Server, threads: nat -> Option<Thread>, before: IdOrder, thread: Thread)
    requires StrictTotal(before) && Conforms(server, threads) && Valid(thread) && Identifies(threads, thread)
    ensures Ready(
      server, before, thread, Sorting.Sort(thread.items, RowOrder(before)), Quiet(threads, thread))
  {
    forall k: nat, c: nat ensures ServedPage(server, thread, Quiet(threads, thread), k, c) {
      PageIsServed(server, threads, k, thread, c);
    }
    forall c: nat, entries ensures NewPage(thread.items, c, entries) {
      if c <= |thread.items| && Gathered(thread.items, c, entries) {
        NextPageIsNew(thread.items, c, entries);
      }
    }
    var sorted := Sorting.Sort(thread.items, RowOrder(before));
    forall c: nat, entries ensures LastPage(thread.items, c, entries, sorted, before) {
      if c <= |thread.items| && c <= PAGE_LIMIT && Gathered(thread.items, c, entries) {
        LastPageCompletes(thread.items, c, entries, before);
      }
    }
  }

  /** What an attempt comes to: its fate, unless it is refused or told of a conflict on the way. */
  predicate Meets(attempt: Attempt, fate: Fate, wanted: Attempt) {
    attempt.Changed? || attempt == RequestRefused || attempt == Settled(fate, wanted)
  }

  predicate Reaches(attempt: Attempt, fate: Fate, wanted: Attempt, quiet: bool) {
    Meets(attempt, fate, wanted) && (quiet ==> attempt == Settled(fate, wanted))
  }

  function Settled(fate: Fate, wanted: Attempt): Attempt {
    match fate
    case Whole => wanted
    case Blocked => RequestRefused
    case TooLong => LimitExceeded
  }

  ghost function ReadFrom(
    server: Server, before: IdOrder, k: nat, n: nat, thread: Thread, c: nat, entries: seq<ThreadItem>): Attempt
    requires n <= k && c < |thread.items|
  {
    ReadPages(server, before, k, n, Some(thread.version), Some(thread.items[c].position), entries)
  }

  lemma PageReaches(
    attempt: Attempt, after: Attempt, wanted: Attempt, items: seq<ThreadItem>, c: nat, left: nat, quiet: bool)
    requires 0 < c < |items| && left > 0
    requires attempt.Changed? || attempt == RequestRefused || (items[c].position >= 1 && attempt == after)
    requires quiet ==> attempt == if items[c].position < 1 then RequestRefused else after
    requires if c <= PAGE_LIMIT then after == wanted
      else Reaches(after, Pending(items, c - PAGE_LIMIT, left - 1), wanted, quiet)
    ensures Reaches(attempt, Pending(items, c, left), wanted, quiet)
  {
  }

  /** What is left of an attempt that has read n pages and gathered the items from c on. */
  type Reading = (nat, nat, seq<ThreadItem>) -> Attempt

  ghost function AfterPage(read: Reading, items: seq<ThreadItem>, wanted: Attempt, n: nat, c: nat, entries: seq<ThreadItem>)
    : Attempt
    requires c < |items|
  {
    if c <= PAGE_LIMIT then wanted else read(n + 1, c - PAGE_LIMIT, entries + items[c - PAGE_LIMIT..c])
  }

  /** One page, whatever was gathered before it. */
  ghost predicate PageHolds(
    read: Reading, items: seq<ThreadItem>, wanted: Attempt, quiet: bool, n: nat, c: nat, entries: seq<ThreadItem>)
  {
    0 < n < MAX_PAGES && 0 < c < |items| && Gathered(items, c, entries) ==>
      var attempt, after := read(n, c, entries), AfterPage(read, items, wanted, n, c, entries);
      && (attempt.Changed? || attempt == RequestRefused || (items[c].position >= 1 && attempt == after))
      && (quiet ==> attempt == if items[c].position < 1 then RequestRefused else after)
      && (c > PAGE_LIMIT ==> Gathered(items, c - PAGE_LIMIT, entries + items[c - PAGE_LIMIT..c]))
  }

  ghost predicate PagesHold(read: Reading, items: seq<ThreadItem>, wanted: Attempt, quiet: bool) {
    && (forall n, c, entries {:trigger PageHolds(read, items, wanted, quiet, n, c, entries)} ::
          PageHolds(read, items, wanted, quiet, n, c, entries))
    && forall c, entries :: read(MAX_PAGES, c, entries) == LimitExceeded
  }

  lemma {:induction false} PagesReach(
    read: Reading, items: seq<ThreadItem>, wanted: Attempt, quiet: bool, n: nat, c: nat, entries: seq<ThreadItem>,
    left: nat)
    requires PagesHold(read, items, wanted, quiet)
    requires 0 < n && n + left == MAX_PAGES && 0 < c < |items| && Gathered(items, c, entries)
    ensures Reaches(read(n, c, entries), Pending(items, c, left), wanted, quiet)
    decreases left
  {
    if left > 0 {
      assert PageHolds(read, items, wanted, quiet, n, c, entries);
      if c > PAGE_LIMIT {
        var gathered := entries + items[c - PAGE_LIMIT..c];
        PagesReach(read, items, wanted, quiet, n + 1, c - PAGE_LIMIT, gathered, left - 1);
      }
      PageReaches(
        read(n, c, entries), AfterPage(read, items, wanted, n, c, entries), wanted, items, c, left, quiet);
    }
  }

  ghost function ReadingFrom(server: Server, before: IdOrder, first: nat, thread: Thread): Reading {
    (n: nat, c: nat, entries: seq<ThreadItem>) =>
      if c < |thread.items| then ReadFrom(server, before, first + n, n, thread, c, entries) else LimitExceeded
  }

  lemma ReadingAt(server: Server, before: IdOrder, first: nat, thread: Thread, n: nat, c: nat, entries: seq<ThreadItem>)
    requires c < |thread.items|
    ensures ReadingFrom(server, before, first, thread)(n, c, entries)
         == ReadFrom(server, before, first + n, n, thread, c, entries)
  {
  }

  /** One page ends the attempt, or moves it on; if no one writes, it ends it only at position 0 or at the last page. */
  lemma OnePage(
    server: Server, before: IdOrder, first: nat, thread: Thread, sorted: seq<ThreadItem>, quiet: bool, n: nat, c: nat,
    entries: seq<ThreadItem>)
    requires Ready(server, before, thread, sorted, quiet)
    ensures PageHolds(
      ReadingFrom(server, before, first, thread), thread.items, Complete(thread.version, sorted, first), quiet,
      n, c, entries)
  {
    if 0 < n < MAX_PAGES && 0 < c < |thread.items| && Gathered(thread.items, c, entries) {
      assert ServedPage(server, thread, quiet, first + n, c);
      assert NewPage(thread.items, c, entries) && LastPage(thread.items, c, entries, sorted, before);
      var response := server(first + n, Request(Some(thread.items[c].position), Some(thread.version)));
      ReadingStep(server, before, first, thread, n, c, entries);
      PageResult(
        ReadingFrom(server, before, first, thread), thread, before, sorted, first, quiet, n, c, entries, response);
    }
  }

  /** What one response makes of the rest of an attempt. */
  ghost predicate StepHolds(
    read: Reading, thread: Thread, before: IdOrder, first: nat, n: nat, c: nat, entries: seq<ThreadItem>,
    response: Response)
  {
    var attempt := read(n, c, entries);
    && (response == Refused ==> attempt == RequestRefused)
    && (response == Conflict ==> attempt.Changed?)
    && (response.Page? && !response.hasMore ==>
          attempt == Complete(thread.version, Sorting.Sort(SetAll(entries, response.items), RowOrder(before)), first))
    && (response.Page? && response.hasMore && PAGE_LIMIT < c < |thread.items| + PAGE_LIMIT
          && response.next == Some(thread.items[c - PAGE_LIMIT].position) ==>
          attempt == read(n + 1, c - PAGE_LIMIT, SetAll(entries, response.items)))
  }

  lemma ReadingStep(server: Server, before: IdOrder, first: nat, thread: Thread, n: nat, c: nat, entries: seq<ThreadItem>)
    requires 0 < n < MAX_PAGES && 0 < c < |thread.items|
    ensures StepHolds(ReadingFrom(server, before, first, thread), thread, before, first, n, c, entries,
      server(first + n, Request(Some(thread.items[c].position), Some(thread.version))))
  {
    var response := server(first + n, Request(Some(thread.items[c].position), Some(thread.version)));
    ReadingAt(server, before, first, thread, n, c, entries);
    ReadPagesStep(server, before, first + n, n, thread.version, thread.items[c].position, entries);
    if c > PAGE_LIMIT && response.Page? {
      ReadingAt(server, before, first, thread, n + 1, c - PAGE_LIMIT, SetAll(entries, response.items));
    }
  }

  lemma PageResult(
    read: Reading, thread: Thread, before: IdOrder, sorted: seq<ThreadItem>, first: nat, quiet: bool, n: nat, c: nat,
    entries: seq<ThreadItem>, response: Response)
    requires 0 < c < |thread.items| && StepHolds(read, thread, before, first, n, c, entries, response)
    requires ServedResponse(thread, quiet, c, response)
    requires NewPage(thread.items, c, entries) && LastPage(thread.items, c, entries, sorted, before)
    ensures PageHolds(read, thread.items, Complete(thread.version, sorted, first), quiet, n, c, entries)
  {
  }

  lemma ReadingHolds(
    server: Server, before: IdOrder, first: nat, thread: Thread, sorted: seq<ThreadItem>, quiet: bool)
    requires Ready(server, before, thread, sorted, quiet)
    ensures PagesHold(
      ReadingFrom(server, before, first, thread), thread.items, Complete(thread.version, sorted, first), quiet)
  {
    var read, wanted := ReadingFrom(server, before, first, thread), Complete(thread.version, sorted, first);
    forall n: nat, c: nat, entries ensures PageHolds(read, thread.items, wanted, quiet, n, c, entries) {
      OnePage(server, before, first, thread, sorted, quiet, n, c, entries);
    }
    forall c: nat, entries ensures read(MAX_PAGES, c, entries) == LimitExceeded {
      NoPagesLeft(server, before, first, thread, c, entries);
    }
  }

  lemma NoPagesLeft(server: Server, before: IdOrder, first: nat, thread: Thread, c: nat, entries: seq<ThreadItem>)
    ensures ReadingFrom(server, before, first, thread)(MAX_PAGES, c, entries) == LimitExceeded
  {
    if c < |thread.items| {
      ReadingAt(server, before, first, thread, MAX_PAGES, c, entries);
      assert ReadFrom(server, before, first + MAX_PAGES, MAX_PAGES, thread, c, entries) == LimitExceeded;
    }
  }

  /** After the first page of an attempt: the remaining pages lead to its fate, and nothing else if no one writes. */
  lemma AttemptIsAtomic(
    server: Server, before: IdOrder, first: nat, thread: Thread, sorted: seq<ThreadItem>, quiet: bool, attempt: Attempt)
    requires Ready(server, before, thread, sorted, quiet) && |thread.items| > PAGE_LIMIT
    requires attempt == ReadFrom(server, before, first + 1, 1, thread, |thread.items| - PAGE_LIMIT, Newest(thread.items))
    ensures Reaches(attempt, FateOf(thread.items), Complete(thread.version, sorted, first), quiet)
  {
    var read, wanted := ReadingFrom(server, before, first, thread), Complete(thread.version, sorted, first);
    assert attempt == read(1, |thread.items| - PAGE_LIMIT, Newest(thread.items)) by {
      ReadingAt(server, before, first, thread, 1, |thread.items| - PAGE_LIMIT, Newest(thread.items));
    }
    assert PagesHold(read, thread.items, wanted, quiet) by {
      ReadingHolds(server, before, first, thread, sorted, quiet);
    }
    ReadingReaches(read, thread.items, wanted, quiet, attempt);
  }

  lemma ReadingReaches(read: Reading, items: seq<ThreadItem>, wanted: Attempt, quiet: bool, attempt: Attempt)
    requires PagesHold(read, items, wanted, quiet) && |items| > PAGE_LIMIT
    requires attempt == read(1, |items| - PAGE_LIMIT, Newest(items))
    ensures Reaches(attempt, FateOf(items), wanted, quiet)
  {
    var c := |items| - PAGE_LIMIT;
    assert Gathered(items, c, Newest(items));
    PagesReach(read, items, wanted, quiet, 1, c, Newest(items), 9_999);
  }

  lemma FirstPageAppends(items: seq<ThreadItem>)
    requires DistinctIds(items)
    ensures SetAll([], Newest(items)) == Newest(items)
  {
    NewestIsPage(items, |items|);
    assert items[..|items|] == items;
    SetAllAppends([], Newest(items));
    assert [] + Newest(items) == Newest(items);
  }

  /** The first page asks for no version; it fixes the one the others must have. */
  lemma FirstPage(server: Server, before: IdOrder, k: nat, thread: Option<Thread>)
    requires server(k, Request(None, None)) == Serve(thread, Request(None, None))
    requires thread.Some? ==> DistinctIds(thread.value.items)
    ensures ReadPages(server, before, k, 0, None, None, []) ==
      if thread.None? then RequestRefused
      else if |thread.value.items| <= PAGE_LIMIT
      then Complete(thread.value.version, Sorting.Sort(thread.value.items, RowOrder(before)), k)
      else ReadFrom(server, before, k + 1, 1, thread.value, |thread.value.items| - PAGE_LIMIT, Newest(thread.value.items))
  {
    if thread.Some? {
      FirstPageAppends(thread.value.items);
    }
  }

  /** The pages after the first one. */
  lemma RestOfAttempt(
    server: Server, threads: nat -> Option<Thread>, before: IdOrder, k: nat, thread: Thread, attempt: Attempt)
    requires StrictTotal(before) && Conforms(server, threads) && Valid(thread) && Identifies(threads, thread)
    requires |thread.items| > PAGE_LIMIT
    requires attempt == ReadFrom(server, before, k + 1, 1, thread, |thread.items| - PAGE_LIMIT, Newest(thread.items))
    ensures Reaches(attempt, FateOf(thread.items),
      Complete(thread.version, Sorting.Sort(thread.items, RowOrder(before)), k), Quiet(threads, thread))
  {
    GetReady(server, threads, before, thread);
    AttemptIsAtomic(
      server, before, k, thread, Sorting.Sort(thread.items, RowOrder(before)), Quiet(threads, thread), attempt);
  }

  /** A whole attempt: the items of one version, the one its own first request saw, or nothing. */
  lemma WholeAttemptIsAtomic(server: Server, threads: nat -> Option<Thread>, before: IdOrder, k: nat)
    requires StrictTotal(before) && Versioned(threads) && Conforms(server, threads)
    ensures var attempt := ReadPages(server, before, k, 0, None, None, []);
      if threads(k).None? then attempt == RequestRefused
      else
        var thread := threads(k).value;
        Reaches(attempt, FateOf(thread.items),
          Complete(thread.version, Sorting.Sort(thread.items, RowOrder(before)), k), Quiet(threads, thread))
  {
    assert Answers(server, threads, k, Request(None, None));
    FirstPage(server, before, k, threads(k));
    if threads(k).Some? && |threads(k).value.items| > PAGE_LIMIT {
      RestOfAttempt(server, threads, before, k, threads(k).value, ReadPages(server, before, k, 0, None, None, []));
    }
  }

  // ----- the whole read -----

  /** What a snapshot is: all items of one version, sorted. */
  ghost predicate IsSnapshotOf(version: int, items: seq<ThreadItem>, thread: Thread, before: IdOrder) {
    && Valid(thread) && thread.version == version
    && items == Sorting.Sort(thread.items, RowOrder(before))
  }

  ghost predicate SeenAt(version: int, items: seq<ThreadItem>, threads: nat -> Option<Thread>, before: IdOrder) {
    exists k :: threads(k).Some? && IsSnapshotOf(version, items, threads(k).value, before)
  }

  /** The reads of an attempt that met a conflict leave no trace in the result. */
  lemma {:induction false} ReadIsAtomic(
    server: Server, threads: nat -> Option<Thread>, before: IdOrder, k: nat, attempt: nat)
    requires StrictTotal(before) && Versioned(threads) && Conforms(server, threads)
    ensures match ReadAttempts(server, before, k, attempt)
      case Snapshot(version, items) => SeenAt(version, items, threads, before)
      case Error(e) => e == RequestRefused || e == LimitExceeded
      case ChangedRepeatedly => true
    decreases MAX_ATTEMPTS - attempt
  {
    if attempt < MAX_ATTEMPTS {
      WholeAttemptIsAtomic(server, threads, before, k);
      match ReadPages(server, before, k, 0, None, None, []) {
        case Changed(next) => ReadIsAtomic(server, threads, before, next, attempt + 1);
        case Complete(version, items, first) =>
          assert IsSnapshotOf(version, items, threads(k).value, before);
        case _ =>
      }
    }
  }

  /** A snapshot has every item of its version once, in position order; with strict positions it is the list itself. */
  lemma SnapshotIsWhole(version: int, items: seq<ThreadItem>, thread: Thread, before: IdOrder)
    requires StrictTotal(before) && IsSnapshotOf(version, items, thread, before)
    ensures multiset(items) == multiset(thread.items) && Sorting.Ordered(items, RowOrder(before))
    ensures StrictPositions(thread.items) ==> items == thread.items
  {
    ConnectedByIds(thread.items, before);
    Sorting.SortOrders(thread.items, RowOrder(before));
    if StrictPositions(thread.items) {
      Sorting.OrderedUnique(thread.items, items, RowOrder(before));
    }
  }

  /** A thread that no one writes is read whole, refused at position 0, or too long, exactly as its boundaries say. */
  lemma QuietRead(server: Server, threads: nat -> Option<Thread>, before: IdOrder, thread: Thread)
    requires StrictTotal(before) && Valid(thread) && Quiet(threads, thread) && Conforms(server, threads)
    ensures ReadAttempts(server, before, 0, 0) ==
      if BoundaryAtZero(thread.items) then Error(RequestRefused)
      else if |thread.items| <= 2_000_000 then
        Snapshot(thread.version, Sorting.Sort(thread.items, RowOrder(before)))
      else Error(LimitExceeded)
  {
    WholeAttemptIsAtomic(server, threads, before, 0);
    FateIff(thread.items);
  }

  /** The limit on pages is met only when there are more items than all of them can hold. */
  lemma LimitMeansMany(server: Server, threads: nat -> Option<Thread>, before: IdOrder, k: nat)
    requires StrictTotal(before) && Versioned(threads) && Conforms(server, threads)
    ensures ReadPages(server, before, k, 0, None, None, []) == LimitExceeded ==>
      threads(k).Some? && |threads(k).value.items| > 2_000_000
  {
    WholeAttemptIsAtomic(server, threads, before, k);
    if threads(k).Some? {
      FateIff(threads(k).value.items);
    }
  }

  // ----- the second attempt -----

  function Later(server: Server, m: nat): Server {
    (k: nat, request: Request) => server(m + k, request)
  }

  function ThreadsLater(threads: nat -> Option<Thread>, m: nat): nat -> Option<Thread> {
    (k: nat) => threads(m + k)
  }

  /** Counts requests from m on. */
  function From(attempt: Attempt, m: nat): Attempt {
    match attempt
    case Complete(version, items, first) => Complete(version, items, m + first)
    case Changed(requests) => Changed(m + requests)
    case other => other
  }

  /** An attempt depends only on the answers from its first request on. */
  lemma {:induction false} ReadPagesFrom(
    server: Server, before: IdOrder, m: nat, k: nat, n: nat, version: Option<int>, bound: Option<int>,
    entries: seq<ThreadItem>)
    requires n <= k
    ensures ReadPages(server, before, m + k, n, version, bound, entries)
         == From(ReadPages(Later(server, m), before, k, n, version, bound, entries), m)
    decreases MAX_PAGES - n
  {
    if n < MAX_PAGES {
      var request := Request(bound, if bound.Some? then version else None);
      assert Later(server, m)(k, request) == server(m + k, request);
      match server(m + k, request)
      case Page(v, items, hasMore, next) =>
        if hasMore && next.Some? {
          var kept := if version.Some? then version.value else v;
          ReadPagesFrom(server, before, m, k + 1, n + 1, Some(kept), next, SetAll(entries, items));
        }
      case _ =>
    }
  }

  /** An attempt on a thread that no one writes any more is exactly determined. */
  lemma QuietAttempt(server: Server, threads: nat -> Option<Thread>, before: IdOrder, thread: Thread, m: nat)
    requires StrictTotal(before) && Valid(thread) && Conforms(server, threads)
    requires forall k {:trigger threads(k)} :: k >= m ==> threads(k) == Some(thread)
    ensures ReadPages(server, before, m, 0, None, None, []) == Settled(
      FateOf(thread.items), Complete(thread.version, Sorting.Sort(thread.items, RowOrder(before)), m))
  {
    var server', threads' := Later(server, m), ThreadsLater(threads, m);
    forall k, request ensures Answers(server', threads', k, request) {
      assert Answers(server, threads, m + k, request);
    }
    WholeAttemptIsAtomic(server', threads', before, 0);
    ReadPagesFrom(server, before, m, 0, 0, None, None, []);
  }

  /**
   A conflict costs one attempt and no more: if no one writes after the first attempt met one, the second attempt has the
   outcome that the thread has left alone.
   */
  lemma OneConflictIsAbsorbed(
    server: Server, threads: nat -> Option<Thread>, before: IdOrder, thread: Thread, m: nat)
    requires StrictTotal(before) && Valid(thread) && Conforms(server, threads)
    requires ReadPages(server, before, 0, 0, None, None, []) == Changed(m)
    requires forall k {:trigger threads(k)} :: k >= m ==> threads(k) == Some(thread)
    ensures ReadAttempts(server, before, 0, 0) ==
      if BoundaryAtZero(thread.items) then Error(RequestRefused)
      else if |thread.items| <= 2_000_000 then Snapshot(thread.version, Sorting.Sort(thread.items, RowOrder(before)))
      else Error(LimitExceeded)
  {
    QuietAttempt(server, threads, before, thread, m);
    FateIff(thread.items);
    SecondAttempt(server, before, m);
  }

  lemma SecondAttempt(server: Server, before: IdOrder, m: nat)
    requires ReadPages(server, before, 0, 0, None, None, []) == Changed(m)
    ensures ReadAttempts(server, before, 0, 0) == match ReadPages(server, before, m, 0, None, None, [])
      case Complete(version, items, _) => Snapshot(version, items)
      case Changed(_) => ChangedRepeatedly
      case error => Error(error)
  {
  }
}
