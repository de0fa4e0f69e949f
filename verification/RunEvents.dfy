/**
 Reading a run's event log page by page while the run is still appending to it.
 */
module RunEvents {
  import opened Common
  import Sorting

  datatype LogEvent = LogEvent(number: int, body: string)

  const PAGE_LIMIT := 1000
  const MAX_PAGES := 10_000
  const MAX_SAFE_INTEGER := 9_007_199_254_740_991

  predicate IsSafe(n: int) {
    -MAX_SAFE_INTEGER <= n <= MAX_SAFE_INTEGER
  }

  // ----- the server -----

  function Since(log: seq<LogEvent>, after: int): seq<LogEvent> {
    Sorting.Filter(log, (e: LogEvent) => e.number > after)
  }

  datatype Response = Page(events: seq<LogEvent>, hasMore: bool, nextAfter: int) | Refused

  /** One row more than the page is read to know whether there is more. */
  function Serve(log: seq<LogEvent>, after: int, limit: nat): Response
    requires limit > 0
  {
    var all := Since(log, after);
    var rows := if |all| > limit + 1 then all[..limit + 1] else all;
    var page := if |rows| > limit then rows[..limit] else rows;
    Page(page, |rows| > limit, if page == [] then after else page[|page| - 1].number)
  }

  // ----- the client -----

  /** What the server answers to the k-th request, whatever its cursor. */
  type Server = (nat, int) -> Response

  /** `last` is the number of the request that ended the reading. */
  datatype Outcome = Events(events: seq<LogEvent>, last: nat) | RequestRefused | InvalidCursor | LimitExceeded

  function StartCursor(afterSeq: Option<int>): int {
    if afterSeq.Some? && IsSafe(afterSeq.value) && afterSeq.value > 0 then afterSeq.value else 0
  }

  predicate Advances(nextAfter: int, after: int) {
    IsSafe(nextAfter) && nextAfter > after
  }

  /** The rest of the reading from request k and cursor `after`, with `events` already collected. */
  function Read(server: Server, k: nat, after: int, events: seq<LogEvent>): Outcome
    decreases MAX_PAGES - k
  {
    if k >= MAX_PAGES then LimitExceeded
    else
      match server(k, after)
      case Refused => RequestRefused
      case Page(page, hasMore, nextAfter) =>
        if !hasMore then Events(events + page, k)
        else if !Advances(nextAfter, after) then InvalidCursor
        else Read(server, k + 1, nextAfter, events + page)
  }

  method ListLocalRunEvents(afterSeq: Option<int>, server: Server) returns (outcome: Outcome)
    ensures outcome == Read(server, 0, StartCursor(afterSeq), [])
  {
    var events: seq<LogEvent> := [];
    var after := StartCursor(afterSeq);
    for pageNumber := 0 to MAX_PAGES
      invariant Read(server, pageNumber, after, events) == Read(server, 0, StartCursor(afterSeq), [])
    {
      var page := server(pageNumber, after);
      if page.Refused? {
        return RequestRefused;
      }
      events := events + page.events;
      if !page.hasMore {
        return Events(events, pageNumber);
      }
      if !IsSafe(page.nextAfter) || page.nextAfter <= after {
        return InvalidCursor;
      }
      after := page.nextAfter;
    }
    return LimitExceeded;
  }

  // ----- any server at all -----

  /** The cursors sent, in order. */
  function Cursors(server: Server, k: nat, after: int): seq<int>
    decreases MAX_PAGES - k
  {
    if k >= MAX_PAGES then []
    else
      match server(k, after)
      case Page(_, true, nextAfter) =>
        if Advances(nextAfter, after) then [after] + Cursors(server, k + 1, nextAfter) else [after]
      case _ => [after]
  }

  /** Whatever a server answers, the cursors strictly advance and there are at most 10,000 of them. */
  lemma {:induction false} CursorsAdvance(server: Server, k: nat, after: int)
    requires k <= MAX_PAGES
    ensures |Cursors(server, k, after)| <= MAX_PAGES - k
    ensures forall i :: 0 <= i < |Cursors(server, k, after)| ==> Cursors(server, k, after)[i] >= after
    ensures forall i, j :: 0 <= i < j < |Cursors(server, k, after)| ==>
      Cursors(server, k, after)[i] < Cursors(server, k, after)[j]
    decreases MAX_PAGES - k
  {
    if k < MAX_PAGES {
      match server(k, after) {
        case Page(_, true, nextAfter) =>
          if Advances(nextAfter, after) {
            CursorsAdvance(server, k + 1, nextAfter);
          }
        case _ =>
      }
    }
  }

  // ----- a server with a growing log -----

  predicate Increasing(log: seq<LogEvent>) {
    && (forall i, j :: 0 <= i < j < |log| ==> log[i].number < log[j].number)
    && forall i :: 0 <= i < |log| ==> IsSafe(log[i].number)
  }

  /** `logs(k)` is the log when request k is answered: it only grows, with ever larger numbers. */
  ghost predicate Growing(logs: nat -> seq<LogEvent>) {
    && (forall k :: Increasing(logs(k)))
    && forall j, k :: j <= k ==> logs(j) <= logs(k)
  }

  ghost predicate Conforms(server: Server, logs: nat -> seq<LogEvent>) {
    forall k, after :: server(k, after) == Serve(logs(k), after, PAGE_LIMIT)
  }

  lemma {:induction false} SinceIsSuffix(log: seq<LogEvent>, after: int, c: nat)
    requires c <= |log|
    requires forall i :: 0 <= i < c ==> log[i].number <= after
    requires forall i :: c <= i < |log| ==> log[i].number > after
    ensures Since(log, after) == log[c..]
  {
    if log != [] {
      var n := |log| - 1;
      if c <= n {
        SinceIsSuffix(log[..n], after, c);
        assert log[c..] == log[..n][c..] + [log[n]];
      } else {
        SinceIsSuffix(log[..n], after, n);
        assert log[..n][n..] == [] && log[c..] == [];
      }
    }
  }

  lemma {:induction false} Position(log: seq<LogEvent>, after: int) returns (c: nat)
    requires Increasing(log)
    ensures c <= |log|
    ensures forall i :: 0 <= i < c ==> log[i].number <= after
    ensures forall i :: c <= i < |log| ==> log[i].number > after
    ensures Since(log, after) == log[c..]
  {
    c := 0;
    while c < |log| && log[c].number <= after
      invariant c <= |log|
      invariant forall i :: 0 <= i < c ==> log[i].number <= after
    {
      c := c + 1;
    }
    SinceIsSuffix(log, after, c);
  }

  /** A full page followed by what a longer log holds after its cursor is what that log held before it. */
  lemma {:induction false} PageThenRest(log: seq<LogEvent>, longer: seq<LogEvent>, after: int)
    requires Increasing(log) && Increasing(longer) && log <= longer
    requires Serve(log, after, PAGE_LIMIT).hasMore
    ensures var page := Serve(log, after, PAGE_LIMIT);
      && Advances(page.nextAfter, after)
      && |page.events| == PAGE_LIMIT
      && page.events + Since(longer, page.nextAfter) == Since(longer, after)
  {
    var c := Position(log, after);
    var page := Serve(log, after, PAGE_LIMIT);
    assert page.events == log[c..c + PAGE_LIMIT];
    assert page.nextAfter == log[c + PAGE_LIMIT - 1].number;
    SinceIsSuffix(longer, after, c);
    SinceIsSuffix(longer, page.nextAfter, c + PAGE_LIMIT);
  }

  /**
   With a growing log the reading never fails on a cursor, and what it returns is exactly the events above
   the start as of the last page.
   */
  lemma {:induction false} ReadIsComplete(
    server: Server, logs: nat -> seq<LogEvent>, k: nat, after: int, events: seq<LogEvent>)
    requires Growing(logs) && Conforms(server, logs) && k <= MAX_PAGES
    ensures match Read(server, k, after, events)
      case Events(all, last) => k <= last < MAX_PAGES && all == events + Since(logs(last), after)
      case LimitExceeded => true
      case _ => false
    decreases MAX_PAGES - k
  {
    if k < MAX_PAGES {
      var page := server(k, after);
      assert page == Serve(logs(k), after, PAGE_LIMIT);
      if page.hasMore {
        PageThenRest(logs(k), logs(k), after);
        ReadIsComplete(server, logs, k + 1, page.nextAfter, events + page.events);
        var outcome := Read(server, k + 1, page.nextAfter, events + page.events);
        if outcome.Events? {
          PageThenRest(logs(k), logs(outcome.last), after);
          assert events + page.events + Since(logs(outcome.last), page.nextAfter)
              == events + Since(logs(outcome.last), after);
        }
      }
    }
  }

  /** It gives up only when there are a thousand events for each page it may still ask for. */
  lemma {:induction false} LimitMeansMany(
    server: Server, logs: nat -> seq<LogEvent>, k: nat, after: int, events: seq<LogEvent>, j: nat, left: nat)
    requires Growing(logs) && Conforms(server, logs) && k <= MAX_PAGES <= j && left == MAX_PAGES - k
    requires Read(server, k, after, events) == LimitExceeded
    ensures |Since(logs(j), after)| >= left * 1000
    decreases left
  {
    if left > 0 {
      var page := server(k, after);
      assert page == Serve(logs(k), after, PAGE_LIMIT);
      PageThenRest(logs(k), logs(j), after);
      LimitMeansMany(server, logs, k + 1, page.nextAfter, events + page.events, j, left - 1);
    }
  }

  /** The whole call, from any start cursor: it gives up only when there are at least ten million events. */
  lemma PaginationIsComplete(server: Server, logs: nat -> seq<LogEvent>, afterSeq: Option<int>)
    requires Growing(logs) && Conforms(server, logs)
    ensures match Read(server, 0, StartCursor(afterSeq), [])
      case Events(all, last) => last < MAX_PAGES && all == Since(logs(last), StartCursor(afterSeq))
      case LimitExceeded => |Since(logs(MAX_PAGES), StartCursor(afterSeq))| >= 10_000_000
      case _ => false
  {
    ReadIsComplete(server, logs, 0, StartCursor(afterSeq), []);
    if Read(server, 0, StartCursor(afterSeq), []).LimitExceeded? {
      LimitMeansMany(server, logs, 0, StartCursor(afterSeq), [], MAX_PAGES, MAX_PAGES);
    }
  }

  /** Above a position, told from the log alone: a suffix of larger numbers after a prefix of others. */
  ghost predicate IsRestAbove(events: seq<LogEvent>, log: seq<LogEvent>, after: int) {
    exists c: nat :: c <= |log| && events == log[c..] && SplitsAt(log, after, c)
  }

  predicate SplitsAt(log: seq<LogEvent>, after: int, c: nat)
    requires c <= |log|
  {
    && (forall i :: 0 <= i < c ==> log[i].number <= after)
    && (forall i :: c <= i < |log| ==> log[i].number > after)
  }

  /**
   From a start n, a safe integer, the call returns exactly the events above n, or above 0 if n is less, of the log as it
   was at the last page; from none, or an unsafe one, all events above 0.
   */
  lemma ReadsFromStart(server: Server, logs: nat -> seq<LogEvent>, afterSeq: Option<int>, start: int)
    requires Growing(logs) && Conforms(server, logs)
    requires afterSeq.Some? && -9_007_199_254_740_991 <= afterSeq.value <= 9_007_199_254_740_991 ==>
      start == if afterSeq.value > 0 then afterSeq.value else 0
    requires !(afterSeq.Some? && -9_007_199_254_740_991 <= afterSeq.value <= 9_007_199_254_740_991) ==> start == 0
    ensures match Read(server, 0, StartCursor(afterSeq), [])
      case Events(all, last) => last < MAX_PAGES && IsRestAbove(all, logs(last), start)
      case LimitExceeded => true
      case _ => false
  {
    PaginationIsComplete(server, logs, afterSeq);
    assert StartCursor(afterSeq) == start;
    match Read(server, 0, StartCursor(afterSeq), [])
    case Events(all, last) =>
      var c := Position(logs(last), start);
      assert SplitsAt(logs(last), start, c);
    case _ =>
  }
}
