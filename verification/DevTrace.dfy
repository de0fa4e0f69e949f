/**
 The development trace's de-duplicator: an insertion-ordered dictionary of at most
 8,192 ids, refined to "the most recent distinct ids of the whole history".
 */
module DevTrace {
  const MAX_SEEN := 8_192

  const TOOL_EVENTS := {"tool.requested", "tool.completed", "tool.failed", "tool.canceled"}
  const RUN_EVENTS := {
    "run.started", "run.waiting", "run.completed", "run.failed", "run.canceled", "run.cleanup_required",
    "repair.workflow"
  }
  const PRINTABLE := TOOL_EVENTS + RUN_EVENTS
    + {"assistant.round.committed", "llm.delta", "llm.error", "llm.round.closed"}

  /** `durable` says that the event carries a sequence number. */
  datatype Event = Event(eventType: string, id: string, durable: bool)

  // ----- sequences of distinct ids -----

  predicate Distinct<T(==)>(s: seq<T>) {
    forall i, j :: 0 <= i < j < |s| ==> s[i] != s[j]
  }

  function Without<T(==)>(s: seq<T>, x: T): seq<T> {
    if s == [] then []
    else if s[0] == x then Without(s[1..], x)
    else [s[0]] + Without(s[1..], x)
  }

  function Last<T>(s: seq<T>, n: nat): seq<T> {
    if |s| > n then s[|s| - n..] else s
  }

  /** What follows the first occurrence of `x`. */
  function Following<T(==)>(s: seq<T>, x: T): seq<T>
    requires x in s
  {
    if s[0] == x then s[1..] else Following(s[1..], x)
  }

  lemma {:induction false} WithoutMembers<T>(s: seq<T>, x: T)
    ensures forall y :: y in Without(s, x) <==> y in s && y != x
    ensures x !in s ==> Without(s, x) == s
    ensures Distinct(s) ==> Distinct(Without(s, x))
    ensures Distinct(s) && x in s ==> |Without(s, x)| == |s| - 1
  {
    if s != [] {
      WithoutMembers(s[1..], x);
      assert s == [s[0]] + s[1..];
      if Distinct(s) {
        assert s[0] !in s[1..];
      }
    }
  }

  lemma {:induction false} WithoutConcat<T>(s: seq<T>, t: seq<T>, x: T)
    ensures Without(s + t, x) == Without(s, x) + Without(t, x)
  {
    if s == [] {
      assert s + t == t;
    } else {
      assert (s + t)[1..] == s[1..] + t;
      WithoutConcat(s[1..], t, x);
    }
  }

  lemma {:induction false} FollowingMembers<T>(s: seq<T>, x: T)
    requires Distinct(s) && x in s
    ensures |Following(s, x)| < |s| && s[|s| - |Following(s, x)| - 1] == x
    ensures Following(s, x) == s[|s| - |Following(s, x)|..]
  {
    if s[0] != x {
      FollowingMembers(s[1..], x);
    }
  }

  lemma {:induction false} FollowingWithout<T>(s: seq<T>, x: T, y: T)
    requires Distinct(s) && x in s && x != y
    ensures x in Without(s, y) + [y]
    ensures Following(Without(s, y) + [y], x) == Without(Following(s, x), y) + [y]
  {
    WithoutMembers(s, y);
    var t := Without(s, y) + [y];
    if s[0] == x {
      assert t[1..] == Without(s[1..], y) + [y];
    } else {
      FollowingWithout(s[1..], x, y);
      if s[0] != y {
        assert t[1..] == Without(s[1..], y) + [y];
      }
    }
  }

  // ----- the specification: recency over the whole history -----

  /** The distinct ids of a history in order of last occurrence. */
  function ByRecency(history: seq<string>): seq<string> {
    if history == [] then []
    else
      var n := |history| - 1;
      Without(ByRecency(history[..n]), history[n]) + [history[n]]
  }

  /** The ids that came after the last occurrence of `x`. */
  function Since(history: seq<string>, x: string): set<string> {
    if history == [] then {}
    else
      var n := |history| - 1;
      if history[n] == x then {} else Since(history[..n], x) + {history[n]}
  }

  /** Seen before, with fewer than `MAX_SEEN` other distinct ids since. */
  predicate RecentlySeen(history: seq<string>, x: string) {
    x in history && |Since(history, x)| < MAX_SEEN
  }

  function ToSet<T>(s: seq<T>): set<T> {
    set x | x in s
  }

  lemma {:induction false} DistinctSize<T>(s: seq<T>)
    requires Distinct(s)
    ensures |ToSet(s)| == |s|
  {
    if s != [] {
      DistinctSize(s[1..]);
      assert ToSet(s) == {s[0]} + ToSet(s[1..]);
    }
  }

  lemma {:induction false} ByRecencyMembers(history: seq<string>)
    ensures Distinct(ByRecency(history))
    ensures forall x :: x in ByRecency(history) <==> x in history
  {
    if history != [] {
      var n := |history| - 1;
      ByRecencyMembers(history[..n]);
      WithoutMembers(ByRecency(history[..n]), history[n]);
      assert history == history[..n] + [history[n]];
    }
  }

  /** In the recency order, what follows an id is exactly what came since. */
  lemma {:induction false} FollowingIsSince(history: seq<string>, x: string)
    requires x in history
    ensures x in ByRecency(history)
    ensures ToSet(Following(ByRecency(history), x)) == Since(history, x)
  {
    var n := |history| - 1;
    var before, y := ByRecency(history[..n]), history[n];
    assert history == history[..n] + [y];
    ByRecencyMembers(history[..n]);
    if x == y {
      WithoutMembers(before, y);
      FollowingLast(Without(before, y), y);
    } else {
      FollowingIsSince(history[..n], x);
      FollowingMoved(before, x, y);
    }
  }

  lemma FollowingLast(s: seq<string>, y: string)
    requires Distinct(s) && y !in s
    ensures y in s + [y] && Following(s + [y], y) == []
  {
    FollowingMembers(s + [y], y);
  }

  lemma FollowingMoved(order: seq<string>, x: string, y: string)
    requires Distinct(order) && x in order && x != y
    ensures x in Without(order, y) + [y]
    ensures ToSet(Following(Without(order, y) + [y], x)) == ToSet(Following(order, x)) + {y}
  {
    FollowingWithout(order, x, y);
    FollowingMembers(order, x);
    WithoutMembers(Following(order, x), y);
  }

  /** The recency order really is by last occurrence: no earlier id came after a later one. */
  lemma {:induction false} ByRecencyOrder(history: seq<string>, i: nat, j: nat)
    requires i < j < |ByRecency(history)|
    ensures ByRecency(history)[i] !in Since(history, ByRecency(history)[j])
  {
    var order := ByRecency(history);
    ByRecencyMembers(history);
    var x := order[j];
    FollowingIsSince(history, x);
    FollowingMembers(order, x);
  }

  /** An id is among the last n of the order exactly when fewer than n ids came since. */
  lemma {:induction false} InLastIffRecent(history: seq<string>, x: string)
    ensures x in Last(ByRecency(history), MAX_SEEN) <==> RecentlySeen(history, x)
  {
    var order := ByRecency(history);
    ByRecencyMembers(history);
    if x in history {
      FollowingIsSince(history, x);
      FollowingMembers(order, x);
      var following := Following(order, x);
      DistinctSize(following);
      var at := |order| - |following| - 1;
      var kept := Last(order, MAX_SEEN);
      if |order| > MAX_SEEN && at >= |order| - MAX_SEEN {
        assert kept[at - (|order| - MAX_SEEN)] == x;
      }
    }
  }

  // ----- the dictionary -----

  /** A known id moves to the end; a new one is added, and the oldest dropped above the cap. */
  function Touch(seen: seq<string>, id: string): seq<string> {
    if id in seen then Without(seen, id) + [id]
    else if |seen| + 1 > MAX_SEEN then (seen + [id])[1..]
    else seen + [id]
  }

  lemma {:induction false} TouchLast(order: seq<string>, id: string)
    requires Distinct(order)
    ensures Touch(Last(order, MAX_SEEN), id) == Last(Without(order, id) + [id], MAX_SEEN)
  {
    var kept := Last(order, MAX_SEEN);
    var dropped := order[..|order| - |kept|];
    assert order == dropped + kept;
    if id in kept {
      TouchKnown(dropped, kept, id);
    } else {
      TouchNew(dropped, kept, id);
    }
  }

  lemma TouchNew(dropped: seq<string>, kept: seq<string>, id: string)
    requires id !in kept && (dropped == [] || |kept| == MAX_SEEN) && |kept| <= MAX_SEEN
    ensures Touch(kept, id) == Last(Without(dropped + kept, id) + [id], MAX_SEEN)
  {
    WithoutConcat(dropped, kept, id);
    WithoutMembers(kept, id);
    assert Without(dropped + kept, id) + [id] == Without(dropped, id) + (kept + [id]);
  }

  lemma TouchKnown(dropped: seq<string>, kept: seq<string>, id: string)
    requires Distinct(dropped + kept) && id in kept && (dropped == [] || |kept| == MAX_SEEN) && |kept| <= MAX_SEEN
    ensures Touch(kept, id) == Last(Without(dropped + kept, id) + [id], MAX_SEEN)
  {
    WithoutConcat(dropped, kept, id);
    TouchedSizes(dropped, kept, id);
    assert Without(dropped + kept, id) + [id] == dropped + (Without(kept, id) + [id]);
  }

  lemma TouchedSizes(dropped: seq<string>, kept: seq<string>, id: string)
    requires Distinct(dropped + kept) && id in kept
    ensures Without(dropped, id) == dropped && |Without(kept, id) + [id]| == |kept|
  {
    var i :| 0 <= i < |kept| && kept[i] == id;
    assert (dropped + kept)[|dropped| + i] == id;
    assert forall j :: 0 <= j < |dropped| ==> dropped[j] == (dropped + kept)[j];
    WithoutMembers(dropped, id);
    assert Distinct(kept) by {
      assert forall j :: 0 <= j < |kept| ==> kept[j] == (dropped + kept)[|dropped| + j];
    }
    WithoutMembers(kept, id);
  }

  /** One touch keeps the dictionary equal to the tail of the recency order. */
  lemma {:induction false} TouchKeepsMostRecent(history: seq<string>, id: string)
    ensures Touch(Last(ByRecency(history), MAX_SEEN), id) == Last(ByRecency(history + [id]), MAX_SEEN)
  {
    assert (history + [id])[..|history|] == history;
    ByRecencyMembers(history);
    TouchLast(ByRecency(history), id);
  }

  class Tracer {
    var seen: seq<string>
    ghost var history: seq<string>

    /** The dictionary holds exactly the most recent distinct ids of the history. */
    ghost predicate Valid()
      reads this
    {
      seen == Last(ByRecency(history), MAX_SEEN)
    }

    constructor ()
      ensures Valid() && history == []
    {
      seen, history := [], [];
    }

    /** `forwarded` says that the event reached the printer. */
    method TraceStreamEvent(event: Event, enabled: bool) returns (forwarded: bool)
      requires Valid()
      modifies this
      ensures Valid()
      ensures history ==
        if enabled && event.eventType in PRINTABLE && event.durable && event.id != "" then old(history) + [event.id]
        else old(history)
      ensures forwarded <==>
        && enabled && event.eventType in PRINTABLE
        && (event.durable && event.id != "" ==> !RecentlySeen(old(history), event.id))
      ensures |seen| <= MAX_SEEN && Distinct(seen)
    {
      ByRecencyMembers(history);
      if !enabled || event.eventType !in PRINTABLE {
        return false;
      }
      InLastIffRecent(history, event.id);
      TouchKeepsMostRecent(history, event.id);
      if event.durable && event.id != "" {
        ByRecencyMembers(history + [event.id]);
        history := history + [event.id];
        if event.id in seen {
          seen := Without(seen, event.id) + [event.id];
          return false;
        }
        seen := seen + [event.id];
        if |seen| > MAX_SEEN {
          seen := seen[1..];
        }
      }
      return true;
    }
  }
}
