/** Stable sorting by a strict weak order, as the source's `sort` and `sorted` do it. */
module Sorting {
  type Less<!T> = (T, T) -> bool

  ghost predicate StrictWeak<T(!new)>(less: Less<T>) {
    && (forall x, y :: less(x, y) ==> !less(y, x))
    && (forall x, y, z :: less(x, y) && !less(z, y) ==> less(x, z))
  }

  /** No element is less than an earlier one. */
  ghost predicate Ordered<T>(s: seq<T>, less: Less<T>) {
    forall i, j :: 0 <= i < j < |s| ==> !less(s[j], s[i])
  }

  /** Every element is greater than all earlier ones. */
  ghost predicate Strictly<T>(s: seq<T>, less: Less<T>) {
    forall i, j :: 0 <= i < j < |s| ==> less(s[i], s[j])
  }

  /** Inserts after everything that is not greater. */
  function Insert<T>(x: T, s: seq<T>, less: Less<T>): seq<T> {
    if s == [] || less(x, s[0]) then [x] + s else [s[0]] + Insert(x, s[1..], less)
  }

  function Sort<T>(s: seq<T>, less: Less<T>): seq<T> {
    if s == [] then []
    else
      var n := |s| - 1;
      Insert(s[n], Sort(s[..n], less), less)
  }

  lemma {:induction false} InsertOrders<T(!new)>(x: T, s: seq<T>, less: Less<T>)
    requires StrictWeak(less) && Ordered(s, less)
    ensures Ordered(Insert(x, s, less), less)
    ensures multiset(Insert(x, s, less)) == multiset(s) + multiset{x}
  {
    if s == [] || less(x, s[0]) {
      var r := [x] + s;
      forall j | 1 <= j < |r| ensures !less(r[j], x) {
        assert r[j] == s[j - 1];
        assert j > 1 ==> !less(s[j - 1], s[0]);
      }
    } else {
      var rest := Insert(x, s[1..], less);
      InsertOrders(x, s[1..], less);
      assert s == [s[0]] + s[1..];
      forall j | 0 <= j < |rest| ensures !less(rest[j], s[0]) {
        assert rest[j] in multiset(rest);
        if rest[j] != x {
          assert rest[j] in multiset(s[1..]);
          var k :| 0 <= k < |s[1..]| && s[1..][k] == rest[j];
          assert s[1..][k] == s[k + 1];
        }
      }
    }
  }

  /** Sorting gives an ordered permutation. */
  lemma {:induction false} SortOrders<T(!new)>(s: seq<T>, less: Less<T>)
    requires StrictWeak(less)
    ensures Ordered(Sort(s, less), less)
    ensures multiset(Sort(s, less)) == multiset(s)
  {
    if s != [] {
      var n := |s| - 1;
      var front := Sort(s[..n], less);
      SortOrders(s[..n], less);
      InsertOrders(s[n], front, less);
      Snoc(s);
      assert Sort(s, less) == Insert(s[n], front, less);
    }
  }

  lemma Snoc<T>(s: seq<T>)
    requires s != []
    ensures multiset(s) == multiset(s[..|s| - 1]) + multiset{s[|s| - 1]}
  {
    assert s == s[..|s| - 1] + [s[|s| - 1]];
  }

  lemma SameMembers<T>(a: seq<T>, b: seq<T>)
    requires multiset(a) == multiset(b)
    ensures forall x :: x in a <==> x in b
  {
    forall x ensures x in a <==> x in b {
      assert x in a <==> x in multiset(a);
      assert x in b <==> x in multiset(b);
    }
  }

  // ----- strictly sorted lists are determined by their elements -----

  lemma SameHead<T(!new)>(a: seq<T>, b: seq<T>, less: Less<T>)
    requires StrictWeak(less) && Strictly(a, less) && Strictly(b, less)
    requires a != [] && b != [] && a[0] in b && b[0] in a
    ensures a[0] == b[0]
  {
    var i :| 0 <= i < |b| && b[i] == a[0];
    var j :| 0 <= j < |a| && a[j] == b[0];
    assert i > 0 ==> less(b[0], a[0]);
    assert j > 0 ==> less(a[0], b[0]);
  }

  lemma InTail<T(!new)>(a: seq<T>, y: T, less: Less<T>)
    requires StrictWeak(less) && Strictly(a, less) && a != []
    ensures y in a[1..] <==> y in a && y != a[0]
  {
    assert a == [a[0]] + a[1..];
    if y in a[1..] {
      var i :| 0 <= i < |a[1..]| && a[1..][i] == y;
      assert less(a[0], a[i + 1]);
    }
  }

  lemma {:induction false} StrictUnique<T(!new)>(a: seq<T>, b: seq<T>, less: Less<T>)
    requires StrictWeak(less) && Strictly(a, less) && Strictly(b, less)
    requires forall y :: y in a <==> y in b
    ensures a == b
  {
    if a != [] && b != [] {
      assert a[0] in a && b[0] in b;
      SameHead(a, b, less);
      forall y ensures y in a[1..] <==> y in b[1..] {
        InTail(a, y, less);
        InTail(b, y, less);
      }
      StrictUnique(a[1..], b[1..], less);
      assert a == [a[0]] + a[1..] && b == [b[0]] + b[1..];
    } else if a != [] {
      InHead(a);
      assert false;
    } else if b != [] {
      InHead(b);
      assert false;
    }
  }

  lemma InHead<T>(s: seq<T>)
    requires s != []
    ensures s[0] in s
  {
  }

  // ----- with a total order the sorted permutation is unique -----

  ghost predicate Connected<T>(s: seq<T>, less: Less<T>) {
    forall x, y :: x in s && y in s && x != y ==> less(x, y) || less(y, x)
  }

  lemma OrderedHead<T(!new)>(a: seq<T>, b: seq<T>, less: Less<T>)
    requires StrictWeak(less) && Ordered(a, less) && Ordered(b, less) && Connected(a, less)
    requires a != [] && b != [] && a[0] in b && b[0] in a
    ensures a[0] == b[0]
  {
    var i :| 0 <= i < |b| && b[i] == a[0];
    var j :| 0 <= j < |a| && a[j] == b[0];
    assert j > 0 ==> !less(b[0], a[0]);
    assert i > 0 ==> !less(a[0], b[0]);
    assert a[0] in a;
  }

  lemma TailsAgree<T>(a: seq<T>, b: seq<T>)
    requires a != [] && b != [] && a[0] == b[0] && multiset(a) == multiset(b)
    ensures multiset(a[1..]) == multiset(b[1..])
  {
    assert a == [a[0]] + a[1..] && b == [b[0]] + b[1..];
    assert multiset(a[1..]) == multiset(a) - multiset{a[0]};
    assert multiset(b[1..]) == multiset(b) - multiset{b[0]};
  }

  lemma ConnectedTail<T>(s: seq<T>, less: Less<T>)
    requires s != [] && Connected(s, less)
    ensures Connected(s[1..], less)
  {
    assert s == [s[0]] + s[1..];
  }

  lemma {:induction false} OrderedUnique<T(!new)>(a: seq<T>, b: seq<T>, less: Less<T>)
    requires StrictWeak(less) && Ordered(a, less) && Ordered(b, less) && Connected(a, less)
    requires multiset(a) == multiset(b)
    ensures a == b
  {
    if a == [] || b == [] {
      assert |a| == |multiset(a)| && |b| == |multiset(b)|;
    } else {
      SameMembers(a, b);
      InHead(a);
      InHead(b);
      OrderedHead(a, b, less);
      TailsAgree(a, b);
      ConnectedTail(a, less);
      OrderedUnique(a[1..], b[1..], less);
    }
  }

  /** Sorting forgets the order it was given. */
  lemma SortPermutation<T(!new)>(a: seq<T>, b: seq<T>, less: Less<T>)
    requires StrictWeak(less) && Connected(a, less)
    requires multiset(a) == multiset(b)
    ensures Sort(a, less) == Sort(b, less)
  {
    SortOrders(a, less);
    SortOrders(b, less);
    SameMembers(a, Sort(a, less));
    OrderedUnique(Sort(a, less), Sort(b, less), less);
  }

  // ----- sorting commutes with leaving elements out -----

  function Filter<T>(s: seq<T>, keep: T -> bool): seq<T> {
    if s == [] then []
    else
      var n := |s| - 1;
      Filter(s[..n], keep) + if keep(s[n]) then [s[n]] else []
  }

  lemma {:induction false} FilterConcat<T>(a: seq<T>, b: seq<T>, keep: T -> bool)
    ensures Filter(a + b, keep) == Filter(a, keep) + Filter(b, keep)
  {
    if b == [] {
      assert a + b == a;
    } else {
      var n := |b| - 1;
      assert (a + b)[..|a| + n] == a + b[..n];
      FilterConcat(a, b[..n], keep);
    }
  }

  lemma FilterOne<T>(x: T, keep: T -> bool)
    ensures Filter([x], keep) == if keep(x) then [x] else []
  {
    assert [x][..0] == [];
  }

  /** Two filters in a row are one. */
  lemma {:induction false} FilterFilter<T>(s: seq<T>, first: T -> bool, second: T -> bool, both: T -> bool)
    requires forall x :: x in s ==> (both(x) <==> first(x) && second(x))
    ensures Filter(Filter(s, first), second) == Filter(s, both)
  {
    if s != [] {
      var n := |s| - 1;
      var kept := Filter(s[..n], first);
      FilterFilter(s[..n], first, second, both);
      assert s[n] in s;
      if first(s[n]) {
        FilterConcat(kept, [s[n]], second);
        FilterOne(s[n], second);
      } else {
        assert Filter(s, first) == kept;
      }
    }
  }

  lemma {:induction false} FilterMembers<T>(s: seq<T>, keep: T -> bool)
    ensures forall x :: x in Filter(s, keep) <==> x in s && keep(x)
  {
    if s != [] {
      var n := |s| - 1;
      FilterMembers(s[..n], keep);
      assert s == s[..n] + [s[n]];
    }
  }

  /** Whatever is kept of a list that is greater than `x` starts with something greater than `x`. */
  lemma KeptIsGreater<T(!new)>(x: T, s: seq<T>, less: Less<T>, keep: T -> bool)
    requires StrictWeak(less) && Ordered(s, less)
    requires s == [] || less(x, s[0])
    ensures var kept := Filter(s, keep); kept == [] || less(x, kept[0])
  {
    var kept := Filter(s, keep);
    FilterMembers(s, keep);
    if kept != [] {
      InHead(kept);
      var k :| 0 <= k < |s| && s[k] == kept[0];
      assert k > 0 ==> !less(s[k], s[0]);
    }
  }

  lemma FilterCons<T>(x: T, s: seq<T>, keep: T -> bool)
    ensures Filter([x] + s, keep) == if keep(x) then [x] + Filter(s, keep) else Filter(s, keep)
  {
    FilterConcat([x], s, keep);
    FilterOne(x, keep);
  }

  lemma {:induction false} FilterInsert<T(!new)>(x: T, s: seq<T>, less: Less<T>, keep: T -> bool)
    requires StrictWeak(less) && Ordered(s, less)
    ensures Filter(Insert(x, s, less), keep)
         == if keep(x) then Insert(x, Filter(s, keep), less) else Filter(s, keep)
  {
    if s == [] || less(x, s[0]) {
      FilterCons(x, s, keep);
      KeptIsGreater(x, s, less, keep);
    } else {
      var head, rest := s[0], s[1..];
      assert s == [head] + rest;
      FilterCons(head, rest, keep);
      FilterCons(head, Insert(x, rest, less), keep);
      FilterInsert(x, rest, less, keep);
      var kept := Filter(rest, keep);
      if keep(head) {
        assert ([head] + kept)[1..] == kept;
      }
    }
  }

  /** Sorting what is left of a list gives what is left of the sorted list. */
  lemma {:induction false} SortFilter<T(!new)>(s: seq<T>, less: Less<T>, keep: T -> bool)
    requires StrictWeak(less)
    ensures Sort(Filter(s, keep), less) == Filter(Sort(s, less), keep)
  {
    if s != [] {
      var n := |s| - 1;
      SortFilter(s[..n], less, keep);
      SortOrders(s[..n], less);
      FilterInsert(s[n], Sort(s[..n], less), less, keep);
      var front := Filter(s[..n], keep);
      if keep(s[n]) {
        assert Filter(s, keep)[..|front|] == front;
      } else {
        assert Filter(s, keep) == front;
      }
    }
  }

  /** Sorting leaves a list alone in which nothing is less than anything. */
  lemma {:induction false} SortTies<T(!new)>(s: seq<T>, less: Less<T>)
    requires forall x, y :: x in s && y in s ==> !less(x, y)
    ensures Sort(s, less) == s
  {
    if s != [] {
      var n := |s| - 1;
      assert s == s[..n] + [s[n]];
      SortTies(s[..n], less);
      InsertLast(s[n], s[..n], less);
    }
  }

  lemma {:induction false} InsertLast<T(!new)>(x: T, s: seq<T>, less: Less<T>)
    requires forall y :: y in s ==> !less(x, y)
    ensures Insert(x, s, less) == s + [x]
  {
    if s != [] {
      assert s == [s[0]] + s[1..];
      InsertLast(x, s[1..], less);
    }
  }

  /** Leaving elements out of a longer list gives a longer list. */
  lemma FilterPrefix<T>(a: seq<T>, b: seq<T>, keep: T -> bool)
    requires a <= b
    ensures Filter(a, keep) <= Filter(b, keep)
  {
    assert b == a + b[|a|..];
    FilterConcat(a, b[|a|..], keep);
  }

  // ----- lists without duplicates -----

  predicate NoDuplicates<T(==)>(s: seq<T>) {
    forall i, j :: 0 <= i < j < |s| ==> s[i] != s[j]
  }

  lemma {:induction false} NoDuplicatesOnce<T>(s: seq<T>, x: T)
    requires NoDuplicates(s)
    ensures multiset(s)[x] <= 1
  {
    if s != [] {
      NoDuplicatesOnce(s[..|s| - 1], x);
      Snoc(s);
    }
  }

  lemma PermutationNoDuplicates<T>(a: seq<T>, b: seq<T>)
    requires NoDuplicates(a) && multiset(a) == multiset(b)
    ensures NoDuplicates(b)
  {
    forall i, j | 0 <= i < j < |b| ensures b[i] != b[j] {
      NoDuplicatesOnce(a, b[j]);
      assert b == b[..j] + [b[j]] + b[j + 1..];
      assert multiset(b) == multiset(b[..j]) + multiset{b[j]} + multiset(b[j + 1..]);
      assert b[i] in b[..j];
    }
  }

  lemma {:induction false} NoDuplicatesSize<T>(s: seq<T>)
    requires NoDuplicates(s)
    ensures |set x | x in s| == |s|
  {
    if s != [] {
      var n := |s| - 1;
      NoDuplicatesSize(s[..n]);
      assert s == s[..n] + [s[n]];
      assert (set x | x in s) == (set x | x in s[..n]) + {s[n]};
    }
  }
}
