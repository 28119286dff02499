/** Sorting by a strict order, and that the sorted form of a collection is unique. */
module Ordering {

  ghost predicate StrictOrder<T(!new)>(less: (T, T) -> bool) {
    && (forall a :: !less(a, a))
    && (forall a, b, c :: less(a, b) && less(b, c) ==> less(a, c))
  }

  predicate Sorted<T>(less: (T, T) -> bool, s: seq<T>) {
    forall i, j :: 0 <= i < j < |s| ==> less(s[i], s[j])
  }

  /** Any two elements are in order one way or the other. */
  predicate Comparable<T>(less: (T, T) -> bool, s: seq<T>) {
    forall i, j :: 0 <= i < j < |s| ==> less(s[i], s[j]) || less(s[j], s[i])
  }

  function Insert<T>(less: (T, T) -> bool, x: T, sorted: seq<T>): seq<T> {
    if sorted == [] || less(x, sorted[0]) then [x] + sorted else [sorted[0]] + Insert(less, x, sorted[1..])
  }

  /** One element after the other, each behind its equals. */
  function Sort<T>(less: (T, T) -> bool, s: seq<T>): seq<T> {
    if s == [] then [] else Insert(less, s[|s| - 1], Sort(less, s[..|s| - 1]))
  }

  lemma {:induction false} InsertMembers<T>(less: (T, T) -> bool, x: T, sorted: seq<T>, y: T)
    ensures y in Insert(less, x, sorted) <==> y == x || y in sorted
  {
    if sorted != [] && !less(x, sorted[0]) {
      InsertMembers(less, x, sorted[1..], y);
      assert sorted == [sorted[0]] + sorted[1..];
    }
  }

  lemma {:induction false} SortMembers<T>(less: (T, T) -> bool, s: seq<T>, y: T)
    ensures y in Sort(less, s) <==> y in s
  {
    if s != [] {
      var n := |s| - 1;
      SortMembers(less, s[..n], y);
      InsertMembers(less, s[n], Sort(less, s[..n]), y);
      assert s == s[..n] + [s[n]];
    }
  }

  lemma SortedCons<T(!new)>(less: (T, T) -> bool, x: T, s: seq<T>)
    requires StrictOrder(less) && Sorted(less, s) && (s != [] ==> less(x, s[0]))
    ensures Sorted(less, [x] + s)
  {
    forall i | 0 <= i < |s| ensures less(x, s[i]) {
      if i > 0 { assert less(s[0], s[i]); }
    }
  }

  lemma {:induction false} InsertSorts<T(!new)>(less: (T, T) -> bool, x: T, sorted: seq<T>)
    requires StrictOrder(less) && Sorted(less, sorted)
    requires forall y :: y in sorted ==> less(x, y) || less(y, x)
    ensures Sorted(less, Insert(less, x, sorted))
  {
    if sorted == [] || less(x, sorted[0]) {
      SortedCons(less, x, sorted);
    } else {
      var tail := sorted[1..];
      assert sorted == [sorted[0]] + tail;
      InsertSorts(less, x, tail);
      SortedCons(less, sorted[0], Insert(less, x, tail));
    }
  }

  /** Comparable elements come out in order, every one of them and no other. */
  lemma {:induction false} SortSorts<T(!new)>(less: (T, T) -> bool, s: seq<T>)
    requires StrictOrder(less) && Comparable(less, s)
    ensures Sorted(less, Sort(less, s))
  {
    if s != [] {
      var n := |s| - 1;
      SortSorts(less, s[..n]);
      forall y | y in Sort(less, s[..n]) ensures less(s[n], y) || less(y, s[n]) {
        SortMembers(less, s[..n], y);
        var i :| 0 <= i < n && s[..n][i] == y;
        assert s[i] == y;
      }
      InsertSorts(less, s[n], Sort(less, s[..n]));
    }
  }

  lemma TailMembers<T(!new)>(less: (T, T) -> bool, s: seq<T>, y: T)
    requires StrictOrder(less) && Sorted(less, s) && s != []
    ensures y in s[1..] <==> y in s && y != s[0]
    ensures y in s ==> y == s[0] || less(s[0], y)
  {
    assert s == [s[0]] + s[1..];
    if y in s[1..] {
      var i :| 0 <= i < |s[1..]| && s[1..][i] == y;
      assert less(s[0], s[i + 1]);
    }
  }

  /** A sorted list is determined by its elements. */
  lemma {:induction false} SortedUnique<T(!new)>(less: (T, T) -> bool, a: seq<T>, b: seq<T>)
    requires StrictOrder(less) && Sorted(less, a) && Sorted(less, b) && forall y :: y in a <==> y in b
    ensures a == b
    decreases |a|
  {
    assert b != [] ==> b[0] in b;
    if a != [] {
      assert a[0] in a && a[0] in b;
      assert b[0] in b && b[0] in a;
      TailMembers(less, a, b[0]);
      TailMembers(less, b, a[0]);
      assert a == [a[0]] + a[1..] && b == [b[0]] + b[1..];
      forall y ensures y in a[1..] <==> y in b[1..] {
        TailMembers(less, a, y);
        TailMembers(less, b, y);
      }
      SortedUnique(less, a[1..], b[1..]);
    }
  }
}
