/**
 * `slice::sort_by` with a comparator that is a total preorder, as a stable insertion sort.
 * The comparator is given as "may come first": `le(a, b)` when `cmp(a, b) != Greater`.
 */
module Sorting {
  ghost predicate TotalPreorder<T(!new)>(le: (T, T) -> bool) {
    (forall a, b :: le(a, b) || le(b, a))
    && (forall a, b, c :: le(a, b) && le(b, c) ==> le(a, c))
  }

  predicate Sorted<T>(s: seq<T>, le: (T, T) -> bool) {
    forall i, j :: 0 <= i < j < |s| ==> le(s[i], s[j])
  }

  /** Inserts `x` before the first element it may precede, so equal elements keep their order. */
  function Insert<T>(x: T, s: seq<T>, le: (T, T) -> bool): (r: seq<T>)
    ensures multiset(r) == multiset(s) + multiset{x}
    ensures |r| == |s| + 1
  {
    if s == [] || le(x, s[0]) then [x] + s
    else
      assert s == [s[0]] + s[1..];
      [s[0]] + Insert(x, s[1..], le)
  }

  lemma {:induction false} InsertSorted<T(!new)>(x: T, s: seq<T>, le: (T, T) -> bool)
    requires TotalPreorder(le) && Sorted(s, le)
    ensures Sorted(Insert(x, s, le), le)
  {
    if s == [] || le(x, s[0]) {
    } else {
      InsertSorted(x, s[1..], le);
      var r := Insert(x, s[1..], le);
      forall k | 0 <= k < |r| ensures le(s[0], r[k]) {
        assert r[k] in multiset(r);
        assert r[k] == x || r[k] in multiset(s[1..]);
        if r[k] != x {
          var j :| 0 <= j < |s[1..]| && s[1..][j] == r[k];
          assert s[j + 1] == r[k];
        }
      }
    }
  }

  function SortBy<T(!new)>(s: seq<T>, le: (T, T) -> bool): (r: seq<T>)
    requires TotalPreorder(le)
    ensures multiset(r) == multiset(s) && |r| == |s|
    ensures Sorted(r, le)
  {
    if s == [] then []
    else
      assert s == [s[0]] + s[1..];
      InsertSorted(s[0], SortBy(s[1..], le), le);
      Insert(s[0], SortBy(s[1..], le), le)
  }
  /** Two comparators that agree on `x` against every element of `s` insert `x` at the same place. */
  lemma {:induction false} InsertAgrees<T>(x: T, s: seq<T>, le1: (T, T) -> bool, le2: (T, T) -> bool)
    requires forall y :: y in s ==> le1(x, y) == le2(x, y)
    ensures Insert(x, s, le1) == Insert(x, s, le2)
  {
    if s != [] {
      assert s[0] in s;
      if !le1(x, s[0]) {
        forall y | y in s[1..] ensures le1(x, y) == le2(x, y) {
          assert y in s;
        }
        InsertAgrees(x, s[1..], le1, le2);
      }
    }
  }

  /** Sorting depends only on how the comparator judges the elements being sorted. */
  lemma {:induction false} SortByAgrees<T(!new)>(s: seq<T>, le1: (T, T) -> bool, le2: (T, T) -> bool)
    requires TotalPreorder(le1) && TotalPreorder(le2)
    requires forall x, y :: x in s && y in s ==> le1(x, y) == le2(x, y)
    ensures SortBy(s, le1) == SortBy(s, le2)
  {
    if s != [] {
      var tail := s[1..];
      forall x, y | x in tail && y in tail ensures le1(x, y) == le2(x, y) {
        assert x in s && y in s;
      }
      SortByAgrees(tail, le1, le2);
      var t := SortBy(tail, le1);
      forall y | y in t ensures le1(s[0], y) == le2(s[0], y) {
        assert y in multiset(tail);
        assert y in s;
        assert s[0] in s;
      }
      InsertAgrees(s[0], t, le1, le2);
    }
  }
}
