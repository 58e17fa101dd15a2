/** The stable sort of the standard library: by a key, keeping the order of equal keys. */
module Sorting {
  function Insert<T>(key: T -> nat, x: T, sorted: seq<T>): (r: seq<T>)
    ensures |r| == |sorted| + 1
  {
    if sorted != [] && key(sorted[|sorted| - 1]) > key(x)
    then Insert(key, x, sorted[..|sorted| - 1]) + [sorted[|sorted| - 1]]
    else sorted + [x]
  }

  function SortBy<T>(key: T -> nat, s: seq<T>): (r: seq<T>)
    ensures |r| == |s|
  {
    if s == [] then [] else Insert(key, s[|s| - 1], SortBy(key, s[..|s| - 1]))
  }

  predicate Sorted<T>(key: T -> nat, s: seq<T>) {
    forall i: nat, j: nat :: i < j < |s| ==> key(s[i]) <= key(s[j])
  }

  /** The elements with one key, in order. */
  function WithKey<T>(key: T -> nat, s: seq<T>, k: nat): seq<T> {
    if s == [] then []
    else WithKey(key, s[..|s| - 1], k) + if key(s[|s| - 1]) == k then [s[|s| - 1]] else []
  }

  lemma {:induction false} InsertKeepsEntries<T>(key: T -> nat, x: T, sorted: seq<T>)
    ensures multiset(Insert(key, x, sorted)) == multiset(sorted) + multiset{x}
  {
    if sorted != [] {
      InsertKeepsEntries(key, x, sorted[..|sorted| - 1]);
      assert sorted == sorted[..|sorted| - 1] + [sorted[|sorted| - 1]];
    }
  }

  lemma {:induction false} SortKeepsEntries<T>(key: T -> nat, s: seq<T>)
    ensures multiset(SortBy(key, s)) == multiset(s)
  {
    if s != [] {
      var front, last := s[..|s| - 1], s[|s| - 1];
      SortKeepsEntries(key, front);
      InsertKeepsEntries(key, last, SortBy(key, front));
      assert s == front + [last];
    }
  }

  predicate AllBelow<T>(key: T -> nat, s: seq<T>, bound: nat) {
    forall i: nat :: i < |s| ==> key(s[i]) <= bound
  }

  lemma {:induction false} InsertSorts<T>(key: T -> nat, x: T, sorted: seq<T>, bound: nat)
    requires Sorted(key, sorted)
    ensures Sorted(key, Insert(key, x, sorted))
    ensures AllBelow(key, sorted, bound) && key(x) <= bound ==> AllBelow(key, Insert(key, x, sorted), bound)
  {
    if sorted != [] && key(sorted[|sorted| - 1]) > key(x) {
      InsertSorts(key, x, sorted[..|sorted| - 1], bound);
      InsertSorts(key, x, sorted[..|sorted| - 1], key(sorted[|sorted| - 1]));
    }
  }

  lemma {:induction false} SortSorts<T>(key: T -> nat, s: seq<T>)
    ensures Sorted(key, SortBy(key, s))
  {
    if s != [] {
      SortSorts(key, s[..|s| - 1]);
      InsertSorts(key, s[|s| - 1], SortBy(key, s[..|s| - 1]), 0);
    }
  }

  lemma OneMoreWithKey<T>(key: T -> nat, s: seq<T>, x: T, k: nat)
    ensures WithKey(key, s + [x], k) == WithKey(key, s, k) + if key(x) == k then [x] else []
  {
    assert (s + [x])[..|s|] == s;
  }

  lemma {:induction false} InsertIsStable<T>(key: T -> nat, x: T, sorted: seq<T>, k: nat)
    ensures WithKey(key, Insert(key, x, sorted), k) == WithKey(key, sorted + [x], k)
  {
    if sorted != [] && key(sorted[|sorted| - 1]) > key(x) {
      var front, last := sorted[..|sorted| - 1], sorted[|sorted| - 1];
      InsertIsStable(key, x, front, k);
      assert sorted == front + [last];
      OneMoreWithKey(key, Insert(key, x, front), last, k);
      OneMoreWithKey(key, front, x, k);
      OneMoreWithKey(key, front, last, k);
      OneMoreWithKey(key, sorted, x, k);
    }
  }

  /** Equal keys keep their order, so the result is determined by the input. */
  lemma {:induction false} SortIsStable<T>(key: T -> nat, s: seq<T>, k: nat)
    ensures WithKey(key, SortBy(key, s), k) == WithKey(key, s, k)
  {
    if s != [] {
      var front, last := s[..|s| - 1], s[|s| - 1];
      SortIsStable(key, front, k);
      InsertIsStable(key, last, SortBy(key, front), k);
      OneMoreWithKey(key, SortBy(key, front), last, k);
    }
  }
}
