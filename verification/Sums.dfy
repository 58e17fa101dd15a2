/** Sums over sequences, and their independence of the order. */
module Sums {
  function SumOver<T>(f: T -> nat, s: seq<T>): nat {
    if s == [] then 0 else SumOver(f, s[..|s| - 1]) + f(s[|s| - 1])
  }

  lemma {:induction false} SumSplit<T>(f: T -> nat, a: seq<T>, b: seq<T>)
    ensures SumOver(f, a + b) == SumOver(f, a) + SumOver(f, b)
  {
    if b == [] {
      assert a + b == a;
    } else {
      SumSplit(f, a, b[..|b| - 1]);
      assert (a + b)[..|a + b| - 1] == a + b[..|b| - 1];
    }
  }

  lemma SumOfUpdate<T>(f: T -> nat, s: seq<T>, i: nat, x: T)
    requires i < |s|
    ensures SumOver(f, s[i := x]) + f(s[i]) == SumOver(f, s) + f(x)
  {
    SumAround(f, s[..i], s[i], s[i + 1..]);
    SumAround(f, s[..i], x, s[i + 1..]);
    assert s == s[..i] + [s[i]] + s[i + 1..] && s[i := x] == s[..i] + [x] + s[i + 1..];
  }

  lemma SumAround<T>(f: T -> nat, before: seq<T>, x: T, after: seq<T>)
    ensures SumOver(f, before + [x] + after) == SumOver(f, before) + f(x) + SumOver(f, after)
  {
    SumSplit(f, before + [x], after);
    SumSplit(f, before, [x]);
  }

  lemma WithoutOne<T>(front: seq<T>, last: T, before: seq<T>, after: seq<T>)
    requires multiset(front + [last]) == multiset(before + [last] + after)
    ensures multiset(front) == multiset(before + after)
  {
    var a, b := multiset(front), multiset(before) + multiset(after);
    assert a + multiset{last} == b + multiset{last};
    forall x ensures a[x] == b[x] {
      assert (a + multiset{last})[x] == (b + multiset{last})[x];
    }
  }

  /** A sum does not depend on the order of its terms. */
  lemma {:induction false} SumOfPermutation<T>(f: T -> nat, a: seq<T>, b: seq<T>)
    requires multiset(a) == multiset(b)
    ensures SumOver(f, a) == SumOver(f, b)
    decreases |a|
  {
    if a == [] {
      assert |multiset(b)| == 0;
    } else {
      var front, last := a[..|a| - 1], a[|a| - 1];
      assert a == front + [last];
      assert last in multiset(b);
      var k: nat :| k < |b| && b[k] == last;
      var before, after := b[..k], b[k + 1..];
      assert b == before + [last] + after;
      WithoutOne(front, last, before, after);
      SumOfPermutation(f, front, before + after);
      SumSplit(f, before, after);
      SumAround(f, before, last, after);
    }
  }
}
