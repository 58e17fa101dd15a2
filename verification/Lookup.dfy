/** Searching a list for the first match, and for a match that is the only one. */
module Lookup {
  import opened Words

  function FindFrom<T>(s: seq<T>, p: T -> bool, from: nat): (r: Option<nat>)
    ensures r.Some? ==> from <= r.value < |s| && p(s[r.value])
    decreases |s| - from
  {
    if from >= |s| then None
    else if p(s[from]) then Some(from)
    else FindFrom(s, p, from + 1)
  }

  lemma {:induction false} FindFromIsFirst<T>(s: seq<T>, p: T -> bool, from: nat)
    ensures var r := FindFrom(s, p, from);
            if r.Some? then from <= r.value < |s| && p(s[r.value]) && forall k: nat :: from <= k < r.value ==> !p(s[k])
            else forall k: nat :: from <= k < |s| ==> !p(s[k])
    decreases |s| - from
  {
    if from < |s| {
      FindFromIsFirst(s, p, from + 1);
    }
  }

  datatype Match = NoMatch | One(index: nat) | Several

  /** Takes the first match and looks for another one behind it. */
  function FindUnique<T>(s: seq<T>, p: T -> bool): Match {
    match FindFrom(s, p, 0)
    case None => NoMatch
    case Some(first) => if FindFrom(s, p, first + 1).Some? then Several else One(first)
  }

  /** The three outcomes: nothing matches, exactly one position matches, or two different ones do. */
  lemma FindUniqueIsExact<T>(s: seq<T>, p: T -> bool)
    ensures var r := FindUnique(s, p);
            && (r == NoMatch <==> forall k: nat :: k < |s| ==> !p(s[k]))
            && (forall k: nat :: r == One(k) <==> k < |s| && p(s[k]) && forall j: nat :: j < |s| && p(s[j]) ==> j == k)
            && (r == Several <==> exists i: nat, j: nat :: i < j < |s| && p(s[i]) && p(s[j]))
  {
    FindFromIsFirst(s, p, 0);
    var first := FindFrom(s, p, 0);
    if first.Some? {
      FindFromIsFirst(s, p, first.value + 1);
    }
  }

  function Below(n: nat): (numbers: set<nat>)
    ensures forall x: nat :: x in numbers <==> x < n
    ensures |numbers| == n
  {
    if n == 0 then {} else Below(n - 1) + {n - 1}
  }

  predicate Distinct(m: seq<nat>) {
    forall i: nat, j: nat :: i < j < |m| ==> m[i] != m[j]
  }

  function Members(m: seq<nat>): set<nat> {
    set x | x in m
  }

  lemma {:induction false} SizeOfMembers(m: seq<nat>)
    requires Distinct(m)
    ensures |Members(m)| == |m|
  {
    if m != [] {
      var front, last := m[..|m| - 1], m[|m| - 1];
      SizeOfMembers(front);
      assert m == front + [last];
      assert Members(m) == Members(front) + {last};
      assert last !in front;
    }
  }

  lemma Singleton<T>(s: set<T>, x: T)
    requires |s| == 1 && x in s
    ensures s == {x}
  {
    assert |s - {x}| == 0;
  }

  lemma FullSubset<T>(part: set<T>, whole: set<T>)
    requires part <= whole && |part| == |whole|
    ensures part == whole
  {
    assert whole == part + (whole - part);
    assert |whole| == |part| + |whole - part|;
  }

  /** Counting: `n` distinct numbers below `n` are all of them. */
  lemma DistinctCoversAll(m: seq<nat>, n: nat)
    requires |m| == n && (forall i: nat :: i < n ==> m[i] < n)
    requires Distinct(m)
    ensures forall k: nat :: k < n ==> k in m
  {
    SizeOfMembers(m);
    FullSubset(Members(m), Below(n));
    forall k: nat | k < n ensures k in m {
      assert k in Members(m);
    }
  }

  // ---------------------------------------------------------------- picked positions

  /** The tags of the picked positions before `n`. */
  function PickedTags(tags: seq<U32>, picked: seq<bool>, n: nat): set<U32>
    requires n <= |tags| == |picked|
  {
    if n == 0 then {} else PickedTags(tags, picked, n - 1) + (if picked[n - 1] then {tags[n - 1]} else {})
  }

  lemma {:induction false} PickedTagsMembers(tags: seq<U32>, picked: seq<bool>, n: nat)
    requires n <= |tags| == |picked|
    ensures forall k: nat :: k < n && picked[k] ==> tags[k] in PickedTags(tags, picked, n)
    ensures forall tag <- PickedTags(tags, picked, n) :: exists k: nat :: k < n && picked[k] && tags[k] == tag
  {
    if n > 0 {
      PickedTagsMembers(tags, picked, n - 1);
    }
  }

  predicate DistinctTags(tags: seq<U32>, picked: seq<bool>)
    requires |tags| == |picked|
  {
    forall i: nat, j: nat :: i < j < |tags| && picked[i] && picked[j] ==> tags[i] != tags[j]
  }

  /** Position `k` is picked and no other is. */
  predicate OnlyPicked(picked: seq<bool>, k: nat) {
    k < |picked| && picked[k] && forall j: nat :: j < |picked| && picked[j] ==> j == k
  }

  /** A single tag comes from a single position. */
  lemma OneTagOnePicked(tags: seq<U32>, picked: seq<bool>, tag: U32) returns (k: nat)
    requires |tags| == |picked| && DistinctTags(tags, picked)
    requires PickedTags(tags, picked, |tags|) == {tag}
    ensures OnlyPicked(picked, k) && tags[k] == tag
  {
    PickedTagsMembers(tags, picked, |tags|);
    assert tag in PickedTags(tags, picked, |tags|);
    k :| k < |tags| && picked[k] && tags[k] == tag;
    forall j: nat | j < |picked| && picked[j] ensures j == k {
      assert tags[j] in PickedTags(tags, picked, |tags|);
    }
  }

  lemma OnePickedOneTag(tags: seq<U32>, picked: seq<bool>, k: nat)
    requires |tags| == |picked| && OnlyPicked(picked, k)
    ensures PickedTags(tags, picked, |tags|) == {tags[k]}
  {
    PickedTagsMembers(tags, picked, |tags|);
  }

  /** When picked positions have different tags, one tag means one position. */
  lemma OneTagMeansOnePicked(tags: seq<U32>, picked: seq<bool>, tag: U32)
    requires |tags| == |picked| && DistinctTags(tags, picked)
    ensures var s := PickedTags(tags, picked, |tags|);
            |s| == 1 && tag in s <==> exists k: nat :: OnlyPicked(picked, k) && tags[k] == tag
  {
    var s := PickedTags(tags, picked, |tags|);
    if |s| == 1 && tag in s {
      Singleton(s, tag);
      var k := OneTagOnePicked(tags, picked, tag);
    }
    if k: nat :| OnlyPicked(picked, k) && tags[k] == tag {
      OnePickedOneTag(tags, picked, k);
    }
  }
}
