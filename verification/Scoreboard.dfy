/** The scoreboard of endpoints over a whole run: one entry a label, with exact sums, fastest mean first. */
module Scoreboard {
  import opened Words
  import opened Lookup
  import opened Sums
  import opened Sorting

  /** One endpoint's answer to one broadcast. */
  datatype BlastResult = BlastResult(endpoint: string, accepted: bool, latencyMs: nat)

  datatype EndpointStats = EndpointStats(endpoint: string, accepted: nat, attempts: nat, totalLatencyMs: nat) {
    function MeanLatencyMs(): nat {
      if attempts == 0 then 0 else totalLatencyMs / attempts
    }
  }

  // -------------------------------------------------------------------------- what an entry should say

  function AttemptBy(endpoint: string): BlastResult -> nat {
    (result: BlastResult) => if result.endpoint == endpoint then 1 else 0
  }

  function AcceptedBy(endpoint: string): BlastResult -> nat {
    (result: BlastResult) => if result.endpoint == endpoint && result.accepted then 1 else 0
  }

  function LatencyOf(endpoint: string): BlastResult -> nat {
    (result: BlastResult) => if result.endpoint == endpoint then result.latencyMs else 0
  }

  /** The exact sums over all results of one endpoint. */
  function EntryOf(results: seq<BlastResult>, endpoint: string): EndpointStats {
    EndpointStats(
      endpoint, SumOver(AcceptedBy(endpoint), results), SumOver(AttemptBy(endpoint), results), SumOver(LatencyOf(endpoint), results))
  }

  function Flat(runs: seq<seq<BlastResult>>): seq<BlastResult> {
    if runs == [] then [] else Flat(runs[..|runs| - 1]) + runs[|runs| - 1]
  }

  predicate Appears(results: seq<BlastResult>, endpoint: string) {
    exists k: nat :: k < |results| && results[k].endpoint == endpoint
  }

  predicate UniqueEndpoints(stats: seq<EndpointStats>) {
    forall i: nat, j: nat :: i < j < |stats| ==> stats[i].endpoint != stats[j].endpoint
  }

  predicate Lists(stats: seq<EndpointStats>, endpoint: string) {
    exists i: nat :: i < |stats| && stats[i].endpoint == endpoint
  }

  /** One entry for each endpoint that appears, and each entry with the exact sums. */
  ghost predicate Counts(stats: seq<EndpointStats>, results: seq<BlastResult>) {
    && UniqueEndpoints(stats)
    && (forall i: nat :: i < |stats| ==> stats[i] == EntryOf(results, stats[i].endpoint))
    && (forall endpoint :: Lists(stats, endpoint) <==> Appears(results, endpoint))
  }

  // -------------------------------------------------------------------------- counting

  function Bumped(entry: EndpointStats, result: BlastResult): EndpointStats {
    entry.(
      attempts := entry.attempts + 1, totalLatencyMs := entry.totalLatencyMs + result.latencyMs,
      accepted := entry.accepted + if result.accepted then 1 else 0)
  }

  lemma OneMoreResult(results: seq<BlastResult>, result: BlastResult, endpoint: string)
    ensures EntryOf(results + [result], endpoint) ==
            if endpoint == result.endpoint then Bumped(EntryOf(results, endpoint), result) else EntryOf(results, endpoint)
    ensures Appears(results + [result], endpoint) <==> Appears(results, endpoint) || endpoint == result.endpoint
  {
    var more := results + [result];
    assert more[..|results|] == results;
    assert more[|results|] == result;
    if Appears(results, endpoint) {
      var k: nat :| k < |results| && results[k].endpoint == endpoint;
      assert more[k].endpoint == endpoint;
    }
  }

  lemma {:induction false} NothingCounted(results: seq<BlastResult>, endpoint: string)
    requires !Appears(results, endpoint)
    ensures EntryOf(results, endpoint) == EndpointStats(endpoint, 0, 0, 0)
  {
    if results != [] {
      var front := results[..|results| - 1];
      assert forall k: nat :: k < |front| ==> front[k] == results[k];
      NothingCounted(front, endpoint);
    }
  }

  lemma ListsUpdated(stats: seq<EndpointStats>, i: nat, entry: EndpointStats, endpoint: string)
    requires i < |stats| && entry.endpoint == stats[i].endpoint
    ensures Lists(stats[i := entry], endpoint) <==> Lists(stats, endpoint)
  {
    var next := stats[i := entry];
    if Lists(stats, endpoint) {
      var k: nat :| k < |stats| && stats[k].endpoint == endpoint;
      assert next[k].endpoint == endpoint;
    }
    if Lists(next, endpoint) {
      var k: nat :| k < |next| && next[k].endpoint == endpoint;
      assert stats[k].endpoint == endpoint;
    }
  }

  lemma CountsUpdated(stats: seq<EndpointStats>, results: seq<BlastResult>, result: BlastResult, i: nat)
    requires Counts(stats, results) && i < |stats| && stats[i].endpoint == result.endpoint
    ensures Counts(stats[i := Bumped(stats[i], result)], results + [result])
  {
    var next := stats[i := Bumped(stats[i], result)];
    forall k: nat | k < |next| ensures next[k] == EntryOf(results + [result], next[k].endpoint) {
      OneMoreResult(results, result, stats[k].endpoint);
    }
    forall endpoint ensures Lists(next, endpoint) <==> Appears(results + [result], endpoint) {
      OneMoreResult(results, result, endpoint);
      ListsUpdated(stats, i, next[i], endpoint);
    }
  }

  lemma CountsAppended(stats: seq<EndpointStats>, results: seq<BlastResult>, result: BlastResult)
    requires Counts(stats, results) && !Lists(stats, result.endpoint)
    ensures Counts(stats + [Bumped(EndpointStats(result.endpoint, 0, 0, 0), result)], results + [result])
  {
    var next := stats + [Bumped(EndpointStats(result.endpoint, 0, 0, 0), result)];
    NothingCounted(results, result.endpoint);
    forall k: nat | k < |next| ensures next[k] == EntryOf(results + [result], next[k].endpoint) {
      OneMoreResult(results, result, next[k].endpoint);
    }
    forall endpoint ensures Lists(next, endpoint) <==> Appears(results + [result], endpoint) {
      OneMoreResult(results, result, endpoint);
      ListsAppended(stats, next[|stats|], endpoint);
    }
  }

  lemma ListsAppended(stats: seq<EndpointStats>, entry: EndpointStats, endpoint: string)
    ensures Lists(stats + [entry], endpoint) <==> Lists(stats, endpoint) || entry.endpoint == endpoint
  {
    var next := stats + [entry];
    if Lists(stats, endpoint) {
      var i: nat :| i < |stats| && stats[i].endpoint == endpoint;
      assert next[i].endpoint == endpoint;
    }
    assert next[|stats|] == entry;
  }

  /** Counts one result into its entry, which is created on first sight. */
  method Record(stats: seq<EndpointStats>, result: BlastResult, ghost results: seq<BlastResult>) returns (next: seq<EndpointStats>)
    requires Counts(stats, results)
    ensures Counts(next, results + [result])
  {
    FindFromIsFirst(stats, (entry: EndpointStats) => entry.endpoint == result.endpoint, 0);
    var found := FindFrom(stats, (entry: EndpointStats) => entry.endpoint == result.endpoint, 0);
    if found.Some? {
      CountsUpdated(stats, results, result, found.value);
      next := stats[found.value := Bumped(stats[found.value], result)];
    } else {
      CountsAppended(stats, results, result);
      next := stats + [Bumped(EndpointStats(result.endpoint, 0, 0, 0), result)];
    }
  }

  /** The key that the scoreboard is sorted by. */
  function Mean(): EndpointStats -> nat {
    (entry: EndpointStats) => entry.MeanLatencyMs()
  }

  // -------------------------------------------------------------------------- the scoreboard

  lemma CountsSurvivesPermutation(stats: seq<EndpointStats>, sorted: seq<EndpointStats>, results: seq<BlastResult>)
    requires Counts(stats, results) && multiset(sorted) == multiset(stats)
    ensures Counts(sorted, results)
  {
    forall i: nat | i < |sorted| ensures sorted[i] in stats {
      assert sorted[i] in multiset(stats);
    }
    forall i: nat | i < |stats| ensures stats[i] in sorted {
      assert stats[i] in multiset(sorted);
    }
    forall i: nat, j: nat | i < j < |sorted| ensures sorted[i].endpoint != sorted[j].endpoint {
      if sorted[i].endpoint == sorted[j].endpoint {
        TwiceThere(sorted, i, j);
        var a: nat :| a < |stats| && stats[a] == sorted[i];
        OnlyOnce(stats, a);
      }
    }
    forall endpoint ensures Lists(sorted, endpoint) <==> Lists(stats, endpoint) {
    }
  }

  /** Entries of one endpoint are equal here, so two of them would be one entry that occurs twice. */
  lemma TwiceThere(s: seq<EndpointStats>, i: nat, j: nat)
    requires i < j < |s| && s[i] == s[j]
    ensures multiset(s)[s[i]] >= 2
  {
    assert s == s[..i] + [s[i]] + s[i + 1..j] + [s[j]] + s[j + 1..];
  }

  lemma OnlyOnce(s: seq<EndpointStats>, a: nat)
    requires a < |s| && UniqueEndpoints(s)
    ensures multiset(s)[s[a]] == 1
  {
    assert s == s[..a] + [s[a]] + s[a + 1..];
    assert s[a] !in s[..a] && s[a] !in s[a + 1..];
  }

  function Attempts(): EndpointStats -> nat {
    (entry: EndpointStats) => entry.attempts
  }

  /** The attempts of all entries together are all the results there are. */
  lemma {:induction false} TotalAttempts(stats: seq<EndpointStats>, results: seq<BlastResult>)
    requires UniqueEndpoints(stats)
    requires forall k: nat :: k < |results| ==> Lists(stats, results[k].endpoint)
    requires forall i: nat :: i < |stats| ==> stats[i].attempts == SumOver(AttemptBy(stats[i].endpoint), results)
    ensures SumOver(Attempts(), stats) == |results|
    decreases |results|
  {
    if results == [] {
      NoAttempts(stats);
    } else {
      var front, last := results[..|results| - 1], results[|results| - 1];
      var i: nat :| i < |stats| && stats[i].endpoint == last.endpoint;
      assert SumOver(AttemptBy(stats[i].endpoint), results) >= 1;
      var fewer := stats[i := stats[i].(attempts := stats[i].attempts - 1)];
      assert forall k: nat :: k < |stats| ==> fewer[k].endpoint == stats[k].endpoint;
      forall k: nat | k < |front| ensures Lists(fewer, front[k].endpoint) {
        assert Lists(stats, results[k].endpoint);
        var a: nat :| a < |stats| && stats[a].endpoint == results[k].endpoint;
        assert fewer[a].endpoint == front[k].endpoint;
      }
      TotalAttempts(fewer, front);
      SumOfUpdate(Attempts(), stats, i, fewer[i]);
    }
  }

  lemma {:induction false} NoAttempts(stats: seq<EndpointStats>)
    requires forall i: nat :: i < |stats| ==> stats[i].attempts == 0
    ensures SumOver(Attempts(), stats) == 0
  {
    if stats != [] {
      NoAttempts(stats[..|stats| - 1]);
    }
  }

  /**
   * Over all runs together: one entry for each endpoint that appears, each with the exact number of attempts
   * and acceptances and the exact total latency; all attempts together are all results; fastest mean first.
   */
  method EndpointScoreboard(runs: seq<seq<BlastResult>>) returns (stats: seq<EndpointStats>)
    ensures Counts(stats, Flat(runs)) && Sorted(Mean(), stats)
    ensures SumOver(Attempts(), stats) == |Flat(runs)|
  {
    stats := [];
    ghost var seen: seq<BlastResult> := [];
    for i := 0 to |runs|
      invariant seen == Flat(runs[..i]) && Counts(stats, seen)
    {
      for j := 0 to |runs[i]|
        invariant seen == Flat(runs[..i]) + runs[i][..j] && Counts(stats, seen)
      {
        stats := Record(stats, runs[i][j], seen);
        seen := seen + [runs[i][j]];
        assert runs[i][..j + 1] == runs[i][..j] + [runs[i][j]];
      }
      assert runs[..i + 1][..i] == runs[..i] && runs[i][..|runs[i]|] == runs[i];
    }
    assert runs[..|runs|] == runs;
    ghost var unsorted := stats;
    stats := SortBy(Mean(), stats);
    SortKeepsEntries(Mean(), unsorted);
    SortSorts(Mean(), unsorted);
    CountsSurvivesPermutation(unsorted, stats, seen);
    forall k: nat | k < |seen| ensures Lists(stats, seen[k].endpoint) {
      assert Appears(seen, seen[k].endpoint);
    }
    TotalAttempts(stats, seen);
  }
}
