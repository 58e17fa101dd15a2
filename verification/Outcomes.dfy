/** Reading a batch receipt: the strict decoder of per-wallet results, and the loose counter of minted units. */
module Outcomes {
  import opened Words
  import opened Abi
  import opened Transactions
  import opened Slots
  import opened SponsoredBatch

  datatype Log = Log(emitter: Address, topics: seq<nat>, data: seq<Byte>)

  /** The executor's event: its signature hash, the executor, the batch and the sponsor. */
  datatype Batch = Batch(event: nat, executor: Address, batchId: nat, sponsor: Address)

  datatype Outcome = Outcome(wallet: Address, success: bool, selector: seq<Byte>)

  function TopicAddress(topic: nat): Option<Address> {
    if topic < ADDRESS_RANGE then Some(Address(topic)) else None
  }

  // -------------------------------------------------------------------------- one log

  predicate IsRelevant(batch: Batch, log: Log) {
    log.emitter == batch.executor && log.topics != [] && log.topics[0] == batch.event
  }

  function Relevant(batch: Batch, logs: seq<Log>): seq<Log> {
    if logs == [] then []
    else
      var last := logs[|logs| - 1];
      Relevant(batch, logs[..|logs| - 1]) + (if IsRelevant(batch, last) then [last] else [])
  }

  /** What an outcome can be: the operation's wallet, and no error selector with a success. */
  predicate IsOutcome(op: Operation, outcome: Outcome) {
    && outcome.wallet == op.wallet && outcome.wallet.id < ADDRESS_RANGE
    && |outcome.selector| == 4 && (outcome.success ==> outcome.selector == ZeroBytes(4))
  }

  /** The one log that reports this outcome of operation `i`. */
  function Report(batch: Batch, i: nat, outcome: Outcome): Log
  {
    Log(
      batch.executor, [batch.event, batch.batchId, batch.sponsor.id, outcome.wallet.id],
      Word(i) + Word(if outcome.success then 1 else 0) + outcome.selector + ZeroBytes(28))
  }

  function DecodeReport(batch: Batch, operations: seq<Operation>, log: Log): Option<(nat, Outcome)> {
    if |log.topics| != 4 || log.topics[1] != batch.batchId || log.topics[2] != batch.sponsor.id || |log.data| != 96 then None
    else
      var index, success, wallet := AbiU64(log.data[..32]), AbiU64(log.data[32..64]), TopicAddress(log.topics[3]);
      if index.None? || success.None? || success.value > 1 || wallet.None? then None
      else if index.value >= |operations| || operations[index.value].wallet != wallet.value then None
      else if log.data[68..] != ZeroBytes(28) then None
      else if success.value == 1 && log.data[64..68] != ZeroBytes(4) then None
      else Some((index.value, Outcome(wallet.value, success.value == 1, log.data[64..68])))
  }

  lemma DecodedIsReport(batch: Batch, operations: seq<Operation>, log: Log, i: nat, outcome: Outcome)
    requires IsRelevant(batch, log) && |operations| <= MAX_U64
    requires DecodeReport(batch, operations, log) == Some((i, outcome))
    ensures i < |operations| && IsOutcome(operations[i], outcome) && log == Report(batch, i, outcome)
  {
    AbiU64IsExact(log.data[..32], i);
    AbiU64IsExact(log.data[32..64], if outcome.success then 1 else 0);
    assert log.topics == [log.topics[0], log.topics[1], log.topics[2], log.topics[3]];
    CutInFour(log.data, 32, 64, 68);
  }

  lemma ReportIsDecoded(batch: Batch, operations: seq<Operation>, i: nat, outcome: Outcome)
    requires i < |operations| <= MAX_U64 && IsOutcome(operations[i], outcome)
    ensures DecodeReport(batch, operations, Report(batch, i, outcome)) == Some((i, outcome))
  {
    var data, code := Report(batch, i, outcome).data, if outcome.success then 1 else 0;
    assert data[..32] == Word(i) && data[32..64] == Word(code);
    assert data[64..68] == outcome.selector && data[68..] == ZeroBytes(28);
    AbiU64IsExact(data[..32], i);
    AbiU64IsExact(data[32..64], code);
  }

  /** A relevant log is decoded exactly when it is the report of what it is decoded to. */
  lemma DecodeReportIsExact(batch: Batch, operations: seq<Operation>, log: Log, i: nat, outcome: Outcome)
    requires IsRelevant(batch, log) && |operations| <= MAX_U64
    ensures DecodeReport(batch, operations, log) == Some((i, outcome)) <==>
            i < |operations| && IsOutcome(operations[i], outcome) && log == Report(batch, i, outcome)
  {
    if DecodeReport(batch, operations, log) == Some((i, outcome)) {
      DecodedIsReport(batch, operations, log, i, outcome);
    } else if i < |operations| && IsOutcome(operations[i], outcome) {
      ReportIsDecoded(batch, operations, i, outcome);
    }
  }

  lemma ReportTellsItsIndex(batch: Batch, i: nat, first: Outcome, j: nat, second: Outcome)
    requires i <= MAX_U64 && j <= MAX_U64
    requires Report(batch, i, first) == Report(batch, j, second)
    ensures i == j
  {
    AbiU64IsExact(Word(i), i);
    AbiU64IsExact(Word(j), j);
    assert Report(batch, i, first).data[..32] == Word(i);
    assert Report(batch, j, second).data[..32] == Word(j);
  }

  // -------------------------------------------------------------------------- the strict decoder

  ghost predicate AreOutcomes(operations: seq<Operation>, outcomes: seq<Outcome>) {
    |outcomes| == |operations| && forall i: nat :: i < |operations| ==> IsOutcome(operations[i], outcomes[i])
  }

  function Reports(batch: Batch, outcomes: seq<Outcome>): (reports: seq<Log>)
    ensures |reports| == |outcomes| && forall i: nat :: i < |outcomes| ==> reports[i] == Report(batch, i, outcomes[i])
  {
    seq(|outcomes|, i requires 0 <= i < |outcomes| => Report(batch, i, outcomes[i]))
  }

  /** The executor's logs are, in some order, exactly one report for each operation: these ones. */
  ghost predicate IsDecoding(batch: Batch, logs: seq<Log>, operations: seq<Operation>, outcomes: seq<Outcome>) {
    AreOutcomes(operations, outcomes) && multiset(Relevant(batch, logs)) == multiset(Reports(batch, outcomes))
  }

  ghost predicate Undecodable(batch: Batch, logs: seq<Log>, operations: seq<Operation>) {
    forall outcomes :: !IsDecoding(batch, logs, operations, outcomes)
  }

  lemma DistinctOccursOnce<T>(s: seq<T>, i: nat)
    requires i < |s| && forall j: nat :: j < |s| && j != i ==> s[j] != s[i]
    ensures multiset(s)[s[i]] == 1
  {
    assert s == s[..i] + [s[i]] + s[i + 1..];
    assert multiset(s) == multiset(s[..i]) + multiset{s[i]} + multiset(s[i + 1..]);
  }

  lemma OneReportEach(batch: Batch, outcomes: seq<Outcome>, i: nat)
    requires i < |outcomes| <= MAX_U64
    ensures multiset(Reports(batch, outcomes))[Report(batch, i, outcomes[i])] == 1
  {
    var reports := Reports(batch, outcomes);
    forall j: nat | j < |reports| && j != i ensures reports[j] != reports[i] {
      if reports[j] == reports[i] {
        ReportTellsItsIndex(batch, i, outcomes[i], j, outcomes[j]);
      }
    }
    DistinctOccursOnce(reports, i);
  }

  lemma {:induction false} RelevantPrefix(batch: Batch, logs: seq<Log>, k: nat)
    requires k <= |logs|
    ensures multiset(Relevant(batch, logs[..k])) <= multiset(Relevant(batch, logs))
    decreases |logs|
  {
    if k < |logs| {
      RelevantPrefix(batch, logs[..|logs| - 1], k);
      assert logs[..|logs| - 1][..k] == logs[..k];
    } else {
      assert logs[..k] == logs;
    }
  }

  lemma RelevantNext(batch: Batch, logs: seq<Log>, k: nat)
    requires k < |logs|
    ensures Relevant(batch, logs[..k + 1]) == Relevant(batch, logs[..k]) + (if IsRelevant(batch, logs[k]) then [logs[k]] else [])
  {
    assert logs[..k + 1][..k] == logs[..k];
  }

  /** In a decodable receipt a relevant log is the report of the outcome at its own index. */
  lemma RelevantIsReport(batch: Batch, logs: seq<Log>, operations: seq<Operation>, outcomes: seq<Outcome>, k: nat) returns (i: nat)
    requires IsDecoding(batch, logs, operations, outcomes) && |operations| <= MAX_U64
    requires k < |logs| && IsRelevant(batch, logs[k])
    ensures i < |operations| && logs[k] == Report(batch, i, outcomes[i])
    ensures DecodeReport(batch, operations, logs[k]) == Some((i, outcomes[i]))
  {
    RelevantNext(batch, logs, k);
    RelevantPrefix(batch, logs, k + 1);
    assert logs[k] in multiset(Relevant(batch, logs[..k + 1]));
    assert logs[k] in multiset(Reports(batch, outcomes));
    i :| i < |outcomes| && Reports(batch, outcomes)[i] == logs[k];
    DecodeReportIsExact(batch, operations, logs[k], i, outcomes[i]);
  }

  /** The report of each slot that is filled. */
  function ReportSlots(batch: Batch, slots: seq<Option<Outcome>>): (reports: seq<Option<Log>>)
    ensures |reports| == |slots|
    ensures forall i: nat :: i < |slots| ==>
              reports[i] == if slots[i].Some? then Some(Report(batch, i, slots[i].value)) else None
  {
    seq(|slots|, i requires 0 <= i < |slots| => if slots[i].Some? then Some(Report(batch, i, slots[i].value)) else None)
  }

  /** The slots report exactly these logs. */
  ghost predicate Filled(batch: Batch, slots: seq<Option<Outcome>>, logs: multiset<Log>) {
    HoldExactly(ReportSlots(batch, slots), logs)
  }

  lemma FillReport(batch: Batch, slots: seq<Option<Outcome>>, logs: multiset<Log>, i: nat, outcome: Outcome)
    requires Filled(batch, slots, logs) && i < |slots| && slots[i].None?
    ensures Filled(batch, slots[i := Some(outcome)], logs + multiset{Report(batch, i, outcome)})
  {
    var reports, report := ReportSlots(batch, slots), Report(batch, i, outcome);
    assert ReportSlots(batch, slots[i := Some(outcome)]) == reports[i := Some(report)];
    FilledHoldExactly(reports, logs, i, report);
  }

  lemma ReportIsFilled(batch: Batch, slots: seq<Option<Outcome>>, logs: multiset<Log>, i: nat)
    requires Filled(batch, slots, logs) && i < |slots| && slots[i].Some?
    ensures Report(batch, i, slots[i].value) in logs
  {
    SlotIsHeld(ReportSlots(batch, slots), i, |slots|);
  }

  lemma FilledByReport(batch: Batch, slots: seq<Option<Outcome>>, logs: multiset<Log>, log: Log) returns (i: nat)
    requires Filled(batch, slots, logs) && log in logs
    ensures i < |slots| && slots[i].Some? && log == Report(batch, i, slots[i].value)
  {
    i := HeldBySlot(ReportSlots(batch, slots), |slots|, log);
  }

  lemma AllFilled(batch: Batch, slots: seq<Option<Outcome>>, logs: multiset<Log>, outcomes: seq<Outcome>)
    requires |slots| == |outcomes| && forall i: nat :: i < |slots| ==> slots[i] == Some(outcomes[i])
    requires Filled(batch, slots, logs)
    ensures logs == multiset(Reports(batch, outcomes))
  {
    FullSlotsHoldExactly(ReportSlots(batch, slots), Reports(batch, outcomes), logs);
  }

  /** In a decodable receipt no index is reported twice. */
  lemma ReportedOnce(
    batch: Batch, logs: seq<Log>, operations: seq<Operation>, outcomes: seq<Outcome>, k: nat, i: nat, other: Outcome)
    requires IsDecoding(batch, logs, operations, outcomes) && |operations| <= MAX_U64 && i < |operations|
    requires k < |logs| && IsRelevant(batch, logs[k]) && logs[k] == Report(batch, i, outcomes[i])
    ensures Report(batch, i, other) !in multiset(Relevant(batch, logs[..k]))
  {
    var report := Report(batch, i, other);
    RelevantNext(batch, logs, k);
    RelevantPrefix(batch, logs, k);
    RelevantPrefix(batch, logs, k + 1);
    if report in multiset(Relevant(batch, logs[..k])) {
      var j := ReportedBySomeone(batch, outcomes, report);
      ReportTellsItsIndex(batch, i, other, j, outcomes[j]);
      assert multiset(Relevant(batch, logs[..k + 1]))[report] >= 2;
      OneReportEach(batch, outcomes, i);
    }
  }

  lemma ReportedBySomeone(batch: Batch, outcomes: seq<Outcome>, report: Log) returns (j: nat)
    requires report in multiset(Reports(batch, outcomes))
    ensures j < |outcomes| && report == Report(batch, j, outcomes[j])
  {
    j :| j < |outcomes| && Reports(batch, outcomes)[j] == report;
  }

  /** A log that does not decode, or a second report for a slot, rules out every decoding. */
  lemma BadLogIsUndecodable(batch: Batch, logs: seq<Log>, operations: seq<Operation>, slots: seq<Option<Outcome>>, k: nat)
    requires |slots| == |operations| <= MAX_U64 && k < |logs| && IsRelevant(batch, logs[k])
    requires Filled(batch, slots, multiset(Relevant(batch, logs[..k])))
    requires var decoded := DecodeReport(batch, operations, logs[k]);
             decoded.Some? ==> decoded.value.0 < |slots| && slots[decoded.value.0].Some?
    ensures Undecodable(batch, logs, operations)
  {
    forall outcomes ensures !IsDecoding(batch, logs, operations, outcomes) {
      if IsDecoding(batch, logs, operations, outcomes) {
        var i := RelevantIsReport(batch, logs, operations, outcomes, k);
        ReportIsFilled(batch, slots, multiset(Relevant(batch, logs[..k])), i);
        ReportedOnce(batch, logs, operations, outcomes, k, i, slots[i].value);
      }
    }
  }

  lemma EmptySlotIsUndecodable(batch: Batch, logs: seq<Log>, operations: seq<Operation>, slots: seq<Option<Outcome>>, i: nat)
    requires |slots| == |operations| <= MAX_U64 && i < |slots| && slots[i].None?
    requires Filled(batch, slots, multiset(Relevant(batch, logs)))
    ensures Undecodable(batch, logs, operations)
  {
    forall outcomes ensures !IsDecoding(batch, logs, operations, outcomes) {
      if IsDecoding(batch, logs, operations, outcomes) {
        var report := Report(batch, i, outcomes[i]);
        assert Reports(batch, outcomes)[i] == report;
        assert report in multiset(Reports(batch, outcomes));
        var j := FilledByReport(batch, slots, multiset(Relevant(batch, logs)), report);
        ReportTellsItsIndex(batch, i, outcomes[i], j, slots[j].value);
      }
    }
  }

  /** The slots hold outcomes of their operations, and their reports are the relevant logs before `k`. */
  ghost predicate FilledFrom(batch: Batch, logs: seq<Log>, operations: seq<Operation>, slots: seq<Option<Outcome>>, k: nat)
    requires k <= |logs|
  {
    && |slots| == |operations|
    && (forall i: nat :: i < |slots| && slots[i].Some? ==> IsOutcome(operations[i], slots[i].value))
    && Filled(batch, slots, multiset(Relevant(batch, logs[..k])))
  }

  lemma RecordKeepsFilled(
    batch: Batch, logs: seq<Log>, operations: seq<Operation>, slots: seq<Option<Outcome>>, k: nat, i: nat, outcome: Outcome)
    requires k < |logs| && FilledFrom(batch, logs, operations, slots, k) && |operations| <= MAX_U64
    requires IsRelevant(batch, logs[k]) && DecodeReport(batch, operations, logs[k]) == Some((i, outcome)) && slots[i].None?
    ensures FilledFrom(batch, logs, operations, slots[i := Some(outcome)], k + 1)
  {
    RelevantNext(batch, logs, k);
    DecodeReportIsExact(batch, operations, logs[k], i, outcome);
    FillReport(batch, slots, multiset(Relevant(batch, logs[..k])), i, outcome);
  }

  /** Stores the outcome that one log reports. */
  method RecordLog(batch: Batch, logs: seq<Log>, operations: seq<Operation>, slots: array<Option<Outcome>>, k: nat) returns (ok: bool)
    requires k < |logs| && FilledFrom(batch, logs, operations, slots[..], k) && |operations| <= MAX_U64
    modifies slots
    ensures ok ==> FilledFrom(batch, logs, operations, slots[..], k + 1)
    ensures !ok ==> Undecodable(batch, logs, operations)
  {
    if !IsRelevant(batch, logs[k]) {
      RelevantNext(batch, logs, k);
      return true;
    }
    var decoded := DecodeReport(batch, operations, logs[k]);
    if decoded.None? || slots[decoded.value.0].Some? {
      BadLogIsUndecodable(batch, logs, operations, slots[..], k);
      return false;
    }
    var (i, outcome) := decoded.value;
    RecordKeepsFilled(batch, logs, operations, slots[..], k, i, outcome);
    ghost var filled := slots[..][i := Some(outcome)];
    slots[i] := Some(outcome);
    assert slots[..] == filled;
    return true;
  }

  /** All slots, or nothing when one is empty. */
  method CollectSlots(batch: Batch, logs: seq<Log>, operations: seq<Operation>, slots: seq<Option<Outcome>>)
    returns (r: Option<seq<Outcome>>)
    requires FilledFrom(batch, logs, operations, slots, |logs|) && |operations| <= MAX_U64
    ensures r.Some? ==> IsDecoding(batch, logs, operations, r.value)
    ensures r.None? ==> Undecodable(batch, logs, operations)
  {
    assert logs[..|logs|] == logs;
    var outcomes: seq<Outcome> := [];
    for i := 0 to |slots|
      invariant |outcomes| == i && forall j: nat :: j < i ==> slots[j] == Some(outcomes[j])
    {
      if slots[i].None? {
        EmptySlotIsUndecodable(batch, logs, operations, slots, i);
        return None;
      }
      outcomes := outcomes + [slots[i].value];
    }
    AllFilled(batch, slots, multiset(Relevant(batch, logs)), outcomes);
    return Some(outcomes);
  }

  /**
   * Fills one slot for each log of the executor. Accepts exactly the receipts that hold one report for each
   * operation, in any order, and returns the reported outcomes in the order of the operations.
   */
  method DecodeSponsoredOutcomes(batch: Batch, logs: seq<Log>, operations: seq<Operation>) returns (r: Option<seq<Outcome>>)
    requires |operations| <= MAX_U64
    ensures r.Some? ==> IsDecoding(batch, logs, operations, r.value)
    ensures r.None? ==> Undecodable(batch, logs, operations)
  {
    var slots := new Option<Outcome>[|operations|](_ => None);
    EmptySlotsHoldExactly(ReportSlots(batch, slots[..]));
    for k := 0 to |logs|
      invariant FilledFrom(batch, logs, operations, slots[..], k)
    {
      var ok := RecordLog(batch, logs, operations, slots, k);
      if !ok {
        return None;
      }
    }
    r := CollectSlots(batch, logs, operations, slots[..]);
  }

  /** The decoding of a receipt does not depend on the order of its logs, and there is only one. */
  lemma OrderDoesNotMatter(
    batch: Batch, logs: seq<Log>, other: seq<Log>, operations: seq<Operation>, outcomes: seq<Outcome>, others: seq<Outcome>)
    requires multiset(logs) == multiset(other) && |operations| <= MAX_U64
    requires IsDecoding(batch, logs, operations, outcomes)
    ensures IsDecoding(batch, other, operations, others) <==> others == outcomes
  {
    RelevantOfPermutation(batch, logs, other);
    if IsDecoding(batch, other, operations, others) {
      forall i: nat | i < |operations| ensures others[i] == outcomes[i] {
        assert Reports(batch, others)[i] in multiset(Reports(batch, outcomes));
        var j: nat :| j < |outcomes| && Reports(batch, outcomes)[j] == Reports(batch, others)[i];
        ReportTellsItsIndex(batch, i, others[i], j, outcomes[j]);
        SameReportSameOutcome(batch, operations, i, others[i], outcomes[i]);
      }
    }
  }

  lemma SameReportSameOutcome(batch: Batch, operations: seq<Operation>, i: nat, first: Outcome, second: Outcome)
    requires i < |operations| <= MAX_U64 && IsOutcome(operations[i], first) && IsOutcome(operations[i], second)
    requires Report(batch, i, first) == Report(batch, i, second)
    ensures first == second
  {
    DecodeReportIsExact(batch, operations, Report(batch, i, first), i, first);
    DecodeReportIsExact(batch, operations, Report(batch, i, second), i, second);
  }

  lemma {:induction false} RelevantCounts(batch: Batch, logs: seq<Log>, log: Log)
    ensures multiset(Relevant(batch, logs))[log] == if IsRelevant(batch, log) then multiset(logs)[log] else 0
  {
    if logs != [] {
      RelevantCounts(batch, logs[..|logs| - 1], log);
      assert logs == logs[..|logs| - 1] + [logs[|logs| - 1]];
    }
  }

  lemma RelevantOfPermutation(batch: Batch, logs: seq<Log>, other: seq<Log>)
    requires multiset(logs) == multiset(other)
    ensures multiset(Relevant(batch, logs)) == multiset(Relevant(batch, other))
  {
    forall log ensures multiset(Relevant(batch, logs))[log] == multiset(Relevant(batch, other))[log] {
      RelevantCounts(batch, logs, log);
      RelevantCounts(batch, other, log);
    }
  }
}
