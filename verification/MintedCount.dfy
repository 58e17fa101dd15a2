/** The loose counter of minted units, and its agreement with the strict decoder on every receipt that one accepts. */
module MintedCount {
  import opened Words
  import opened Abi
  import opened Transactions
  import opened SponsoredBatch
  import opened Outcomes
  import opened Sums

  type Quantities = map<Address, U64>

  function QuantityOf(quantities: Quantities, wallet: Address): U64 {
    if wallet in quantities then quantities[wallet] else 0
  }

  /** The success word of a log that the counter looks at. */
  function SuccessWord(batch: Batch, log: Log): Option<seq<Byte>> {
    if IsRelevant(batch, log) && |log.data| >= 64 then Some(log.data[32..64]) else None
  }

  predicate AnySet(bytes: seq<Byte>) {
    exists i: nat :: i < |bytes| && bytes[i] != 0
  }

  /** The wallet in the low bytes of the fourth topic, the zero address without one. */
  function LooseWallet(log: Log): Address {
    if |log.topics| > 3 then Address(log.topics[3] % ADDRESS_RANGE) else ZERO_ADDRESS
  }

  function UnitsOf(batch: Batch, quantities: Quantities, log: Log): nat {
    var word := SuccessWord(batch, log);
    if word.Some? && AnySet(word.value) then QuantityOf(quantities, LooseWallet(log)) else 0
  }

  function FailureOf(batch: Batch, log: Log): nat {
    var word := SuccessWord(batch, log);
    if word.Some? && !AnySet(word.value) then 1 else 0
  }

  function UnitsCounter(batch: Batch, quantities: Quantities): Log -> nat {
    log => UnitsOf(batch, quantities, log)
  }

  function FailureCounter(batch: Batch): Log -> nat {
    log => FailureOf(batch, log)
  }

  const U64_RANGE: nat := 0x1_0000_0000_0000_0000

  /** Adds up units in a word that wraps around, and counts failures. */
  method CountMintedUnits(batch: Batch, logs: seq<Log>, quantities: Quantities) returns (units: U64, failed: nat)
    ensures units == SumOver(UnitsCounter(batch, quantities), logs) % U64_RANGE
    ensures failed == SumOver(FailureCounter(batch), logs)
  {
    ghost var unitsOf, failureOf := UnitsCounter(batch, quantities), FailureCounter(batch);
    units, failed := 0, 0;
    for k := 0 to |logs|
      invariant units == SumOver(unitsOf, logs[..k]) % U64_RANGE
      invariant failed == SumOver(failureOf, logs[..k])
    {
      assert logs[..k + 1][..k] == logs[..k];
      var word := SuccessWord(batch, logs[k]);
      if word.Some? {
        if AnySet(word.value) {
          var quantity := QuantityOf(quantities, LooseWallet(logs[k]));
          WrappedSum(SumOver(unitsOf, logs[..k]), quantity);
          units := (units + quantity) % U64_RANGE;
        } else {
          failed := failed + 1;
        }
      }
    }
    assert logs[..|logs|] == logs;
  }

  lemma WrappedSum(sum: nat, more: nat)
    ensures (sum % U64_RANGE + more) % U64_RANGE == (sum + more) % U64_RANGE
  {
    var q, r := sum / U64_RANGE, sum % U64_RANGE;
    assert sum + more == q * U64_RANGE + (r + more);
  }

  // -------------------------------------------------------------------------- agreement with the decoder

  function SuccessfulUnits(quantities: Quantities, outcomes: seq<Outcome>): nat {
    if outcomes == [] then 0
    else
      var last := outcomes[|outcomes| - 1];
      SuccessfulUnits(quantities, outcomes[..|outcomes| - 1]) + if last.success then QuantityOf(quantities, last.wallet) else 0
  }

  function Failures(outcomes: seq<Outcome>): nat {
    if outcomes == [] then 0
    else Failures(outcomes[..|outcomes| - 1]) + if outcomes[|outcomes| - 1].success then 0 else 1
  }

  lemma {:induction false} OnlyRelevantCount(batch: Batch, f: Log -> nat, logs: seq<Log>)
    requires forall log: Log :: !IsRelevant(batch, log) ==> f(log) == 0
    ensures SumOver(f, logs) == SumOver(f, Relevant(batch, logs))
  {
    if logs != [] {
      var front, last := logs[..|logs| - 1], logs[|logs| - 1];
      OnlyRelevantCount(batch, f, front);
      SumSplit(f, Relevant(batch, front), if IsRelevant(batch, last) then [last] else []);
    }
  }

  lemma WordIsSet(v: nat)
    requires v <= 1
    ensures AnySet(Word(v)) <==> v == 1
  {
    if v == 0 {
      Zeros(WORD_BYTES);
    } else {
      LastByte(v, WORD_BYTES);
    }
  }

  lemma LooseWalletIsReported(batch: Batch, i: nat, outcome: Outcome)
    requires outcome.wallet.id < ADDRESS_RANGE
    ensures LooseWallet(Report(batch, i, outcome)) == outcome.wallet
  {
  }

  /** The counter reads a report the way the decoder does. */
  lemma CountsReport(batch: Batch, quantities: Quantities, op: Operation, i: nat, outcome: Outcome)
    requires IsOutcome(op, outcome)
    ensures var report := Report(batch, i, outcome);
            && UnitsOf(batch, quantities, report) == (if outcome.success then QuantityOf(quantities, outcome.wallet) else 0)
            && FailureOf(batch, report) == (if outcome.success then 0 else 1)
  {
    var report, code := Report(batch, i, outcome), if outcome.success then 1 else 0;
    assert report.data[32..64] == Word(code);
    assert SuccessWord(batch, report) == Some(Word(code));
    WordIsSet(code);
    LooseWalletIsReported(batch, i, outcome);
  }

  lemma {:induction false} CountsReports(batch: Batch, quantities: Quantities, operations: seq<Operation>, outcomes: seq<Outcome>)
    requires AreOutcomes(operations, outcomes)
    ensures SumOver(UnitsCounter(batch, quantities), Reports(batch, outcomes)) == SuccessfulUnits(quantities, outcomes)
    ensures SumOver(FailureCounter(batch), Reports(batch, outcomes)) == Failures(outcomes)
  {
    if outcomes != [] {
      var n := |outcomes| - 1;
      assert AreOutcomes(operations[..n], outcomes[..n]);
      CountsReports(batch, quantities, operations[..n], outcomes[..n]);
      CountsReport(batch, quantities, operations[n], n, outcomes[n]);
      var reports := Reports(batch, outcomes);
      assert reports[..n] == Reports(batch, outcomes[..n]);
      assert reports[n] == Report(batch, n, outcomes[n]);
    }
  }

  /**
   * On every receipt that the strict decoder accepts, the counter's sums are the units of the successful
   * outcomes and the number of the failed ones; its result is exact when those units fit a 64-bit word.
   */
  lemma CountersAgree(batch: Batch, logs: seq<Log>, quantities: Quantities, operations: seq<Operation>, outcomes: seq<Outcome>)
    requires IsDecoding(batch, logs, operations, outcomes)
    ensures SumOver(UnitsCounter(batch, quantities), logs) == SuccessfulUnits(quantities, outcomes)
    ensures SumOver(FailureCounter(batch), logs) == Failures(outcomes)
  {
    var unitsOf, failureOf := UnitsCounter(batch, quantities), FailureCounter(batch);
    OnlyRelevantCount(batch, unitsOf, logs);
    OnlyRelevantCount(batch, failureOf, logs);
    SumOfPermutation(unitsOf, Relevant(batch, logs), Reports(batch, outcomes));
    SumOfPermutation(failureOf, Relevant(batch, logs), Reports(batch, outcomes));
    CountsReports(batch, quantities, operations, outcomes);
  }

  lemma ExactUntilTooLarge(sum: nat)
    ensures sum % U64_RANGE == sum <==> sum <= MAX_U64
  {
  }

  /** Reading the same receipt both ways gives the same answer, up to the wrap-around of the unit count. */
  method ReadBothWays(batch: Batch, logs: seq<Log>, operations: seq<Operation>, quantities: Quantities)
    returns (decoded: Option<seq<Outcome>>, units: U64, failed: nat)
    requires |operations| <= MAX_U64
    ensures decoded.Some? ==> failed == Failures(decoded.value) && units == SuccessfulUnits(quantities, decoded.value) % U64_RANGE
    ensures decoded.Some? ==>
              (units == SuccessfulUnits(quantities, decoded.value) <==> SuccessfulUnits(quantities, decoded.value) <= MAX_U64)
  {
    decoded := DecodeSponsoredOutcomes(batch, logs, operations);
    units, failed := CountMintedUnits(batch, logs, quantities);
    if decoded.Some? {
      CountersAgree(batch, logs, quantities, operations, decoded.value);
      ExactUntilTooLarge(SuccessfulUnits(quantities, decoded.value));
    }
  }

  // -------------------------------------------------------------------------- units of the operations

  /** What the operations ordered, over those that succeeded. */
  function OrderedUnits(operations: seq<Operation>, outcomes: seq<Outcome>): nat
    requires |operations| == |outcomes|
  {
    if outcomes == [] then 0
    else
      var n := |outcomes| - 1;
      OrderedUnits(operations[..n], outcomes[..n]) + if outcomes[n].success then operations[n].expectedUnits else 0
  }

  /** Each operation's wallet is looked up with the operation's own units. */
  predicate LooksUpOrders(quantities: Quantities, operations: seq<Operation>) {
    forall op <- operations :: QuantityOf(quantities, op.wallet) == op.expectedUnits
  }

  /** With such a map the units counted are the ordered units of the operations that succeeded. */
  lemma {:induction false} CountsOrders(quantities: Quantities, operations: seq<Operation>, outcomes: seq<Outcome>)
    requires AreOutcomes(operations, outcomes) && LooksUpOrders(quantities, operations)
    ensures SuccessfulUnits(quantities, outcomes) == OrderedUnits(operations, outcomes)
  {
    if outcomes != [] {
      var n := |outcomes| - 1;
      assert AreOutcomes(operations[..n], outcomes[..n]);
      CountsOrders(quantities, operations[..n], outcomes[..n]);
      assert IsOutcome(operations[n], outcomes[n]);
      assert QuantityOf(quantities, operations[n].wallet) == operations[n].expectedUnits;
    }
  }

  /** The map that the path builds: one entry for each wallet, the last one when a wallet is named again. */
  function QuantitiesOf(operations: seq<Operation>): Quantities
    requires forall op <- operations :: op.expectedUnits <= MAX_U64
  {
    if operations == [] then map[]
    else
      var last := operations[|operations| - 1];
      QuantitiesOf(operations[..|operations| - 1])[last.wallet := last.expectedUnits]
  }

  /** A wallet that is named again orders as much again. */
  predicate RepeatsAgree(operations: seq<Operation>) {
    forall i: nat, j: nat :: i < j < |operations| && operations[i].wallet == operations[j].wallet ==>
      operations[i].expectedUnits == operations[j].expectedUnits
  }

  lemma {:induction false} MapLooksUpOrders(operations: seq<Operation>)
    requires RepeatsAgree(operations) && forall op <- operations :: op.expectedUnits <= MAX_U64
    ensures LooksUpOrders(QuantitiesOf(operations), operations)
  {
    if operations != [] {
      var n := |operations| - 1;
      MapLooksUpOrders(operations[..n]);
      forall i: nat | i <= n ensures QuantityOf(QuantitiesOf(operations), operations[i].wallet) == operations[i].expectedUnits {
        if i < n {
          assert operations[..n][i] in operations[..n];
        }
      }
    }
  }

  /**
   * From the receipt to the report: whenever the strict decoder accepts a receipt, the counter's sum over its
   * logs is what the successful operations ordered, also when a wallet is named more than once.
   */
  lemma {:induction false} CountIsOrdered(batch: Batch, logs: seq<Log>, operations: seq<Operation>, outcomes: seq<Outcome>)
    requires IsDecoding(batch, logs, operations, outcomes)
    requires RepeatsAgree(operations) && forall op <- operations :: op.expectedUnits <= MAX_U64
    ensures SumOver(UnitsCounter(batch, QuantitiesOf(operations)), logs) == OrderedUnits(operations, outcomes)
  {
    MapLooksUpOrders(operations);
    CountersAgree(batch, logs, QuantitiesOf(operations), operations, outcomes);
    CountsOrders(QuantitiesOf(operations), operations, outcomes);
  }
}
