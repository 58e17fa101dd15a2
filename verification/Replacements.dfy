/** What every same-nonce replacement loop keeps, whichever way the node answers. */
module Replacements {
  import opened Words
  import opened FeePolicy
  import opened Transactions

  datatype FundsError =
    | Fee(fee: FeeError)
    | Signature(transaction: TransactionError)
    | Chain(chain: ChainError)
    | ArithmeticOverflow
    | InvalidPayerCode
    | PayerUnderfunded(requiredWei: U256)
    | NothingToWithdraw
    | WithdrawalGasUnstable(wallet: Address)
    | WalletCodeChanged(wallet: Address)
    | BroadcastUncertain(hash: Hash)
    | RateLimitExhausted(hash: Hash)
    | Pending(hash: Hash)
    | ReceiptUncertain(hash: Hash)
    | Reverted(blockNumber: U64)
    | PartialFailure(succeeded: nat, failed: nat)

  datatype TransferValue = Fixed(amount: U256) | Sweep(balance: U256)

  function MaximumGasCost(gasLimit: U64, maxFee: U256): Result<U256, FundsError> {
    if gasLimit * maxFee > MAX_U256 then Err(ArithmeticOverflow) else Ok(gasLimit * maxFee)
  }

  /** The value to send at a fee cap: a fixed amount, or all of a balance that the gas reserve leaves over. */
  function ValueAtFee(value: TransferValue, gasLimit: U64, maxFee: U256): (r: Result<U256, FundsError>)
    ensures value.Sweep? ==> (r.Ok? <==> gasLimit * maxFee < value.balance)
    ensures value.Sweep? && r.Ok? ==> r.value > 0 && r.value + gasLimit * maxFee == value.balance
  {
    match value
    case Fixed(amount) => Ok(amount)
    case Sweep(balance) =>
      match MaximumGasCost(gasLimit, maxFee)
      case Err(e) => Err(e)
      case Ok(reserve) => if balance <= reserve then Err(NothingToWithdraw) else Ok(balance - reserve)
  }

  /** What a node made of a broadcast: took it, throttled it, or left its fate unknown. */
  datatype Delivery = Delivered | Throttled | Uncertain

  datatype Attempt = Attempt(tx: Transaction, hash: Hash, delivery: Delivery)

  function DeliveryOf(reply: Result<Hash, ChainError>): Delivery {
    match reply
    case Ok(_) => Delivered
    case Err(RateLimited) => Throttled
    case Err(_) => Uncertain
  }

  function DeliveredCount(trace: seq<Attempt>): (n: nat)
    ensures n <= |trace|
    ensures n == 0 <==> forall attempt <- trace :: attempt.delivery != Delivered
  {
    if trace == [] then 0
    else
      var earlier, last := trace[..|trace| - 1], trace[|trace| - 1];
      assert trace == earlier + [last];
      DeliveredCount(earlier) + if last.delivery == Delivered then 1 else 0
  }

  /** The broadcasts that a node took, with the value each carries, oldest first. */
  function Accepted(trace: seq<Attempt>): (accepted: seq<(Hash, U256)>)
    ensures |accepted| == DeliveredCount(trace)
  {
    if trace == [] then []
    else
      var last := trace[|trace| - 1];
      Accepted(trace[..|trace| - 1]) + if last.delivery == Delivered then [(last.hash, last.tx.value)] else []
  }

  lemma TraceSnoc(trace: seq<Attempt>, last: Attempt)
    ensures DeliveredCount(trace + [last]) == DeliveredCount(trace) + if last.delivery == Delivered then 1 else 0
    ensures Accepted(trace + [last]) == Accepted(trace) + if last.delivery == Delivered then [(last.hash, last.tx.value)] else []
  {
    assert (trace + [last])[..|trace|] == trace;
  }

  /** Every accepted broadcast is one of the delivered attempts. */
  lemma {:induction false} AcceptedAttempt(trace: seq<Attempt>, k: nat) returns (i: nat)
    requires k < |Accepted(trace)|
    ensures i < |trace| && trace[i].delivery == Delivered && Accepted(trace)[k] == (trace[i].hash, trace[i].tx.value)
  {
    var last := |trace| - 1;
    if k < |Accepted(trace[..last])| {
      i := AcceptedAttempt(trace[..last], k);
    } else {
      i := last;
    }
  }

  /** Attempt `i` repeats `first` with the fees escalated once for every earlier broadcast that was delivered. */
  ghost predicate IsAttempt(first: Transaction, bump: U32, value: TransferValue, key: Key, trace: seq<Attempt>, i: nat)
    requires i < |trace|
  {
    var fees := Escalated(first.fees, bump, DeliveredCount(trace[..i]));
    && fees.Ok?
    && var amount := ValueAtFee(value, first.gasLimit, fees.value.maxFee);
    && amount.Ok?
    && trace[i].tx == first.(fees := fees.value, value := amount.value)
    && Sign(trace[i].tx, key) == Ok(trace[i].hash)
  }

  ghost predicate IsReplacementChain(first: Transaction, bump: U32, value: TransferValue, key: Key, trace: seq<Attempt>) {
    forall i: nat :: i < |trace| ==> IsAttempt(first, bump, value, key, trace, i)
  }

  lemma ChainSnoc(first: Transaction, bump: U32, value: TransferValue, key: Key, trace: seq<Attempt>, last: Attempt)
    requires IsReplacementChain(first, bump, value, key, trace)
    requires IsAttempt(first, bump, value, key, trace + [last], |trace|)
    ensures IsReplacementChain(first, bump, value, key, trace + [last])
  {
    forall i: nat | i < |trace| + 1
      ensures IsAttempt(first, bump, value, key, trace + [last], i)
    {
      if i < |trace| {
        assert IsAttempt(first, bump, value, key, trace, i);
        assert (trace + [last])[..i] == trace[..i];
      }
    }
  }

  lemma {:induction false} DeliveredPrefix(trace: seq<Attempt>, i: nat, j: nat)
    requires i <= j <= |trace|
    ensures DeliveredCount(trace[..i]) <= DeliveredCount(trace[..j])
    ensures forall k: nat :: i <= k < j && trace[k].delivery == Delivered ==>
              DeliveredCount(trace[..i]) < DeliveredCount(trace[..j])
    decreases j - i
  {
    if i < j {
      DeliveredPrefix(trace, i, j - 1);
      assert trace[..j][..j - 1] == trace[..j - 1];
      assert DeliveredCount(trace[..j]) >= DeliveredCount(trace[..j - 1]);
    }
  }

  // ------------------------------------------------------------ what they keep

  /**
   * Funding-gate soundness. If the predicted maximum fees exist, then whatever mix of deliveries and
   * throttling happens, every attempt's fees stay within the prediction, and a balance that covers the
   * value plus gas at the predicted cap covers what every single attempt may cost.
   */
  lemma {:induction false} AttemptsWithinPrediction(
    config: FeesConfig, attempts: U32, first: Transaction, value: TransferValue, key: Key, trace: seq<Attempt>, i: nat)
    requires MaximumFees(config, attempts, first.fees).Ok?
    requires IsReplacementChain(first, config.bump, value, key, trace)
    requires i < |trace| <= attempts
    ensures var maximum := MaximumFees(config, attempts, first.fees).value;
            && trace[i].tx.fees.maxFee <= maximum.maxFee
            && trace[i].tx.fees.priorityFee <= maximum.priorityFee
            && trace[i].tx.value + trace[i].tx.gasLimit * trace[i].tx.fees.maxFee
               <= (match value case Fixed(amount) => amount + first.gasLimit * maximum.maxFee case Sweep(balance) => balance)
    ensures value.Sweep? ==>
              trace[i].tx.value > 0 && trace[i].tx.value + trace[i].tx.gasLimit * trace[i].tx.fees.maxFee == value.balance
  {
    assert IsAttempt(first, config.bump, value, key, trace, i);
    PredictionPricesEarlier(config, attempts, first.fees, DeliveredCount(trace[..i]));
    var maximum := MaximumFees(config, attempts, first.fees).value;
    MulMonotone(trace[i].tx.fees.maxFee, maximum.maxFee, first.gasLimit);
  }

  /** The attempt that was mined could take this much: its gas limit at its own cap, and its value on success. */
  ghost predicate PaidAtMost(trace: seq<Attempt>, receipt: Receipt, debit: int) {
    exists i: nat :: i < |trace| && trace[i].hash == receipt.hash && trace[i].delivery == Delivered &&
      debit <= trace[i].tx.gasLimit * trace[i].tx.fees.maxFee + (if receipt.success then trace[i].tx.value else 0)
  }

  /** What a mined transaction of a fixed value takes is within the prediction for its last attempt. */
  lemma {:induction false} DebitWithinPrediction(
    config: FeesConfig, attempts: U32, first: Transaction, amount: U256, key: Key, trace: seq<Attempt>, receipt: Receipt,
    debit: int)
    requires MaximumFees(config, attempts, first.fees).Ok?
    requires IsReplacementChain(first, config.bump, Fixed(amount), key, trace) && |trace| <= attempts
    requires PaidAtMost(trace, receipt, debit)
    ensures debit <= amount + first.gasLimit * MaximumFees(config, attempts, first.fees).value.maxFee
  {
    var i: nat :| i < |trace| && trace[i].hash == receipt.hash && trace[i].delivery == Delivered &&
      debit <= trace[i].tx.gasLimit * trace[i].tx.fees.maxFee + (if receipt.success then trace[i].tx.value else 0);
    AttemptsWithinPrediction(config, attempts, first, Fixed(amount), key, trace, i);
  }

  /** A later attempt carries the same nonce, target and data, and outbids each delivered attempt before it. */
  lemma LaterAttemptOutbids(
    first: Transaction, bump: U32, value: TransferValue, key: Key, trace: seq<Attempt>, i: nat, j: nat)
    requires bump > BASIS_POINTS && IsReplacementChain(first, bump, value, key, trace)
    requires i < j < |trace|
    ensures var a, b := trace[i].tx, trace[j].tx;
            && b == a.(fees := b.fees, value := b.value)
            && b.fees.maxFee >= a.fees.maxFee && b.fees.priorityFee >= a.fees.priorityFee
            && (trace[i].delivery == Delivered && a.fees.maxFee > 0 ==> b.fees.maxFee > a.fees.maxFee)
            && (trace[i].delivery == Delivered && a.fees.priorityFee > 0 ==> b.fees.priorityFee > a.fees.priorityFee)
            && (value.Sweep? ==> b.value <= a.value)
  {
    assert IsAttempt(first, bump, value, key, trace, i) && IsAttempt(first, bump, value, key, trace, j);
    var m, n := DeliveredCount(trace[..i]), DeliveredCount(trace[..j]);
    DeliveredPrefix(trace, i, j);
    EscalatedBelow(first.fees, bump, m, n);
    if trace[i].delivery == Delivered {
      EscalatedOutbids(first.fees, bump, m, n);
    }
    HigherCapSendsLess(value, first.gasLimit, trace[i].tx.fees.maxFee, trace[j].tx.fees.maxFee);
  }

  /** A value that exists at a fee cap exists at every lower one. */
  lemma LowerCapHasValue(value: TransferValue, gasLimit: U64, low: U256, high: U256)
    requires low <= high && (value.Sweep? ==> gasLimit * high < value.balance)
    ensures ValueAtFee(value, gasLimit, low).Ok?
  {
    MulMonotone(low, high, gasLimit);
  }

  lemma HigherCapSendsLess(value: TransferValue, gasLimit: U64, low: U256, high: U256)
    requires low <= high && ValueAtFee(value, gasLimit, low).Ok? && ValueAtFee(value, gasLimit, high).Ok?
    ensures ValueAtFee(value, gasLimit, high).value <= ValueAtFee(value, gasLimit, low).value
  {
    MulMonotone(low, high, gasLimit);
  }

  /** A throttled broadcast is retried unchanged: no delivery in between, same transaction, same hash. */
  lemma ThrottledRetriesAreIdentical(
    first: Transaction, bump: U32, value: TransferValue, key: Key, trace: seq<Attempt>, i: nat, j: nat)
    requires IsReplacementChain(first, bump, value, key, trace)
    requires i < j < |trace|
    requires forall k: nat :: i <= k < j ==> trace[k].delivery != Delivered
    ensures trace[i].tx == trace[j].tx && trace[i].hash == trace[j].hash
  {
    assert IsAttempt(first, bump, value, key, trace, i) && IsAttempt(first, bump, value, key, trace, j);
    assert DeliveredCount(trace[..i]) == DeliveredCount(trace[..j]) by {
      SameCount(trace, i, j);
    }
  }

  lemma {:induction false} SameCount(trace: seq<Attempt>, i: nat, j: nat)
    requires i <= j <= |trace|
    requires forall k: nat :: i <= k < j ==> trace[k].delivery != Delivered
    ensures DeliveredCount(trace[..i]) == DeliveredCount(trace[..j])
    decreases j - i
  {
    if i < j {
      SameCount(trace, i, j - 1);
      assert trace[..j][..j - 1] == trace[..j - 1];
    }
  }
}
