/** Sending one native transfer with up to two same-nonce retries. */
module Transfers {
  import opened Words
  import opened FeePolicy
  import opened Transactions
  import opened Replacements
  import ReceiptPolling

  const DIRECT_TRANSFER_MAX_ATTEMPTS: nat := 3

  /** How the node answers each of the three attempts, numbered from zero. */
  datatype Network = Network(send: nat -> SendReply, poll: nat -> ReceiptPolling.Environment)

  /** The value of the first accepted broadcast with this hash. */
  function FindValue(submitted: seq<(Hash, U256)>, hash: Hash): (r: Option<U256>)
    ensures r.Some? <==> exists k: nat :: k < |submitted| && submitted[k].0 == hash
    ensures r.Some? ==> exists k: nat :: k < |submitted| && submitted[k] == (hash, r.value)
  {
    if submitted == [] then None
    else if submitted[0].0 == hash then
      assert submitted[0] == (hash, submitted[0].1);
      Some(submitted[0].1)
    else
      var rest := FindValue(submitted[1..], hash);
      assert forall k: nat :: k < |submitted| - 1 ==> submitted[k + 1] == submitted[1..][k];
      assert forall k: nat :: 0 < k < |submitted| ==> submitted[k] == submitted[1..][k - 1];
      rest
  }

  /** A receipt proves that one delivered attempt was mined. */
  ghost predicate MinedFrom(trace: seq<Attempt>, receipt: Receipt) {
    exists i: nat :: i < |trace| && trace[i].delivery == Delivered && trace[i].hash == receipt.hash
  }

  ghost predicate AllThrottled(trace: seq<Attempt>) {
    forall i: nat :: i < |trace| ==> trace[i].delivery == Throttled
  }

  /** One delivered attempt had this hash and carried this value. */
  ghost predicate Carried(trace: seq<Attempt>, hash: Hash, value: U256) {
    exists i: nat :: i < |trace| && trace[i].delivery == Delivered && trace[i].hash == hash && trace[i].tx.value == value
  }

  predicate EndsWith(trace: seq<Attempt>, delivery: Delivery, hash: Hash) {
    trace != [] && trace[|trace| - 1].delivery == delivery && trace[|trace| - 1].hash == hash
  }

  predicate LatestAccepted(trace: seq<Attempt>, hash: Hash) {
    var accepted := Accepted(trace);
    accepted != [] && accepted[|accepted| - 1].0 == hash
  }

  /** What each ending says about the broadcasts that were made. */
  ghost predicate Explains(trace: seq<Attempt>, mined: Option<Receipt>, result: Result<(Receipt, U256), FundsError>) {
    match result
    case Ok((receipt, value)) =>
      && mined == Some(receipt) && receipt.success && MinedFrom(trace, receipt)
      && Carried(trace, receipt.hash, value)
    case Err(Reverted(blockNumber)) =>
      && mined.Some? && !mined.value.success && mined.value.blockNumber == blockNumber && MinedFrom(trace, mined.value)
    case Err(error) =>
      && mined.None?
      && match error {
        // Nothing is outstanding: all three broadcasts were refused.
        case RateLimitExhausted(hash) =>
          AllThrottled(trace) && |trace| == DIRECT_TRANSFER_MAX_ATTEMPTS && EndsWith(trace, Throttled, hash)
        // The outstanding hash is the latest one a node took.
        case Pending(hash) =>
          |trace| == DIRECT_TRANSFER_MAX_ATTEMPTS && LatestAccepted(trace, hash)
        case BroadcastUncertain(hash) =>
          EndsWith(trace, Uncertain, hash)
        case ReceiptUncertain(hash) =>
          EndsWith(trace, Delivered, hash)
        case Signature(_) => true
        case Fee(_) => true
        case ArithmeticOverflow => true
        case NothingToWithdraw => true
        case _ => false
      }
  }

  /** The predicted maximum exists, and a sweep's balance exceeds the gas reserve at that maximum. */
  ghost predicate Reserved(config: FeesConfig, first: Transaction, value: TransferValue) {
    var maximum := MaximumFees(config, DIRECT_TRANSFER_MAX_ATTEMPTS, first.fees);
    maximum.Ok? && (value.Sweep? ==> first.gasLimit * maximum.value.maxFee < value.balance)
  }

  /** With a reserve in place no attempt runs out of fees or of balance, in any run. */
  lemma {:induction false} ReservePricesEveryAttempt(config: FeesConfig, first: Transaction, value: TransferValue, k: nat)
    requires Reserved(config, first, value) && k < DIRECT_TRANSFER_MAX_ATTEMPTS
    ensures Escalated(first.fees, config.bump, k).Ok?
    ensures ValueAtFee(value, first.gasLimit, Escalated(first.fees, config.bump, k).value.maxFee).Ok?
  {
    PredictionPricesEarlier(config, DIRECT_TRANSFER_MAX_ATTEMPTS, first.fees, k);
    var maximum := MaximumFees(config, DIRECT_TRANSFER_MAX_ATTEMPTS, first.fees).value;
    LowerCapHasValue(value, first.gasLimit, Escalated(first.fees, config.bump, k).value.maxFee, maximum.maxFee);
  }

  /** Waits for a receipt of any accepted broadcast and reports what it settles, or None while all are pending. */
  method Settle(
    policy: ReceiptPolling.Policy, env: ReceiptPolling.Environment, submitted: seq<(Hash, U256)>, local: Hash,
    ghost trace: seq<Attempt>)
    returns (settled: Option<Result<(Receipt, U256), FundsError>>, ghost mined: Option<Receipt>)
    requires submitted == Accepted(trace) && EndsWith(trace, Delivered, local)
    ensures settled.Some? ==> Explains(trace, mined, settled.value)
    ensures settled.Some? && settled.value.Err? ==> settled.value.error.ReceiptUncertain? || settled.value.error.Reverted?
    ensures settled.None? ==> mined.None?
  {
    mined := None;
    var hashes := seq(|submitted|, k requires 0 <= k < |submitted| => submitted[k].0);
    var receipt, _, _ := ReceiptPolling.WaitForAnyReceipt(hashes, policy, env);
    match receipt {
      case Err(_) =>
        return Some(Err(ReceiptUncertain(local))), mined;
      case Ok(None) =>
        return None, mined;
      case Ok(Some((k, found))) =>
        mined := Some(found);
        ghost var i := AcceptedAttempt(trace, k);
        assert MinedFrom(trace, found);
        if !found.success {
          return Some(Err(Reverted(found.blockNumber))), mined;
        }
        var confirmed := FindValue(submitted, found.hash);
        assert submitted[k].0 == found.hash;
        ghost var m: nat :| m < |submitted| && submitted[m] == (found.hash, confirmed.value);
        ghost var j := AcceptedAttempt(trace, m);
        assert Carried(trace, found.hash, confirmed.value);
        return Some(Ok((found, confirmed.value))), mined;
    }
  }

  lemma NextAttempt(
    first: Transaction, bump: U32, value: TransferValue, key: Key, trace: seq<Attempt>, last: Attempt, fees: Fees, amount: U256)
    requires IsReplacementChain(first, bump, value, key, trace)
    requires Escalated(first.fees, bump, DeliveredCount(trace)) == Ok(fees)
    requires ValueAtFee(value, first.gasLimit, fees.maxFee) == Ok(amount)
    requires last.tx == first.(fees := fees, value := amount) && Sign(last.tx, key) == Ok(last.hash)
    ensures IsReplacementChain(first, bump, value, key, trace + [last])
    ensures Accepted(trace + [last]) == Accepted(trace) + if last.delivery == Delivered then [(last.hash, last.tx.value)] else []
  {
    TraceSnoc(trace, last);
    assert (trace + [last])[..|trace|] == trace;
    ChainSnoc(first, bump, value, key, trace, last);
  }

  /** Once the first attempt has been signed, no later one has an unsignable shape. */
  lemma LaterShape(first: Transaction, bump: U32, fees: Fees, amount: U256, k: nat)
    requires ShapeError(first).None? && Escalated(first.fees, bump, k) == Ok(fees)
    ensures ShapeError(first.(fees := fees, value := amount)).None?
  {
    EscalatedCoversTip(first.fees, bump, k);
  }

  /** The state between two attempts: `submitted` lists what was accepted and `fees` prices the next attempt. */
  ghost predicate InFlight(
    config: FeesConfig, key: Key, first: Transaction, value: TransferValue, trace: seq<Attempt>,
    submitted: seq<(Hash, U256)>, fees: Fees)
  {
    && IsReplacementChain(first, config.bump, value, key, trace)
    && submitted == Accepted(trace)
    && (forall i: nat :: i < |trace| ==> trace[i].delivery != Uncertain)
    && Escalated(first.fees, config.bump, |submitted|) == Ok(fees)
    && (trace != [] ==> ShapeError(first).None?)
  }

  /** Prices, signs and sends one attempt; an error here leaves nothing new behind. */
  method Broadcast(
    config: FeesConfig, key: Key, first: Transaction, value: TransferValue, fees: Fees, reply: SendReply, ghost trace: seq<Attempt>)
    returns (sent: Result<Attempt, FundsError>)
    requires InFlight(config, key, first, value, trace, Accepted(trace), fees)
    ensures sent.Ok? ==>
              && ShapeError(first).None?
              && IsReplacementChain(first, config.bump, value, key, trace + [sent.value])
              && sent.value.delivery == DeliveryOf(SendRaw(reply, sent.value.hash))
              && Accepted(trace + [sent.value]) ==
                 Accepted(trace) + (if sent.value.delivery == Delivered then [(sent.value.hash, sent.value.tx.value)] else [])
    ensures sent.Err? ==>
              || sent.error == ArithmeticOverflow || sent.error == NothingToWithdraw
              || (sent.error.Signature? && (trace != [] ==> sent.error.transaction == Signing))
    ensures sent.Err? && Reserved(config, first, value) && |trace| < DIRECT_TRANSFER_MAX_ATTEMPTS ==> sent.error.Signature?
  {
    if Reserved(config, first, value) && |trace| < DIRECT_TRANSFER_MAX_ATTEMPTS {
      ReservePricesEveryAttempt(config, first, value, |Accepted(trace)|);
    }
    var amount := ValueAtFee(value, first.gasLimit, fees.maxFee);
    if amount.Err? {
      return Err(amount.error);
    }
    var tx := first.(fees := fees, value := amount.value);
    var local := Sign(tx, key);
    if ShapeError(first).None? {
      LaterShape(first, config.bump, fees, amount.value, DeliveredCount(trace));
    }
    if local.Err? {
      return Err(Signature(local.error));
    }
    assert trace == [] ==> ShapeError(tx) == ShapeError(first);
    var attempt := Attempt(tx, local.value, DeliveryOf(SendRaw(reply, local.value)));
    NextAttempt(first, config.bump, value, key, trace, attempt, fees, amount.value);
    return Ok(attempt);
  }

  /** A run that has just sent its last attempt and not been settled. */
  method OutOfAttempts(submitted: seq<(Hash, U256)>, local: Hash, ghost trace: seq<Attempt>)
    returns (result: Result<(Receipt, U256), FundsError>)
    requires |trace| == DIRECT_TRANSFER_MAX_ATTEMPTS && submitted == Accepted(trace)
    requires forall i: nat :: i < |trace| ==> trace[i].delivery != Uncertain
    requires trace[|trace| - 1].hash == local
    ensures result.Err? && (result.error.RateLimitExhausted? || result.error.Pending?)
    ensures Explains(trace, None, result)
  {
    if submitted == [] {
      ThrottledThroughout(trace);
      return Err(RateLimitExhausted(local));
    }
    return Err(Pending(submitted[|submitted| - 1].0));
  }

  method PriceNext(config: FeesConfig, first: Transaction, value: TransferValue, n: nat, fees: Fees)
    returns (next: Result<Fees, FundsError>)
    requires Escalated(first.fees, config.bump, n) == Ok(fees)
    ensures next.Ok? ==> Escalated(first.fees, config.bump, n + 1) == Ok(next.value)
    ensures next.Err? ==> next.error.Fee?
    ensures Reserved(config, first, value) && n + 1 < DIRECT_TRANSFER_MAX_ATTEMPTS ==> next.Ok?
  {
    if Reserved(config, first, value) && n + 1 < DIRECT_TRANSFER_MAX_ATTEMPTS {
      ReservePricesEveryAttempt(config, first, value, n + 1);
    }
    var replaced := Replacement(fees, config.bump);
    next := if replaced.Ok? then Ok(replaced.value) else Err(Fee(replaced.error));
  }

  /** Errors that a reserve rules out. */
  predicate IsPricingError(error: FundsError) {
    error.Fee? || error.ArithmeticOverflow? || error.NothingToWithdraw?
  }

  /** One attempt: done with a result, or not settled and priced for the next one. */
  method MakeAttempt(
    config: FeesConfig, policy: ReceiptPolling.Policy, key: Key, first: Transaction, value: TransferValue, network: Network,
    fees: Fees, submitted: seq<(Hash, U256)>, attempt: nat, ghost trace: seq<Attempt>)
    returns (done: Option<Result<(Receipt, U256), FundsError>>, nextFees: Fees, nextSubmitted: seq<(Hash, U256)>,
             ghost extended: seq<Attempt>, ghost mined: Option<Receipt>)
    requires attempt == |trace| < DIRECT_TRANSFER_MAX_ATTEMPTS && config.bump > BASIS_POINTS
    requires InFlight(config, key, first, value, trace, submitted, fees)
    ensures done.None? ==>
              && |extended| == attempt + 1 < DIRECT_TRANSFER_MAX_ATTEMPTS && mined.None?
              && InFlight(config, key, first, value, extended, nextSubmitted, nextFees)
    ensures done.Some? ==>
              && |extended| <= DIRECT_TRANSFER_MAX_ATTEMPTS
              && IsReplacementChain(first, config.bump, value, key, extended)
              && Explains(extended, mined, done.value)
              && (extended != [] && done.value.Err? && done.value.error.Signature? ==> done.value.error.transaction == Signing)
    ensures Reserved(config, first, value) && done.Some? && done.value.Err? ==> !IsPricingError(done.value.error)
  {
    nextFees, nextSubmitted, extended, mined := fees, submitted, trace, None;
    var sent := Broadcast(config, key, first, value, fees, network.send(attempt), trace);
    if sent.Err? {
      return Some(Err(sent.error)), nextFees, nextSubmitted, extended, mined;
    }
    var local := sent.value.hash;
    extended := trace + [sent.value];
    if sent.value.delivery == Uncertain {
      return Some(Err(BroadcastUncertain(local))), nextFees, nextSubmitted, extended, mined;
    }
    if sent.value.delivery == Delivered {
      nextSubmitted := submitted + [(local, sent.value.tx.value)];
      done, mined := Settle(policy, network.poll(attempt), nextSubmitted, local, extended);
      if done.Some? {
        return done, nextFees, nextSubmitted, extended, mined;
      }
    }
    if attempt + 1 == DIRECT_TRANSFER_MAX_ATTEMPTS {
      var last := OutOfAttempts(nextSubmitted, local, extended);
      return Some(last), nextFees, nextSubmitted, extended, mined;
    }
    done := None;
    if sent.value.delivery == Delivered {
      var next := PriceNext(config, first, value, |submitted|, fees);
      if next.Err? {
        return Some(Err(next.error)), nextFees, nextSubmitted, extended, mined;
      }
      nextFees := next.value;
    }
  }

  method SubmitTransfer(
    config: FeesConfig, policy: ReceiptPolling.Policy, key: Key, first: Transaction, value: TransferValue, network: Network)
    returns (result: Result<(Receipt, U256), FundsError>, ghost trace: seq<Attempt>, ghost mined: Option<Receipt>)
    ensures |trace| <= DIRECT_TRANSFER_MAX_ATTEMPTS
    ensures IsReplacementChain(first, config.bump, value, key, trace)
    ensures Explains(trace, mined, result)
    ensures config.bump <= BASIS_POINTS ==> trace == [] && result == Err(Fee(InvalidMultiplier))
    // A reserve rules out every fee, arithmetic and balance failure.
    ensures Reserved(config, first, value) && result.Err? ==> !IsPricingError(result.error)
    // Only the signer itself can fail once the first attempt has been signed.
    ensures trace != [] && result.Err? && result.error.Signature? ==> result.error.transaction == Signing
  {
    trace, mined := [], None;
    if !ValidPolicy(BASIS_POINTS, config.bump) {
      return Err(Fee(InvalidMultiplier)), trace, mined;
    }
    var fees := first.fees;
    var submitted: seq<(Hash, U256)> := [];
    var attempt := 0;
    while true
      invariant attempt == |trace| < DIRECT_TRANSFER_MAX_ATTEMPTS
      invariant InFlight(config, key, first, value, trace, submitted, fees)
      decreases DIRECT_TRANSFER_MAX_ATTEMPTS - attempt
    {
      var done;
      done, fees, submitted, trace, mined := MakeAttempt(config, policy, key, first, value, network, fees, submitted, attempt, trace);
      if done.Some? {
        return done.value, trace, mined;
      }
      attempt := attempt + 1;
    }
  }

  /** Nothing accepted in three attempts, none of them of unknown fate: all three were throttled. */
  lemma ThrottledThroughout(trace: seq<Attempt>)
    requires Accepted(trace) == []
    requires forall i: nat :: i < |trace| ==> trace[i].delivery != Uncertain
    ensures AllThrottled(trace)
  {
    assert DeliveredCount(trace) == 0;
    forall i: nat | i < |trace|
      ensures trace[i].delivery == Throttled
    {
      assert trace[i] in trace;
    }
  }
}
