/** The third submission loop: a self-funded wallet's mint or transfer, where every failure ends the run. */
module SelfFunded {
  import opened Words
  import opened FeePolicy
  import opened Transactions
  import opened Replacements
  import Transfers
  import ReceiptPolling
  import MintSubmission

  datatype SubmitError =
    | Unsignable(transaction: TransactionError) | Unpriced(fee: FeeError) | Unpolled(chain: ChainError)
    | BroadcastUncertain(hash: Hash) | PendingTransaction(hash: Hash)

  /** What the ending says about the broadcasts: only the very last one can have an unknown fate. */
  ghost predicate Explains(maxAttempts: U32, trace: seq<Attempt>, result: Result<Receipt, SubmitError>) {
    && (forall i: nat :: i + 1 < |trace| ==> trace[i].delivery == Delivered)
    && match result {
      case Ok(receipt) => Transfers.MinedFrom(trace, receipt)
      case Err(BroadcastUncertain(hash)) => Transfers.EndsWith(trace, Uncertain, hash)
      case Err(PendingTransaction(hash)) => |trace| == maxAttempts && (trace != [] ==> Transfers.EndsWith(trace, Delivered, hash))
      case Err(Unpolled(_)) => trace != [] && trace[|trace| - 1].delivery == Delivered
      case Err(Unpriced(_)) => |trace| < maxAttempts && (trace != [] ==> trace[|trace| - 1].delivery == Delivered)
      case Err(Unsignable(_)) => |trace| < maxAttempts && (trace != [] ==> trace[|trace| - 1].delivery == Delivered)
    }
  }

  /** All attempts so far were delivered, and `fees` are escalated once for each of them. */
  ghost predicate InFlight(first: Transaction, bump: U32, key: Key, trace: seq<Attempt>, fees: Fees) {
    && IsReplacementChain(first, bump, Fixed(first.value), key, trace)
    && MintSubmission.AllDelivered(trace, |trace|)
    && Escalated(first.fees, bump, |trace|) == Ok(fees)
  }

  /** Waits on everything sent so far. */
  method AwaitReceipt(policy: ReceiptPolling.Policy, poll: ReceiptPolling.Environment, submitted: seq<Hash>, ghost trace: seq<Attempt>)
    returns (receipt: Result<Option<Receipt>, ChainError>)
    requires trace != [] && submitted == MintSubmission.Hashes(trace) && MintSubmission.AllDelivered(trace, |trace|)
    ensures receipt.Ok? && receipt.value.Some? ==> Transfers.MinedFrom(trace, receipt.value.value)
  {
    var polled, _, _ := ReceiptPolling.WaitForAnyReceipt(submitted, policy, poll);
    match polled {
      case Err(e) => return Err(e);
      case Ok(None) => return Ok(None);
      case Ok(Some((i, found))) =>
        assert trace[i].delivery == Delivered && trace[i].hash == found.hash;
        return Ok(Some(found));
    }
  }

  /** Signs and sends one attempt and waits for it and its predecessors: done with a result, or not mined yet. */
  method MakeAttempt(
    config: FeesConfig, policy: ReceiptPolling.Policy, key: Key, first: Transaction, fees: Fees, network: Transfers.Network,
    attempt: nat, submitted: seq<Hash>, maxAttempts: U32, ghost trace: seq<Attempt>)
    returns (done: Option<Result<Receipt, SubmitError>>, hash: Hash, ghost extended: seq<Attempt>)
    requires attempt == |trace| < maxAttempts && submitted == MintSubmission.Hashes(trace)
    requires InFlight(first, config.bump, key, trace, fees)
    ensures |extended| <= maxAttempts && IsReplacementChain(first, config.bump, Fixed(first.value), key, extended)
    ensures done.None? ==>
              && |extended| == attempt + 1 && MintSubmission.AllDelivered(extended, |extended|)
              && Transfers.EndsWith(extended, Delivered, hash) && MintSubmission.Hashes(extended) == submitted + [hash]
    ensures done.Some? ==> Explains(maxAttempts, extended, done.value) && !(done.value.Err? && done.value.error.Unpriced?)
  {
    extended := trace;
    var tx := first.(fees := fees);
    var signed := Sign(tx, key);
    if signed.Err? {
      return Some(Err(Unsignable(signed.error))), Hash(0), extended;
    }
    hash := signed.value;
    var reply := SendRaw(network.send(attempt), hash);
    ghost var made := Attempt(tx, hash, if reply.Ok? then Delivered else Uncertain);
    MintSubmission.ChainGrows(first, config.bump, key, trace, made, fees);
    extended := trace + [made];
    if reply.Err? {
      return Some(Err(SubmitError.BroadcastUncertain(hash))), hash, extended;
    }
    var receipt := AwaitReceipt(policy, network.poll(attempt), submitted + [hash], extended);
    match receipt {
      case Err(e) => done := Some(Err(Unpolled(e)));
      case Ok(None) => done := None;
      case Ok(Some(found)) => done := Some(Ok(found));
    }
  }

  /** Prices attempt `k`, which the predicted maximum guarantees. */
  method PriceNext(config: FeesConfig, maxAttempts: U32, initial: Fees, fees: Fees, k: nat) returns (next: Result<Fees, FeeError>)
    requires 0 < k < maxAttempts && Escalated(initial, config.bump, k - 1) == Ok(fees)
    ensures next.Ok? ==> Escalated(initial, config.bump, k) == next
    ensures MaximumFees(config, maxAttempts, initial).Ok? ==> next.Ok?
  {
    if MaximumFees(config, maxAttempts, initial).Ok? {
      PredictionPricesEarlier(config, maxAttempts, initial, k);
    }
    next := Replacement(fees, config.bump);
  }

  /**
   * Signs, sends and replaces one transaction. Every attempt repeats the first with escalated fees and the same
   * nonce; and when the predicted maximum fees exist, no run fails for a fee.
   */
  method SubmitWithReplacements(
    config: FeesConfig, maxAttempts: U32, policy: ReceiptPolling.Policy, key: Key, first: Transaction, network: Transfers.Network)
    returns (result: Result<Receipt, SubmitError>, ghost trace: seq<Attempt>)
    ensures |trace| <= maxAttempts && IsReplacementChain(first, config.bump, Fixed(first.value), key, trace)
    ensures if config.bump > BASIS_POINTS then Explains(maxAttempts, trace, result)
            else trace == [] && result == Err(Unpriced(InvalidMultiplier))
    ensures MaximumFees(config, maxAttempts, first.fees).Ok? ==> !(result.Err? && result.error.Unpriced?)
  {
    trace := [];
    if !ValidPolicy(BASIS_POINTS, config.bump) {
      return Err(Unpriced(InvalidMultiplier)), trace;
    }
    var fees, lastHash, submitted := first.fees, Hash(0), [];
    for attempt := 0 to maxAttempts
      invariant attempt == |trace| && submitted == MintSubmission.Hashes(trace)
      invariant attempt < maxAttempts ==> InFlight(first, config.bump, key, trace, fees)
      invariant IsReplacementChain(first, config.bump, Fixed(first.value), key, trace) && MintSubmission.AllDelivered(trace, |trace|)
      invariant trace != [] ==> Transfers.EndsWith(trace, Delivered, lastHash)
    {
      var done;
      done, lastHash, trace := MakeAttempt(config, policy, key, first, fees, network, attempt, submitted, maxAttempts, trace);
      if done.Some? {
        return done.value, trace;
      }
      submitted := submitted + [lastHash];
      if attempt + 1 < maxAttempts {
        var next := PriceNext(config, maxAttempts, first.fees, fees, attempt + 1);
        if next.Err? {
          return Err(Unpriced(next.error)), trace;
        }
        fees := next.value;
      }
    }
    return Err(PendingTransaction(lastHash)), trace;
  }
}
