/** Submitting one mint with same-nonce replacements, and what its ending means for the rest of the session. */
module MintSubmission {
  import opened Words
  import opened FeePolicy
  import opened Transactions
  import opened Replacements
  import ReceiptPolling

  datatype OpenSeaError =
    | Compatibility | UnsafeMintAction | Transport | OpenSeaRateLimited | AuthenticationRequired
    | Authentication(status: nat) | Http(status: nat) | OtherOpenSeaError

  datatype CommandError =
    // reported by preparation, refresh and lookup
    | Fee(fee: FeeError)
    | ChainFailure(chain: ChainError)
    | OpenSea(openSea: OpenSeaError)
    | FundingOverflow
    | WalletUnderfunded(shortfallWei: U256)
    | CollectionChanged
    | StageNotFound
    | InvalidStageWindow
    | InvalidTokenId
    | InvalidMintSelection
    | QuantityExceedsEligibility
    | AmbiguousActiveStage
    | CalldataRetriesExhausted
    // reported by signing and submission
    | Signature(transaction: TransactionError)
    | SubmissionOutput
    | PreparedTransactionUnavailable
    | StageEnded
    | BroadcastOutcomeUncertain(hash: Hash)
    | ReceiptTrackingUncertain
    | ReplacementUnavailable
    | PhaseEndedWithPendingTransaction
    | PendingAfterRetries
    | TransactionReverted(blockNumber: U64)

  /** Errors after which no further job of the session may run. */
  predicate MustStopSession(error: CommandError) {
    || error.BroadcastOutcomeUncertain? || error.ReceiptTrackingUncertain? || error.PendingAfterRetries?
    || error.ReplacementUnavailable? || error.PhaseEndedWithPendingTransaction?
    || error == OpenSea(Compatibility) || error == OpenSea(UnsafeMintAction)
  }

  // --------------------------------------------------------------- the funding gate

  datatype FundingRequirement = FundingRequirement(mintValue: U256, gasLimit: U64, maxFee: U256) {
    function MaximumNativeCost(): Option<U256> {
      if gasLimit * maxFee > MAX_U256 then None
      else if gasLimit * maxFee + mintValue > MAX_U256 then None
      else Some(gasLimit * maxFee + mintValue)
    }

    /** How much a balance lacks; zero exactly when the balance covers the whole cost. */
    function Shortfall(balance: U256): (r: Option<U256>)
      ensures r == Some(0) <==> gasLimit * maxFee + mintValue <= balance
      ensures r.Some? && r.value > 0 ==> balance + r.value == gasLimit * maxFee + mintValue
    {
      match MaximumNativeCost()
      case None => None
      case Some(required) => Some(SaturatingSub(required, balance))
    }
  }

  /** The gate every mint passes: value plus gas at the predicted maximum fee, against the balance. */
  function EnsureFunding(config: FeesConfig, maxAttempts: U32, gasLimit: U64, mintValue: U256, estimate: Fees, balance: U256)
    : Result<(), CommandError>
  {
    match InitialTransactionFees(config, estimate)
    case Err(e) => Err(CommandError.Fee(e))
    case Ok(initial) =>
      match MaximumFees(config, maxAttempts, initial)
      case Err(e) => Err(CommandError.Fee(e))
      case Ok(maximum) =>
        match FundingRequirement(mintValue, gasLimit, maximum.maxFee).Shortfall(balance)
        case None => Err(FundingOverflow)
        case Some(shortfall) => if shortfall == 0 then Ok(()) else Err(WalletUnderfunded(shortfall))
  }

  /**
   * Gate soundness: a mint that passed the gate can afford every attempt of every run of the submission
   * loop, and no replacement of the run is impossible to price.
   */
  lemma {:induction false} GateCoversEveryAttempt(
    config: FeesConfig, maxAttempts: U32, estimate: Fees, balance: U256, first: Transaction, key: Key, trace: seq<Attempt>)
    requires EnsureFunding(config, maxAttempts, first.gasLimit, first.value, estimate, balance).Ok?
    requires InitialTransactionFees(config, estimate) == Ok(first.fees)
    requires IsReplacementChain(first, config.bump, Fixed(first.value), key, trace) && |trace| <= maxAttempts
    ensures forall k: nat :: k < maxAttempts ==> Escalated(first.fees, config.bump, k).Ok?
    ensures forall i: nat :: i < |trace| ==>
              trace[i].tx.value + trace[i].tx.gasLimit * trace[i].tx.fees.maxFee <= balance
  {
    forall k: nat | k < maxAttempts ensures Escalated(first.fees, config.bump, k).Ok? {
      PredictionPricesEarlier(config, maxAttempts, first.fees, k);
    }
    forall i: nat | i < |trace|
      ensures trace[i].tx.value + trace[i].tx.gasLimit * trace[i].tx.fees.maxFee <= balance
    {
      AttemptsWithinPrediction(config, maxAttempts, first, Fixed(first.value), key, trace, i);
    }
  }

  // --------------------------------------------------------------------- submission

  datatype MintAction = MintAction(networkId: U64, target: Address, value: U256, calldata: seq<Byte>)

  datatype Context = Context(
    config: FeesConfig, maxAttempts: U32, policy: ReceiptPolling.Policy, chainId: U64, gasLimit: U64,
    phaseEndsAt: Option<U64>, key: Key)

  /** What attempt `k` meets outside: the latest block (None when unreadable), standard output, and the node. */
  datatype Environment = Environment(
    latestBlock: nat -> Option<nat>, flushes: nat -> bool, send: nat -> SendReply, poll: nat -> ReceiptPolling.Environment)

  function MintTransaction(context: Context, action: MintAction, nonce: U64, fees: Fees): Transaction {
    Transaction(context.chainId, nonce, fees, context.gasLimit, action.target, action.value, action.calldata)
  }

  function SignMint(context: Context, action: MintAction, nonce: U64, fees: Fees): Result<Hash, CommandError> {
    if action.networkId != context.chainId then Err(OpenSea(UnsafeMintAction))
    else
      match Sign(MintTransaction(context, action, nonce, fees), context.key)
      case Err(e) => Err(CommandError.Signature(e))
      case Ok(hash) => Ok(hash)
  }

  /** Nothing but "not mined" is ever answered, and the timeout fits the timer. */
  ghost predicate Quiet(context: Context, poll: ReceiptPolling.Environment) {
    && poll.start + 1000 * context.policy.timeoutSeconds <= poll.timerRange
    && forall r: nat, i: nat :: poll.answer(r, i) == NotMined
  }

  ghost predicate AllDelivered(trace: seq<Attempt>, n: nat)
    requires n <= |trace|
  {
    forall i: nat :: i < n ==> trace[i].delivery == Delivered
  }

  /** One delivered attempt of the run has this receipt. */
  ghost predicate MinedFrom(trace: seq<Attempt>, receipt: Receipt) {
    exists i: nat :: i < |trace| && trace[i].delivery == Delivered && trace[i].hash == receipt.hash
  }

  predicate PhaseEnded(context: Context, timestamp: nat) {
    context.phaseEndsAt.Some? && timestamp >= context.phaseEndsAt.value
  }

  ghost predicate SignerFails(key: Key) {
    exists tx :: key(tx) == None
  }

  /** The event that ended a run which has made `trace` and had no receipt. */
  ghost predicate EndedBy(context: Context, openTimestamp: nat, env: Environment, trace: seq<Attempt>, error: CommandError) {
    var n := |trace|;
    match error
    case BroadcastOutcomeUncertain(hash) =>
      n > 0 && trace[n - 1].delivery == Uncertain && trace[n - 1].hash == hash && SendRaw(env.send(n - 1), hash).Err?
    case ReceiptTrackingUncertain => n > 0 && (env.latestBlock(n) == None || !Quiet(context, env.poll(n - 1)))
    case PendingAfterRetries => n == context.maxAttempts
    case ReplacementUnavailable => 0 < n < context.maxAttempts
    case PhaseEndedWithPendingTransaction => n > 0 && env.latestBlock(n).Some? && PhaseEnded(context, env.latestBlock(n).value)
    case StageEnded => n == 0 && PhaseEnded(context, openTimestamp)
    case SubmissionOutput => n < context.maxAttempts && !env.flushes(n)
    case Signature(e) => n > 0 && e == Signing && SignerFails(context.key)
    case PreparedTransactionUnavailable => n == 0
    case _ => false
  }

  /** How a run ended: with a receipt of one of its own transactions, or because of an event. */
  ghost predicate Ended(
    context: Context, openTimestamp: nat, env: Environment, trace: seq<Attempt>, mined: Option<Receipt>, result: Result<(), CommandError>)
  {
    && (forall k: nat :: k < |trace| ==> env.flushes(k))
    && match mined {
      case Some(receipt) =>
        && MinedFrom(trace, receipt)
        && result == (if receipt.success then Ok(()) else Err(TransactionReverted(receipt.blockNumber)))
        && !Quiet(context, env.poll(|trace| - 1))
      case None => result.Err? && EndedBy(context, openTimestamp, env, trace, result.error)
    }
  }

  /** A broadcast may still be mined: something was sent and no receipt arrived. */
  predicate LeavesPending(trace: seq<Attempt>, mined: Option<Receipt>) {
    trace != [] && mined.None?
  }

  /**
   * A run that leaves a transaction pending stops the session, with exactly two exceptions: the signer or
   * the output flush failing for a replacement. Those two are reported like failures before any broadcast.
   */
  lemma PendingStopsSession(
    context: Context, openTimestamp: nat, env: Environment, trace: seq<Attempt>, mined: Option<Receipt>, result: Result<(), CommandError>)
    requires Ended(context, openTimestamp, env, trace, mined, result)
    ensures LeavesPending(trace, mined) ==>
              result.Err? && (MustStopSession(result.error) <==> !result.error.SubmissionOutput? && !result.error.Signature?)
    ensures LeavesPending(trace, mined) && !MustStopSession(result.error) ==>
              !env.flushes(|trace|) || SignerFails(context.key)
  {
  }

  lemma ChainGrows(first: Transaction, bump: U32, key: Key, trace: seq<Attempt>, last: Attempt, fees: Fees)
    requires IsReplacementChain(first, bump, Fixed(first.value), key, trace) && AllDelivered(trace, |trace|)
    requires Escalated(first.fees, bump, |trace|) == Ok(fees)
    requires last.tx == first.(fees := fees) && Sign(last.tx, key) == Ok(last.hash)
    ensures IsReplacementChain(first, bump, Fixed(first.value), key, trace + [last])
  {
    AllCounted(trace);
    assert (trace + [last])[..|trace|] == trace;
    ChainSnoc(first, bump, Fixed(first.value), key, trace, last);
  }

  lemma {:induction false} AllCounted(trace: seq<Attempt>)
    requires AllDelivered(trace, |trace|)
    ensures DeliveredCount(trace) == |trace|
  {
    if trace != [] {
      AllCounted(trace[..|trace| - 1]);
    }
  }

  /** The state before attempt `|trace|`: everything so far was delivered, and `fees` are escalated once for each. */
  ghost predicate InFlight(context: Context, action: MintAction, first: Transaction, fees: Fees, trace: seq<Attempt>) {
    && IsReplacementChain(first, context.config.bump, Fixed(first.value), context.key, trace)
    && AllDelivered(trace, |trace|)
    && Escalated(first.fees, context.config.bump, |trace|) == Ok(fees)
    && (trace != [] ==> ShapeError(first).None? && action.networkId == context.chainId)
  }

  function Hashes(trace: seq<Attempt>): seq<Hash> {
    seq(|trace|, i requires 0 <= i < |trace| => trace[i].hash)
  }

  /** A signable first attempt stays signable in shape at every later fee level. */
  lemma LaterShape(first: Transaction, bump: U32, fees: Fees, k: nat)
    requires ShapeError(first).None? && Escalated(first.fees, bump, k) == Ok(fees)
    ensures ShapeError(first.(fees := fees)).None?
  {
    EscalatedCoversTip(first.fees, bump, k);
  }

  /** Waits on all hashes sent so far; an answered poll is the only way out other than "not mined". */
  method AwaitReceipt(context: Context, poll: ReceiptPolling.Environment, submitted: seq<Hash>)
    returns (receipt: Result<Option<Receipt>, ChainError>)
    requires submitted != []
    ensures receipt.Ok? && receipt.value.Some? ==> exists i: nat :: i < |submitted| && submitted[i] == receipt.value.value.hash
    ensures receipt != Ok(None) ==> !Quiet(context, poll)
  {
    var polled, rounds, end := ReceiptPolling.WaitForAnyReceipt(submitted, context.policy, poll);
    assert Quiet(context, poll) ==> ReceiptPolling.Polled(poll, submitted, 0, 0) == Ok(None);
    match polled {
      case Err(e) => return Err(e);
      case Ok(None) => return Ok(None);
      case Ok(Some((i, found))) =>
        assert ReceiptPolling.Polled(poll, submitted, rounds, i) == Ok(Some(found));
        return Ok(Some(found));
    }
  }

  /** Finalizes the receipt that arrives for any of the run's transactions, or reports that tracking failed. */
  method Settle(context: Context, openTimestamp: nat, env: Environment, submitted: seq<Hash>, ghost trace: seq<Attempt>)
    returns (settled: Option<Result<(), CommandError>>, ghost mined: Option<Receipt>)
    requires trace != [] && submitted == Hashes(trace) && AllDelivered(trace, |trace|)
    requires forall k: nat :: k < |trace| ==> env.flushes(k)
    ensures settled.Some? ==> Ended(context, openTimestamp, env, trace, mined, settled.value)
    ensures settled.Some? ==> settled.value != Err(ReplacementUnavailable) && settled.value != Err(PreparedTransactionUnavailable)
  {
    mined := None;
    var receipt := AwaitReceipt(context, env.poll(|submitted| - 1), submitted);
    if receipt.Err? {
      return Some(Err(ReceiptTrackingUncertain)), mined;
    }
    if receipt.value.None? {
      return None, mined;
    }
    var found := receipt.value.value;
    mined := Some(found);
    ghost var i: nat :| i < |submitted| && submitted[i] == found.hash;
    assert trace[i].delivery == Delivered;
    return Some(if found.success then Ok(()) else Err(TransactionReverted(found.blockNumber))), mined;
  }

  /** A mint signed ahead of time; submission consumes the first signature and escalates the fees. */
  class PreparedMint {
    const context: Context
    const action: MintAction
    const nonce: U64
    var fees: Fees
    var firstSigned: Option<Hash>

    constructor (context: Context, action: MintAction, nonce: U64, fees: Fees, signed: Hash)
      requires SignMint(context, action, nonce, fees) == Ok(signed)
      ensures this.context == context && this.action == action && this.nonce == nonce
      ensures this.fees == fees && Signed()
    {
      this.context, this.action, this.nonce := context, action, nonce;
      this.fees, this.firstSigned := fees, Some(signed);
    }

    /** The first attempt is ready to send. */
    predicate Signed()
      reads this
    {
      firstSigned.Some? && SignMint(context, action, nonce, fees) == Ok(firstSigned.value)
    }

    function Transaction(): Transaction
      reads this
    {
      MintTransaction(context, action, nonce, fees)
    }

    /** The checks, the signature and the broadcast of attempt number `attempt`, counted from zero. */
    method BroadcastAttempt(openTimestamp: nat, env: Environment, attempt: nat, ghost first: Transaction, ghost trace: seq<Attempt>)
      returns (sent: Result<Attempt, CommandError>)
      requires attempt == |trace| < context.maxAttempts && first.(fees := fees) == Transaction()
      requires InFlight(context, action, first, fees, trace)
      requires trace == [] && firstSigned.Some? ==> Signed()
      modifies this`firstSigned
      ensures sent.Ok? ==>
                && (sent.value.delivery == Delivered || sent.value.delivery == Uncertain)
                && IsReplacementChain(first, context.config.bump, Fixed(first.value), context.key, trace + [sent.value])
                && ShapeError(first).None? && action.networkId == context.chainId && env.flushes(attempt)
                && (sent.value.delivery == Uncertain ==> SendRaw(env.send(attempt), sent.value.hash).Err?)
      ensures sent.Err? ==> EndedBy(context, openTimestamp, env, trace, sent.error) && sent.error != ReplacementUnavailable
      ensures sent.Err? && old(firstSigned).Some? ==> sent.error != PreparedTransactionUnavailable
    {
      var blockTimestamp := openTimestamp;
      if attempt > 0 {
        var latest := env.latestBlock(attempt);
        if latest.None? {
          return Err(ReceiptTrackingUncertain);
        }
        blockTimestamp := latest.value;
      }
      if PhaseEnded(context, blockTimestamp) {
        return Err(if attempt == 0 then StageEnded else PhaseEndedWithPendingTransaction);
      }
      var local: Hash;
      if attempt == 0 {
        if firstSigned.None? {
          return Err(PreparedTransactionUnavailable);
        }
        local := firstSigned.value;
        firstSigned := None;
      } else {
        LaterShape(first, context.config.bump, fees, attempt);
        var signed := SignMint(context, action, nonce, fees);
        if signed.Err? {
          return Err(signed.error);
        }
        local := signed.value;
      }
      if !env.flushes(attempt) {
        return Err(SubmissionOutput);
      }
      var reply := SendRaw(env.send(attempt), local);
      sent := Ok(Attempt(Transaction(), local, if reply.Ok? then Delivered else Uncertain));
      ChainGrows(first, context.config.bump, context.key, trace, sent.value, fees);
    }

    /** Prices the next attempt, unless a fee overflows. */
    method EscalateFees(attempt: nat, ghost initial: Fees) returns (priced: bool)
      requires Escalated(initial, context.config.bump, attempt) == Ok(fees) && attempt + 1 < context.maxAttempts
      modifies this`fees
      ensures priced ==> Escalated(initial, context.config.bump, attempt + 1) == Ok(fees)
      ensures MaximumFees(context.config, context.maxAttempts, initial).Ok? ==> priced
    {
      if MaximumFees(context.config, context.maxAttempts, initial).Ok? {
        PredictionPricesEarlier(context.config, context.maxAttempts, initial, attempt + 1);
      }
      var next := Replacement(fees, context.config.bump);
      if next.Err? {
        return false;
      }
      fees := next.value;
      return true;
    }

    /** One attempt: done with a result, or delivered and not mined yet. */
    method MakeAttempt(
      openTimestamp: nat, env: Environment, attempt: nat, submitted: seq<Hash>, ghost first: Transaction,
      ghost trace: seq<Attempt>)
      returns (done: Option<Result<(), CommandError>>, hashes: seq<Hash>, ghost extended: seq<Attempt>, ghost mined: Option<Receipt>)
      requires attempt == |trace| < context.maxAttempts && first.(fees := fees) == Transaction()
      requires InFlight(context, action, first, fees, trace) && submitted == Hashes(trace)
      requires forall k: nat :: k < |trace| ==> env.flushes(k)
      requires trace == [] && firstSigned.Some? ==> Signed()
      modifies this`firstSigned
      ensures |extended| <= attempt + 1 && IsReplacementChain(first, context.config.bump, Fixed(first.value), context.key, extended)
      ensures done.None? ==>
                && |extended| == attempt + 1 && hashes == Hashes(extended) && AllDelivered(extended, |extended|)
                && (forall k: nat :: k < |extended| ==> env.flushes(k))
                && ShapeError(first).None? && action.networkId == context.chainId
      ensures done.Some? ==>
                Ended(context, openTimestamp, env, extended, mined, done.value) && done.value != Err(ReplacementUnavailable)
      ensures done.Some? && (trace != [] || old(firstSigned).Some?) ==> done.value != Err(PreparedTransactionUnavailable)
    {
      extended, hashes, mined := trace, submitted, None;
      var sent := BroadcastAttempt(openTimestamp, env, attempt, first, trace);
      if sent.Err? {
        return Some(Err(sent.error)), hashes, extended, mined;
      }
      extended := trace + [sent.value];
      if sent.value.delivery == Uncertain {
        return Some(Err(BroadcastOutcomeUncertain(sent.value.hash))), hashes, extended, mined;
      }
      hashes := submitted + [sent.value.hash];
      done, mined := Settle(context, openTimestamp, env, hashes, extended);
    }

    /**
     * Submits the mint and replaces it until it is mined, the attempts run out, or something stops it.
     * Ends with a receipt of one of its own transactions or with the exact event that stopped it.
     */
    method SubmitReplacements(openTimestamp: nat, env: Environment)
      returns (result: Result<(), CommandError>, ghost trace: seq<Attempt>, ghost mined: Option<Receipt>)
      requires firstSigned.Some? ==> Signed()
      modifies this`fees, this`firstSigned
      ensures |trace| <= context.maxAttempts
      ensures IsReplacementChain(old(Transaction()), context.config.bump, Fixed(action.value), context.key, trace)
      ensures Ended(context, openTimestamp, env, trace, mined, result)
      ensures MaximumFees(context.config, context.maxAttempts, old(fees)).Ok? ==> result != Err(ReplacementUnavailable)
      ensures old(firstSigned).Some? ==> result != Err(PreparedTransactionUnavailable)
    {
      trace, mined := [], None;
      ghost var first := Transaction();
      var submitted: seq<Hash> := [];
      for attempt := 0 to context.maxAttempts
        invariant attempt == |trace| && first.(fees := fees) == Transaction()
        invariant attempt < context.maxAttempts ==> InFlight(context, action, first, fees, trace)
        invariant IsReplacementChain(first, context.config.bump, Fixed(first.value), context.key, trace)
        invariant AllDelivered(trace, |trace|)
        invariant submitted == Hashes(trace) && mined == None
        invariant trace == [] ==> firstSigned == old(firstSigned) && (firstSigned.Some? ==> Signed())
        invariant forall k: nat :: k < |trace| ==> env.flushes(k)
      {
        var done;
        done, submitted, trace, mined := MakeAttempt(openTimestamp, env, attempt, submitted, first, trace);
        if done.Some? {
          return done.value, trace, mined;
        }
        mined := None;
        if attempt + 1 < context.maxAttempts {
          var priced := EscalateFees(attempt, first.fees);
          if !priced {
            return Err(ReplacementUnavailable), trace, mined;
          }
        }
      }
      return Err(PendingAfterRetries), trace, mined;
    }
  }

  /** A node that takes every transaction, never mines it, and an output that breaks before the second attempt. */
  function BrokenOutput(context: Context, openTimestamp: nat, first: Hash): Environment {
    Environment(
      k => Some(openTimestamp), k => k == 0, k => Returned(first),
      k => ReceiptPolling.Environment(0, 1000 * context.policy.timeoutSeconds, (r, i) => NotMined, r => 0, r => 0))
  }

  /**
   * The exception is real: for every mint that may be replaced at all there is a run that leaves its
   * transaction pending and yet reports an error that lets the session continue.
   */
  method BrokenOutputLeavesPending(prepared: PreparedMint, openTimestamp: nat)
    returns (result: Result<(), CommandError>, ghost trace: seq<Attempt>, ghost mined: Option<Receipt>)
    requires prepared.Signed() && prepared.context.maxAttempts >= 2 && !PhaseEnded(prepared.context, openTimestamp)
    requires MaximumFees(prepared.context.config, prepared.context.maxAttempts, prepared.fees).Ok?
    requires !SignerFails(prepared.context.key)
    modifies prepared`fees, prepared`firstSigned
    ensures LeavesPending(trace, mined) && result == Err(SubmissionOutput) && !MustStopSession(result.error)
  {
    var env := BrokenOutput(prepared.context, openTimestamp, prepared.firstSigned.value);
    ghost var first := prepared.Transaction();
    assert Sign(first, prepared.context.key) == Ok(prepared.firstSigned.value);
    result, trace, mined := prepared.SubmitReplacements(openTimestamp, env);
    assert forall k: nat :: Quiet(prepared.context, env.poll(k));
    assert !env.flushes(1);
    if |trace| == 1 {
      assert IsAttempt(first, prepared.context.config.bump, Fixed(prepared.action.value), prepared.context.key, trace, 0);
      assert trace[..0] == [];
      assert trace[0].tx == first;
    }
  }
}
