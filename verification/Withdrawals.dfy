/** Sweeping a wallet: the quote, and the transfer that starts from it. */
module Withdrawals {
  import opened Words
  import opened FeePolicy
  import opened Transactions
  import opened Replacements
  import opened Transfers
  import ReceiptPolling

  const GAS_BUFFER_BPS: nat := 12_000
  const MINIMUM_GAS_BUFFER: nat := 5_000

  /** A gas limit at least a fifth and at least 5000 above the estimate. */
  function BufferedGas(estimate: U64): (r: Result<U64, FundsError>)
    ensures r.Ok? ==> estimate > 0 && r.value >= estimate + MINIMUM_GAS_BUFFER && r.value * BASIS_POINTS >= estimate * GAS_BUFFER_BPS
    ensures r.Err? <==> estimate == 0 || estimate * GAS_BUFFER_BPS + BASIS_POINTS - 1 > MAX_U64
  {
    if estimate == 0 then Err(ArithmeticOverflow)
    else if estimate * GAS_BUFFER_BPS + (BASIS_POINTS - 1) > MAX_U64 then Err(ArithmeticOverflow)
    else
      // The overflow check on this sum cannot fail once the one on the product has passed.
      Ok(Max((estimate * GAS_BUFFER_BPS + (BASIS_POINTS - 1)) / BASIS_POINTS, estimate + MINIMUM_GAS_BUFFER))
  }

  datatype Quote = Quote(fees: Fees, maximumFees: Fees, gasLimit: U64, initialValue: U256)

  /** The node's gas estimates: call number and value sent, to the estimate or an error. */
  type Estimator = (nat, U256) -> Result<U64, ChainError>

  /** Call 0 probes with one wei, or with nothing; calls 1 and 2 ask for the value to be sent. */
  function Probe(balance: U256): U256 {
    if balance >= 1 then 1 else 0
  }

  /** In call 1 or 2 the node accepted a transfer of exactly this value within this gas limit. */
  ghost predicate EstimatedWithin(estimator: Estimator, value: U256, gasLimit: U64) {
    exists call: nat :: 1 <= call <= 2 && estimator(call, value).Ok? && estimator(call, value).value <= gasLimit
  }

  /** This gas limit buffers the estimate of call 0, or that of call 1 for a value that is positive and within the balance. */
  ghost predicate BufferedGasOf(estimator: Estimator, balance: U256, gasLimit: U64) {
    exists call: nat, value: U256 ::
      && call <= 1 && (if call == 0 then value == Probe(balance) else 0 < value <= balance)
      && estimator(call, value).Ok? && BufferedGas(estimator(call, value).value) == Ok(gasLimit)
  }

  /** What a quote promises about a balance. */
  ghost predicate IsSafeQuote(config: FeesConfig, estimate: Fees, balance: U256, estimator: Estimator, quote: Quote) {
    && InitialTransactionFees(config, estimate) == Ok(quote.fees)
    && MaximumFees(config, DIRECT_TRANSFER_MAX_ATTEMPTS, quote.fees) == Ok(quote.maximumFees)
    && quote.gasLimit * quote.maximumFees.maxFee < balance
    && quote.initialValue > 0
    && quote.initialValue + quote.gasLimit * quote.fees.maxFee == balance
    && BufferedGasOf(estimator, balance, quote.gasLimit)
    && EstimatedWithin(estimator, quote.initialValue, quote.gasLimit)
  }

  /** Above the reserve at the maximum fee there is something to sweep at the initial fee. */
  lemma ReserveLeavesValue(config: FeesConfig, fees: Fees, gasLimit: U64, balance: U256)
    requires MaximumFees(config, DIRECT_TRANSFER_MAX_ATTEMPTS, fees).Ok?
    requires gasLimit * MaximumFees(config, DIRECT_TRANSFER_MAX_ATTEMPTS, fees).value.maxFee < balance
    ensures ValueAtFee(Sweep(balance), gasLimit, fees.maxFee).Ok?
  {
    PredictionPricesEarlier(config, DIRECT_TRANSFER_MAX_ATTEMPTS, fees, 0);
    LowerCapHasValue(Sweep(balance), gasLimit, fees.maxFee, MaximumFees(config, DIRECT_TRANSFER_MAX_ATTEMPTS, fees).value.maxFee);
  }

  method QuoteWithdrawal(
    config: FeesConfig, wallet: Address, balance: U256, estimate: Fees, estimator: Estimator)
    returns (result: Result<Option<Quote>, FundsError>)
    ensures result.Ok? && result.value.Some? ==> IsSafeQuote(config, estimate, balance, estimator, result.value.value)
    // Declining means the recipient rejects even the probe, or the balance does not exceed a full reserve.
    ensures result == Ok(None) ==>
              || (exists code: int :: estimator(0, Probe(balance)) == Err(Rpc(code)))
              || (exists gasLimit: U64, fees: Fees :: BufferedGasOf(estimator, balance, gasLimit)
                    && InitialTransactionFees(config, estimate) == Ok(fees)
                    && MaximumFees(config, DIRECT_TRANSFER_MAX_ATTEMPTS, fees).Ok?
                    && balance <= gasLimit * MaximumFees(config, DIRECT_TRANSFER_MAX_ATTEMPTS, fees).value.maxFee)
    ensures result.Err? ==> result.error != NothingToWithdraw
  {
    var initial := InitialTransactionFees(config, estimate);
    if initial.Err? {
      return Err(Fee(initial.error));
    }
    var fees := initial.value;
    var predicted := MaximumTransactionFees(config, DIRECT_TRANSFER_MAX_ATTEMPTS, fees);
    if predicted.Err? {
      return Err(Fee(predicted.error));
    }
    var maximumFees := predicted.value;
    var probe := estimator(0, Probe(balance));
    if probe.Err? {
      return if probe.error.Rpc? then Ok(None) else Err(Chain(probe.error));
    }
    var buffered := BufferedGas(probe.value);
    if buffered.Err? {
      return Err(buffered.error);
    }
    var gasLimit := buffered.value;
    assert BufferedGasOf(estimator, balance, gasLimit);
    var reserve := MaximumGasCost(gasLimit, maximumFees.maxFee);
    if reserve.Err? {
      return Err(reserve.error);
    }
    if balance <= reserve.value {
      return Ok(None);
    }
    ReserveLeavesValue(config, fees, gasLimit, balance);
    var initialValue := ValueAtFee(Sweep(balance), gasLimit, fees.maxFee).value;
    var final := estimator(1, initialValue);
    if final.Err? {
      return Err(Chain(final.error));
    }
    if final.value > gasLimit {
      buffered := BufferedGas(final.value);
      if buffered.Err? {
        return Err(buffered.error);
      }
      gasLimit := buffered.value;
      assert BufferedGasOf(estimator, balance, gasLimit);
      reserve := MaximumGasCost(gasLimit, maximumFees.maxFee);
      if reserve.Err? {
        return Err(reserve.error);
      }
      if balance <= reserve.value {
        return Ok(None);
      }
      ReserveLeavesValue(config, fees, gasLimit, balance);
      initialValue := ValueAtFee(Sweep(balance), gasLimit, fees.maxFee).value;
      final := estimator(2, initialValue);
      if final.Err? {
        return Err(Chain(final.error));
      }
      if final.value > gasLimit {
        return Err(WithdrawalGasUnstable(wallet));
      }
    }
    return Ok(Some(Quote(fees, maximumFees, gasLimit, initialValue)));
  }

  /** Sends the whole balance: what it sends plus the most its gas may cost is all there is. */
  predicate MovesAll(tx: Transaction, balance: U256) {
    tx.value > 0 && tx.value + tx.gasLimit * tx.fees.maxFee == balance
  }

  ghost predicate AllMoveAll(trace: seq<Attempt>, nonce: U64, recipient: Address, balance: U256) {
    forall i: nat :: i < |trace| ==>
      MovesAll(trace[i].tx, balance) && trace[i].tx.nonce == nonce && trace[i].tx.target == recipient && trace[i].tx.calldata == []
  }

  ghost predicate NeverSendsMore(trace: seq<Attempt>) {
    forall i: nat, j: nat :: i <= j < |trace| ==> trace[j].tx.value <= trace[i].tx.value
  }

  lemma CarriedWithinBalance(trace: seq<Attempt>, nonce: U64, recipient: Address, balance: U256, hash: Hash, value: U256)
    requires AllMoveAll(trace, nonce, recipient, balance) && Carried(trace, hash, value)
    ensures 0 < value <= balance
  {
    var i: nat :| i < |trace| && trace[i].hash == hash && trace[i].tx.value == value;
    assert MovesAll(trace[i].tx, balance);
  }

  /** Sweeps a wallet whose quote reserved enough: no attempt of any run is impossible to price. */
  method SweepReserved(
    config: FeesConfig, policy: ReceiptPolling.Policy, key: Key, first: Transaction, balance: U256, network: Network)
    returns (result: Result<(Receipt, U256), FundsError>, ghost trace: seq<Attempt>)
    requires Reserved(config, first, Sweep(balance)) && first.calldata == []
    ensures result.Err? ==> !IsPricingError(result.error)
    ensures AllMoveAll(trace, first.nonce, first.target, balance) && NeverSendsMore(trace)
    ensures result.Ok? ==> Carried(trace, result.value.0.hash, result.value.1)
    ensures result.Ok? ==> result.value.0.success && 0 < result.value.1 <= balance
  {
    ghost var mined;
    result, trace, mined := SubmitTransfer(config, policy, key, first, Sweep(balance), network);
    SweepAttempts(config, first, balance, key, trace);
    if result.Ok? {
      CarriedWithinBalance(trace, first.nonce, first.target, balance, result.value.0.hash, result.value.1);
    }
  }

  /**
   * Sweep safety. A wallet that gets past the quote is swept without ever running out of fees or balance,
   * for any mix of throttling, delays and timeouts, and every attempt moves the balance exactly.
   */
  method SweepWallet(
    config: FeesConfig, policy: ReceiptPolling.Policy, key: Key, chainId: U64, nonce: U64, wallet: Address, recipient: Address,
    balance: U256, estimate: Fees, estimator: Estimator, network: Network)
    returns (result: Result<Option<(Receipt, U256)>, FundsError>, ghost quoted: bool, ghost trace: seq<Attempt>)
    ensures quoted && result.Err? ==> !IsPricingError(result.error)
    ensures !quoted ==> trace == []
    ensures AllMoveAll(trace, nonce, recipient, balance) && NeverSendsMore(trace)
    ensures result.Ok? && result.value.Some? ==> Carried(trace, result.value.value.0.hash, result.value.value.1)
    ensures result.Ok? && result.value.Some? ==> result.value.value.0.success && 0 < result.value.value.1 <= balance
  {
    quoted, trace := false, [];
    var quote := QuoteWithdrawal(config, wallet, balance, estimate, estimator);
    if quote.Err? {
      return Err(quote.error), quoted, trace;
    }
    if quote.value.None? {
      return Ok(None), quoted, trace;
    }
    quoted := true;
    var q := quote.value.value;
    var first := Transaction(chainId, nonce, q.fees, q.gasLimit, recipient, 0, []);
    QuoteReserves(config, estimate, balance, estimator, q, first);
    var sent, sentTrace := SweepReserved(config, policy, key, first, balance, network);
    return (if sent.Err? then Err(sent.error) else Ok(Some(sent.value))), quoted, sentTrace;
  }

  lemma QuoteReserves(config: FeesConfig, estimate: Fees, balance: U256, estimator: Estimator, quote: Quote, first: Transaction)
    requires IsSafeQuote(config, estimate, balance, estimator, quote)
    requires first.fees == quote.fees && first.gasLimit == quote.gasLimit
    ensures Reserved(config, first, Sweep(balance))
  {
  }

  lemma SweepAttempts(config: FeesConfig, first: Transaction, balance: U256, key: Key, trace: seq<Attempt>)
    requires Reserved(config, first, Sweep(balance)) && first.calldata == []
    requires IsReplacementChain(first, config.bump, Sweep(balance), key, trace) && |trace| <= DIRECT_TRANSFER_MAX_ATTEMPTS
    ensures AllMoveAll(trace, first.nonce, first.target, balance) && NeverSendsMore(trace)
  {
    forall i: nat | i < |trace|
      ensures MovesAll(trace[i].tx, balance)
      ensures trace[i].tx.nonce == first.nonce && trace[i].tx.target == first.target && trace[i].tx.calldata == []
    {
      assert IsAttempt(first, config.bump, Sweep(balance), key, trace, i);
      AttemptsWithinPrediction(config, DIRECT_TRANSFER_MAX_ATTEMPTS, first, Sweep(balance), key, trace, i);
    }
    forall i: nat, j: nat | i <= j < |trace|
      ensures trace[j].tx.value <= trace[i].tx.value
    {
      if i < j {
        LaterAttemptOutbids(first, config.bump, Sweep(balance), key, trace, i, j);
      }
    }
  }
}
