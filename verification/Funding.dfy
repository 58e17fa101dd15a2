/** Funding every wallet of a manifest from one payer, one transfer after another. */
module Funding {
  import opened Words
  import opened FeePolicy
  import opened Transactions
  import opened Replacements
  import opened Transfers
  import ReceiptPolling

  /** The payer as the node reports it; `codeIsAllowed` is false for malformed or non-EIP-7702 code. */
  datatype Account = Account(balance: U256, nonce: U64, codeIsAllowed: bool)

  datatype Submission = Submission(nonce: U64, fees: Fees, maximumCost: U256)

  /** Prices `value` plus `gasLimit` at the predicted maximum fee and checks the balance against it. */
  function FundingSubmission(config: FeesConfig, account: Account, estimate: Fees, value: U256, gasLimit: U64)
    : (r: Result<Submission, FundsError>)
    ensures r.Ok? ==> r.value.nonce == account.nonce && r.value.maximumCost <= account.balance
    ensures r.Err? && r.error.PayerUnderfunded? ==> r.error.requiredWei > account.balance
  {
    if !account.codeIsAllowed then Err(InvalidPayerCode)
    else
      match InitialTransactionFees(config, estimate)
      case Err(e) => Err(Fee(e))
      case Ok(fees) =>
        match MaximumFees(config, DIRECT_TRANSFER_MAX_ATTEMPTS, fees)
        case Err(e) => Err(Fee(e))
        case Ok(maximum) =>
          match MaximumGasCost(gasLimit, maximum.maxFee)
          case Err(e) => Err(e)
          case Ok(gasCost) =>
            if value + gasCost > MAX_U256 then Err(ArithmeticOverflow)
            else if account.balance < value + gasCost then Err(PayerUnderfunded(value + gasCost))
            else Ok(Submission(account.nonce, fees, value + gasCost))
  }

  /** A balance that covers value and gas at the predicted maximum is never reported as underfunded. */
  lemma CoveredIsFunded(config: FeesConfig, account: Account, estimate: Fees, value: U256, gasLimit: U64, fees: Fees, maximum: Fees)
    requires InitialTransactionFees(config, estimate) == Ok(fees)
    requires MaximumFees(config, DIRECT_TRANSFER_MAX_ATTEMPTS, fees) == Ok(maximum)
    requires account.codeIsAllowed && value + gasLimit * maximum.maxFee <= account.balance
    ensures FundingSubmission(config, account, estimate, value, gasLimit).Ok?
  {
    assert MaximumGasCost(gasLimit, maximum.maxFee).Ok?;
  }

  function Sum(values: seq<nat>): nat {
    if values == [] then 0 else values[0] + Sum(values[1..])
  }

  lemma SumSuffix(values: seq<nat>, i: nat)
    requires i < |values|
    ensures Sum(values[i..]) == values[i] + Sum(values[i + 1..])
  {
    assert values[i..][1..] == values[i + 1..];
  }

  lemma {:induction false} SumSuffixAtMost(values: seq<nat>, i: nat)
    requires i <= |values|
    ensures Sum(values[i..]) <= Sum(values)
  {
    if i > 0 {
      SumSuffixAtMost(values, i - 1);
      SumSuffix(values, i - 1);
    } else {
      assert values[0..] == values;
    }
  }

  /** The fold that the loop runs over the remaining gas limits, with its overflow check. */
  method CheckedSum(values: seq<U64>) returns (r: Result<U64, FundsError>)
    ensures r == if Sum(values) <= MAX_U64 then Ok(Sum(values)) else Err(ArithmeticOverflow)
  {
    var total: nat := 0;
    var i := 0;
    while i < |values|
      invariant i <= |values| && total <= MAX_U64
      invariant total + Sum(values[i..]) == Sum(values)
    {
      SumSuffix(values, i);
      if total + values[i] > MAX_U64 {
        return Err(ArithmeticOverflow);
      }
      total := total + values[i];
      i := i + 1;
    }
    return Ok(total);
  }

  /** Everything outside: the account and fee estimate at refresh `i`, and the node during transfer `i`. */
  datatype Environment = Environment(account: nat -> Account, estimate: nat -> Fees, network: nat -> Network)

  /** One confirmed funding run. */
  datatype Plan = Plan(
    config: FeesConfig, policy: ReceiptPolling.Policy, key: Key, chainId: U64,
    wallets: seq<Address>, gasLimits: seq<U64>, amount: U256, env: Environment)

  predicate ValidPlan(plan: Plan) {
    |plan.wallets| == |plan.gasLimits|
  }

  /** One finished transfer of the loop. */
  datatype Leg = Leg(
    submission: Submission, first: Transaction, trace: seq<Attempt>, result: Result<(Receipt, U256), FundsError>,
    mined: Option<Receipt>)

  /**
   * No debit but this transfer's own: between two refreshes a mined transfer takes one nonce and at most
   * what it could cost; a transfer that was not mined changes nothing.
   */
  ghost predicate OnlyOwnDebit(leg: Leg, before: Account, after: Account) {
    && after.codeIsAllowed
    && match leg.mined {
      case None => after.nonce == before.nonce && after.balance >= before.balance
      case Some(receipt) => after.nonce == before.nonce + 1 && PaidAtMost(leg.trace, receipt, before.balance - after.balance)
    }
  }

  ghost predicate UndisturbedAt(plan: Plan, legs: seq<Leg>, i: nat)
    requires i < |legs|
  {
    plan.env.estimate(i + 1) == plan.env.estimate(i) && OnlyOwnDebit(legs[i], plan.env.account(i), plan.env.account(i + 1))
  }

  /** Fee estimates never move and nobody else debits the payer, over the first `n` transfers of a run. */
  ghost predicate Undisturbed(plan: Plan, legs: seq<Leg>, n: nat)
    requires n <= |legs|
  {
    forall i: nat :: i < n ==> UndisturbedAt(plan, legs, i)
  }

  /** Leg `i` pays wallet `i` with the nonce the node reported just before. */
  ghost predicate IsLeg(plan: Plan, leg: Leg, i: nat)
    requires ValidPlan(plan) && i < |plan.wallets|
  {
    && leg.submission.nonce == leg.first.nonce == plan.env.account(i).nonce
    && InitialTransactionFees(plan.config, plan.env.estimate(i)) == Ok(leg.first.fees)
    && leg.first.target == plan.wallets[i] && leg.first.gasLimit == plan.gasLimits[i]
    && IsReplacementChain(leg.first, plan.config.bump, Fixed(plan.amount), plan.key, leg.trace)
    && |leg.trace| <= DIRECT_TRANSFER_MAX_ATTEMPTS
    && Explains(leg.trace, leg.mined, leg.result)
  }

  ghost predicate AreLegs(plan: Plan, legs: seq<Leg>)
    requires ValidPlan(plan)
  {
    |legs| <= |plan.wallets| && forall i: nat :: i < |legs| ==> IsLeg(plan, legs[i], i)
  }

  function Succeeded(legs: seq<Leg>): nat {
    if legs == [] then 0 else Succeeded(legs[..|legs| - 1]) + if legs[|legs| - 1].result.Ok? then 1 else 0
  }

  /** The value that successful transfers moved. */
  function SentValue(legs: seq<Leg>): nat {
    if legs == [] then 0
    else SentValue(legs[..|legs| - 1]) + if legs[|legs| - 1].result.Ok? then legs[|legs| - 1].result.value.1 else 0
  }

  /** A successful transfer moved exactly the funded amount. */
  lemma LegSendsAmount(plan: Plan, leg: Leg, i: nat)
    requires ValidPlan(plan) && i < |plan.wallets|
    requires IsLeg(plan, leg, i) && leg.result.Ok?
    ensures leg.result.value.1 == plan.amount
  {
    var (receipt, value) := leg.result.value;
    var k: nat :|
      && k < |leg.trace| && leg.trace[k].delivery == Delivered
      && leg.trace[k].hash == receipt.hash && leg.trace[k].tx.value == value;
    assert IsAttempt(leg.first, plan.config.bump, Fixed(plan.amount), plan.key, leg.trace, k);
  }

  lemma {:induction false} EqualValuesAddUp(legs: seq<Leg>, amount: nat)
    requires forall i: nat :: i < |legs| && legs[i].result.Ok? ==> legs[i].result.value.1 == amount
    ensures SentValue(legs) == amount * Succeeded(legs)
  {
    if legs != [] {
      EqualValuesAddUp(legs[..|legs| - 1], amount);
    }
  }

  /** Over a whole run the value sent is the amount times the number of successes. */
  lemma SentIsAmountTimesSucceeded(plan: Plan, legs: seq<Leg>)
    requires ValidPlan(plan) && AreLegs(plan, legs)
    ensures SentValue(legs) == plan.amount * Succeeded(legs)
  {
    forall i: nat | i < |legs| && legs[i].result.Ok? ensures legs[i].result.value.1 == plan.amount {
      LegSendsAmount(plan, legs[i], i);
    }
    EqualValuesAddUp(legs, plan.amount);
  }

  /** What one transfer can take from the payer: its share of the reserve. */
  lemma LegCost(plan: Plan, leg: Leg, i: nat, maximum: Fees)
    requires ValidPlan(plan) && i < |plan.wallets|
    requires IsLeg(plan, leg, i) && OnlyOwnDebit(leg, plan.env.account(i), plan.env.account(i + 1))
    requires MaximumFees(plan.config, DIRECT_TRANSFER_MAX_ATTEMPTS, leg.first.fees) == Ok(maximum)
    ensures plan.env.account(i + 1).balance + plan.amount + plan.gasLimits[i] * maximum.maxFee >= plan.env.account(i).balance
  {
    MulMonotone(0, plan.gasLimits[i], maximum.maxFee);
    if leg.mined.Some? {
      DebitWithinPrediction(plan.config, DIRECT_TRANSFER_MAX_ATTEMPTS, leg.first, plan.amount, plan.key, leg.trace,
                            leg.mined.value, plan.env.account(i).balance - plan.env.account(i + 1).balance);
    }
  }

  /** The reserve for what is left: each remaining wallet's amount and its gas at the maximum fee. */
  function Remaining(amount: U256, gasLimits: seq<U64>, offset: nat, maxFee: U256): nat
    requires offset <= |gasLimits|
    decreases |gasLimits| - offset
  {
    if offset == |gasLimits| then 0
    else amount + gasLimits[offset] * maxFee + Remaining(amount, gasLimits, offset + 1, maxFee)
  }

  /** The reserve is what each gate computes: the remaining value plus the remaining gas at the maximum fee. */
  lemma {:induction false} RemainingIsGate(amount: U256, gasLimits: seq<U64>, offset: nat, maxFee: U256)
    requires offset <= |gasLimits|
    ensures Remaining(amount, gasLimits, offset, maxFee) == amount * (|gasLimits| - offset) + Sum(gasLimits[offset..]) * maxFee
    decreases |gasLimits| - offset
  {
    if offset < |gasLimits| {
      RemainingIsGate(amount, gasLimits, offset + 1, maxFee);
      SumSuffix(gasLimits, offset);
      var rest := Sum(gasLimits[offset + 1..]);
      assert (gasLimits[offset] + rest) * maxFee == gasLimits[offset] * maxFee + rest * maxFee;
      var n := |gasLimits| - offset;
      assert amount * n == amount * (n - 1) + amount;
    }
  }

  /** In an undisturbed run the payer still holds the reserve for everything that is left. */
  lemma {:induction false} ReserveLasts(plan: Plan, legs: seq<Leg>, n: nat, fees: Fees, maximum: Fees)
    requires ValidPlan(plan) && AreLegs(plan, legs) && n <= |legs|
    requires Undisturbed(plan, legs, n)
    requires InitialTransactionFees(plan.config, plan.env.estimate(0)) == Ok(fees)
    requires MaximumFees(plan.config, DIRECT_TRANSFER_MAX_ATTEMPTS, fees) == Ok(maximum)
    requires plan.env.account(0).balance >= Remaining(plan.amount, plan.gasLimits, 0, maximum.maxFee)
    ensures plan.env.estimate(n) == plan.env.estimate(0)
    ensures plan.env.account(n).balance >= Remaining(plan.amount, plan.gasLimits, n, maximum.maxFee)
    ensures n > 0 ==> plan.env.account(n).codeIsAllowed
  {
    if n > 0 {
      ReserveLasts(plan, legs, n - 1, fees, maximum);
      assert UndisturbedAt(plan, legs, n - 1) && IsLeg(plan, legs[n - 1], n - 1);
      LegCost(plan, legs[n - 1], n - 1, maximum);
    }
  }

  /** Every refresh of an undisturbed run passes the gate that the first one passed. */
  lemma {:induction false} RefreshPasses(plan: Plan, legs: seq<Leg>, value: U256, gasLimit: U64)
    requires ValidPlan(plan) && AreLegs(plan, legs) && 0 < |legs| < |plan.wallets|
    requires TotalsFit(plan) && GatePassed(plan)
    requires value == plan.amount * (|plan.wallets| - |legs|) && gasLimit == Sum(plan.gasLimits[|legs|..])
    requires Undisturbed(plan, legs, |legs|)
    ensures FundingSubmission(plan.config, plan.env.account(|legs|), plan.env.estimate(|legs|), value, gasLimit).Ok?
  {
    var n := |legs|;
    var fees := InitialTransactionFees(plan.config, plan.env.estimate(0)).value;
    var maximum := MaximumFees(plan.config, DIRECT_TRANSFER_MAX_ATTEMPTS, fees).value;
    RemainingIsGate(plan.amount, plan.gasLimits, 0, maximum.maxFee);
    assert plan.gasLimits[0..] == plan.gasLimits;
    ReserveLasts(plan, legs, n, fees, maximum);
    RemainingIsGate(plan.amount, plan.gasLimits, n, maximum.maxFee);
    CoveredIsFunded(plan.config, plan.env.account(n), plan.env.estimate(n), value, gasLimit, fees, maximum);
  }

  lemma LegsSnoc(plan: Plan, legs: seq<Leg>, leg: Leg)
    requires ValidPlan(plan) && AreLegs(plan, legs) && |legs| < |plan.wallets| && IsLeg(plan, leg, |legs|)
    ensures AreLegs(plan, legs + [leg])
    ensures Succeeded(legs + [leg]) == Succeeded(legs) + if leg.result.Ok? then 1 else 0
  {
    assert (legs + [leg])[..|legs|] == legs;
    forall i: nat | i < |legs| + 1 ensures IsLeg(plan, (legs + [leg])[i], i) {
      if i < |legs| {
        assert IsLeg(plan, legs[i], i);
      }
    }
  }

  /** The run got past transfer `i`: it was mined, or the node refused it three times. */
  predicate Continues(result: Result<(Receipt, U256), FundsError>) {
    result.Ok? || result.error.Reverted? || result.error.RateLimitExhausted?
  }

  /** A submission priced by refresh `i`. */
  ghost predicate PricedAt(plan: Plan, submission: Submission, i: nat) {
    && InitialTransactionFees(plan.config, plan.env.estimate(i)) == Ok(submission.fees)
    && MaximumFees(plan.config, DIRECT_TRANSFER_MAX_ATTEMPTS, submission.fees).Ok?
  }

  /** The total value and the total gas fit their words. */
  predicate TotalsFit(plan: Plan) {
    plan.amount * |plan.wallets| <= MAX_U256 && Sum(plan.gasLimits) <= MAX_U64
  }

  /** The gate before the first transfer: the total value and gas, at the first refresh. */
  ghost predicate GatePassed(plan: Plan)
    requires TotalsFit(plan)
  {
    FundingSubmission(
      plan.config, plan.env.account(0), plan.env.estimate(0), plan.amount * |plan.wallets|, Sum(plan.gasLimits)).Ok?
  }

  method FirstSubmission(plan: Plan) returns (r: Result<Submission, FundsError>)
    requires TotalsFit(plan)
    ensures r.Ok? <==> GatePassed(plan)
    ensures r.Ok? ==> PricedAt(plan, r.value, 0) && r.value.nonce == plan.env.account(0).nonce
    ensures r.Err? ==> !r.error.PartialFailure?
  {
    var gas := CheckedSum(plan.gasLimits);
    r := FundingSubmission(plan.config, plan.env.account(0), plan.env.estimate(0), plan.amount * |plan.wallets|, gas.value);
  }

  /** Refreshes the submission for the wallets from `offset` on. */
  method RefreshSubmission(plan: Plan, offset: nat, ghost legs: seq<Leg>) returns (r: Result<Submission, FundsError>)
    requires ValidPlan(plan) && AreLegs(plan, legs) && 0 < offset == |legs| < |plan.wallets|
    requires TotalsFit(plan) && GatePassed(plan)
    ensures r.Ok? ==> PricedAt(plan, r.value, offset) && r.value.nonce == plan.env.account(offset).nonce
    ensures r.Err? ==> !r.error.PartialFailure? && !Undisturbed(plan, legs, offset)
  {
    var count := |plan.wallets| - offset;
    var value := RemainingValue(plan, offset);
    SumSuffixAtMost(plan.gasLimits, offset);
    var gas := CheckedSum(plan.gasLimits[offset..]);
    r := FundingSubmission(plan.config, plan.env.account(offset), plan.env.estimate(offset), value, gas.value);
    if Undisturbed(plan, legs, offset) {
      RefreshPasses(plan, legs, value, gas.value);
    }
  }

  function RemainingValue(plan: Plan, offset: nat): (value: U256)
    requires offset <= |plan.wallets| && plan.amount * |plan.wallets| <= MAX_U256
    ensures value == plan.amount * (|plan.wallets| - offset)
  {
    MulMonotone(|plan.wallets| - offset, |plan.wallets|, plan.amount);
    plan.amount * (|plan.wallets| - offset)
  }

  /** Errors that a funding gate reports, or that ends a completed run. */
  predicate IsGateError(error: FundsError) {
    error.PayerUnderfunded? || error.Fee? || error.InvalidPayerCode? || error.NothingToWithdraw? || error.PartialFailure?
  }

  /** Pays one wallet, retrying as `SubmitTransfer` does. */
  method FundWallet(plan: Plan, offset: nat, submission: Submission)
    returns (sent: Result<(Receipt, U256), FundsError>, ghost leg: Leg)
    requires ValidPlan(plan) && offset < |plan.wallets|
    requires PricedAt(plan, submission, offset) && submission.nonce == plan.env.account(offset).nonce
    ensures IsLeg(plan, leg, offset) && leg.result == sent && leg.submission == submission
    ensures sent.Err? ==> !IsGateError(sent.error)
    ensures Continues(sent) ==> (leg.mined.Some? <==> sent.Ok? || sent.error.Reverted?)
  {
    var first := Transaction(
      plan.chainId, submission.nonce, submission.fees, plan.gasLimits[offset], plan.wallets[offset], plan.amount, []);
    assert Reserved(plan.config, first, Fixed(plan.amount));
    var result, trace, mined := SubmitTransfer(plan.config, plan.policy, plan.key, first, Fixed(plan.amount), plan.env.network(offset));
    sent := result;
    leg := Leg(submission, first, trace, sent, mined);
  }

  /** After an undisturbed transfer the node reports the nonce that the loop advances to. */
  lemma NonceAdvances(plan: Plan, legs: seq<Leg>, leg: Leg)
    requires leg.submission.nonce == plan.env.account(|legs|).nonce
    ensures forall i: nat :: i <= |legs| ==> (Undisturbed(plan, legs + [leg], i) <==> Undisturbed(plan, legs, i))
    ensures Undisturbed(plan, legs + [leg], |legs| + 1) ==>
              && Undisturbed(plan, legs, |legs|)
              && plan.env.account(|legs| + 1).nonce == leg.submission.nonce + if leg.mined.Some? then 1 else 0
  {
    forall i: nat | i <= |legs| ensures Undisturbed(plan, legs + [leg], i) <==> Undisturbed(plan, legs, i) {
      forall k: nat | k < i ensures UndisturbedAt(plan, legs + [leg], k) <==> UndisturbedAt(plan, legs, k) {
        assert (legs + [leg])[k] == legs[k];
      }
    }
    if Undisturbed(plan, legs + [leg], |legs| + 1) {
      assert UndisturbedAt(plan, legs + [leg], |legs|);
    }
  }

  /** The loop's bookkeeping before wallet `|legs|`. */
  ghost predicate Progress(plan: Plan, legs: seq<Leg>, advanced: seq<nat>, submission: Submission, succeeded: nat, failed: nat)
    requires ValidPlan(plan)
  {
    && |legs| == |advanced| == succeeded + failed
    && AreLegs(plan, legs) && Succeeded(legs) == succeeded
    && (forall i: nat :: i < |legs| ==> Continues(legs[i].result))
    && (|legs| == 0 ==> PricedAt(plan, submission, 0) && submission.nonce == plan.env.account(0).nonce)
    && (|legs| < |plan.wallets| && Undisturbed(plan, legs, |legs|) ==> submission.nonce == plan.env.account(|legs|).nonce)
    && NoncesMatch(plan, legs, advanced)
  }

  /** Each nonce kept locally is the one the node reported, as long as nothing else touched the account. */
  ghost predicate NoncesMatch(plan: Plan, legs: seq<Leg>, advanced: seq<nat>) {
    forall i: nat :: i < |advanced| && i <= |legs| && Undisturbed(plan, legs, i) ==> advanced[i] == plan.env.account(i).nonce
  }

  lemma NoncesGrow(plan: Plan, legs: seq<Leg>, advanced: seq<nat>, held: U64, leg: Leg)
    requires |advanced| == |legs| && NoncesMatch(plan, legs, advanced)
    requires Undisturbed(plan, legs, |legs|) ==> held == plan.env.account(|legs|).nonce
    requires leg.submission.nonce == plan.env.account(|legs|).nonce
    ensures NoncesMatch(plan, legs, advanced + [held]) && NoncesMatch(plan, legs + [leg], advanced + [held])
  {
    NonceAdvances(plan, legs, leg);
  }

  /** The bookkeeping after a transfer that the loop gets past, with the nonce advanced when it was mined. */
  lemma ProgressGrows(
    plan: Plan, legs: seq<Leg>, advanced: seq<nat>, held: Submission, succeeded: nat, failed: nat, leg: Leg, next: Submission)
    requires ValidPlan(plan) && |legs| < |plan.wallets| && Progress(plan, legs, advanced, held, succeeded, failed)
    requires IsLeg(plan, leg, |legs|) && Continues(leg.result) && (leg.mined.Some? <==> leg.result.Ok? || leg.result.error.Reverted?)
    requires |legs| + 1 < |plan.wallets| ==> next.nonce == leg.submission.nonce + if leg.mined.Some? then 1 else 0
    ensures var ok := if leg.result.Ok? then 1 else 0;
            Progress(plan, legs + [leg], advanced + [held.nonce], next, succeeded + ok, failed + 1 - ok)
  {
    LegsSnoc(plan, legs, leg);
    NonceAdvances(plan, legs, leg);
    if |legs| == 0 {
      assert Undisturbed(plan, legs, 0);
    }
    NoncesGrow(plan, legs, advanced, held.nonce, leg);
  }

  /** One pass of the loop. */
  method FundNext(plan: Plan, offset: nat, held: Submission, succeeded: nat, failed: nat, ghost legs: seq<Leg>, ghost advanced: seq<nat>)
    returns (error: Option<FundsError>, submission: Submission, ok: nat, bad: nat, ghost extended: seq<Leg>, ghost nonces: seq<nat>)
    requires ValidPlan(plan) && offset == |legs| < |plan.wallets|
    requires TotalsFit(plan) && GatePassed(plan)
    requires Progress(plan, legs, advanced, held, succeeded, failed)
    ensures |nonces| == offset + 1 && NoncesMatch(plan, extended, nonces)
    ensures error.None? ==> |extended| == offset + 1 && Progress(plan, extended, nonces, submission, ok, bad)
    ensures error.Some? ==>
              && AreLegs(plan, extended) && offset <= |extended| <= offset + 1
              && (forall i: nat :: i < offset ==> Continues(extended[i].result))
              && (extended != [] && Undisturbed(plan, extended, |extended|) ==> !IsGateError(error.value))
    ensures error.None? ==> ok + bad == offset + 1 && succeeded <= ok && failed <= bad
    ensures error.Some? ==> !error.value.PartialFailure?
  {
    submission, ok, bad, extended, nonces := held, succeeded, failed, legs, advanced + [held.nonce];
    if offset != 0 {
      var refreshed := RefreshSubmission(plan, offset, legs);
      if refreshed.Err? {
        return Some(refreshed.error), submission, ok, bad, extended, nonces;
      }
      submission := refreshed.value;
    }
    var sent, leg := FundWallet(plan, offset, submission);
    LegsSnoc(plan, legs, leg);
    NoncesGrow(plan, legs, advanced, held.nonce, leg);
    extended := legs + [leg];
    if !Continues(sent) {
      return Some(sent.error), submission, ok, bad, extended, nonces;
    }
    ok, bad := if sent.Ok? then (succeeded + 1) else succeeded, if sent.Ok? then failed else (failed + 1);
    if (sent.Ok? || sent.error.Reverted?) && offset + 1 < |plan.wallets| {
      if submission.nonce + 1 > MAX_U64 {
        return Some(ArithmeticOverflow), submission, ok, bad, extended, nonces;
      }
      submission := submission.(nonce := submission.nonce + 1);
    }
    ProgressGrows(plan, legs, advanced, held, succeeded, failed, leg, submission);
    error := None;
  }

  /**
   * Sequential direct funding. `advanced[i]` is the nonce kept locally when the loop reaches wallet `i`.
   */
  method FundDirectly(plan: Plan)
    returns (result: Result<(nat, nat), FundsError>, ghost legs: seq<Leg>, ghost advanced: seq<nat>)
    requires ValidPlan(plan)
    ensures !TotalsFit(plan) ==> result == Err(ArithmeticOverflow) && legs == []
    ensures AreLegs(plan, legs)
    ensures forall i: nat :: i + 1 < |legs| ==> Continues(legs[i].result)
    // A completed run has treated every wallet once, and has sent the amount once for every success.
    ensures result.Ok? || result.error.PartialFailure? ==>
              && |legs| == |plan.wallets|
              && (forall leg <- legs :: Continues(leg.result))
              && SentValue(legs) == plan.amount * Succeeded(legs)
    ensures result.Ok? ==> Succeeded(legs) == |plan.wallets|
    ensures result.Err? && result.error.PartialFailure? ==> result.error.succeeded == Succeeded(legs)
    ensures result.Ok? ==> result.value == (|plan.wallets|, 0)
    ensures result.Err? && result.error.PartialFailure? ==>
              result.error.failed > 0 && result.error.succeeded + result.error.failed == |plan.wallets|
    ensures TotalsFit(plan) && !GatePassed(plan) ==> result.Err? && !result.error.PartialFailure? && legs == []
    // Past the first gate, an undisturbed run is never stopped by its own balance, fees or payer code.
    ensures legs != [] && Undisturbed(plan, legs, |legs|) && result.Err? ==>
              result.error.PartialFailure? || !IsGateError(result.error)
    // The nonce kept locally is the nonce the node reports.
    ensures |legs| <= |advanced| && NoncesMatch(plan, legs, advanced)
  {
    legs, advanced := [], [];
    var totalGas := CheckedSum(plan.gasLimits);
    if plan.amount * |plan.wallets| > MAX_U256 || totalGas.Err? {
      return Err(ArithmeticOverflow), legs, advanced;
    }
    var gate := FirstSubmission(plan);
    if gate.Err? {
      return Err(gate.error), legs, advanced;
    }
    var submission := gate.value;
    var succeeded, failed := 0, 0;
    for offset := 0 to |plan.wallets|
      invariant offset == |legs| && Progress(plan, legs, advanced, submission, succeeded, failed)
    {
      var error;
      error, submission, succeeded, failed, legs, advanced := FundNext(plan, offset, submission, succeeded, failed, legs, advanced);
      if error.Some? {
        return Err(error.value), legs, advanced;
      }
    }
    SentIsAmountTimesSucceeded(plan, legs);
    if failed == 0 {
      return Ok((succeeded, failed)), legs, advanced;
    }
    return Err(PartialFailure(succeeded, failed)), legs, advanced;
  }
}
