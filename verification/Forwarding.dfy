/** A self-funded wallet: one gate for the mint and every transfer after it, then the mint, then the transfers. */
module Forwarding {
  import opened Words
  import opened FeePolicy
  import opened Transactions
  import opened Replacements
  import AbiArrays
  import MintSubmission
  import MintedAssets
  import Outcomes
  import ReceiptPolling
  import SelfFunded
  import Transfers

  /** What the node reports before a transaction is priced. */
  datatype Inputs = Inputs(nonce: U64, estimate: Fees)

  /**
   * Everything outside, leg by leg; leg 0 is the mint and leg i forwards asset i - 1: what the node reports
   * before the leg, what the wallet then holds, and the node during the leg; and the logs of the mint's receipt.
   */
  datatype Environment = Environment(
    inputs: nat -> Result<Inputs, ChainError>, balance: nat -> U256, network: nat -> Transfers.Network,
    logs: seq<Outcomes.Log>)

  /** One wallet of a self-funded run; `tokenId` is None when its text is no number. */
  datatype Plan = Plan(
    config: FeesConfig, maxAttempts: U32, policy: ReceiptPolling.Policy, key: Key, chainId: U64, gasLimit: U64,
    recipient: Address, action: MintSubmission.MintAction, captured: Inputs, mint: MintedAssets.Mint, tokenIsNumber: bool,
    transferData: MintedAssets.Asset -> seq<Byte>, env: Environment)

  datatype RunError =
    | Fee(fee: FeeError) | ArithmeticOverflow | Underfunded | Submission(submit: SelfFunded.SubmitError)
    | Reverted(blockNumber: U64) | StageChanged | Assets(nft: AbiArrays.NftError) | Chain(chain: ChainError)

  // ------------------------------------------------------------------- the gate

  /** How many transfers will follow the mint. */
  function TransferCount(plan: Plan): U64 {
    if plan.recipient == plan.mint.wallet then 0
    else if plan.mint.kind.Erc721Kind? then plan.mint.units
    else 1
  }

  /** The fees of the mint, when the balance covers its value and the gas of all legs at the predicted maximum. */
  function Gate(plan: Plan): Result<Fees, RunError> {
    match InitialTransactionFees(plan.config, plan.captured.estimate)
    case Err(e) => Err(RunError.Fee(e))
    case Ok(fees) =>
      match MaximumFees(plan.config, plan.maxAttempts, fees)
      case Err(e) => Err(RunError.Fee(e))
      case Ok(maximum) =>
        if TransferCount(plan) + 1 > MAX_U64 || plan.gasLimit * (TransferCount(plan) + 1) > MAX_U64 then
          Err(RunError.ArithmeticOverflow)
        else
          var requirement :=
            MintSubmission.FundingRequirement(plan.action.value, plan.gasLimit * (TransferCount(plan) + 1), maximum.maxFee);
          match requirement.Shortfall(plan.env.balance(0))
          case None => Err(RunError.ArithmeticOverflow)
          case Some(shortfall) => if shortfall == 0 then Ok(fees) else Err(Underfunded)
  }

  /** The predicted maximum fee of every leg, as long as the estimate stays. */
  function MaximumFee(plan: Plan): U256
    requires Gate(plan).Ok?
  {
    MaximumFees(plan.config, plan.maxAttempts, Gate(plan).value).value.maxFee
  }

  function Gas(limit: nat, fee: nat): nat {
    limit * fee
  }

  /** The gas of one leg at the predicted maximum. */
  function LegGas(plan: Plan): nat
    requires Gate(plan).Ok?
  {
    Gas(plan.gasLimit, MaximumFee(plan))
  }

  /** The gas of `n` legs, one share after another. */
  function Shares(share: nat, n: nat): (total: nat)
    ensures n > 0 ==> total >= share
    decreases n, share
  {
    if n == 0 then 0 else share + Shares(share, n - 1)
  }

  lemma {:induction false} SharesAreProduct(gasLimit: nat, fee: nat, n: nat)
    ensures Shares(gasLimit * fee, n) == (gasLimit * n) * fee
  {
    if n > 0 {
      SharesAreProduct(gasLimit, fee, n - 1);
      assert gasLimit * n == gasLimit * (n - 1) + gasLimit;
      assert (gasLimit * (n - 1) + gasLimit) * fee == (gasLimit * (n - 1)) * fee + gasLimit * fee;
    }
  }

  /** What the gate reserved is the mint's value and the gas of each of the legs. */
  lemma {:induction false} GateReserves(plan: Plan)
    requires Gate(plan).Ok?
    ensures plan.action.value + Shares(LegGas(plan), TransferCount(plan) + 1) <= plan.env.balance(0)
  {
    SharesAreProduct(plan.gasLimit, MaximumFee(plan), TransferCount(plan) + 1);
  }

  // ------------------------------------------------------------------- the legs

  datatype Leg = Leg(first: Transaction, trace: seq<Attempt>, result: Result<Receipt, SelfFunded.SubmitError>)

  function InputsOf(plan: Plan, i: nat): Result<Inputs, ChainError> {
    if i == 0 then Ok(plan.captured) else plan.env.inputs(i)
  }

  function ValueOf(plan: Plan, i: nat): U256 {
    if i == 0 then plan.action.value else 0
  }

  function MintOrder(plan: Plan, fees: Fees): Transaction {
    Transaction(plan.chainId, plan.captured.nonce, fees, plan.gasLimit, plan.action.target, plan.action.value, plan.action.calldata)
  }

  function TransferOrder(plan: Plan, inputs: Inputs, fees: Fees, asset: MintedAssets.Asset): Transaction {
    Transaction(plan.chainId, inputs.nonce, fees, plan.gasLimit, plan.mint.contract, 0, plan.transferData(asset))
  }

  predicate Confirmed(leg: Leg) {
    leg.result.Ok? && leg.result.value.success
  }

  /** Leg `i` is a replacement chain that starts from what the node reported just before it. */
  ghost predicate IsLeg(plan: Plan, leg: Leg, i: nat) {
    && InputsOf(plan, i).Ok?
    && InitialTransactionFees(plan.config, InputsOf(plan, i).value.estimate) == Ok(leg.first.fees)
    && leg.first.gasLimit == plan.gasLimit && leg.first.value == ValueOf(plan, i)
    && (i == 0 ==> leg.first == MintOrder(plan, leg.first.fees))
    && |leg.trace| <= plan.maxAttempts
    && IsReplacementChain(leg.first, plan.config.bump, Fixed(leg.first.value), plan.key, leg.trace)
    && SelfFunded.Explains(plan.maxAttempts, leg.trace, leg.result)
  }

  /** Every leg starts only after the one before it is confirmed. */
  ghost predicate AreLegs(plan: Plan, legs: seq<Leg>) {
    && (forall i: nat :: i < |legs| ==> IsLeg(plan, legs[i], i))
    && (forall i: nat :: i + 1 < |legs| ==> Confirmed(legs[i]))
  }

  /** The legs after the mint send these assets, in order. */
  ghost predicate Forwards(plan: Plan, legs: seq<Leg>, assets: seq<MintedAssets.Asset>) {
    |legs| <= |assets| + 1 && forall i: nat :: 0 < i < |legs| ==> IsTransfer(plan, legs[i], i, assets[i - 1])
  }

  ghost predicate IsTransfer(plan: Plan, leg: Leg, i: nat, asset: MintedAssets.Asset) {
    InputsOf(plan, i).Ok? && leg.first == TransferOrder(plan, InputsOf(plan, i).value, leg.first.fees, asset)
  }

  /** The assets are what the receipt's logs deliver, and that is exactly the ordered mint. */
  ghost predicate AreTheMint(plan: Plan, assets: seq<MintedAssets.Asset>) {
    && MintedAssets.Delivers(plan.mint, plan.env.logs)
    && |assets| == TransferCount(plan) && MintedAssets.TotalUnits(assets) == plan.mint.units
    && (plan.mint.kind.Erc1155Kind? ==> assets == [MintedAssets.Erc1155(plan.mint.tokenId, plan.mint.units)])
    && (plan.mint.kind.Erc721Kind? ==> assets == MintedAssets.AllDelivered(plan.mint, plan.env.logs).value)
  }

  /** The estimate has not moved since the capture, and since leg `i` nothing but that leg has taken from the wallet. */
  ghost predicate UndisturbedAt(plan: Plan, legs: seq<Leg>, i: nat)
    requires i < |legs|
  {
    && (InputsOf(plan, i + 1).Ok? ==> InputsOf(plan, i + 1).value.estimate == plan.captured.estimate)
    && (legs[i].result.Ok? ==>
          PaidAtMost(legs[i].trace, legs[i].result.value, plan.env.balance(i) - plan.env.balance(i + 1)))
  }

  ghost predicate Undisturbed(plan: Plan, legs: seq<Leg>, n: nat)
    requires n <= |legs|
  {
    forall i: nat :: i < n ==> UndisturbedAt(plan, legs, i)
  }

  // -------------------------------------------------------------- the reserve lasts

  /** While nothing disturbs the run every leg starts from the fees that the gate priced. */
  lemma EstimateStays(plan: Plan, legs: seq<Leg>, i: nat)
    requires Gate(plan).Ok? && i <= |legs| && Undisturbed(plan, legs, i) && InputsOf(plan, i).Ok?
    ensures InitialTransactionFees(plan.config, InputsOf(plan, i).value.estimate) == Ok(Gate(plan).value)
    ensures MaximumFees(plan.config, plan.maxAttempts, Gate(plan).value).Ok?
  {
    if i > 0 {
      assert UndisturbedAt(plan, legs, i - 1);
    }
  }

  /** A confirmed leg takes at most its value and its share of the gas reserve. */
  lemma LegTakesItsShare(plan: Plan, legs: seq<Leg>, i: nat)
    requires Gate(plan).Ok? && i < |legs| && Undisturbed(plan, legs, i + 1)
    requires IsLeg(plan, legs[i], i) && Confirmed(legs[i])
    ensures plan.env.balance(i) - plan.env.balance(i + 1) <= ValueOf(plan, i) + LegGas(plan)
  {
    assert UndisturbedAt(plan, legs, i);
    assert Undisturbed(plan, legs, i);
    EstimateStays(plan, legs, i);
    DebitWithinPrediction(plan.config, plan.maxAttempts, legs[i].first, legs[i].first.value, plan.key, legs[i].trace,
                          legs[i].result.value, plan.env.balance(i) - plan.env.balance(i + 1));
  }

  /** Before each leg of an undisturbed run the wallet holds the leg's value and the gas of it and of all that follow. */
  lemma {:induction false} ReserveLasts(plan: Plan, legs: seq<Leg>, n: nat)
    requires Gate(plan).Ok? && AreLegs(plan, legs) && n <= |legs| && n <= TransferCount(plan) + 1
    requires Undisturbed(plan, legs, n) && forall i: nat :: i < n ==> Confirmed(legs[i])
    ensures plan.env.balance(n) >= ValueOf(plan, n) + Shares(LegGas(plan), TransferCount(plan) + 1 - n)
  {
    if n == 0 {
      GateReserves(plan);
    } else {
      assert Undisturbed(plan, legs, n - 1);
      ReserveLasts(plan, legs, n - 1);
      LegTakesItsShare(plan, legs, n - 1);
    }
  }

  /** No attempt of a leg can cost more than its value and its share. */
  lemma AttemptCost(plan: Plan, legs: seq<Leg>, i: nat, k: nat)
    requires Gate(plan).Ok? && i < |legs| && Undisturbed(plan, legs, i)
    requires IsLeg(plan, legs[i], i) && k < |legs[i].trace|
    ensures legs[i].trace[k].tx.value + legs[i].trace[k].tx.gasLimit * legs[i].trace[k].tx.fees.maxFee
            <= ValueOf(plan, i) + LegGas(plan)
  {
    EstimateStays(plan, legs, i);
    AttemptsWithinPrediction(
      plan.config, plan.maxAttempts, legs[i].first, Fixed(legs[i].first.value), plan.key, legs[i].trace, k);
  }

  /**
   * The gate covers the whole run: with stable fees and no outside debit, the balance that the wallet holds
   * before a leg covers the cost of every attempt of that leg, of the mint and of each transfer alike.
   */
  lemma {:induction false} EveryLegIsCovered(plan: Plan, legs: seq<Leg>, i: nat, k: nat)
    requires Gate(plan).Ok? && AreLegs(plan, legs)
    requires i < |legs| <= TransferCount(plan) + 1 && k < |legs[i].trace|
    requires Undisturbed(plan, legs, i)
    ensures legs[i].trace[k].tx.value + legs[i].trace[k].tx.gasLimit * legs[i].trace[k].tx.fees.maxFee <= plan.env.balance(i)
  {
    assert IsLeg(plan, legs[i], i);
    AttemptCost(plan, legs, i, k);
    ReserveLasts(plan, legs, i);
  }

  // ------------------------------------------------------------------------ the run

  /** The errors that the gate is there to rule out. */
  predicate IsFeeError(error: RunError) {
    error.Fee? || error.ArithmeticOverflow? || error.Underfunded? || (error.Submission? && error.submit.Unpriced?)
  }

  /** What the ending says about the legs that were run. */
  ghost predicate Explains(plan: Plan, legs: seq<Leg>, assets: seq<MintedAssets.Asset>, result: Result<Address, RunError>) {
    match result
    case Ok(wallet) =>
      && wallet == plan.mint.wallet && |legs| == TransferCount(plan) + 1
      && (forall leg <- legs :: Confirmed(leg))
      && (plan.recipient != wallet ==> AreTheMint(plan, assets) && Forwards(plan, legs, assets))
    case Err(Submission(error)) => legs != [] && legs[|legs| - 1].result == Err(error)
    case Err(Reverted(blockNumber)) =>
      && legs != [] && legs[|legs| - 1].result.Ok?
      && !legs[|legs| - 1].result.value.success && legs[|legs| - 1].result.value.blockNumber == blockNumber
    case Err(_) => forall leg <- legs :: Confirmed(leg)
  }

  /** Signs, sends and confirms one leg. */
  method RunLeg(plan: Plan, i: nat, first: Transaction) returns (error: Option<RunError>, ghost leg: Leg)
    requires Gate(plan).Ok? && InputsOf(plan, i).Ok?
    requires InitialTransactionFees(plan.config, InputsOf(plan, i).value.estimate) == Ok(first.fees)
    requires first.gasLimit == plan.gasLimit && first.value == ValueOf(plan, i)
    requires i == 0 ==> first == MintOrder(plan, first.fees)
    ensures IsLeg(plan, leg, i) && leg.first == first
    ensures error.None? <==> Confirmed(leg)
    ensures error.Some? ==> error.value.Submission? || error.value.Reverted?
    ensures error.Some? ==> Explains(plan, [leg], [], Err(error.value))
    ensures MaximumFees(plan.config, plan.maxAttempts, first.fees).Ok? && error.Some? ==> !IsFeeError(error.value)
  {
    var result, trace :=
      SelfFunded.SubmitWithReplacements(plan.config, plan.maxAttempts, plan.policy, plan.key, first, plan.env.network(i));
    leg := Leg(first, trace, result);
    match result {
      case Err(e) => error := Some(Submission(e));
      case Ok(receipt) => error := if receipt.success then None else Some(RunError.Reverted(receipt.blockNumber));
    }
  }

  /** Forwards one asset after everything before it is confirmed. */
  method ForwardNext(plan: Plan, ghost legs: seq<Leg>, ghost assets: seq<MintedAssets.Asset>, i: nat, asset: MintedAssets.Asset)
    returns (error: Option<RunError>, ghost extended: seq<Leg>)
    requires Gate(plan).Ok? && AreLegs(plan, legs) && |legs| == i + 1 && (forall leg <- legs :: Confirmed(leg))
    requires Forwards(plan, legs, assets) && i < |assets| && assets[i] == asset
    ensures AreLegs(plan, extended) && Forwards(plan, extended, assets) && |legs| <= |extended| <= |legs| + 1
    ensures error.None? ==> |extended| == |legs| + 1 && forall leg <- extended :: Confirmed(leg)
    ensures error.Some? ==> Explains(plan, extended, assets, Err(error.value))
    ensures error.Some? && Undisturbed(plan, extended, |extended|) ==> !IsFeeError(error.value)
  {
    var inputs := plan.env.inputs(i + 1);
    if inputs.Err? {
      return Some(RunError.Chain(inputs.error)), legs;
    }
    var fees := InitialTransactionFees(plan.config, inputs.value.estimate);
    if Undisturbed(plan, legs, |legs|) {
      EstimateStays(plan, legs, |legs|);
    }
    if fees.Err? {
      return Some(RunError.Fee(fees.error)), legs;
    }
    ghost var leg;
    error, leg := RunLeg(plan, i + 1, TransferOrder(plan, inputs.value, fees.value, asset));
    extended := legs + [leg];
    LegsGrow(plan, legs, leg);
  }

  lemma LegsGrow(plan: Plan, legs: seq<Leg>, leg: Leg)
    requires AreLegs(plan, legs) && IsLeg(plan, leg, |legs|) && forall earlier <- legs :: Confirmed(earlier)
    ensures AreLegs(plan, legs + [leg])
    ensures Undisturbed(plan, legs + [leg], |legs| + 1) ==> Undisturbed(plan, legs, |legs|)
  {
    var grown := legs + [leg];
    forall i: nat | i < |grown| ensures IsLeg(plan, grown[i], i) {
      if i < |legs| {
        assert IsLeg(plan, legs[i], i);
      }
    }
    if Undisturbed(plan, grown, |grown|) {
      forall i: nat | i < |legs| ensures UndisturbedAt(plan, legs, i) {
        assert UndisturbedAt(plan, grown, i);
      }
    }
  }

  /**
   * Runs one wallet. Nothing is sent unless the gate passes; a success means that the mint and one transfer
   * for each of its assets are confirmed, and that the assets are exactly the ordered units; and in an
   * undisturbed run neither the mint nor any transfer fails for a fee.
   */
  method RunWallet(plan: Plan)
    returns (result: Result<Address, RunError>, ghost legs: seq<Leg>, ghost assets: seq<MintedAssets.Asset>)
    ensures Gate(plan).Err? ==> result == Err(Gate(plan).error)
    ensures result.Ok? ==> Gate(plan).Ok? && result.value == plan.mint.wallet
    ensures result.Ok? && plan.recipient != plan.mint.wallet ==> MintedAssets.Delivers(plan.mint, plan.env.logs)
    ensures Gate(plan).Ok? <==> legs != []
    ensures AreLegs(plan, legs) && |legs| <= TransferCount(plan) + 1
    ensures Gate(plan).Ok? ==> Explains(plan, legs, assets, result)
    ensures |legs| > 1 ==> plan.recipient != plan.mint.wallet && AreTheMint(plan, assets) && Forwards(plan, legs, assets)
    ensures Gate(plan).Ok? && result.Err? && Undisturbed(plan, legs, |legs|) ==> !IsFeeError(result.error)
  {
    legs, assets := [], [];
    var gate := Gate(plan);
    if gate.Err? {
      return Err(gate.error), legs, assets;
    }
    var error, minted := RunLeg(plan, 0, MintOrder(plan, gate.value));
    legs := [minted];
    if error.Some? {
      return Err(error.value), legs, assets;
    }
    if plan.recipient == plan.mint.wallet {
      return Ok(plan.mint.wallet), legs, assets;
    }
    if !plan.tokenIsNumber {
      return Err(StageChanged), legs, assets;
    }
    var extracted := MintedAssets.ExtractMintedAssets(plan.mint, plan.env.logs);
    if extracted.Err? {
      return Err(Assets(extracted.error)), legs, assets;
    }
    assets := extracted.value;
    for i := 0 to |extracted.value|
      invariant |legs| == i + 1 && AreLegs(plan, legs) && (forall leg <- legs :: Confirmed(leg))
      invariant Forwards(plan, legs, assets) && AreTheMint(plan, assets)
    {
      error, legs := ForwardNext(plan, legs, assets, i, extracted.value[i]);
      if error.Some? {
        return Err(error.value), legs, assets;
      }
    }
    return Ok(plan.mint.wallet), legs, assets;
  }
}
