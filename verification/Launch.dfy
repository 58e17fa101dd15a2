/** Executing one phase job: the launch snapshot, the gates before anything is signed, and the submission. */
module Launch {
  import opened Words
  import opened FeePolicy
  import opened Transactions
  import opened Replacements
  import opened MintSubmission
  import opened Stages
  import opened Jobs

  /** Errors that only the submission of a transaction reports. */
  predicate IsSubmissionError(error: CommandError) {
    || error.BroadcastOutcomeUncertain? || error.ReceiptTrackingUncertain? || error.ReplacementUnavailable?
    || error.PhaseEndedWithPendingTransaction? || error.PendingAfterRetries? || error.TransactionReverted?
  }

  type LaunchError = error: CommandError | !IsSubmissionError(error) witness StageNotFound

  /** What is read just before the launch; `sameContract` compares the contract addresses and the network. */
  datatype LaunchSnapshot = LaunchSnapshot(
    metadata: Collection, eligibility: EligibilitySnapshot, nonce: U64, estimate: Fees, balance: U256, sameContract: bool)

  datatype LaunchEnvironment = LaunchEnvironment(
    snapshot: Result<LaunchSnapshot, LaunchError>, action: Result<MintAction, LaunchError>,
    checkedAt: nat, openedAt: nat, submission: Environment)

  /** Standard output and the signer do not fail. */
  ghost predicate FaultFree(env: LaunchEnvironment, key: Key) {
    !SignerFails(key) && forall k: nat :: env.submission.flushes(k)
  }

  /** The two failures of a replacement attempt that are reported like failures before any broadcast. */
  predicate IsReplacementFault(error: CommandError) {
    error.SubmissionOutput? || error.Signature?
  }

  /** Every attempt's value and maximum gas cost are covered by the balance. */
  ghost predicate Affordable(trace: seq<Attempt>, balance: U256) {
    forall i: nat :: i < |trace| ==> trace[i].tx.value + trace[i].tx.gasLimit * trace[i].tx.fees.maxFee <= balance
  }

  /**
   * What a job's result says about its broadcasts: a receipt of one of them decides the result; without a
   * receipt a broadcast means that the session must stop, or that a replacement hit one of the two faults.
   */
  ghost predicate Explained(trace: seq<Attempt>, mined: Option<Receipt>, result: Result<(), CommandError>) {
    match mined
    case Some(receipt) =>
      MinedFrom(trace, receipt) && result == (if receipt.success then Ok(()) else Err(TransactionReverted(receipt.blockNumber)))
    case None =>
      && result.Err? && !result.error.TransactionReverted?
      && (trace != [] ==> MustStopSession(result.error) || IsReplacementFault(result.error))
  }

  method ValidateMintLimits(metadata: Collection, stage: StageMetadata, eligibility: EligibilitySnapshot, quantity: U64)
    returns (r: Result<(), LaunchError>)
    ensures r.Ok? <==>
              && ShapeMatches(metadata, eligibility) && quantity > 0
              && var k := MatchingEligibility(eligibility, stage);
                 k.Ok? && StaysWithinCaps(stage, eligibility.stages[k.value], eligibility, quantity)
  {
    var shape := ValidateSnapshotShape(metadata, eligibility);
    if shape.Err? {
      return Err(shape.error);
    }
    var k := MatchingEligibility(eligibility, stage);
    if k.Err? {
      return Err(k.error);
    }
    if quantity == 0 || quantity > AvailableQuantity(stage, eligibility.stages[k.value], eligibility) {
      return Err(QuantityExceedsEligibility);
    }
    return Ok(());
  }

  /** The price that the eligibility record promises for the job, when it names one. */
  function ExpectedValue(eligibility: EligibilitySnapshot, k: nat, quantity: U64): Result<Option<U256>, LaunchError>
    requires k < |eligibility.stages|
  {
    match eligibility.stages[k].priceWei
    case None => Ok(None)
    case Some(price) => if price * quantity > MAX_U256 then Err(InvalidMintSelection) else Ok(Some(price * quantity))
  }

  /** What the stage's own record promises the quantity to cost; None when it has no usable record or price. */
  function Promised(eligibility: EligibilitySnapshot, stage: StageMetadata, quantity: U64): Option<Option<U256>> {
    match MatchingEligibility(eligibility, stage)
    case Err(_) => None
    case Ok(k) => match ExpectedValue(eligibility, k, quantity) {
      case Err(_) => None
      case Ok(value) => Some(value)
    }
  }

  /** Reads the launch snapshot; passes only when the job's stage is still there unchanged and sells the quantity. */
  method PrepareLaunch(original: Collection, stage: StageMetadata, job: PhaseJob, env: LaunchEnvironment)
    returns (r: Result<Option<U256>, LaunchError>)
    ensures r.Ok? ==>
              && env.snapshot.Ok?
              && var launch := env.snapshot.value;
                 launch.sameContract && stage in launch.metadata.stages && ShapeMatches(launch.metadata, launch.eligibility)
    ensures r.Ok? ==> Promised(env.snapshot.value.eligibility, stage, job.quantity) == Some(r.value)
  {
    if env.snapshot.Err? {
      return Err(env.snapshot.error);
    }
    var launch := env.snapshot.value;
    var selected := FindSelectedStage(launch.metadata, stage.stageIndex, job.tokenId);
    if selected.Err? {
      return Err(selected.error);
    }
    if !launch.sameContract || launch.metadata.dropKind != original.dropKind || launch.metadata.stages[selected.value] != stage {
      return Err(CollectionChanged);
    }
    var limits := ValidateMintLimits(launch.metadata, stage, launch.eligibility, job.quantity);
    if limits.Err? {
      return Err(limits.error);
    }
    return ExpectedValue(launch.eligibility, MatchingEligibility(launch.eligibility, stage).value, job.quantity);
  }

  method CheckFunding(context: Context, value: U256, launch: LaunchSnapshot) returns (r: Result<(), LaunchError>)
    ensures r.Ok? <==> Funded(context, value, launch)
  {
    var gate := EnsureFunding(context.config, context.maxAttempts, context.gasLimit, value, launch.estimate, launch.balance);
    return if gate.Ok? then Ok(()) else Err(gate.error);
  }

  predicate Funded(context: Context, value: U256, launch: LaunchSnapshot) {
    EnsureFunding(context.config, context.maxAttempts, context.gasLimit, value, launch.estimate, launch.balance).Ok?
  }

  /** Signs and submits an action that passed the funding gate: every attempt of the run is covered by the balance. */
  method SubmitAction(context: Context, action: MintAction, launch: LaunchSnapshot, env: LaunchEnvironment)
    returns (result: Result<(), CommandError>, ghost trace: seq<Attempt>, ghost mined: Option<Receipt>)
    requires Funded(context, action.value, launch)
    ensures Explained(trace, mined, result) && Affordable(trace, launch.balance)
    ensures forall i: nat :: i < |trace| ==> trace[i].tx.value == action.value && trace[i].tx.nonce == launch.nonce
    ensures LeavesPending(trace, mined) && !MustStopSession(result.error) ==> !FaultFree(env, context.key)
    ensures result != Err(ReplacementUnavailable)
  {
    trace, mined := [], None;
    var fees := InitialTransactionFees(context.config, launch.estimate).value;
    var signed := SignMint(context, action, launch.nonce, fees);
    if signed.Err? {
      return Err(signed.error), trace, mined;
    }
    var prepared := new PreparedMint(context, action, launch.nonce, fees, signed.value);
    ghost var first := prepared.Transaction();
    result, trace, mined := prepared.SubmitReplacements(env.openedAt, env.submission);
    PendingStopsSession(context, env.openedAt, env.submission, trace, mined, result);
    GateCoversEveryAttempt(context.config, context.maxAttempts, launch.estimate, launch.balance, first, context.key, trace);
    ReplacementsKeepValue(first, context.config.bump, context.key, trace);
  }

  lemma ReplacementsKeepValue(first: Transaction, bump: U32, key: Key, trace: seq<Attempt>)
    requires IsReplacementChain(first, bump, Fixed(first.value), key, trace)
    ensures forall i: nat :: i < |trace| ==> trace[i].tx.value == first.value && trace[i].tx.nonce == first.nonce
  {
    forall i: nat | i < |trace| ensures trace[i].tx.value == first.value && trace[i].tx.nonce == first.nonce {
      assert IsAttempt(first, bump, Fixed(first.value), key, trace, i);
    }
  }

  /** The launch snapshot sells the job's quantity through one stage only, the job's own, at some time from now on. */
  ghost predicate SoleStage(job: PhaseJob, env: LaunchEnvironment)
    requires env.snapshot.Ok?
  {
    var launch := env.snapshot.value;
    exists timestamp: nat :: timestamp >= env.checkedAt
      && SoleActive(launch.metadata, launch.eligibility, job.identity.stageIndex, Sale(job.tokenId, job.quantity, timestamp))
  }

  /** The job's own stage is in the launch snapshot, and a price that its record names is the value paid. */
  ghost predicate Priced(job: PhaseJob, env: LaunchEnvironment, value: U256)
    requires env.snapshot.Ok?
  {
    var launch := env.snapshot.value;
    exists stage <- launch.metadata.stages ::
      && IdentityOf(stage) == job.identity
      && (Promised(launch.eligibility, stage, job.quantity) == Some(None)
          || Promised(launch.eligibility, stage, job.quantity) == Some(Some(value)))
  }

  /** The calldata hot path: an action with the promised value that the balance covers. */
  method RequestAction(context: Context, expected: Option<U256>, launch: LaunchSnapshot, env: LaunchEnvironment)
    returns (r: Result<MintAction, LaunchError>)
    ensures r.Ok? ==> Funded(context, r.value.value, launch) && (expected.None? || expected.value == r.value.value)
  {
    if env.action.Err? {
      return Err(env.action.error);
    }
    var action := env.action.value;
    if expected.Some? && action.value != expected.value {
      return Err(CalldataRetriesExhausted);
    }
    var funding := CheckFunding(context, action.value, launch);
    if funding.Err? {
      return Err(funding.error);
    }
    return Ok(action);
  }

  /** The stage of the launch snapshot that is the only active one must be the job's. */
  method CheckSoleStage(stage: StageMetadata, phase: PhaseWindow, job: PhaseJob, env: LaunchEnvironment)
    returns (r: Result<(), LaunchError>)
    requires IdentityOf(stage) == job.identity && env.snapshot.Ok?
    requires ShapeMatches(env.snapshot.value.metadata, env.snapshot.value.eligibility)
    ensures r.Ok? && WellFormed(env.snapshot.value.metadata.dropKind, env.snapshot.value.metadata.stages) ==> SoleStage(job, env)
  {
    var launch := env.snapshot.value;
    var sale := Sale(job.tokenId, job.quantity, Max(phase.startsAt, env.checkedAt));
    var sole := ValidateUnambiguousActiveStage(launch.metadata, launch.eligibility, stage.stageIndex, sale);
    if sole.Err? {
      return Err(sole.error);
    }
    return Ok(());
  }

  /** Everything between the launch snapshot and the signature. */
  method PassGates(context: Context, metadata: Collection, stage: StageMetadata, phase: PhaseWindow, job: PhaseJob, env: LaunchEnvironment)
    returns (r: Result<MintAction, LaunchError>)
    requires IdentityOf(stage) == job.identity
    ensures r.Ok? ==> env.snapshot.Ok? && Funded(context, r.value.value, env.snapshot.value)
    ensures r.Ok? ==> Priced(job, env, r.value.value)
    ensures r.Ok? && WellFormed(env.snapshot.value.metadata.dropKind, env.snapshot.value.metadata.stages) ==> SoleStage(job, env)
  {
    var expected := PrepareLaunch(metadata, stage, job, env);
    if expected.Err? {
      return Err(expected.error);
    }
    var launch := env.snapshot.value;
    var preflight := CheckFunding(context, if expected.value.Some? then expected.value.value else 0, launch);
    if preflight.Err? {
      return Err(preflight.error);
    }
    var sole := CheckSoleStage(stage, phase, job, env);
    if sole.Err? {
      return Err(sole.error);
    }
    r := RequestAction(context, expected.value, launch, env);
  }

  /**
   * Runs one job. Nothing is broadcast unless the launch snapshot shows the job's own stage, unchanged, as the
   * one stage that sells the quantity at the launch time; whatever is broadcast is covered by the balance.
   */
  method ExecuteJob(context: Context, metadata: Collection, eligibility: EligibilitySnapshot, job: PhaseJob, env: LaunchEnvironment)
    returns (result: Result<(), CommandError>, ghost trace: seq<Attempt>, ghost mined: Option<Receipt>)
    ensures Explained(trace, mined, result)
    ensures LeavesPending(trace, mined) && !MustStopSession(result.error) ==> !FaultFree(env, context.key)
    ensures result != Err(ReplacementUnavailable)
    ensures trace != [] ==> env.snapshot.Ok? && Affordable(trace, env.snapshot.value.balance)
    ensures forall i: nat :: i < |trace| ==> Priced(job, env, trace[i].tx.value) && trace[i].tx.nonce == env.snapshot.value.nonce
    ensures trace != [] && WellFormed(env.snapshot.value.metadata.dropKind, env.snapshot.value.metadata.stages) ==> SoleStage(job, env)
  {
    trace, mined := [], None;
    var stage := StageOf(metadata, job.identity);
    if stage.None? {
      return Err(StageNotFound), trace, mined;
    }
    var limits := ValidateMintLimits(metadata, stage.value, eligibility, job.quantity);
    if limits.Err? {
      return Err(limits.error), trace, mined;
    }
    var phase := StageWindow(stage.value);
    if phase.Err? {
      return Err(phase.error), trace, mined;
    }
    var action := PassGates(context, metadata, stage.value, phase.value, job, env);
    if action.Err? {
      return Err(action.error), trace, mined;
    }
    result, trace, mined := SubmitAction(context.(phaseEndsAt := phase.value.endsAt), action.value, env.snapshot.value, env);
  }
}
