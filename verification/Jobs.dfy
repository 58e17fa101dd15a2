/** The phase jobs of a session: their states, how a refresh and an outcome change them, and which one runs next. */
module Jobs {
  import opened Words
  import opened Lookup
  import opened Transactions
  import opened MintSubmission
  import opened Stages

  const WAKE_LEAD_SECONDS: nat := 10

  datatype PhaseIdentity = PhaseIdentity(stageIndex: U32, stageType: StageType, tokenRange: TokenRange)

  datatype SuspendReason = PhaseAbsent | WalletIneligible | AboveWalletLimit | PhaseOver | Rejected(error: CommandError)

  datatype JobState = Pending(phase: PhaseWindow) | Suspended(reason: SuspendReason) | Completed | Failed(blockNumber: U64)

  datatype PhaseJob = PhaseJob(identity: PhaseIdentity, tokenId: U64, quantity: U64, state: JobState)

  predicate Finished(job: PhaseJob) {
    job.state.Completed? || job.state.Failed?
  }

  function IdentityOf(stage: StageMetadata): PhaseIdentity {
    PhaseIdentity(stage.stageIndex, stage.stageType, stage.tokenRange)
  }

  // -------------------------------------------------------------------------- refresh

  /** What a probe of a private phase found out by asking for a mint transaction. */
  datatype Probe = ProbedEligible | ProbedIneligible

  datatype Snapshot = Snapshot(
    metadata: Collection, eligibility: EligibilitySnapshot, probes: map<PhaseIdentity, Probe>, timestamp: nat)

  /** A public sale admits everyone, and a probe outweighs the record; no verdict at all is not a refusal. */
  predicate Refused(candidate: StageEligibility, probe: Option<Probe>) {
    !candidate.stageType.PublicSale? && (probe == Some(ProbedIneligible) || (probe.None? && candidate.isEligible == Some(false)))
  }

  function ProbeOf(snapshot: Snapshot, identity: PhaseIdentity): Option<Probe> {
    if identity in snapshot.probes then Some(snapshot.probes[identity]) else None
  }

  function StageOf(metadata: Collection, identity: PhaseIdentity): (r: Option<StageMetadata>)
    ensures r.Some? ==> r.value in metadata.stages && IdentityOf(r.value) == identity
  {
    match FindFrom(metadata.stages, stage => IdentityOf(stage) == identity, 0)
    case None => None
    case Some(k) => Some(metadata.stages[k])
  }

  /** The state of an unfinished job according to a snapshot. */
  function RefreshedState(snapshot: Snapshot, job: PhaseJob): (r: Result<JobState, CommandError>)
    ensures r.Ok? ==> r.value.Pending? || r.value.Suspended?
  {
    match StageOf(snapshot.metadata, job.identity)
    case None => Ok(Suspended(PhaseAbsent))
    case Some(stage) =>
      match MatchingEligibility(snapshot.eligibility, stage)
      case Err(e) => Err(e)
      case Ok(k) =>
        var candidate := snapshot.eligibility.stages[k];
        if Refused(candidate, ProbeOf(snapshot, job.identity)) then Ok(Suspended(WalletIneligible))
        else if job.quantity > AvailableQuantity(stage, candidate, snapshot.eligibility) then Ok(Suspended(AboveWalletLimit))
        else
          match StageWindow(stage)
          case Err(e) => Err(e)
          case Ok(phase) => Ok(if Timing(phase, snapshot.timestamp).Ended? then Suspended(PhaseOver) else Pending(phase))
  }

  /** A finished job is left alone; an unfinished one follows the snapshot. */
  ghost predicate IsRefreshed(snapshot: Snapshot, before: PhaseJob, after: PhaseJob) {
    if Finished(before) then after == before
    else RefreshedState(snapshot, before).Ok? && after == before.(state := RefreshedState(snapshot, before).value)
  }

  /** Over an accepted collection a validated snapshot gives every job a state. */
  lemma RefreshNeverFails(snapshot: Snapshot, job: PhaseJob)
    requires WellFormed(snapshot.metadata.dropKind, snapshot.metadata.stages)
    requires ShapeMatches(snapshot.metadata, snapshot.eligibility)
    ensures RefreshedState(snapshot, job).Ok?
  {
    var stage := StageOf(snapshot.metadata, job.identity);
    if stage.Some? {
      var i: nat :| i < |snapshot.metadata.stages| && snapshot.metadata.stages[i] == stage.value;
      assert ShapeMatchesAt(snapshot.metadata, snapshot.eligibility, i);
    }
  }

  /** Refreshes the jobs in place. An error may leave the later jobs untouched, and ends the session. */
  method RefreshJobStates(snapshot: Snapshot, jobs: array<PhaseJob>) returns (r: Result<(), CommandError>)
    modifies jobs
    ensures forall i: nat :: i < jobs.Length ==> jobs[i] == old(jobs[i]) || IsRefreshed(snapshot, old(jobs[i]), jobs[i])
    ensures r.Ok? ==> forall i: nat :: i < jobs.Length ==> IsRefreshed(snapshot, old(jobs[i]), jobs[i])
    ensures r.Ok? ==> ShapeMatches(snapshot.metadata, snapshot.eligibility)
    ensures WellFormed(snapshot.metadata.dropKind, snapshot.metadata.stages) ==>
              (r.Ok? <==> ShapeMatches(snapshot.metadata, snapshot.eligibility))
  {
    r := ValidateSnapshotShape(snapshot.metadata, snapshot.eligibility);
    if r.Err? {
      return;
    }
    var i := 0;
    while i < jobs.Length
      invariant i <= jobs.Length
      invariant forall k: nat :: k < i ==> IsRefreshed(snapshot, old(jobs[k]), jobs[k])
      invariant forall k: nat :: i <= k < jobs.Length ==> jobs[k] == old(jobs[k])
    {
      if !Finished(jobs[i]) {
        var state := RefreshedState(snapshot, jobs[i]);
        if state.Err? {
          if WellFormed(snapshot.metadata.dropKind, snapshot.metadata.stages) {
            RefreshNeverFails(snapshot, jobs[i]);
          }
          return Err(state.error);
        }
        jobs[i] := jobs[i].(state := state.value);
      }
      i := i + 1;
    }
    return Ok(());
  }

  // -------------------------------------------------------------------------- selection

  predicate Active(job: PhaseJob, timestamp: nat) {
    job.state.Pending? && Timing(job.state.phase, timestamp) == Immediate
  }

  /** The job's phase is offered, the wallet is not refused, and the phase sells the quantity of the token at this time. */
  ghost predicate IsOnSale(snapshot: Snapshot, job: PhaseJob, timestamp: nat) {
    var stage := StageOf(snapshot.metadata, job.identity);
    && stage.Some? && Qualifies(snapshot.eligibility, Sale(job.tokenId, job.quantity, timestamp), stage.value)
    && !Refused(
      snapshot.eligibility.stages[MatchingEligibility(snapshot.eligibility, stage.value).value], ProbeOf(snapshot, job.identity))
  }

  /**
   * A refresh makes an unfinished job active exactly when its phase is on sale at the snapshot's time; a job that
   * becomes active later is on sale then. So the check before its launch can only fail for what changed since, or
   * for a second stage.
   */
  lemma {:induction false} ActiveMeansOnSale(snapshot: Snapshot, before: PhaseJob, after: PhaseJob, timestamp: nat)
    requires IsRefreshed(snapshot, before, after) && Configured(before) && !Finished(before)
    ensures Active(after, snapshot.timestamp) <==> IsOnSale(snapshot, before, snapshot.timestamp)
    ensures Active(after, timestamp) ==> IsOnSale(snapshot, before, timestamp)
  {
  }

  /** The configuration step gives a job a token that its phase sells. */
  predicate Configured(job: PhaseJob) {
    match job.identity.tokenRange
    case Some((from, to)) => from <= job.tokenId <= to
    case None => job.tokenId == 0
  }

  function ActiveJobIndex(jobs: seq<PhaseJob>, timestamp: nat): (r: Option<nat>)
    ensures r.Some? ==> r.value < |jobs| && Active(jobs[r.value], timestamp)
  {
    FindFrom(jobs, job => Active(job, timestamp), 0)
  }

  /** The pending job that starts earliest, the first of them on a tie. */
  function NextScheduledJob(jobs: seq<PhaseJob>): (r: Option<nat>)
    ensures r.Some? ==> r.value < |jobs| && jobs[r.value].state.Pending?
  {
    if jobs == [] then None
    else
      var last := |jobs| - 1;
      var earlier := NextScheduledJob(jobs[..last]);
      if !jobs[last].state.Pending? then earlier
      else if earlier.None? || jobs[last].state.phase.startsAt < jobs[earlier.value].state.phase.startsAt then Some(last)
      else earlier
  }

  ghost predicate IsEarliest(jobs: seq<PhaseJob>, i: nat) {
    && i < |jobs| && jobs[i].state.Pending?
    && forall k: nat :: k < |jobs| && jobs[k].state.Pending? ==>
         && jobs[i].state.phase.startsAt <= jobs[k].state.phase.startsAt
         && (k < i ==> jobs[i].state.phase.startsAt < jobs[k].state.phase.startsAt)
  }

  lemma {:induction false} NextScheduledIsEarliest(jobs: seq<PhaseJob>)
    ensures NextScheduledJob(jobs).Some? ==> IsEarliest(jobs, NextScheduledJob(jobs).value)
    ensures NextScheduledJob(jobs).None? ==> forall job <- jobs :: !job.state.Pending?
  {
    if jobs != [] {
      var front := jobs[..|jobs| - 1];
      NextScheduledIsEarliest(front);
      assert jobs == front + [jobs[|jobs| - 1]];
    }
  }

  /** When preparing for a start begins. */
  function WakeTime(startsAt: U64): nat {
    SaturatingSub(startsAt, WAKE_LEAD_SECONDS)
  }

  /** The job to run now, and whether it runs ahead of its start. */
  function RunnableJob(jobs: seq<PhaseJob>, blockTimestamp: nat, wallClock: nat): (r: Option<(nat, bool)>)
    ensures r.Some? ==> r.value.0 < |jobs| && jobs[r.value.0].state.Pending?
  {
    match ActiveJobIndex(jobs, blockTimestamp)
    case Some(i) => Some((i, false))
    case None =>
      match NextScheduledJob(jobs)
      case None => None
      case Some(i) => if wallClock >= WakeTime(jobs[i].state.phase.startsAt) then Some((i, true)) else None
  }

  /** The first active job if there is one, else the earliest pending job once its wake time has come, else none. */
  lemma RunnableIsFirstOrEarliest(jobs: seq<PhaseJob>, blockTimestamp: nat, wallClock: nat)
    ensures forall i: nat :: RunnableJob(jobs, blockTimestamp, wallClock) == Some((i, false)) <==>
              && i < |jobs| && Active(jobs[i], blockTimestamp)
              && forall k: nat :: k < i ==> !Active(jobs[k], blockTimestamp)
    ensures forall i: nat :: RunnableJob(jobs, blockTimestamp, wallClock) == Some((i, true)) <==>
              && IsEarliest(jobs, i) && wallClock >= WakeTime(jobs[i].state.phase.startsAt)
              && forall job <- jobs :: !Active(job, blockTimestamp)
    ensures RunnableJob(jobs, blockTimestamp, wallClock) == None <==>
              forall job <- jobs :: job.state.Pending? ==>
                !Active(job, blockTimestamp) && wallClock < WakeTime(job.state.phase.startsAt)
  {
    FindFromIsFirst(jobs, job => Active(job, blockTimestamp), 0);
    NextScheduledIsEarliest(jobs);
  }

  /** Time alone never takes a job's turn away. */
  lemma StaysRunnable(jobs: seq<PhaseJob>, blockTimestamp: nat, wallClock: nat, later: nat)
    requires wallClock <= later && RunnableJob(jobs, blockTimestamp, wallClock).Some?
    ensures RunnableJob(jobs, blockTimestamp, later).Some?
  {
  }

  // -------------------------------------------------------------------------- outcome

  /** The final state that a receipt gives the job it belongs to. */
  function Verdict(receipt: Receipt): JobState {
    if receipt.success then Completed else Failed(receipt.blockNumber)
  }

  /** Records how a job ended; an error that must stop the session is passed on and changes nothing. */
  method ApplyJobOutcome(jobs: array<PhaseJob>, i: nat, outcome: Result<(), CommandError>) returns (r: Result<bool, CommandError>)
    requires i < jobs.Length
    modifies jobs
    ensures forall k: nat :: k < jobs.Length && k != i ==> jobs[k] == old(jobs[k])
    ensures r.Err? <==> outcome.Err? && MustStopSession(outcome.error)
    ensures r.Err? ==> r.error == outcome.error && jobs[i] == old(jobs[i])
    ensures r.Ok? ==> jobs[i] == old(jobs[i]).(state := StateAfter(outcome))
    ensures r.Ok? ==> (r.value <==> outcome.Ok? || outcome.error.CollectionChanged?)
  {
    match outcome {
      case Ok(_) =>
        jobs[i] := jobs[i].(state := Completed);
        return Ok(true);
      case Err(error) =>
        if MustStopSession(error) {
          return Err(error);
        }
        if error.TransactionReverted? {
          jobs[i] := jobs[i].(state := Failed(error.blockNumber));
          return Ok(false);
        }
        jobs[i] := jobs[i].(state := Suspended(Rejected(error)));
        return Ok(error.CollectionChanged?);
    }
  }

  function StateAfter(outcome: Result<(), CommandError>): JobState {
    match outcome
    case Ok(_) => Completed
    case Err(error) => if error.TransactionReverted? then Failed(error.blockNumber) else Suspended(Rejected(error))
  }
}
