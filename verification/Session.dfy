/** The scheduler: one pass after another refreshes, runs a job, or waits, until every job is finished. */
module Session {
  import opened Words
  import opened Transactions
  import opened Replacements
  import opened MintSubmission
  import opened Stages
  import opened Jobs
  import opened Launch

  const RECOVERY_INTERVAL_SECONDS: nat := 60

  /** A schedule refresh as fetched; `sameContract` compares the contract addresses and the network. */
  datatype Fetched = Fetched(snapshot: Snapshot, sameContract: bool)

  /** What one pass of the loop meets outside. Times are milliseconds on the one clock. */
  datatype Tick = Tick(elapsed: nat, late: nat, refresh: Result<Fetched, CommandError>, launch: LaunchEnvironment)

  datatype Step = Refreshed | Ran(job: nat) | Waited | Stopped

  predicate IsRecoverable(error: CommandError) {
    match error
    case ChainFailure(_) => true
    case OpenSea(openSea) => (
      match openSea
      case Transport => true
      case OpenSeaRateLimited => true
      case AuthenticationRequired => true
      case Authentication(status) => status in {408, 409, 425, 429} || 500 <= status <= 599
      case Http(status) => status in {401, 408, 409, 425, 429} || 500 <= status <= 599
      case _ => false)
    case _ => false
  }

  // -------------------------------------------------------------------------- the record of a session

  /** One execution of a job: what it broadcast, the receipt it got, and what it reported. */
  datatype Start = Start(job: nat, trace: seq<Attempt>, mined: Option<Receipt>, result: Result<(), CommandError>, faultFree: bool)

  /** Nothing of this execution can still be mined, unless a replacement hit a signer or output fault. */
  predicate Settled(start: Start) {
    LeavesPending(start.trace, start.mined) ==>
      start.result.Err? && IsReplacementFault(start.result.error) && !start.faultFree
  }

  ghost predicate AllSettled(history: seq<Start>) {
    forall i: nat :: i < |history| ==> Settled(history[i])
  }

  /** Job `j` has a receipt. */
  ghost predicate Concluded(history: seq<Start>, j: nat) {
    exists i: nat :: i < |history| && history[i].job == j && history[i].mined.Some?
  }

  /** A job is finished exactly when it has a receipt, its state is what the receipt says, and nothing ran for it afterwards. */
  ghost predicate Recorded(jobs: seq<PhaseJob>, history: seq<Start>) {
    && (forall i: nat :: i < |history| ==> history[i].job < |jobs|)
    && (forall i: nat :: i < |history| && history[i].mined.Some? ==> jobs[history[i].job].state == Verdict(history[i].mined.value))
    && (forall j: nat :: j < |jobs| && Finished(jobs[j]) ==> Concluded(history, j))
    && (forall i: nat, k: nat :: i < k < |history| && history[i].job == history[k].job ==> history[i].mined.None?)
  }

  ghost predicate AllFinished(jobs: seq<PhaseJob>) {
    forall job <- jobs :: Finished(job)
  }

  /** Finished jobs are the same as before, and no job turned into a different request. */
  ghost predicate Frozen(before: seq<PhaseJob>, after: seq<PhaseJob>) {
    && |before| == |after|
    && (forall j: nat :: j < |before| && Finished(before[j]) ==> after[j] == before[j])
    && (forall j: nat :: j < |before| ==> after[j] == before[j].(state := after[j].state))
  }

  lemma FrozenTwice(first: seq<PhaseJob>, second: seq<PhaseJob>, third: seq<PhaseJob>)
    requires Frozen(first, second) && Frozen(second, third)
    ensures Frozen(first, third)
  {
  }

  predicate NeverWaitsTwice(steps: seq<Step>) {
    forall k: nat :: k + 1 < |steps| ==> !(steps[k].Waited? && steps[k + 1].Waited?)
  }

  predicate JustWaited(steps: seq<Step>) {
    steps != [] && steps[|steps| - 1].Waited?
  }

  lemma OneMoreStep(steps: seq<Step>, step: Step)
    requires NeverWaitsTwice(steps) && (JustWaited(steps) ==> !step.Waited?)
    ensures NeverWaitsTwice(steps + [step]) && (JustWaited(steps + [step]) <==> step.Waited?)
  {
  }

  ghost predicate OneMoreStart(before: seq<Start>, after: seq<Start>, job: nat) {
    exists start: Start :: after == before + [start] && start.job == job
  }

  /** A success, or a collection that changed, is followed by an immediate refresh. */
  predicate AsksForRefresh(result: Result<(), CommandError>) {
    result.Ok? || result.error.CollectionChanged?
  }

  /** A refresh keeps the record: it touches only unfinished jobs and leaves them unfinished. */
  lemma RecordSurvivesRefresh(snapshot: Snapshot, before: seq<PhaseJob>, after: seq<PhaseJob>, history: seq<Start>)
    requires Recorded(before, history) && |before| == |after|
    requires forall j: nat :: j < |before| ==> after[j] == before[j] || IsRefreshed(snapshot, before[j], after[j])
    ensures Recorded(after, history) && Frozen(before, after)
  {
  }

  /** The state that an outcome gives a job is the verdict of its receipt, and final only when there is one. */
  lemma OutcomeIsVerdict(trace: seq<Attempt>, mined: Option<Receipt>, result: Result<(), CommandError>)
    requires Explained(trace, mined, result)
    ensures mined.Some? ==> StateAfter(result) == Verdict(mined.value) && (result.Err? ==> !MustStopSession(result.error))
    ensures mined.None? ==> StateAfter(result).Suspended?
  {
  }

  /** An execution of an unfinished job extends the record. */
  lemma RecordExtends(before: seq<PhaseJob>, after: seq<PhaseJob>, history: seq<Start>, start: Start)
    requires Recorded(before, history) && start.job < |before| == |after| && !Finished(before[start.job])
    requires forall j: nat :: j < |before| && j != start.job ==> after[j] == before[j]
    requires after[start.job] == before[start.job].(state := after[start.job].state)
    requires if start.mined.Some? then after[start.job].state == Verdict(start.mined.value) else !Finished(after[start.job])
    ensures Recorded(after, history + [start]) && Frozen(before, after)
  {
    var extended := history + [start];
    assert forall i: nat :: i < |history| && history[i].job == start.job ==> history[i].mined.None?;
    forall j: nat | j < |after| && Finished(after[j]) ensures Concluded(extended, j) {
      if j == start.job {
        assert extended[|history|].job == j;
      } else {
        var i: nat :| i < |history| && history[i].job == j && history[i].mined.Some?;
        assert extended[i] == history[i];
      }
    }
  }

  /**
   * What the record needs to know of an execution: its receipt decides the outcome, and unless it stops the
   * session it is settled.
   */
  ghost predicate IsExecution(start: Start) {
    && (if start.mined.Some? then StateAfter(start.result) == Verdict(start.mined.value) else StateAfter(start.result).Suspended?)
    && (start.result.Err? && MustStopSession(start.result.error) ==> start.mined.None?)
    && (start.result.Ok? || !MustStopSession(start.result.error) ==> Settled(start))
  }

  /** Executes a job and keeps the record of it. */
  method Execute(
    settings: Context, metadata: Collection, eligibility: EligibilitySnapshot, jobs: seq<PhaseJob>, i: nat,
    launch: LaunchEnvironment)
    returns (result: Result<(), CommandError>, ghost start: Start)
    requires i < |jobs|
    ensures start.job == i && start.result == result && start.faultFree == FaultFree(launch, settings.key)
    ensures IsExecution(start)
  {
    ghost var trace, mined;
    result, trace, mined := ExecuteJob(settings, metadata, eligibility, jobs[i], launch);
    start := Start(i, trace, mined, result, FaultFree(launch, settings.key));
    OutcomeIsVerdict(trace, mined, result);
  }

  /** Job `i` is the runnable one. */
  predicate RunsNext(jobs: seq<PhaseJob>, blockTimestamp: nat, wallClock: nat, i: nat) {
    var runnable := RunnableJob(jobs, blockTimestamp, wallClock);
    runnable.Some? && runnable.value.0 == i
  }

  // -------------------------------------------------------------------------- the loop

  class Session {
    const settings: Context
    const interval: nat
    const jobs: array<PhaseJob>
    var metadata: Collection
    var eligibility: EligibilitySnapshot
    var blockTimestamp: nat
    var nextRefresh: nat
    var clock: nat
    ghost var history: seq<Start>

    constructor (settings: Context, interval: nat, jobs: array<PhaseJob>, first: Snapshot, clock: nat)
      requires forall j: nat :: j < jobs.Length ==> !Finished(jobs[j])
      ensures this.settings == settings && this.interval == interval && this.jobs == jobs
      ensures Valid() && history == []
    {
      this.settings, this.interval, this.jobs := settings, interval, jobs;
      metadata, eligibility, blockTimestamp := first.metadata, first.eligibility, first.timestamp;
      nextRefresh, this.clock, history := clock + 1000 * interval, clock, [];
    }

    ghost predicate Valid()
      reads this, jobs
    {
      Recorded(jobs[..], history)
    }

    predicate Due()
      reads this
    {
      clock >= nextRefresh
    }

    function Runnable(): (r: Option<(nat, bool)>)
      reads this, jobs
      ensures r.Some? ==> r.value.0 < jobs.Length && jobs[r.value.0].state.Pending?
    {
      RunnableJob(jobs[..], blockTimestamp, clock / 1000)
    }

    /** There is something to do other than waiting. */
    predicate MustAct()
      reads this, jobs
    {
      Due() || Runnable().Some?
    }

    /** Validates a fetched schedule and takes it over; a failure that may pass is retried within a minute. */
    method Refresh(tick: Tick) returns (r: Result<(), CommandError>)
      requires Valid()
      modifies this`metadata, this`eligibility, this`blockTimestamp, this`nextRefresh, jobs
      ensures Valid() && Frozen(old(jobs[..]), jobs[..])
      ensures r.Ok? && tick.refresh.Ok? ==>
                && metadata == tick.refresh.value.snapshot.metadata && eligibility == tick.refresh.value.snapshot.eligibility
                && ShapeMatches(metadata, eligibility) && blockTimestamp == tick.refresh.value.snapshot.timestamp
                && nextRefresh == clock + 1000 * interval
                && forall j: nat :: j < jobs.Length ==> IsRefreshed(tick.refresh.value.snapshot, old(jobs[j]), jobs[j])
      ensures tick.refresh.Err? ==>
                && jobs[..] == old(jobs[..]) && (r.Ok? <==> IsRecoverable(tick.refresh.error))
                && (r.Ok? ==> nextRefresh == clock + 1000 * Min(interval, RECOVERY_INTERVAL_SECONDS))
    {
      ghost var before := jobs[..];
      if tick.refresh.Err? {
        if !IsRecoverable(tick.refresh.error) {
          return Err(tick.refresh.error);
        }
        nextRefresh := clock + 1000 * Min(interval, RECOVERY_INTERVAL_SECONDS);
        return Ok(());
      }
      var fetched := tick.refresh.value.snapshot;
      if !tick.refresh.value.sameContract || fetched.metadata.dropKind != metadata.dropKind {
        return Err(CollectionChanged);
      }
      if exists stage <- fetched.metadata.stages :: StageWindow(stage).Err? {
        return Err(InvalidStageWindow);
      }
      metadata, eligibility, blockTimestamp := fetched.metadata, fetched.eligibility, fetched.timestamp;
      r := RefreshJobStates(fetched, jobs);
      RecordSurvivesRefresh(fetched, before, jobs[..], history);
      if r.Ok? {
        nextRefresh := clock + 1000 * interval;
      }
    }

    /** Sleeps until the next refresh or the next job's wake time, whichever comes first. */
    method WaitForScheduleProgress(tick: Tick)
      requires !MustAct()
      modifies this`clock, this`blockTimestamp
      ensures MustAct() && blockTimestamp == clock / 1000
      ensures old(clock) <= clock - tick.late <= nextRefresh
    {
      var refreshWait := nextRefresh - clock;
      var next := NextScheduledJob(jobs[..]);
      if next.Some? {
        var launchWait := 1000 * SaturatingSub(WakeTime(jobs[next.value].state.phase.startsAt), clock / 1000);
        clock := clock + Min(launchWait, refreshWait) + tick.late;
      } else {
        clock := clock + refreshWait + tick.late;
      }
      blockTimestamp := clock / 1000;
    }

    /** Runs one pending job and records its outcome. */
    method RunJob(i: nat, tick: Tick) returns (r: Result<(), CommandError>)
      requires Valid() && AllSettled(history) && i < jobs.Length && jobs[i].state.Pending?
      modifies this`nextRefresh, this`history, jobs
      ensures Valid() && Frozen(old(jobs[..]), jobs[..])
      ensures OneMoreStart(old(history), history, i) && history[|history| - 1].faultFree == FaultFree(tick.launch, settings.key)
      ensures r.Ok? ==>
                && AllSettled(history)
                && nextRefresh == if AsksForRefresh(history[|history| - 1].result) then clock else old(nextRefresh)
      ensures r.Err? ==> MustStopSession(r.error) && AllSettled(history[..|history| - 1])
    {
      ghost var before := jobs[..];
      var result, start := Execute(settings, metadata, eligibility, jobs[..], i, tick.launch);
      var applied := ApplyJobOutcome(jobs, i, result);
      RecordExtends(before, jobs[..], history, start);
      history := history + [start];
      assert history[..|history| - 1] == old(history);
      if applied.Err? {
        return Err(applied.error);
      }
      if applied.value {
        nextRefresh := clock;
      }
      return Ok(());
    }

    /** One pass of the loop. */
    method Advance(tick: Tick) returns (step: Step, done: Option<Result<(), CommandError>>)
      requires Valid() && AllSettled(history)
      modifies this`metadata, this`eligibility, this`blockTimestamp, this`nextRefresh, this`clock, this`history, jobs
      ensures Valid() && Frozen(old(jobs[..]), jobs[..])
      ensures done == Some(Ok(())) ==> AllFinished(jobs[..]) && AllSettled(history)
      ensures done.None? ==> AllSettled(history)
      ensures done.Some? && done.value.Err? ==> history == [] || AllSettled(history[..|history| - 1])
      ensures step.Stopped? <==> AllFinished(old(jobs[..]))
      ensures step.Refreshed? ==> old(clock) + tick.elapsed >= old(nextRefresh)
      ensures step.Ran? ==>
                && RunsNext(old(jobs[..]), old(blockTimestamp), (old(clock) + tick.elapsed) / 1000, step.job)
                && OneMoreStart(old(history), history, step.job)
      ensures !step.Ran? ==> history == old(history)
      ensures step.Waited? ==> MustAct()
      ensures old(MustAct()) ==> !step.Waited?
    {
      ghost var earlier := clock / 1000;
      clock := clock + tick.elapsed;
      if RunnableJob(jobs[..], blockTimestamp, earlier).Some? {
        StaysRunnable(jobs[..], blockTimestamp, earlier, clock / 1000);
      }
      var finished := CheckFinished();
      if finished {
        return Stopped, Some(Ok(()));
      }
      step, done := Act(tick);
    }

    /** Refreshes if that is due, else runs the runnable job, else waits. */
    method Act(tick: Tick) returns (step: Step, done: Option<Result<(), CommandError>>)
      requires Valid() && AllSettled(history)
      modifies this`metadata, this`eligibility, this`blockTimestamp, this`nextRefresh, this`clock, this`history, jobs
      ensures Valid() && Frozen(old(jobs[..]), jobs[..])
      ensures done.None? ==> AllSettled(history)
      ensures done.Some? ==> done.value.Err? && (history == [] || AllSettled(history[..|history| - 1]))
      ensures step.Refreshed? <==> old(Due())
      ensures step.Ran? ==>
                && RunsNext(old(jobs[..]), old(blockTimestamp), old(clock) / 1000, step.job)
                && OneMoreStart(old(history), history, step.job)
      ensures !step.Ran? ==> history == old(history)
      ensures step.Waited? <==> !old(MustAct())
      ensures step.Waited? ==> MustAct()
      ensures !step.Stopped?
    {
      if Due() {
        var refreshed := Refresh(tick);
        return Refreshed, if refreshed.Err? then Some(refreshed) else None;
      }
      var runnable := Runnable();
      if runnable.Some? {
        var ran := RunJob(runnable.value.0, tick);
        return Ran(runnable.value.0), if ran.Err? then Some(ran) else None;
      }
      WaitForScheduleProgress(tick);
      return Waited, None;
    }

    method CheckFinished() returns (finished: bool)
      ensures finished <==> AllFinished(jobs[..])
    {
      for j := 0 to jobs.Length
        invariant forall k: nat :: k < j ==> Finished(jobs[k])
      {
        if !Finished(jobs[j]) {
          assert jobs[..][j] == jobs[j];
          return false;
        }
      }
      return true;
    }

    /**
     * Any number of passes of a session. Whatever the outside does:
     * every execution but the last is settled before the next one starts, and the last one too while the session goes on;
     * a job is finished exactly when one of its executions has a receipt, at most one does, and it stays that way;
     * the session ends well only when all jobs are finished; and it never waits twice in a row.
     */
    method Run(first: Snapshot, env: nat -> Tick, ticks: nat) returns (done: Option<Result<(), CommandError>>, ghost steps: seq<Step>)
      requires Valid() && history == []
      modifies this`metadata, this`eligibility, this`blockTimestamp, this`nextRefresh, this`clock, this`history, jobs
      ensures Recorded(jobs[..], history) && Frozen(old(jobs[..]), jobs[..])
      ensures history == [] || AllSettled(history[..|history| - 1])
      ensures done.None? || done == Some(Ok(())) ==> AllSettled(history)
      ensures done == Some(Ok(())) ==> AllFinished(jobs[..])
      ensures NeverWaitsTwice(steps)
    {
      steps := [];
      ghost var before := jobs[..];
      var refreshed := RefreshJobStates(first, jobs);
      RecordSurvivesRefresh(first, before, jobs[..], history);
      if refreshed.Err? {
        return Some(refreshed), steps;
      }
      nextRefresh := clock + 1000 * interval;
      for tick := 0 to ticks
        invariant Valid() && AllSettled(history) && Frozen(before, jobs[..])
        invariant NeverWaitsTwice(steps) && (JustWaited(steps) ==> MustAct())
      {
        ghost var now := jobs[..];
        var step;
        step, done := Advance(env(tick));
        FrozenTwice(before, now, jobs[..]);
        OneMoreStep(steps, step);
        steps := steps + [step];
        if done.Some? {
          return done, steps;
        }
      }
      return None, steps;
    }
  }
}
