/** The worker service: it claims at most one job and settles it through the repository.
    Other callers may run any operations between any two of its calls. */
module Worker {
  import opened Common
  import opened Lifecycle
  import opened Store
  import opened Steps
  import opened Runs
  import opened Leases
  import opened Effects
  import opened JobRepository

  datatype ResultStatus = IdleResult | SucceededResult | RetryResult | FailedResult | CanceledResult | LeaseLostResult

  /** UnavailableRaised is the worker's own error for lost coordination; ValueErrorRaised is an
      argument error of the repository that nobody catches. */
  datatype WorkerError = ConfigurationRaised | UnavailableRaised | InvariantRaised | ValueErrorRaised

  datatype Outcome =
    | Returned(status: ResultStatus, jobId: Option<string>, attemptNumber: Option<int>)
    | Raised(error: WorkerError)

  datatype Signal = Continue | CancelSignal | LeaseLostSignal | UnavailableSignal

  /** Whether the database fails a call: not at all, before anything is committed, or after the
      commit, so that the caller never learns of it. */
  datatype Failure = NoFailure | RolledBack | Unreported

  /** What others do before one repository call of the worker, the clock inside that call, and
      whether the call fails. */
  datatype Turn = Turn(others: seq<Event>, d1: nat, d2: nat, failure: Failure)

  /** How building the evidence fails. */
  datatype ExecutionFailure = TransientFailure | DependencyMissing | RepositoryFailure | InvalidPayload | OtherFailure

  /** How the execution ends. */
  datatype Execution =
    | RunProduced(run: RunRecord)
    | ComparisonProduced(baselineRunId: string, candidateRunId: string, document: string, at: Time)
    | ExecutionFailed(failure: ExecutionFailure)

  /** Everything the worker does not decide: the heartbeats of the monitor before the race is
      decided, whether its sleep fails then or the execution finishes, and the turns of the
      remaining calls. */
  datatype Schedule = Schedule(
    claim: Turn, beats: seq<Turn>, sleeperFails: bool, execution: Execution,
    acknowledge: Turn, check: Turn, settle: Turn, fallback: Turn)

  /** A repository call: the state it found, the operation it was, and how it failed. */
  datatype Call = Call(before: State, event: Event, failure: Failure)

  /** The state a call leaves. */
  function After(c: Call): State
    requires Inv(c.before)
  {
    if c.failure.RolledBack? then c.before else Next(c.before, c.event)
  }

  predicate Made(c: Call, after: State) {
    Inv(c.before) && after == After(c)
  }

  predicate FencedBy(e: Event, claim: ClaimedJob) {
    FencedEvent(e, claim.job.jobId, claim.leaseToken) && e.n == claim.job.attemptCount
  }

  /** The call left exactly this state, and an outcome is returned only for what it did. */
  predicate Sound(o: Outcome, c: Call, after: State, claim: ClaimedJob) {
    var id, n, token := claim.job.jobId, claim.job.attemptCount, claim.leaseToken;
    && Made(c, after)
    && match o
       case Raised(e) => e.UnavailableRaised?
       case Returned(status, jobId, number) =>
         && c.failure.NoFailure?
         && jobId == Some(id) && number == Some(n) && FencedBy(c.event, claim)
         && match status
            case IdleResult => false
            case SucceededResult => c.event.DoComplete? && Completed(after.t, id, c.event.evidence, n, token)
            case RetryResult =>
              c.event.DoRetry? && EndedAs(after.t, id, n, token, Queued, RetryScheduled, Some(c.event.code))
            case FailedResult =>
              c.event.DoFail? && EndedAs(after.t, id, n, token, Failed, AttemptFailed, Some(c.event.code))
            case CanceledResult => CanceledBy(after.t, id, n, token)
            case LeaseLostResult => after.t == c.before.t
  }

  /** A heartbeat signal and the call behind it. */
  predicate SoundSignal(signal: Signal, c: Call, after: State, claim: ClaimedJob) {
    && Made(c, after)
    && (signal.CancelSignal? ==> Stopping(after.t, claim.job.jobId))
    && (signal.LeaseLostSignal? ==> after.t == c.before.t && FencedBy(c.event, claim) && c.failure.NoFailure?)
  }

  predicate ValidConfiguration(workerId: string, lease: int, heartbeat: int, base: int, cap: int) {
    && ValidWorkerId(workerId)
    && 5 <= lease <= 3600 && 1 <= heartbeat <= 1800 && 1 <= base <= 300 && 1 <= cap <= 3600
    && heartbeat * 2 <= lease && base <= cap
  }

  /** The evidence of a claim, or the failure that building it ended with. A run must carry the
      resource identity of its job; a decision is given it. */
  function BuildEvidence(claim: ClaimedJob, x: Execution): Result<Evidence, ExecutionFailure> {
    match x
    case RunProduced(run) =>
      if claim.payload.kind.RunJob? && run.runId == claim.job.resourceId then Ok(RunEvidence(run))
      else Err(InvalidPayload)
    case ComparisonProduced(baseline, candidate, document, at) =>
      if claim.payload.kind.ComparisonJob?
      then Ok(DecisionEvidence(DecisionRecord(claim.job.resourceId, baseline, candidate, document, at)))
      else Err(InvalidPayload)
    case ExecutionFailed(failure) => Err(failure)
  }

  /** A publication the store refuses for good: a decision over runs that are not there, or
      evidence beyond the size limits. */
  predicate Unpublishable(c: Call) {
    c.event.DoComplete? &&
    var e := c.event.evidence;
    Oversized(e) || (e.DecisionEvidence? && !References(c.before.t, e))
  }

  /** Why a claimed job can end with the worker unavailable. */
  predicate UnavailableCause(schedule: Schedule, last: Call) {
    || schedule.sleeperFails || schedule.execution == ExecutionFailed(RepositoryFailure)
    || !last.failure.NoFailure? || Unpublishable(last)
  }

  /** The error code a job fails with, given how building its evidence ended. */
  predicate FailureCodeFits(claim: ClaimedJob, x: Execution, code: string) {
    if claim.job.kind != claim.payload.kind then code == "invalid_job_payload"
    else
      match BuildEvidence(claim, x)
      case Ok(_) => code == "evidence_conflict"
      case Err(TransientFailure) => code == "retry_exhausted" && claim.job.maxAttempts <= claim.job.attemptCount
      case Err(DependencyMissing) => code == "dependency_not_found"
      case Err(InvalidPayload) => code == "invalid_job_payload"
      case Err(RepositoryFailure) => false
      case Err(OtherFailure) =>
        code == if claim.payload.kind.ComparisonJob? then "comparison_failed" else "execution_failed"
  }

  // The codes the worker stores are safe codes.

  lemma RetryCodesSafe()
    ensures SafeCode("retry_exhausted") && SafeCode("transient_execution_failure")
  {
  }

  lemma FailureCodesSafe()
    ensures SafeCode("dependency_not_found") && SafeCode("invalid_job_payload")
  {
  }

  lemma ExecutionCodesSafe()
    ensures SafeCode("comparison_failed") && SafeCode("execution_failed") && SafeCode("evidence_conflict")
  {
  }

  /** A success published what the execution produced; a retry followed a transient failure with
      attempts left, after the backoff; a failure carries the code of what went wrong. */
  predicate Explained(o: Outcome, c: Call, claim: ClaimedJob, x: Execution, base: int, cap: int) {
    o.Returned? ==>
      match o.status
      case SucceededResult => c.event.DoComplete? && BuildEvidence(claim, x) == Ok(c.event.evidence)
      case FailedResult => c.event.DoFail? && FailureCodeFits(claim, x, c.event.code)
      case RetryResult =>
        && c.event.DoRetry? && BuildEvidence(claim, x) == Err(TransientFailure)
        && 1 <= claim.job.attemptCount < claim.job.maxAttempts
        && c.event.delay == Backoff(base, cap, claim.job.attemptCount)
      case _ => true
  }

  // ---------------------------------------------------------------- the calls of one claim

  /** A call made with this operation after another, with the operations of others in between. */
  ghost predicate Follows(c: Call, prev: Call, turn: Turn, e: Event) {
    && Inv(prev.before) && Inv(After(prev)) && c.before == Run(After(prev), turn.others)
    && c.event == e && c.failure == turn.failure
  }

  function BeatEvent(claim: ClaimedJob, seconds: int, turn: Turn): Event {
    DoHeartbeat(claim.job.jobId, claim.job.attemptCount, claim.leaseToken, seconds, turn.d1, turn.d2)
  }

  function AcknowledgeOf(claim: ClaimedJob, turn: Turn): Event {
    DoAcknowledge(claim.job.jobId, claim.job.attemptCount, claim.leaseToken, turn.d1, turn.d2)
  }

  function FailOf(claim: ClaimedJob, code: string, turn: Turn): Event {
    DoFail(claim.job.jobId, claim.job.attemptCount, claim.leaseToken, code, turn.d1, turn.d2)
  }

  function RetryOf(claim: ClaimedJob, delay: int, code: string, turn: Turn): Event {
    DoRetry(claim.job.jobId, claim.job.attemptCount, claim.leaseToken, delay, code, turn.d1, turn.d2)
  }

  function CompleteOf(claim: ClaimedJob, e: Evidence, turn: Turn): Event {
    DoComplete(claim.job.jobId, e, claim.job.attemptCount, claim.leaseToken, turn.d1, turn.d2)
  }

  /** What a heartbeat finds in the tables: the lease over at its write, a request to cancel, or the
      job still running; nothing when the database fails it. */
  function Finding(c: Call, claim: ClaimedJob): Signal {
    var id, later := claim.job.jobId, c.before.now + (if c.event.DoHeartbeat? then c.event.d1 + c.event.d2 else 0);
    if !c.failure.NoFailure? then UnavailableSignal
    else if !LiveLease(c.before.t, id, claim.job.attemptCount, claim.leaseToken, later) then LeaseLostSignal
    else if c.before.t.jobs[id].record.status.CancelRequested? then CancelSignal
    else Continue
  }

  /** What the worker learns from a fenced call. */
  function Reply(c: Call): Result<JobRecord, Error>
    requires Inv(c.before) && Fenced(c.event)
  {
    if c.failure.NoFailure? then AnswerOf(c.before, c.event) else Err(StoreFailure)
  }

  /** What it reports for it. */
  function Report(claim: ClaimedJob, r: Result<JobRecord, Error>): Outcome {
    var id, n := Some(claim.job.jobId), Some(claim.job.attemptCount);
    match r
    case Err(LeaseLost) => Returned(LeaseLostResult, id, n)
    case Err(_) => Raised(UnavailableRaised)
    case Ok(job) =>
      match job.status
      case Succeeded => Returned(SucceededResult, id, n)
      case Queued => Returned(RetryResult, id, n)
      case Failed => Returned(FailedResult, id, n)
      case Canceled => Returned(CanceledResult, id, n)
      case _ => Raised(InvariantRaised)
  }

  /** One call with this operation, reported as answered. */
  ghost predicate Decided(calls: seq<Call>, prev: Call, turn: Turn, e: Event, o: Outcome, claim: ClaimedJob) {
    && |calls| == 1 && Follows(calls[0], prev, turn, e) && Inv(calls[0].before) && Fenced(e)
    && o == Report(claim, Reply(calls[0]))
  }

  ghost predicate BeatAt(calls: seq<Call>, prev: Call, beats: seq<Turn>, claim: ClaimedJob, seconds: int, i: int)
    requires 0 <= i < |calls| <= |beats|
  {
    Follows(calls[i], if i == 0 then prev else calls[i - 1], beats[i], BeatEvent(claim, seconds, beats[i]))
  }

  /** The heartbeats of the monitor, one for each turn so far; all before the last found the job
      running. */
  ghost predicate Beaten(calls: seq<Call>, prev: Call, beats: seq<Turn>, claim: ClaimedJob, seconds: int) {
    && |calls| <= |beats|
    && (forall i :: 0 <= i < |calls| ==> BeatAt(calls, prev, beats, claim, seconds, i))
    && (forall i :: 0 <= i < |calls| - 1 ==> Finding(calls[i], claim).Continue?)
  }

  lemma NothingBeaten(prev: Call, beats: seq<Turn>, claim: ClaimedJob, seconds: int)
    ensures Beaten([], prev, beats, claim, seconds)
  {
  }

  lemma BeatenOnce(calls: seq<Call>, prev: Call, beats: seq<Turn>, claim: ClaimedJob, seconds: int, c: Call)
    requires Beaten(calls, prev, beats, claim, seconds) && |calls| < |beats|
    requires calls != [] ==> Finding(LastOf(prev, calls), claim).Continue?
    requires Follows(c, LastOf(prev, calls), beats[|calls|], BeatEvent(claim, seconds, beats[|calls|]))
    ensures Beaten(calls + [c], prev, beats, claim, seconds)
  {
    hide Follows, Finding;
    var all := calls + [c];
    forall i | 0 <= i < |all|
      ensures BeatAt(all, prev, beats, claim, seconds, i)
    {
      if i < |calls| {
        assert BeatAt(calls, prev, beats, claim, seconds, i);
      }
    }
  }

  function LastOf(prev: Call, calls: seq<Call>): Call {
    if calls == [] then prev else calls[|calls| - 1]
  }

  /** What follows a heartbeat that did not find the job running: an acknowledgement of a request to
      cancel, and nothing else in any case. */
  ghost predicate Signaled(calls: seq<Call>, prev: Call, signal: Signal, o: Outcome, claim: ClaimedJob, turn: Turn) {
    match signal
    case CancelSignal => Decided(calls, prev, turn, AcknowledgeOf(claim, turn), o, claim)
    case LeaseLostSignal => calls == [] && o == Report(claim, Err(LeaseLost))
    case UnavailableSignal => calls == [] && o == Raised(UnavailableRaised)
    case Continue => false
  }

  function ExecutionCode(claim: ClaimedJob): string {
    if claim.payload.kind.ComparisonJob? then "comparison_failed" else "execution_failed"
  }

  /** What follows an execution that finished while its job was found running. */
  ghost predicate Settled(calls: seq<Call>, prev: Call, o: Outcome, claim: ClaimedJob, x: Schedule,
                          base: int, cap: int) {
    match BuildEvidence(claim, x.execution)
    case Ok(e) =>
      && calls != [] && Follows(calls[0], prev, x.settle, CompleteOf(claim, e, x.settle)) && Inv(calls[0].before)
      && if Reply(calls[0]) == Err(ImmutableConflict)
         then Decided(calls[1..], calls[0], x.fallback, FailOf(claim, "evidence_conflict", x.fallback), o, claim)
         else |calls| == 1 && o == Report(claim, Reply(calls[0]))
    case Err(TransientFailure) =>
      if claim.job.maxAttempts <= claim.job.attemptCount
      then Decided(calls, prev, x.settle, FailOf(claim, "retry_exhausted", x.settle), o, claim)
      else
        && 1 <= claim.job.attemptCount
        && Decided(calls, prev, x.settle,
                   RetryOf(claim, Backoff(base, cap, claim.job.attemptCount), "transient_execution_failure", x.settle),
                   o, claim)
    case Err(DependencyMissing) =>
      Decided(calls, prev, x.settle, FailOf(claim, "dependency_not_found", x.settle), o, claim)
    case Err(InvalidPayload) =>
      Decided(calls, prev, x.settle, FailOf(claim, "invalid_job_payload", x.settle), o, claim)
    case Err(OtherFailure) =>
      Decided(calls, prev, x.settle, FailOf(claim, ExecutionCode(claim), x.settle), o, claim)
    case Err(RepositoryFailure) => calls == [] && o == Raised(UnavailableRaised)
  }

  /** Every repository call made for a claim, in order: the monitor's heartbeats, the heartbeat after
      the execution, and the rest. */
  datatype Trace = Trace(beats: seq<Call>, check: Option<Call>, rest: seq<Call>)

  /** The whole story of a claim after its first call, whatever happened in between. */
  ghost predicate Processed(tr: Trace, first: Call, o: Outcome, claim: ClaimedJob, x: Schedule,
                            seconds: int, base: int, cap: int) {
    var last := LastOf(first, tr.beats);
    && Beaten(tr.beats, first, x.beats, claim, seconds)
    && if tr.beats != [] && !Finding(last, claim).Continue? then
         tr.check.None? && Signaled(tr.rest, last, Finding(last, claim), o, claim, x.acknowledge)
       else
         && |tr.beats| == |x.beats|
         && if x.sleeperFails then tr.check.None? && tr.rest == [] && o == Raised(UnavailableRaised)
            else
              && tr.check.Some? && Follows(tr.check.value, last, x.check, BeatEvent(claim, seconds, x.check))
              && var found := Finding(tr.check.value, claim);
                 if found.Continue? then Settled(tr.rest, tr.check.value, o, claim, x, base, cap)
                 else Signaled(tr.rest, tr.check.value, found, o, claim, x.acknowledge)
  }

  ghost predicate Story(tr: Trace, first: Call, o: Outcome, claim: ClaimedJob, x: Schedule,
                        seconds: int, base: int, cap: int) {
    if claim.job.kind != claim.payload.kind then
      && tr.beats == [] && tr.check.None?
      && Decided(tr.rest, first, x.settle, FailOf(claim, "invalid_job_payload", x.settle), o, claim)
    else Processed(tr, first, o, claim, x, seconds, base, cap)
  }

  class WorkerService {
    const repository: Repository
    const workerId: string
    const leaseSeconds: int
    const heartbeatSeconds: int
    const backoffBaseSeconds: int
    const backoffMaxSeconds: int

    /** The configuration was accepted. */
    predicate Configured() {
      ValidConfiguration(workerId, leaseSeconds, heartbeatSeconds, backoffBaseSeconds, backoffMaxSeconds)
    }

    constructor (repository: Repository, workerId: string, lease: int, heartbeat: int, base: int, cap: int)
      ensures this.repository == repository && this.workerId == workerId
      ensures leaseSeconds == lease && heartbeatSeconds == heartbeat
      ensures backoffBaseSeconds == base && backoffMaxSeconds == cap
    {
      this.repository, this.workerId := repository, workerId;
      leaseSeconds, heartbeatSeconds := lease, heartbeat;
      backoffBaseSeconds, backoffMaxSeconds := base, cap;
    }

    /** A service, or a configuration error. */
    static method Create(repository: Repository, workerId: string, lease: int, heartbeat: int, base: int, cap: int)
      returns (r: Result<WorkerService, WorkerError>)
      ensures r.Ok? <==> ValidConfiguration(workerId, lease, heartbeat, base, cap)
      ensures r.Ok? ==> r.value.Configured() && r.value.repository == repository
      ensures r.Err? ==> r.error == ConfigurationRaised
    {
      if ValidConfiguration(workerId, lease, heartbeat, base, cap) {
        var service := new WorkerService(repository, workerId, lease, heartbeat, base, cap);
        r := Ok(service);
      } else {
        r := Err(ConfigurationRaised);
      }
    }

    ghost predicate Ready(claim: ClaimedJob)
      reads repository
    {
      Configured() && repository.Valid() && Ours(repository.Rows(), claim)
      && claim.attempt.attemptNumber == claim.job.attemptCount
    }

    function ResultOf(claim: ClaimedJob, status: ResultStatus): Outcome {
      Returned(status, Some(claim.job.jobId), Some(claim.attempt.attemptNumber))
    }

    /** How a refused repository call is reported. */
    function Refusal(claim: ClaimedJob, error: Error): Outcome {
      match error
      case LeaseLost => ResultOf(claim, LeaseLostResult)
      case BadValue => Raised(ValueErrorRaised)
      case _ => Raised(UnavailableRaised)
    }

    /** Others take their turn. */
    method Yield(claim: ClaimedJob, turn: Turn)
      requires Ready(claim)
      modifies repository
      ensures Ready(claim)
      ensures repository.View() == Run(old(repository.View()), turn.others)
    {
      hide Inv, Ours;
      OursInRun(repository.View(), turn.others, claim);
      repository.ExecuteAll(turn.others);
    }

    /** One heartbeat: its signal is exactly what it finds in the tables. */
    method Heartbeat(claim: ClaimedJob, turn: Turn, ghost prev: Call) returns (signal: Signal, ghost call: Call)
      requires Ready(claim) && Made(prev, repository.View())
      modifies repository
      ensures Ready(claim)
      ensures SoundSignal(signal, call, repository.View(), claim)
      ensures Follows(call, prev, turn, BeatEvent(claim, leaseSeconds, turn))
      ensures signal == Finding(call, claim)
    {
      hide Inv, Ours, Next, LiveLease;
      Yield(claim, turn);
      var id, n := claim.job.jobId, claim.attempt.attemptNumber;
      call := Call(repository.View(), BeatEvent(claim, leaseSeconds, turn), turn.failure);
      HeartbeatAnswers(repository.View(), claim, leaseSeconds, turn.d1, turn.d2);
      HeartbeatFinds(repository.View(), claim, leaseSeconds, turn.d1, turn.d2);
      OursNext(repository.View(), call.event, claim);
      HeartbeatEvent(call.before, id, n, claim.leaseToken, leaseSeconds, turn.d1, turn.d2);
      var r := Err(StoreFailure);
      if !turn.failure.RolledBack? {
        var answer := repository.HeartbeatJob(id, n, claim.leaseToken, leaseSeconds, turn.d1, turn.d2);
        r := if turn.failure.Unreported? then r else answer;
      }
      match r {
        case Err(LeaseLost) => signal := LeaseLostSignal;
        case Err(_) => signal := UnavailableSignal;
        case Ok(job) =>
          signal := if job.status.CancelRequested? then CancelSignal
                    else if !job.status.Running? then LeaseLostSignal
                    else Continue;
      }
    }

    /** Heartbeats until one does not find the job running or the sleep fails; None if the execution
        finishes first. */
    method MonitorHeartbeat(claim: ClaimedJob, beats: seq<Turn>, sleeperFails: bool, ghost first: Call)
      returns (signal: Option<Signal>, ghost calls: seq<Call>)
      requires Ready(claim) && Made(first, repository.View())
      modifies repository
      ensures Ready(claim) && Made(LastOf(first, calls), repository.View())
      ensures Beaten(calls, first, beats, claim, leaseSeconds)
      ensures
        if calls != [] && !Finding(LastOf(first, calls), claim).Continue? then
          && signal == Some(Finding(LastOf(first, calls), claim))
          && SoundSignal(signal.value, LastOf(first, calls), repository.View(), claim)
        else
          && |calls| == |beats| && signal == if sleeperFails then Some(UnavailableSignal) else None
    {
      hide Inv, Ours, Next, Made, Follows, Finding, Beaten;
      signal, calls := None, [];
      NothingBeaten(first, beats, claim, leaseSeconds);
      var i := 0;
      while i < |beats| && signal.None?
        invariant 0 <= i <= |beats| && |calls| == i
        invariant Ready(claim) && Made(LastOf(first, calls), repository.View())
        invariant Beaten(calls, first, beats, claim, leaseSeconds)
        invariant signal.None? && calls != [] ==> Finding(LastOf(first, calls), claim).Continue?
        invariant signal.Some? ==>
                    && calls != [] && signal.value == Finding(LastOf(first, calls), claim) && !signal.value.Continue?
                    && SoundSignal(signal.value, LastOf(first, calls), repository.View(), claim)
        decreases |beats| - i
      {
        var beat, made := Heartbeat(claim, beats[i], LastOf(first, calls));
        BeatenOnce(calls, first, beats, claim, leaseSeconds, made);
        calls := calls + [made];
        if !beat.Continue? {
          signal := Some(beat);
        }
        i := i + 1;
      }
      if signal.None? && sleeperFails {
        signal := Some(UnavailableSignal);
      }
    }

    method HandleHeartbeatSignal(claim: ClaimedJob, signal: Signal, turn: Turn, ghost call: Call)
      returns (o: Outcome, ghost last: Call, ghost calls: seq<Call>)
      requires Ready(claim) && !signal.Continue?
      requires SoundSignal(signal, call, repository.View(), claim)
      modifies repository
      ensures Ready(claim) && Sound(o, last, repository.View(), claim)
      ensures o.Raised? ==> (signal.UnavailableSignal? && last == call) || !last.failure.NoFailure?
      ensures o.Returned? ==> o.status.CanceledResult? || o.status.LeaseLostResult?
      ensures Signaled(calls, call, signal, o, claim, turn)
    {
      hide Inv, Ours, Next, StopInstead, AcknowledgeCancellation;
      last, calls := call, [];
      match signal {
        case CancelSignal =>
          StoppingInRun(repository.View(), turn.others, claim.job.jobId);
          Yield(claim, turn);
          var id, n := claim.job.jobId, claim.attempt.attemptNumber;
          last := Call(repository.View(), AcknowledgeOf(claim, turn), turn.failure);
          calls := [last];
          AcknowledgeAnswers(repository.View(), claim, turn.d1, turn.d2);
          OursNext(repository.View(), last.event, claim);
          AcknowledgeEvent(last.before, id, n, claim.leaseToken, turn.d1, turn.d2);
          var r := Err(StoreFailure);
          if !turn.failure.RolledBack? {
            var answer := repository.AcknowledgeCancellation(id, n, claim.leaseToken, turn.d1, turn.d2);
            r := if turn.failure.Unreported? then r else answer;
          }
          o := if r.Err? then Refusal(claim, r.error)
               else if !r.value.status.Canceled? then Raised(InvariantRaised)
               else ResultOf(claim, CanceledResult);
        case LeaseLostSignal => o := ResultOf(claim, LeaseLostResult);
        case UnavailableSignal => o := Raised(UnavailableRaised);
        case Continue => o := Raised(InvariantRaised);
      }
    }

    method FailClaim(claim: ClaimedJob, code: string, turn: Turn, ghost prev: Call)
      returns (o: Outcome, ghost last: Call)
      requires Ready(claim) && SafeCode(code) && Made(prev, repository.View())
      modifies repository
      ensures Ready(claim) && Sound(o, last, repository.View(), claim)
      ensures last.event.DoFail? && last.event.code == code && last.failure == turn.failure
      ensures o.Raised? <==> !turn.failure.NoFailure?
      ensures o.Returned? ==> o.status.FailedResult? || o.status.CanceledResult? || o.status.LeaseLostResult?
      ensures Decided([last], prev, turn, FailOf(claim, code, turn), o, claim)
    {
      hide Inv, Ours, Next, StopInstead, FailJob, SafeCode;
      Yield(claim, turn);
      var id, n := claim.job.jobId, claim.attempt.attemptNumber;
      last := Call(repository.View(), FailOf(claim, code, turn), turn.failure);
      FailAnswers(repository.View(), claim, code, turn.d1, turn.d2);
      OursNext(repository.View(), last.event, claim);
      FailEvent(last.before, id, n, claim.leaseToken, code, turn.d1, turn.d2);
      var r := Err(StoreFailure);
      if !turn.failure.RolledBack? {
        var answer := repository.FailJob(id, n, claim.leaseToken, code, turn.d1, turn.d2);
        r := if turn.failure.Unreported? then r else answer;
      }
      o := if r.Err? then Refusal(claim, r.error)
           else if r.value.status.Canceled? then ResultOf(claim, CanceledResult)
           else if !r.value.status.Failed? then Raised(InvariantRaised)
           else ResultOf(claim, FailedResult);
    }

    method RetryOrExhaust(claim: ClaimedJob, turn: Turn, ghost prev: Call) returns (o: Outcome, ghost last: Call)
      requires Ready(claim) && Made(prev, repository.View())
      modifies repository
      ensures Ready(claim) && Sound(o, last, repository.View(), claim) && last.failure == turn.failure
      ensures o.Raised? <==> !turn.failure.NoFailure?
      ensures o.Returned? ==> !o.status.SucceededResult? && 1 <= claim.job.attemptCount
      ensures claim.job.maxAttempts <= claim.job.attemptCount ==>
                && last.event.DoFail? && last.event.code == "retry_exhausted"
                && Decided([last], prev, turn, FailOf(claim, "retry_exhausted", turn), o, claim)
      ensures claim.job.attemptCount < claim.job.maxAttempts ==>
                && last.event.DoRetry? && 1 <= claim.job.attemptCount
                && last.event.delay == Backoff(backoffBaseSeconds, backoffMaxSeconds, claim.job.attemptCount)
                && last.event.code == "transient_execution_failure"
                && Decided([last], prev, turn, RetryOf(claim, last.event.delay, last.event.code, turn), o, claim)
    {
      hide Inv, Ours, Next, StopInstead, RetryJob, Pow2, SafeCode, Decided;
      RetryCodesSafe();
      AttemptPositive(repository.Rows(), claim);
      if claim.job.maxAttempts <= claim.job.attemptCount {
        o, last := FailClaim(claim, "retry_exhausted", turn, prev);
      } else {
        var delay := Backoff(backoffBaseSeconds, backoffMaxSeconds, claim.job.attemptCount);
        BackoffBounds(backoffBaseSeconds, backoffMaxSeconds, 1, claim.job.attemptCount);
        o, last := ScheduleRetry(claim, delay, turn, prev);
      }
    }

    method ScheduleRetry(claim: ClaimedJob, delay: int, turn: Turn, ghost prev: Call)
      returns (o: Outcome, ghost last: Call)
      requires Ready(claim) && Made(prev, repository.View())
      requires 1 <= delay <= 3600 && claim.job.attemptCount < claim.job.maxAttempts
      modifies repository
      ensures Ready(claim) && Sound(o, last, repository.View(), claim) && last.failure == turn.failure
      ensures o.Raised? <==> !turn.failure.NoFailure?
      ensures o.Returned? ==> !o.status.SucceededResult? && !o.status.FailedResult?
      ensures last.event == RetryOf(claim, delay, "transient_execution_failure", turn)
      ensures Decided([last], prev, turn, RetryOf(claim, delay, "transient_execution_failure", turn), o, claim)
    {
      hide Inv, Ours, Next, StopInstead, RetryJob, SafeCode;
      RetryCodesSafe();
      Yield(claim, turn);
      var id, n, code := claim.job.jobId, claim.attempt.attemptNumber, "transient_execution_failure";
      last := Call(repository.View(), RetryOf(claim, delay, code, turn), turn.failure);
      RetryAnswers(repository.View(), claim, delay, code, turn.d1, turn.d2);
      OursNext(repository.View(), last.event, claim);
      RetryEvent(last.before, id, n, claim.leaseToken, delay, code, turn.d1, turn.d2);
      var r := Err(StoreFailure);
      if !turn.failure.RolledBack? {
        var answer := repository.RetryJob(id, n, claim.leaseToken, delay, code, turn.d1, turn.d2);
        r := if turn.failure.Unreported? then r else answer;
      }
      o := if r.Err? then Refusal(claim, r.error)
           else if r.value.status.Canceled? then ResultOf(claim, CanceledResult)
           else if !r.value.status.Queued? then Raised(InvariantRaised)
           else ResultOf(claim, RetryResult);
    }

    /** Publishes the evidence; a conflict with what is stored fails the job instead. */
    method Publish(claim: ClaimedJob, evidence: Evidence, turn: Turn, fallback: Turn, ghost prev: Call)
      returns (o: Outcome, ghost last: Call, ghost calls: seq<Call>)
      requires Ready(claim) && Owns(claim.job, KindOf(evidence), ResourceOf(evidence))
      requires Made(prev, repository.View())
      modifies repository
      ensures Ready(claim) && Sound(o, last, repository.View(), claim)
      ensures o.Raised? ==> !last.failure.NoFailure? || Unpublishable(last)
      ensures o.Returned? && o.status.SucceededResult? ==> last.event.DoComplete? && last.event.evidence == evidence
      ensures o.Returned? && o.status.FailedResult? ==> last.event.DoFail? && last.event.code == "evidence_conflict"
      ensures o.Returned? ==> !o.status.RetryResult?
      ensures calls != [] && Follows(calls[0], prev, turn, CompleteOf(claim, evidence, turn)) && Inv(calls[0].before)
      ensures
        if Reply(calls[0]) == Err(ImmutableConflict)
        then Decided(calls[1..], calls[0], fallback, FailOf(claim, "evidence_conflict", fallback), o, claim)
        else |calls| == 1 && o == Report(claim, Reply(calls[0]))
    {
      hide Inv, Ours, Next, StopInstead, CompleteJob, Completed, References, Oversized, SafeCode;
      ExecutionCodesSafe();
      Yield(claim, turn);
      var id, n, token := claim.job.jobId, claim.attempt.attemptNumber, claim.leaseToken;
      last := Call(repository.View(), CompleteOf(claim, evidence, turn), turn.failure);
      calls := [last];
      CompleteAnswers(repository.View(), claim, evidence, turn.d1, turn.d2);
      OursNext(repository.View(), last.event, claim);
      CompleteEvent(last.before, id, evidence, n, token, turn.d1, turn.d2);
      var r := Err(StoreFailure);
      if !turn.failure.RolledBack? {
        var answer;
        match evidence {
          case RunEvidence(run) => answer := repository.CompleteRun(id, run, n, token, turn.d1, turn.d2);
          case DecisionEvidence(decision) =>
            answer := repository.CompleteReleaseDecision(id, decision, n, token, turn.d1, turn.d2);
        }
        r := if turn.failure.Unreported? then r else answer;
      }
      if r == Err(ImmutableConflict) {
        ghost var failed;
        o, failed := FailClaim(claim, "evidence_conflict", fallback, last);
        last, calls := failed, calls + [failed];
        assert calls[1..] == [failed];
      } else {
        o := if r.Err? then Refusal(claim, r.error)
             else if r.value.status.Canceled? then ResultOf(claim, CanceledResult)
             else if !r.value.status.Succeeded? then Raised(InvariantRaised)
             else ResultOf(claim, SucceededResult);
      }
    }

    /** What the end of the execution leads to, once its job was found running. */
    method SettleExecution(claim: ClaimedJob, schedule: Schedule, ghost check: Call)
      returns (o: Outcome, ghost last: Call, ghost calls: seq<Call>)
      requires Ready(claim) && claim.payload.kind == claim.job.kind && Made(check, repository.View())
      modifies repository
      ensures Ready(claim) && Sound(o, last, repository.View(), claim)
      ensures Explained(o, last, claim, schedule.execution, backoffBaseSeconds, backoffMaxSeconds)
      ensures o.Raised? ==> UnavailableCause(schedule, last)
      ensures Settled(calls, check, o, claim, schedule, backoffBaseSeconds, backoffMaxSeconds)
    {
      hide Inv, Ours, Next, StopInstead, Completed, References, Made, SafeCode, Decided, Follows, Report;
      FailureCodesSafe();
      ExecutionCodesSafe();
      last, calls := check, [];
      var built := BuildEvidence(claim, schedule.execution);
      match built {
        case Err(TransientFailure) =>
          o, last := RetryOrExhaust(claim, schedule.settle, check);
          calls := [last];
        case Err(DependencyMissing) =>
          o, last := FailClaim(claim, "dependency_not_found", schedule.settle, check);
          calls := [last];
        case Err(RepositoryFailure) => o := Raised(UnavailableRaised);
        case Err(InvalidPayload) =>
          o, last := FailClaim(claim, "invalid_job_payload", schedule.settle, check);
          calls := [last];
        case Err(OtherFailure) =>
          var code := if claim.payload.kind.ComparisonJob? then "comparison_failed" else "execution_failed";
          o, last := FailClaim(claim, code, schedule.settle, check);
          calls := [last];
        case Ok(evidence) => o, last, calls := Publish(claim, evidence, schedule.settle, schedule.fallback, check);
      }
    }

    /** The execution and the heartbeat monitor race; the one that ends first decides. */
    method Process(claim: ClaimedJob, schedule: Schedule, ghost first: Call)
      returns (o: Outcome, ghost last: Call, ghost tr: Trace)
      requires Ready(claim) && claim.payload.kind == claim.job.kind
      requires Made(first, repository.View())
      modifies repository
      ensures Ready(claim) && Sound(o, last, repository.View(), claim)
      ensures Explained(o, last, claim, schedule.execution, backoffBaseSeconds, backoffMaxSeconds)
      ensures o.Raised? ==> UnavailableCause(schedule, last)
      ensures Processed(tr, first, o, claim, schedule, leaseSeconds, backoffBaseSeconds, backoffMaxSeconds)
    {
      hide Inv, Ours, Next, StopInstead, Completed, References, Made, Follows, LiveLease, Settled, Beaten, Decided;
      var ended, calls := MonitorHeartbeat(claim, schedule.beats, schedule.sleeperFails, first);
      ghost var beaten := LastOf(first, calls);
      ghost var rest;
      if ended.Some? {
        o, last, rest := HandleHeartbeatSignal(claim, ended.value, schedule.acknowledge, beaten);
        tr := Trace(calls, None, rest);
      } else {
        var signal, checked := Heartbeat(claim, schedule.check, beaten);
        if !signal.Continue? {
          o, last, rest := HandleHeartbeatSignal(claim, signal, schedule.acknowledge, checked);
        } else {
          o, last, rest := SettleExecution(claim, schedule, checked);
        }
        tr := Trace(calls, Some(checked), rest);
      }
    }

    method Settle(claim: ClaimedJob, schedule: Schedule, ghost first: Call)
      returns (o: Outcome, ghost last: Call, ghost tr: Trace)
      requires Ready(claim)
      requires Made(first, repository.View())
      modifies repository
      ensures Ready(claim) && Sound(o, last, repository.View(), claim)
      ensures Explained(o, last, claim, schedule.execution, backoffBaseSeconds, backoffMaxSeconds)
      ensures o.Raised? ==> UnavailableCause(schedule, last)
      ensures Story(tr, first, o, claim, schedule, leaseSeconds, backoffBaseSeconds, backoffMaxSeconds)
    {
      hide Inv, Ours, Next, Completed, References, Made, SafeCode, Processed, Decided;
      FailureCodesSafe();
      if claim.job.kind != claim.payload.kind {
        o, last := FailClaim(claim, "invalid_job_payload", schedule.settle, first);
        tr := Trace([], None, [last]);
      } else {
        o, last, tr := Process(claim, schedule, first);
      }
    }

    predicate ValidClaim(claim: ClaimedJob, token: string) {
      && claim.leaseToken == token
      && claim.job.status.Running? && claim.attempt.status.AttemptRunning?
      && claim.attempt.jobId == claim.job.jobId && claim.attempt.attemptNumber == claim.job.attemptCount
    }

    /** One service call. Whatever others do, and whichever of its calls the database fails, its
        outcome is the truth about the last repository call it made: success means this attempt
        published exactly the evidence the execution produced; failure, cancellation and retry mean
        the job and this attempt ended so together, for the reason the execution gave; a lost lease
        means that call changed no table; idle means nothing was claimable. The claim is always
        consistent, so the invariant error is never raised, nor is an argument refused; and the
        worker is unavailable only for one of the causes named. */
    method RunOnce(token: string, schedule: Schedule)
      returns (o: Outcome, ghost claim: Option<ClaimedJob>, ghost last: Call, ghost first: Call, ghost tr: Trace)
      requires Configured() && repository.Valid()
      modifies repository
      ensures repository.Valid()
      ensures !ValidToken(token) <==> o == Raised(ConfigurationRaised)
      ensures !ValidToken(token) ==> repository.View() == old(repository.View())
      ensures o.Raised? ==> o.error.ConfigurationRaised? || o.error.UnavailableRaised?
      ensures o.Returned? && o.status.IdleResult? <==> ValidToken(token) && o.Returned? && claim.None?
      ensures ValidToken(token) && claim.None? ==>
                && Made(last, repository.View()) && last.failure == schedule.claim.failure
                && last.event == DoClaim(workerId, token, leaseSeconds, schedule.claim.d1, schedule.claim.d2)
                && (o.Returned? ==>
                      && last.failure.NoFailure? && repository.Rows() == last.before.t
                      && forall j :: j in last.before.t.jobs ==>
                           !Claimable(last.before.t.jobs[j].record, last.before.now + schedule.claim.d1))
                && (o.Raised? && last.failure.NoFailure? ==> TokenReused(last))
      ensures claim.Some? ==>
                && claim.value.leaseToken == token && Ours(repository.Rows(), claim.value)
                && Sound(o, last, repository.View(), claim.value)
                && Explained(o, last, claim.value, schedule.execution, backoffBaseSeconds, backoffMaxSeconds)
                && (o.Raised? ==> UnavailableCause(schedule, last))
                && first.event == DoClaim(workerId, token, leaseSeconds, schedule.claim.d1, schedule.claim.d2)
                && Story(tr, first, o, claim.value, schedule, leaseSeconds, backoffBaseSeconds, backoffMaxSeconds)
    {
      hide Inv, Ours, Next, StopInstead, Completed, References, ClaimNextJob, Explained, UnavailableCause, Story;
      claim, last := None, Call(repository.View(), DoPutDataset("", 0), RolledBack);
      first, tr := last, Trace([], None, []);
      if !ValidToken(token) {
        o := Raised(ConfigurationRaised);
      } else {
        repository.ExecuteAll(schedule.claim.others);
        var d1, d2 := schedule.claim.d1, schedule.claim.d2;
        last := Call(repository.View(), DoClaim(workerId, token, leaseSeconds, d1, d2), schedule.claim.failure);
        ClaimAnswers(repository.View(), workerId, token, leaseSeconds, d1, d2);
        ClaimEvent(last.before, workerId, token, leaseSeconds, d1, d2);
        var r := Err(StoreFailure);
        if !schedule.claim.failure.RolledBack? {
          var answer := repository.ClaimNextJob(workerId, token, leaseSeconds, d1, d2);
          r := if schedule.claim.failure.Unreported? then r else answer;
        }
        match r {
          case Err(BadValue) => o := Raised(ValueErrorRaised);
          case Err(_) => o := Raised(UnavailableRaised);
          case Ok(None) => o := Returned(IdleResult, None, None);
          case Ok(Some(claimed)) =>
            claim := Some(claimed);
            if !ValidClaim(claimed, token) {
              o := Raised(InvariantRaised);
            } else {
              first := last;
              o, last, tr := Settle(claimed, schedule, first);
            }
        }
      }
    }
  }

  /** The claim's token was used before by the job it selected. */
  predicate TokenReused(c: Call) {
    && Inv(c.before) && c.event.DoClaim?
    && ClaimNextJob(c.before, c.event.worker, c.event.token, c.event.seconds, c.event.d1, c.event.d2).1
         == Err(ConcurrentTransition)
  }

  // What each operation is as an event.

  lemma ClaimEvent(s: State, worker: string, token: string, seconds: int, d1: nat, d2: nat)
    requires Inv(s)
    ensures Next(s, DoClaim(worker, token, seconds, d1, d2)) == ClaimNextJob(s, worker, token, seconds, d1, d2).0
  {
  }

  lemma HeartbeatEvent(s: State, id: string, n: int, token: string, seconds: int, d1: nat, d2: nat)
    requires Inv(s)
    ensures Next(s, DoHeartbeat(id, n, token, seconds, d1, d2)) == HeartbeatJob(s, id, n, token, seconds, d1, d2).0
  {
  }

  /** A heartbeat by the holder of a claim answers with the stored job exactly while its lease lasts. */
  lemma HeartbeatFinds(s: State, claim: ClaimedJob, seconds: int, d1: nat, d2: nat)
    requires Inv(s) && Ours(s.t, claim) && 5 <= seconds <= 3600
    ensures
      var id, n, token := claim.job.jobId, claim.job.attemptCount, claim.leaseToken;
      var r := HeartbeatJob(s, id, n, token, seconds, d1, d2).1;
      if LiveLease(s.t, id, n, token, s.now + d1 + d2) then
        && id in s.t.jobs && r == Ok(s.t.jobs[id].record)
        && (s.t.jobs[id].record.status.Running? || s.t.jobs[id].record.status.CancelRequested?)
      else r == Err(LeaseLost)
  {
    hide Inv, HeartbeatJob, Renewed, HasRows;
    HeartbeatEffect(s, claim.job.jobId, claim.job.attemptCount, claim.leaseToken, seconds, d1, d2);
  }

  lemma AcknowledgeEvent(s: State, id: string, n: int, token: string, d1: nat, d2: nat)
    requires Inv(s)
    ensures Next(s, DoAcknowledge(id, n, token, d1, d2)) == AcknowledgeCancellation(s, id, n, token, d1, d2).0
  {
  }

  lemma FailEvent(s: State, id: string, n: int, token: string, code: string, d1: nat, d2: nat)
    requires Inv(s)
    ensures Next(s, DoFail(id, n, token, code, d1, d2)) == FailJob(s, id, n, token, code, d1, d2).0
  {
  }

  lemma RetryEvent(s: State, id: string, n: int, token: string, delay: int, code: string, d1: nat, d2: nat)
    requires Inv(s)
    ensures Next(s, DoRetry(id, n, token, delay, code, d1, d2)) == RetryJob(s, id, n, token, delay, code, d1, d2).0
  {
  }

  lemma CompleteEvent(s: State, id: string, e: Evidence, n: int, token: string, d1: nat, d2: nat)
    requires Inv(s)
    ensures Next(s, DoComplete(id, e, n, token, d1, d2)) == CompleteJob(s, id, e, n, token, d1, d2).0
  {
  }

  lemma AttemptPositive(t: Tables, claim: ClaimedJob)
    requires Ours(t, claim)
    ensures 1 <= claim.job.attemptCount
  {
  }

  // ---------------------------------------------------------------- what the story means

  /** When a heartbeat is made without failure: the stored job is running, or asked to stop, under a
      lease that lasts to the heartbeat's write; or that lease is over. */
  predicate FoundRunning(c: Call, claim: ClaimedJob) {
    && c.failure.NoFailure? && HeldAtWrite(c, claim)
    && c.before.t.jobs[claim.job.jobId].record.status == Running
  }

  predicate FoundStopping(c: Call, claim: ClaimedJob) {
    && c.failure.NoFailure? && HeldAtWrite(c, claim)
    && c.before.t.jobs[claim.job.jobId].record.status == CancelRequested
  }

  predicate FoundLost(c: Call, claim: ClaimedJob) {
    c.failure.NoFailure? && !HeldAtWrite(c, claim)
  }

  /** The stored job and attempt are the claim's own, active, with the lease not over at the write. */
  predicate HeldAtWrite(c: Call, claim: ClaimedJob) {
    var t, key := c.before.t, AttemptKey(claim.job.jobId, claim.job.attemptCount);
    && c.event.DoHeartbeat?
    && claim.job.jobId in t.jobs && key in t.attempts
    && (t.jobs[claim.job.jobId].record.status == Running || t.jobs[claim.job.jobId].record.status == CancelRequested)
    && t.jobs[claim.job.jobId].record.attemptCount == claim.job.attemptCount
    && t.attempts[key].status == AttemptRunning && t.attempts[key].leaseToken == claim.leaseToken
    && c.before.now + c.event.d1 + c.event.d2 < t.attempts[key].leaseExpiresAt
  }

  /** A heartbeat tells the worker exactly what it found. */
  lemma FindingMeans(c: Call, claim: ClaimedJob)
    requires c.event.DoHeartbeat?
    ensures Finding(c, claim) == Continue <==> FoundRunning(c, claim)
    ensures Finding(c, claim) == CancelSignal <==> FoundStopping(c, claim)
    ensures Finding(c, claim) == LeaseLostSignal <==> FoundLost(c, claim)
    ensures Finding(c, claim) == UnavailableSignal <==> !c.failure.NoFailure?
  {
  }

  /** A heartbeat of the story, of the monitor or after the execution. */
  predicate IsBeat(tr: Trace, c: Call) {
    c in tr.beats || tr.check == Some(c)
  }

  lemma BeatsAreHeartbeats(tr: Trace, first: Call, o: Outcome, claim: ClaimedJob, x: Schedule,
                           seconds: int, base: int, cap: int, c: Call)
    requires Story(tr, first, o, claim, x, seconds, base, cap) && IsBeat(tr, c)
    ensures c.event.DoHeartbeat? && claim.job.kind == claim.payload.kind
  {
    hide Inv, Settled, Signaled, Finding, AnswerOf;
    if c in tr.beats {
      var i :| 0 <= i < |tr.beats| && tr.beats[i] == c;
      assert BeatAt(tr.beats, first, x.beats, claim, seconds, i);
    }
  }

  lemma OnlyLastBeatEnds(tr: Trace, first: Call, o: Outcome, claim: ClaimedJob, x: Schedule,
                         seconds: int, base: int, cap: int, c: Call)
    requires Story(tr, first, o, claim, x, seconds, base, cap) && claim.job.kind == claim.payload.kind
    requires IsBeat(tr, c) && !Finding(c, claim).Continue?
    ensures tr.check == Some(c) || (tr.check.None? && tr.beats != [] && c == LastOf(first, tr.beats))
    ensures Signaled(tr.rest, c, Finding(c, claim), o, claim, x.acknowledge)
  {
    hide Inv, LiveLease, Settled, BeatAt, AnswerOf, Signaled, Finding;
    if c in tr.beats && tr.check != Some(c) {
      var i :| 0 <= i < |tr.beats| && tr.beats[i] == c;
      assert i == |tr.beats| - 1;
    }
  }

  /** A heartbeat that finds a request to cancel is the last one, and the only call after it is one
      acknowledgement: nothing is retried, failed or published, and no error of the execution is
      reported. */
  lemma StopHonoured(tr: Trace, first: Call, o: Outcome, claim: ClaimedJob, x: Schedule,
                     seconds: int, base: int, cap: int, c: Call)
    requires Story(tr, first, o, claim, x, seconds, base, cap) && IsBeat(tr, c) && FoundStopping(c, claim)
    ensures tr.check == Some(c) || (tr.check.None? && tr.beats != [] && c == LastOf(first, tr.beats))
    ensures |tr.rest| == 1 && Inv(tr.rest[0].before)
    ensures tr.rest[0].event == DoAcknowledge(claim.job.jobId, claim.job.attemptCount, claim.leaseToken,
                                              x.acknowledge.d1, x.acknowledge.d2)
    ensures o == Report(claim, Reply(tr.rest[0]))
  {
    hide Inv, Story, Finding, FoundStopping, AnswerOf, Reply, Report;
    BeatsAreHeartbeats(tr, first, o, claim, x, seconds, base, cap, c);
    FindingMeans(c, claim);
    OnlyLastBeatEnds(tr, first, o, claim, x, seconds, base, cap, c);
  }

  /** A heartbeat that finds the lease over is the last call of all, and the worker says so; one that
      the database failed is the last call too, and the worker is unavailable. */
  lemma LostReported(tr: Trace, first: Call, o: Outcome, claim: ClaimedJob, x: Schedule,
                     seconds: int, base: int, cap: int, c: Call)
    requires Story(tr, first, o, claim, x, seconds, base, cap) && IsBeat(tr, c)
    requires FoundLost(c, claim) || !c.failure.NoFailure?
    ensures tr.check == Some(c) || (tr.check.None? && tr.beats != [] && c == LastOf(first, tr.beats))
    ensures tr.rest == []
    ensures o == if c.failure.NoFailure?
                 then Returned(LeaseLostResult, Some(claim.job.jobId), Some(claim.job.attemptCount))
                 else Raised(UnavailableRaised)
  {
    hide Inv, Story, Finding, HeldAtWrite, AnswerOf, Reply;
    BeatsAreHeartbeats(tr, first, o, claim, x, seconds, base, cap, c);
    FindingMeans(c, claim);
    OnlyLastBeatEnds(tr, first, o, claim, x, seconds, base, cap, c);
  }

  /** With no failure a settling call is reported as the tables decide: lost exactly when the lease
      is over at its last write, else canceled exactly when that was asked for. */
  lemma SettlingReported(claim: ClaimedJob, c: Call, turn: Turn, code: string, delay: int)
    requires Inv(c.before) && Ours(c.before.t, claim) && c.failure.NoFailure?
    requires SafeCode(code) && 1 <= delay <= 3600
    requires c.event == FailOf(claim, code, turn) || c.event == RetryOf(claim, delay, code, turn)
    requires c.event.DoRetry? ==> claim.job.attemptCount < claim.job.maxAttempts
    ensures
      var id, n := claim.job.jobId, claim.job.attemptCount;
      var status :=
        if !LiveLease(c.before.t, id, n, claim.leaseToken, c.before.now + turn.d1 + turn.d2) then LeaseLostResult
        else if c.before.t.jobs[id].record.status.CancelRequested? then CanceledResult
        else if c.event.DoFail? then FailedResult
        else RetryResult;
      Report(claim, Reply(c)) == Returned(status, Some(id), Some(n))
  {
    hide Inv, LiveLease, SafeCode, FailJob, RetryJob;
    var id, n, token := claim.job.jobId, claim.job.attemptCount, claim.leaseToken;
    var at, later := c.before.now + turn.d1, c.before.now + turn.d1 + turn.d2;
    LiveBefore(c.before.t, id, n, token, at, later);
    if LiveLease(c.before.t, id, n, token, at) {
      LeaseRows(c.before, id, n, token, at);
    }
    if c.event.DoFail? {
      FailEffect(c.before, id, n, token, code, turn.d1, turn.d2);
    } else {
      RetryEffect(c.before, id, n, token, delay, code, turn.d1, turn.d2);
    }
  }

  /** A publication with no failure, of lawful size and with its references stored: succeeded while
      the lease lasts and nobody asked to cancel. */
  lemma PublicationReported(claim: ClaimedJob, c: Call, turn: Turn, e: Evidence)
    requires Inv(c.before) && Ours(c.before.t, claim) && c.failure.NoFailure?
    requires c.event == CompleteOf(claim, e, turn)
    requires EvidenceFor(claim.job, e) && WithinSizes(e) && RefersToStored(c.before.t, e)
    requires Active(c.before.t.jobs[claim.job.jobId].record.status)
    ensures
      var id, n := claim.job.jobId, claim.job.attemptCount;
      var status :=
        if !LiveLease(c.before.t, id, n, claim.leaseToken, c.before.now + turn.d1 + turn.d2) then LeaseLostResult
        else if c.before.t.jobs[id].record.status.CancelRequested? then CanceledResult
        else SucceededResult;
      Report(claim, Reply(c)) == Returned(status, Some(id), Some(n))
  {
    hide Inv, LiveLease, CompleteJob, WithinSizes, RefersToStored;
    var id, n, token := claim.job.jobId, claim.job.attemptCount, claim.leaseToken;
    var at, later := c.before.now + turn.d1, c.before.now + turn.d1 + turn.d2;
    LiveBefore(c.before.t, id, n, token, at, later);
    if LiveLease(c.before.t, id, n, token, later) {
      LeaseRows(c.before, id, n, token, later);
    }
    CompleteEffect(c.before, id, e, n, token, turn.d1, turn.d2);
  }

  /** If the heartbeat after the execution finds the job running, nobody comes between, no call fails
      and the lease it renewed lasts to the last write, the evidence that the execution produced is
      published: the worker never drops a result it could have stored. */
  lemma UndisturbedPublishes(tr: Trace, first: Call, o: Outcome, claim: ClaimedJob, x: Schedule,
                             seconds: int, base: int, cap: int, e: Evidence)
    requires Story(tr, first, o, claim, x, seconds, base, cap) && claim.job.kind == claim.payload.kind
    requires tr.check.Some? && FoundRunning(tr.check.value, claim)
    requires Inv(tr.check.value.before) && Ours(tr.check.value.before.t, claim) && 5 <= seconds <= 3600
    requires x.settle.others == [] && x.settle.failure.NoFailure?
    requires x.check.d2 + x.settle.d1 + x.settle.d2 < Seconds(seconds)
    requires BuildEvidence(claim, x.execution) == Ok(e) && WithinSizes(e)
    requires RefersToStored(tr.check.value.before.t, e)
    ensures o == Returned(SucceededResult, Some(claim.job.jobId), Some(claim.job.attemptCount))
    ensures |tr.rest| == 1 && Inv(tr.rest[0].before)
    ensures Completed(After(tr.rest[0]).t, claim.job.jobId, e, claim.job.attemptCount, claim.leaseToken)
  {
    hide Inv, Finding, LiveLease, WithinSizes, RefersToStored, Completed, Reply, Next, Beaten, Decided, Ours,
      FoundRunning;
    var check := tr.check.value;
    BeatsAreHeartbeats(tr, first, o, claim, x, seconds, base, cap, check);
    FindingMeans(check, claim);
    RenewedByCheck(check, claim, seconds, x.check, x.settle.d1 + x.settle.d2, e);
    var c := tr.rest[0];
    assert c.before == After(check);
    PublicationReported(claim, c, x.settle, e);
    PublishedThen(claim, c, x.settle, e);
  }

  lemma RenewedByCheck(check: Call, claim: ClaimedJob, seconds: int, turn: Turn, wait: nat, e: Evidence)
    requires Inv(check.before) && Ours(check.before.t, claim) && 5 <= seconds <= 3600
    requires check.event == BeatEvent(claim, seconds, turn) && Finding(check, claim).Continue?
    requires turn.d2 + wait < Seconds(seconds) && RefersToStored(check.before.t, e)
    ensures Inv(After(check)) && Ours(After(check).t, claim) && RefersToStored(After(check).t, e)
    ensures
      var s, id := After(check), claim.job.jobId;
      && LiveLease(s.t, id, claim.job.attemptCount, claim.leaseToken, s.now + wait)
      && s.t.jobs[id].record.status.Running?
  {
    hide Inv, Ours, HeartbeatJob;
    assert ValidToken(claim.leaseToken) && 1 <= claim.job.attemptCount <= 10 by {
      OursFence(check.before.t, claim);
    }
    hide ValidToken;
    OursNext(check.before, check.event, claim);
    HeartbeatEffect(check.before, claim.job.jobId, claim.job.attemptCount, claim.leaseToken, seconds, turn.d1, turn.d2);
  }

  lemma OursFence(t: Tables, claim: ClaimedJob)
    requires Ours(t, claim)
    ensures ValidToken(claim.leaseToken) && 1 <= claim.job.attemptCount <= 10
  {
    hide ValidToken;
  }

  lemma PublishedThen(claim: ClaimedJob, c: Call, turn: Turn, e: Evidence)
    requires Inv(c.before) && c.event == CompleteOf(claim, e, turn) && c.failure.NoFailure?
    requires Report(claim, Reply(c)) == Returned(SucceededResult, Some(claim.job.jobId), Some(claim.job.attemptCount))
    ensures Completed(After(c).t, claim.job.jobId, e, claim.job.attemptCount, claim.leaseToken)
  {
    hide Inv, CompleteJob, Completed, Next;
    var id, n, token := claim.job.jobId, claim.job.attemptCount, claim.leaseToken;
    CompleteEvent(c.before, id, e, n, token, turn.d1, turn.d2);
    CompletionCompletes(c.before, id, e, n, token, turn.d1, turn.d2);
  }
}
