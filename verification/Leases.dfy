/** What each repository operation can answer to the worker that holds a claim, whatever
    other callers did since it claimed. */
module Leases {
  import opened Common
  import opened Lifecycle
  import opened Cells
  import opened Store
  import opened Steps
  import opened Runs
  import opened Queue
  import opened Effects

  /** The attempt a claim started is still on record, under its token. It stays so for ever. */
  predicate Ours(t: Tables, claim: ClaimedJob) {
    var id, n := claim.job.jobId, claim.job.attemptCount;
    && Complete(t, id)
    && SameIdentity(t.jobs[id].record, claim.job)
    && 1 <= n <= t.jobs[id].record.attemptCount && n <= claim.job.maxAttempts <= 10
    && t.attempts[AttemptKey(id, n)].leaseToken == claim.leaseToken
    && ValidToken(claim.leaseToken)
  }

  /** The job and its last attempt, number `n` with this token, ended this way together. */
  predicate EndedAs(t: Tables, id: string, n: int, token: string, status: JobStatus, ended: AttemptStatus,
                    code: Option<string>)
  {
    && id in t.jobs && AttemptKey(id, n) in t.attempts
    && t.jobs[id].record.status == status
    && t.jobs[id].record.attemptCount == n
    && t.attempts[AttemptKey(id, n)].status == ended
    && t.attempts[AttemptKey(id, n)].leaseToken == token
    && t.attempts[AttemptKey(id, n)].errorCode == code
    && t.attempts[AttemptKey(id, n)].finishedAt == Some(t.jobs[id].record.updatedAt)
  }

  /** The time a fenced operation stamps on what it ends. */
  predicate StampedAt(t: Tables, t': Tables, id: string, at: Time) {
    id in t.jobs && id in t'.jobs && t'.jobs[id].record.updatedAt == Max(at, t.jobs[id].record.updatedAt)
  }

  /** No other job, and none of its attempts, is touched. */
  predicate OthersAsWere(t: Tables, t': Tables, id: string) {
    && t'.payloads == t.payloads && t'.datasets == t.datasets
    && (forall j :: j in t.jobs && j != id ==> j in t'.jobs && t'.jobs[j] == t.jobs[j])
    && (forall k :: k in t.attempts && k.jobId != id ==> k in t'.attempts && t'.attempts[k] == t.attempts[k])
  }

  lemma MoveTouchesOne(t: Tables, id: string, m: Move)
    requires Complete(t, id) && Enabled(CellOf(t, id), m)
    ensures OthersAsWere(t, MoveJob(t, id, m), id)
    ensures MoveJob(t, id, m).runs == t.runs && MoveJob(t, id, m).decisions == t.decisions
  {
    hide MoveCell, Enabled;
  }

  predicate CanceledBy(t: Tables, id: string, n: int, token: string) {
    EndedAs(t, id, n, token, Canceled, AttemptCanceled, None)
  }

  lemma OursLater(t: Tables, t': Tables, claim: ClaimedJob)
    requires Ours(t, claim) && Complete(t', claim.job.jobId)
    requires Later(CellOf(t, claim.job.jobId), CellOf(t', claim.job.jobId))
    ensures Ours(t', claim)
  {
    var id, n := claim.job.jobId, claim.job.attemptCount;
    assert CellOf(t, id).history[n - 1] == t.attempts[AttemptKey(id, n)];
    assert CellOf(t', id).history[n - 1] == t'.attempts[AttemptKey(id, n)];
  }

  lemma OursInRun(s: State, events: seq<Event>, claim: ClaimedJob)
    requires Inv(s) && Ours(s.t, claim)
    ensures Ours(Run(s, events).t, claim)
  {
    hide Inv, Later;
    RunLater(s, events, claim.job.jobId);
    OursLater(s.t, Run(s, events).t, claim);
  }

  lemma OursNext(s: State, e: Event, claim: ClaimedJob)
    requires Inv(s) && Ours(s.t, claim)
    ensures Inv(Next(s, e)) && Ours(Next(s, e).t, claim)
  {
    hide Inv, Later, Next;
    NextInv(s, e);
    NextLater(s, e, claim.job.jobId);
    OursLater(s.t, Next(s, e).t, claim);
  }

  /** The rows a move of a fenced job leaves, read off the automaton. */
  lemma MovedRows(s: State, id: string, m: Move)
    requires Inv(s) && id in s.t.jobs && Enabled(CellOf(s.t, id), m) && !m.Claim? && Held(CellOf(s.t, id))
    ensures
      var n := s.t.jobs[id].record.attemptCount;
      var d := MoveCell(CellOf(s.t, id), m);
      var t' := MoveJob(s.t, id, m);
      && d.history != []
      && id in t'.jobs && t'.jobs[id] == d.row
      && AttemptKey(id, n) in t'.attempts && t'.attempts[AttemptKey(id, n)] == Last(d.history)
      && OthersAsWere(s.t, t', id) && t'.runs == s.t.runs && t'.decisions == s.t.decisions
  {
    hide Inv, CellInv, OthersAsWere;
    StoredCell(s, id);
    LastOfCell(s.t, id);
    MoveTouchesOne(s.t, id, m);
  }

  lemma StopAnswers(s: State, id: string, n: int, token: string, at: Time, later: Time)
    requires Inv(s) && LiveLease(s.t, id, n, token, at) && s.t.jobs[id].record.status.CancelRequested?
    ensures
      var r := StopInstead(s, id, n, token, at, later);
      match r.1
      case Err(e) => e == LeaseLost && r.0.t == s.t
      case Ok(job) =>
        && job.status.Canceled? && CanceledBy(r.0.t, id, n, token)
        && StampedAt(s.t, r.0.t, id, at) && OthersAsWere(s.t, r.0.t, id)
        && r.0.t.runs == s.t.runs && r.0.t.decisions == s.t.decisions
  {
    hide Inv, CellInv, MoveJob, OthersAsWere;
    LiveLeaseHeld(s, id, n, token, at);
    MovedRows(s, id, Stop(at));
  }

  /** A claim starts the job's next attempt at `at`, the job's stored payload goes with it, and no
      other job is touched. */
  predicate ClaimStarts(t: Tables, t': Tables, claim: ClaimedJob, worker: string, at: Time, seconds: int) {
    var id, n := claim.job.jobId, claim.job.attemptCount;
    && id in t.jobs && id in t'.jobs && AttemptKey(id, n) in t'.attempts && id in t.payloads
    && t.jobs[id].record.status.Queued? && n == t.jobs[id].record.attemptCount + 1
    && t'.jobs[id].record == claim.job && claim.job.updatedAt == Max(at, t.jobs[id].record.updatedAt)
    && t'.attempts[AttemptKey(id, n)]
         == Attempt(AttemptRunning, worker, claim.leaseToken, None, at, at, at + Seconds(seconds), None)
    && claim.attempt == AttemptRecord(id, n, AttemptRunning, at, at, at + Seconds(seconds))
    && claim.payload == t.payloads[id].payload
    && OthersAsWere(t, t', id)
  }

  lemma ClaimAnswers(s: State, worker: string, token: string, seconds: int, d1: nat, d2: nat)
    requires Inv(s) && ValidWorkerId(worker) && ValidToken(token) && 5 <= seconds <= 3600
    ensures
      var r := ClaimNextJob(s, worker, token, seconds, d1, d2);
      match r.1
      case Err(e) => e == ConcurrentTransition && r.0.t == s.t
      case Ok(None) => r.0.t == s.t && forall j :: j in s.t.jobs ==> !Claimable(s.t.jobs[j].record, s.now + d1)
      case Ok(Some(claim)) =>
        && Ours(r.0.t, claim) && claim.leaseToken == token
        && claim.job.status.Running? && claim.attempt.status.AttemptRunning?
        && claim.attempt.jobId == claim.job.jobId && claim.attempt.attemptNumber == claim.job.attemptCount
        && claim.payload.kind == claim.job.kind
        && ClaimStarts(s.t, r.0.t, claim, worker, s.now + d1 + d2, seconds)
  {
    hide Inv, CellInv, AttemptsInv, UniqueInv, EvidenceInv, MoveJob, OthersAsWere, ClaimStarts, Ours;
    hide ValidToken, ValidWorkerId, Claimable, NextClaim;
    var at, later := s.now + d1, s.now + d1 + d2;
    if NextClaim(s.t, at).None? {
      NothingClaimable(s, at);
    } else {
      NextClaimIsFirst(s, at);
      var id := NextClaim(s.t, at).value;
      StoredCell(s, id);
      InvTables(s);
      var m := Claim(worker, token, later, seconds);
      if FreshToken(CellOf(s.t, id).history, token) {
        ClaimOurs(s, id, m);
      }
    }
  }

  lemma NothingClaimable(s: State, at: Time)
    requires NextClaim(s.t, at).None?
    ensures forall j :: j in s.t.jobs ==> !Claimable(s.t.jobs[j].record, at)
  {
    hide NextClaim;
    forall j | j in s.t.jobs
      ensures !Claimable(s.t.jobs[j].record, at)
    {
      if Claimable(s.t.jobs[j].record, at) {
        ClaimableOffered(s, at, j);
      }
    }
  }

  lemma ClaimOurs(s: State, id: string, m: Move)
    requires Inv(s) && id in s.t.jobs && m.Claim? && Enabled(CellOf(s.t, id), m)
    ensures
      var d := MoveCell(CellOf(s.t, id), m);
      var t' := MoveJob(s.t, id, m);
      && d.row.record.jobId == id && id in s.t.payloads
      && s.t.payloads[id].payload.kind == d.row.record.kind
      && |d.history| == d.row.record.attemptCount == s.t.jobs[id].record.attemptCount + 1
      && var claim := ClaimedJob(d.row.record, s.t.payloads[id].payload,
                                 AttemptView(id, |d.history|, Last(d.history)), m.token);
         Ours(t', claim) && ClaimStarts(s.t, t', claim, m.worker, m.at, m.seconds)
  {
    MoveTouchesOne(s.t, id, m);
    hide AttemptsInv, UniqueInv, EvidenceInv, HistoryInv, OthersAsWere;
    StoredCell(s, id);
    MoveJobCells(s, id, m, id);
    assert id in s.t.jobs.Keys;
    var d := MoveCell(CellOf(s.t, id), m);
    assert CellOf(MoveJob(s.t, id, m), id).history[|d.history| - 1] == Last(d.history);
  }

  predicate LeaseEnded(s: State, claim: ClaimedJob, d1: nat, d2: nat) {
    !LiveLease(s.t, claim.job.jobId, claim.job.attemptCount, claim.leaseToken, s.now + d1 + d2)
  }

  lemma LostMeansEnded(s: State, claim: ClaimedJob, d1: nat, d2: nat,
                       seconds: int, delay: int, code: string, e: Evidence)
    requires Inv(s)
    ensures
      var id, n, token := claim.job.jobId, claim.job.attemptCount, claim.leaseToken;
      (|| HeartbeatJob(s, id, n, token, seconds, d1, d2).1 == Err(LeaseLost)
       || RetryJob(s, id, n, token, delay, code, d1, d2).1 == Err(LeaseLost)
       || FailJob(s, id, n, token, code, d1, d2).1 == Err(LeaseLost)
       || AcknowledgeCancellation(s, id, n, token, d1, d2).1 == Err(LeaseLost)
       || CompleteJob(s, id, e, n, token, d1, d2).1 == Err(LeaseLost)) ==> LeaseEnded(s, claim, d1, d2)
  {
    hide Inv, LiveLease, HeartbeatJob, RetryJob, FailJob, AcknowledgeCancellation, CompleteJob;
    if !LeaseEnded(s, claim, d1, d2) {
      LeaseLostMeansOver(s, claim.job.jobId, claim.job.attemptCount, claim.leaseToken, d1, d2, seconds, delay, code, e);
    }
  }

  const NO_EVIDENCE := RunEvidence(RunRecord("", "", 0, 0, "", 0))

  /** What a heartbeat can answer: the job as it stands, still active, or that the lease is lost. */
  lemma HeartbeatAnswers(s: State, claim: ClaimedJob, seconds: int, d1: nat, d2: nat)
    requires Inv(s) && Ours(s.t, claim) && 5 <= seconds <= 3600
    ensures
      var id, n := claim.job.jobId, claim.job.attemptCount;
      var r := HeartbeatJob(s, id, n, claim.leaseToken, seconds, d1, d2);
      match r.1
      case Err(e) => e == LeaseLost && r.0.t == s.t && LeaseEnded(s, claim, d1, d2)
      case Ok(job) =>
        && Active(job.status) && id in r.0.t.jobs && r.0.t.jobs[id].record == job == s.t.jobs[id].record
        && AttemptKey(id, n) in r.0.t.attempts
        && r.0.t.attempts[AttemptKey(id, n)]
             == s.t.attempts[AttemptKey(id, n)].(
                   heartbeatAt := s.now + d1, leaseExpiresAt := s.now + d1 + Seconds(seconds))
        && OthersAsWere(s.t, r.0.t, id)
  {
    hide Inv, CellInv, MoveJob, OthersAsWere, LeaseEnded;
    LostMeansEnded(s, claim, d1, d2, seconds, 1, "", NO_EVIDENCE);
    var id, n, later := claim.job.jobId, claim.job.attemptCount, s.now + d1 + d2;
    if LiveLease(s.t, id, n, claim.leaseToken, later) {
      LiveLeaseHeld(s, id, n, claim.leaseToken, later);
      MovedRows(s, id, Beat(s.now + d1, seconds));
    }
  }

  lemma RetryAnswers(s: State, claim: ClaimedJob, delay: int, code: string, d1: nat, d2: nat)
    requires Inv(s) && Ours(s.t, claim) && 1 <= delay <= 3600 && SafeCode(code)
    requires claim.job.attemptCount < claim.job.maxAttempts
    ensures
      var id, n, token := claim.job.jobId, claim.job.attemptCount, claim.leaseToken;
      var r := RetryJob(s, id, n, token, delay, code, d1, d2);
      match r.1
      case Err(e) => e == LeaseLost && r.0.t == s.t && LeaseEnded(s, claim, d1, d2)
      case Ok(job) =>
        && StampedAt(s.t, r.0.t, id, s.now + d1) && OthersAsWere(s.t, r.0.t, id)
        && if s.t.jobs[id].record.status.CancelRequested?
           then job.status.Canceled? && CanceledBy(r.0.t, id, n, token)
           else
             && job.status.Queued? && EndedAs(r.0.t, id, n, token, Queued, RetryScheduled, Some(code))
             && r.0.t.jobs[id].record == job && job.availableAt == job.updatedAt + Seconds(delay)
  {
    hide Inv, CellInv, MoveJob, StopInstead, OthersAsWere, LeaseEnded, SafeCode;
    LostMeansEnded(s, claim, d1, d2, 5, delay, code, NO_EVIDENCE);
    var id, n, token := claim.job.jobId, claim.job.attemptCount, claim.leaseToken;
    var at, later := s.now + d1, s.now + d1 + d2;
    if LiveLease(s.t, id, n, token, at) && s.t.jobs[id].record.status.CancelRequested? {
      StopAnswers(s, id, n, token, at, later);
    } else if LiveLease(s.t, id, n, token, at) && LiveLease(s.t, id, n, token, later) {
      LiveLeaseHeld(s, id, n, token, later);
      MovedRows(s, id, Retry(at, delay, code));
    }
  }

  lemma FailAnswers(s: State, claim: ClaimedJob, code: string, d1: nat, d2: nat)
    requires Inv(s) && Ours(s.t, claim) && SafeCode(code)
    ensures
      var id, n, token := claim.job.jobId, claim.job.attemptCount, claim.leaseToken;
      var r := FailJob(s, id, n, token, code, d1, d2);
      match r.1
      case Err(e) => e == LeaseLost && r.0.t == s.t && LeaseEnded(s, claim, d1, d2)
      case Ok(job) =>
        && StampedAt(s.t, r.0.t, id, s.now + d1) && OthersAsWere(s.t, r.0.t, id)
        && if s.t.jobs[id].record.status.CancelRequested?
           then job.status.Canceled? && CanceledBy(r.0.t, id, n, token)
           else
             && job.status.Failed? && r.0.t.jobs[id].record == job && job.errorCode == Some(code)
             && EndedAs(r.0.t, id, n, token, Failed, AttemptFailed, Some(code))
  {
    hide Inv, CellInv, MoveJob, StopInstead, OthersAsWere, LeaseEnded, SafeCode;
    LostMeansEnded(s, claim, d1, d2, 5, 1, code, NO_EVIDENCE);
    var id, n, token := claim.job.jobId, claim.job.attemptCount, claim.leaseToken;
    var at, later := s.now + d1, s.now + d1 + d2;
    if LiveLease(s.t, id, n, token, at) && s.t.jobs[id].record.status.CancelRequested? {
      StopAnswers(s, id, n, token, at, later);
    } else if LiveLease(s.t, id, n, token, at) && LiveLease(s.t, id, n, token, later) {
      LiveLeaseHeld(s, id, n, token, later);
      MovedRows(s, id, Fail(at, code));
    }
  }

  predicate Stopping(t: Tables, id: string) {
    id in t.jobs && (t.jobs[id].record.status.CancelRequested? || t.jobs[id].record.status.Canceled?)
  }

  lemma StoppingInRun(s: State, events: seq<Event>, id: string)
    requires Inv(s) && Stopping(s.t, id)
    ensures Stopping(Run(s, events).t, id)
  {
    hide Inv;
    RunLater(s, events, id);
  }

  lemma AcknowledgeAnswers(s: State, claim: ClaimedJob, d1: nat, d2: nat)
    requires Inv(s) && Ours(s.t, claim) && Stopping(s.t, claim.job.jobId)
    ensures
      var id, n, token := claim.job.jobId, claim.job.attemptCount, claim.leaseToken;
      var r := AcknowledgeCancellation(s, id, n, token, d1, d2);
      match r.1
      case Err(e) => e == LeaseLost && r.0.t == s.t && LeaseEnded(s, claim, d1, d2)
      case Ok(job) => job.status.Canceled? && CanceledBy(r.0.t, id, n, token)
  {
    hide Inv, CellInv, HistoryInv, ValidRecord, MoveJob, StopInstead, Later, LeaseEnded;
    LostMeansEnded(s, claim, d1, d2, 5, 1, "", NO_EVIDENCE);
    var id, n, token := claim.job.jobId, claim.job.attemptCount, claim.leaseToken;
    if s.t.jobs[id].record.status.Canceled? {
      StoredJob(s, id, n);
    } else if LiveLease(s.t, id, n, token, s.now + d1) {
      StopAnswers(s, id, n, token, s.now + d1, s.now + d1 + d2);
    }
  }

  /** What publication can answer: success with this evidence on record, cancellation, or a
      refusal that changed nothing and is one of four. */
  lemma CompleteAnswers(s: State, claim: ClaimedJob, e: Evidence, d1: nat, d2: nat)
    requires Inv(s) && Ours(s.t, claim) && Owns(claim.job, KindOf(e), ResourceOf(e))
    ensures
      var id, n, token := claim.job.jobId, claim.job.attemptCount, claim.leaseToken;
      var r := CompleteJob(s, id, e, n, token, d1, d2);
      match r.1
      case Err(error) =>
        && r.0.t == s.t
        && (|| (error == LeaseLost && LeaseEnded(s, claim, d1, d2))
            || (error == ImmutableConflict && (!References(s.t, e) || s.t.jobs[id].record.status.Succeeded?))
            || (error == PayloadTooLarge && Oversized(e))
            || (error == ConcurrentTransition && e.DecisionEvidence? && !References(s.t, e)))
      case Ok(job) =>
        || (job.status.Succeeded? && Completed(r.0.t, id, e, n, token))
        || (job.status.Canceled? && CanceledBy(r.0.t, id, n, token))
  {
    hide Inv, CellInv, MoveJob, StopInstead, Completed, Inserted, CanceledBy, Oversized, LeaseEnded;
    LostMeansEnded(s, claim, d1, d2, 5, 1, "", e);
    var id, n, token := claim.job.jobId, claim.job.attemptCount, claim.leaseToken;
    var at, later := s.now + d1, s.now + d1 + d2;
    var r := CompleteJob(s, id, e, n, token, d1, d2);
    if r.1.Ok? && r.1.value.status.Succeeded? {
      CompletionCompletes(s, id, e, n, token, d1, d2);
    } else if LiveLease(s.t, id, n, token, at) && s.t.jobs[id].record.status.CancelRequested? {
      StopAnswers(s, id, n, token, at, later);
    } else if r.1.Ok? {
      LiveLeaseHeld(s, id, n, token, later);
    }
  }
}
