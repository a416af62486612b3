/** What each repository operation does to the rows, and when it gives which answer, read off the
    tables alone: one complete case table for every operation. */
module Effects {
  import opened Common
  import opened Ordering
  import opened Lifecycle
  import opened Cells
  import opened Store
  import opened Queue

  // ---------------------------------------------------------------- rows

  /** A job row and the attempt its count names are there. */
  predicate HasRows(t: Tables, id: string) {
    id in t.jobs && AttemptKey(id, t.jobs[id].record.attemptCount) in t.attempts
  }

  /** The job as it is stored. */
  function Stored(t: Tables, id: string): Result<JobRecord, Error> {
    if id in t.jobs then Ok(t.jobs[id].record) else Err(NotFound)
  }

  /** A job row and its last attempt written together; the row's version goes up by one. */
  function Written(t: Tables, id: string, job: JobRecord, a: Attempt): Tables
    requires id in t.jobs
  {
    t.(jobs := t.jobs[id := JobRow(job, t.jobs[id].version + 1)],
       attempts := t.attempts[AttemptKey(id, job.attemptCount) := a])
  }

  /** The time a change of a job is stamped with. */
  function StampOf(job: JobRecord, at: Time): Time {
    if at < job.updatedAt then job.updatedAt else at
  }

  /** Attempt and job ended together. */
  function EndedTogether(t: Tables, id: string, at: Time, status: JobStatus, jobCode: Option<string>,
                         attempt: AttemptStatus, attemptCode: Option<string>): Tables {
    if !HasRows(t, id) then t
    else
      var job := t.jobs[id].record;
      var stamp := StampOf(job, at);
      Written(t, id, job.(status := status, errorCode := jobCode, updatedAt := stamp),
              t.attempts[AttemptKey(id, job.attemptCount)].(
                status := attempt, errorCode := attemptCode, finishedAt := Some(stamp)))
  }

  /** Attempt ended and job queued again, not before a delay. */
  function Requeued(t: Tables, id: string, at: Time, attempt: AttemptStatus, code: string, delay: int): Tables {
    if !HasRows(t, id) then t
    else
      var job := t.jobs[id].record;
      var stamp := StampOf(job, at);
      Written(t, id,
              job.(status := Queued, errorCode := None, updatedAt := stamp, availableAt := stamp + 1_000_000 * delay),
              t.attempts[AttemptKey(id, job.attemptCount)].(
                status := attempt, errorCode := Some(code), finishedAt := Some(stamp)))
  }

  function CanceledRows(t: Tables, id: string, at: Time): Tables {
    EndedTogether(t, id, at, Canceled, None, AttemptCanceled, None)
  }

  /** Only the lease of the job's last attempt changes. */
  function Renewed(t: Tables, id: string, at: Time, seconds: int): Tables {
    if !HasRows(t, id) then t
    else
      var key := AttemptKey(id, t.jobs[id].record.attemptCount);
      t.(attempts := t.attempts[key :=
           t.attempts[key].(heartbeatAt := at, leaseExpiresAt := at + 1_000_000 * seconds)])
  }

  /** Only the job row changes, to this status. */
  function JobMoved(t: Tables, id: string, at: Time, status: JobStatus): Tables {
    if id !in t.jobs then t
    else
      var job := t.jobs[id].record;
      t.(jobs := t.jobs[id := JobRow(job.(status := status, errorCode := None, updatedAt := StampOf(job, at)),
                                     t.jobs[id].version + 1)])
  }

  /** The move of a held job, as rows. */
  lemma HeldMove(s: State, id: string, m: Move)
    requires Complete(s.t, id) && Enabled(CellOf(s.t, id), m) && Held(CellOf(s.t, id)) && Inv(s)
    requires m.Stop? || m.Retry? || m.Fail? || m.Expire? || m.Exhaust? || m.Publish?
    ensures HasRows(s.t, id)
    ensures
      MoveJob(s.t, id, m) ==
        match m
        case Stop(at) => CanceledRows(s.t, id, at)
        case Retry(at, delay, code) => Requeued(s.t, id, at, RetryScheduled, code, delay)
        case Fail(at, code) => EndedTogether(s.t, id, at, Failed, Some(code), AttemptFailed, Some(code))
        case Expire(at, delay) => Requeued(s.t, id, at, LeaseExpired, EXPIRED_CODE, delay)
        case Exhaust(at) =>
          EndedTogether(s.t, id, at, Failed, Some(EXPIRED_CODE), LeaseExpired, Some(EXPIRED_CODE))
        case Publish(at) => EndedTogether(s.t, id, at, Succeeded, None, AttemptSucceeded, None)
        case _ => s.t
    ensures Ok(MoveCell(CellOf(s.t, id), m).row.record) == Stored(MoveJob(s.t, id, m), id)
  {
    hide Inv, CellInv, SafeCode, ValidToken, ValidWorkerId;
    StoredCell(s, id);
    LastOfCell(s.t, id);
  }

  // ---------------------------------------------------------------- fenced operations

  /** A heartbeat succeeds exactly while the lease lasts, and only renews it. */
  lemma HeartbeatEffect(s: State, id: string, n: int, token: string, seconds: int, d1: nat, d2: nat)
    requires Inv(s) && 1 <= n <= 10 && ValidToken(token) && 5 <= seconds <= 3600
    ensures
      var at, later := s.now + d1, s.now + d1 + d2;
      var (s', r) := HeartbeatJob(s, id, n, token, seconds, d1, d2);
      && s'.now == later
      && (!LiveLease(s.t, id, n, token, later) ==> r == Err(LeaseLost) && s'.t == s.t)
      && (LiveLease(s.t, id, n, token, later) ==>
            && r == Stored(s.t, id)
            && s'.t == Renewed(s.t, id, at, seconds) && HasRows(s.t, id))
  {
    hide Inv, CellInv, LiveLease, ValidToken;
    if LiveLease(s.t, id, n, token, s.now + d1 + d2) {
      LiveLeaseHeld(s, id, n, token, s.now + d1 + d2);
      LeaseRows(s, id, n, token, s.now + d1 + d2);
      BeatRows(s, id, Beat(s.now + d1, seconds));
    }
  }

  lemma LeaseRows(s: State, id: string, n: int, token: string, at: Time)
    requires Inv(s) && LiveLease(s.t, id, n, token, at)
    ensures id in s.t.jobs && s.t.jobs[id].record.attemptCount == n && AttemptKey(id, n) in s.t.attempts
    ensures s.t.jobs[id].record.status.Running? || s.t.jobs[id].record.status.CancelRequested?
    ensures at < s.t.attempts[AttemptKey(id, n)].leaseExpiresAt
  {
  }

  lemma BeatRows(s: State, id: string, m: Move)
    requires Inv(s) && id in s.t.jobs && Enabled(CellOf(s.t, id), m) && m.Beat?
    ensures HasRows(s.t, id) && MoveJob(s.t, id, m) == Renewed(s.t, id, m.at, m.seconds)
    ensures MoveCell(CellOf(s.t, id), m).row.record == s.t.jobs[id].record
  {
    hide Inv, CellInv;
    StoredCell(s, id);
    LastOfCell(s.t, id);
    assert s.t.jobs[id := s.t.jobs[id]] == s.t.jobs;
  }

  lemma StopEffect(s: State, id: string, n: int, token: string, at: Time, later: Time)
    requires Inv(s) && LiveLease(s.t, id, n, token, at) && s.t.jobs[id].record.status.CancelRequested?
    ensures HasRows(s.t, id)
    ensures
      var (s', r) := StopInstead(s, id, n, token, at, later);
      && s'.now == later
      && (if LiveLease(s.t, id, n, token, later)
          then s'.t == CanceledRows(s.t, id, at) && r == Stored(s'.t, id)
          else s'.t == s.t && r == Err(LeaseLost))
  {
    hide Inv, CellInv, CanceledRows;
    LiveLeaseHeld(s, id, n, token, at);
    HeldMove(s, id, Stop(at));
  }

  /** A retry with good arguments: refused as lease lost exactly when the lease is over at the lock,
      or at the write it would make; refused as illegal when a running job's attempts are used up;
      else the job is queued again after the delay, or canceled if that was asked for. */
  lemma RetryEffect(s: State, id: string, n: int, token: string, delay: int, code: string, d1: nat, d2: nat)
    requires Inv(s) && 1 <= n <= 10 && ValidToken(token) && 1 <= delay <= 3600 && SafeCode(code)
    ensures
      var at, later := s.now + d1, s.now + d1 + d2;
      var (s', r) := RetryJob(s, id, n, token, delay, code, d1, d2);
      && s'.now == later
      && if !LiveLease(s.t, id, n, token, at) then r == Err(LeaseLost) && s'.t == s.t
         else if s.t.jobs[id].record.status.Running?
                 && s.t.jobs[id].record.maxAttempts <= s.t.jobs[id].record.attemptCount then
           r == Err(IllegalTransition) && s'.t == s.t
         else if !LiveLease(s.t, id, n, token, later) then r == Err(LeaseLost) && s'.t == s.t
         else
           && r == Stored(s'.t, id)
           && s'.t == if s.t.jobs[id].record.status.Running?
                      then Requeued(s.t, id, at, RetryScheduled, code, delay)
                      else CanceledRows(s.t, id, at)
  {
    hide Inv, CellInv, LiveLease, ValidToken, SafeCode, StopInstead, CanceledRows, Requeued, MoveJob, MoveCell, Held;
    var at, later := s.now + d1, s.now + d1 + d2;
    if LiveLease(s.t, id, n, token, at) {
      LeaseRows(s, id, n, token, at);
      if s.t.jobs[id].record.status.CancelRequested? {
        StopEffect(s, id, n, token, at, later);
      } else if && LiveLease(s.t, id, n, token, later)
                && s.t.jobs[id].record.attemptCount < s.t.jobs[id].record.maxAttempts {
        LiveLeaseHeld(s, id, n, token, later);
        LeaseRows(s, id, n, token, later);
        HeldMove(s, id, Retry(at, delay, code));
      }
    }
  }

  /** A failure with good arguments ends job and attempt with the code, or as canceled, exactly when
      the lease lasts to the write. */
  lemma FailEffect(s: State, id: string, n: int, token: string, code: string, d1: nat, d2: nat)
    requires Inv(s) && 1 <= n <= 10 && ValidToken(token) && SafeCode(code)
    ensures
      var at, later := s.now + d1, s.now + d1 + d2;
      var (s', r) := FailJob(s, id, n, token, code, d1, d2);
      && s'.now == later
      && if !LiveLease(s.t, id, n, token, later) then r == Err(LeaseLost) && s'.t == s.t
         else
           && r == Stored(s'.t, id)
           && s'.t == if s.t.jobs[id].record.status.Running?
                      then EndedTogether(s.t, id, at, Failed, Some(code), AttemptFailed, Some(code))
                      else CanceledRows(s.t, id, at)
  {
    hide Inv, CellInv, LiveLease, ValidToken, SafeCode, StopInstead, CanceledRows, EndedTogether, MoveJob, MoveCell,
      Held;
    var at, later := s.now + d1, s.now + d1 + d2;
    LiveBefore(s.t, id, n, token, at, later);
    if LiveLease(s.t, id, n, token, at) {
      LeaseRows(s, id, n, token, at);
      if s.t.jobs[id].record.status.CancelRequested? {
        StopEffect(s, id, n, token, at, later);
      } else if LiveLease(s.t, id, n, token, later) {
        LiveLeaseHeld(s, id, n, token, later);
        LeaseRows(s, id, n, token, later);
        HeldMove(s, id, Fail(at, code));
      }
    }
  }

  /** A lease that lasts to a later time lasts until then. */
  lemma LiveBefore(t: Tables, id: string, n: int, token: string, at: Time, later: Time)
    requires at <= later
    ensures LiveLease(t, id, n, token, later) ==> LiveLease(t, id, n, token, at)
  {
  }

  /** An acknowledgement: a replay by the canceled attempt, a cancellation under a lease that lasts,
      or a refusal. */
  lemma AcknowledgeEffect(s: State, id: string, n: int, token: string, d1: nat, d2: nat)
    requires Inv(s) && 1 <= n <= 10 && ValidToken(token)
    ensures
      var at, later, key := s.now + d1, s.now + d1 + d2, AttemptKey(id, n);
      var (s', r) := AcknowledgeCancellation(s, id, n, token, d1, d2);
      && s'.now == later
      && if id in s.t.jobs && s.t.jobs[id].record.status.Canceled? then
           && s'.t == s.t
           && r == (if key in s.t.attempts && s.t.attempts[key].leaseToken == token
                       && s.t.attempts[key].status.AttemptCanceled?
                    then Stored(s.t, id) else Err(LeaseLost))
         else if !LiveLease(s.t, id, n, token, at) then r == Err(LeaseLost) && s'.t == s.t
         else if s.t.jobs[id].record.status.Running? then r == Err(IllegalTransition) && s'.t == s.t
         else if !LiveLease(s.t, id, n, token, later) then r == Err(LeaseLost) && s'.t == s.t
         else s'.t == CanceledRows(s.t, id, at) && r == Stored(s'.t, id)
  {
    hide Inv, CellInv, LiveLease, ValidToken, StopInstead, CanceledRows, MoveJob, MoveCell, Held;
    var at, later := s.now + d1, s.now + d1 + d2;
    if LiveLease(s.t, id, n, token, at) {
      LeaseRows(s, id, n, token, at);
      if s.t.jobs[id].record.status.CancelRequested? {
        StopEffect(s, id, n, token, at, later);
      }
    }
  }

  /** What cancelling leaves, for each of the six statuses. */
  lemma CancelEffect(s: State, id: string, d1: nat)
    requires Inv(s)
    ensures
      var at := s.now + d1;
      var (s', r) := CancelJob(s, id, d1);
      && s'.now == at
      && if id !in s.t.jobs then r == Err(NotFound) && s'.t == s.t
         else
           match s.t.jobs[id].record.status
           case Queued => s'.t == JobMoved(s.t, id, at, Canceled) && r == Stored(s'.t, id)
           case Running => s'.t == JobMoved(s.t, id, at, CancelRequested) && r == Stored(s'.t, id)
           case CancelRequested => s'.t == s.t && r == Stored(s.t, id)
           case Canceled => s'.t == s.t && r == Stored(s.t, id)
           case Succeeded => s'.t == s.t && r == Err(IllegalTransition)
           case Failed => s'.t == s.t && r == Err(IllegalTransition)
  {
    hide Inv, CellInv;
    if id in s.t.jobs {
      StoredCell(s, id);
      if s.t.jobs[id].record.status.Queued? {
        RowMove(s, id, Withdraw(s.now + d1));
      } else if s.t.jobs[id].record.status.Running? {
        RowMove(s, id, AskCancel(s.now + d1));
      }
    }
  }

  lemma RowMove(s: State, id: string, m: Move)
    requires Complete(s.t, id) && Enabled(CellOf(s.t, id), m) && (m.Withdraw? || m.AskCancel?) && Inv(s)
    ensures MoveJob(s.t, id, m) == JobMoved(s.t, id, m.at, if m.Withdraw? then Canceled else CancelRequested)
    ensures Ok(MoveCell(CellOf(s.t, id), m).row.record) == Stored(MoveJob(s.t, id, m), id)
  {
    hide Inv, CellInv;
    StoredCell(s, id);
    var n := s.t.jobs[id].record.attemptCount;
    if n > 0 {
      LastOfCell(s.t, id);
      assert s.t.attempts[AttemptKey(id, n) := s.t.attempts[AttemptKey(id, n)]] == s.t.attempts;
    }
  }

  // ---------------------------------------------------------------- completion

  /** Evidence for this job: of its kind and for its resource. */
  predicate EvidenceFor(job: JobRecord, e: Evidence) {
    match e
    case RunEvidence(run) => job.kind.RunJob? && job.resourceId == run.runId
    case DecisionEvidence(decision) => job.kind.ComparisonJob? && job.resourceId == decision.decisionId
  }

  /** What the evidence refers to is stored. */
  predicate RefersToStored(t: Tables, e: Evidence) {
    match e
    case RunEvidence(run) => run.dataset in t.datasets
    case DecisionEvidence(decision) => decision.baselineRunId in t.runs && decision.candidateRunId in t.runs
  }

  predicate WithinSizes(e: Evidence) {
    match e
    case RunEvidence(run) =>
      |run.document| <= 67108864 && run.inputUnits <= 9223372036854775807 && run.outputUnits <= 9223372036854775807
    case DecisionEvidence(decision) => |decision.document| <= 67108864
  }

  /** This evidence, with this document, is on record. */
  predicate SameDocumentStored(t: Tables, e: Evidence) {
    match e
    case RunEvidence(run) => run.runId in t.runs && t.runs[run.runId].document == run.document
    case DecisionEvidence(decision) =>
      decision.decisionId in t.decisions && t.decisions[decision.decisionId].document == decision.document
  }

  /** The tables with this evidence added. */
  function WithEvidence(t: Tables, e: Evidence): Tables {
    match e
    case RunEvidence(run) => t.(runs := t.runs[run.runId := run])
    case DecisionEvidence(decision) => t.(decisions := t.decisions[decision.decisionId := decision])
  }

  /** Completing a job that is not finished yet, with the owner's evidence of lawful size: with the
      lease lasting to the write and its references stored, the job succeeds through this attempt
      and exactly this evidence is stored; with a cancellation requested, both are canceled; and it
      is refused as lease lost exactly when the lease is over at the lock or at that write. */
  lemma CompleteEffect(s: State, id: string, e: Evidence, n: int, token: string, d1: nat, d2: nat)
    requires Inv(s) && 1 <= n <= 10 && ValidToken(token) && WithinSizes(e)
    requires id in s.t.jobs && Active(s.t.jobs[id].record.status) && EvidenceFor(s.t.jobs[id].record, e)
    ensures
      var at, later := s.now + d1, s.now + d1 + d2;
      var (s', r) := CompleteJob(s, id, e, n, token, d1, d2);
      && s'.now == later
      && if !LiveLease(s.t, id, n, token, at) then r == Err(LeaseLost) && s'.t == s.t
         else if s.t.jobs[id].record.status.Running? && !RefersToStored(s.t, e) then
           s'.t == s.t && r == Err(if e.RunEvidence? then ImmutableConflict else ConcurrentTransition)
         else if !LiveLease(s.t, id, n, token, later) then r == Err(LeaseLost) && s'.t == s.t
         else
           && r == Stored(s'.t, id)
           && s'.t == if s.t.jobs[id].record.status.Running?
                      then WithEvidence(EndedTogether(s.t, id, at, Succeeded, None, AttemptSucceeded, None), e)
                      else CanceledRows(s.t, id, at)
  {
    hide Inv, CellInv, LiveLease, ValidToken, StopInstead, CanceledRows, EndedTogether, MoveJob, MoveCell, Held;
    var at, later := s.now + d1, s.now + d1 + d2;
    if LiveLease(s.t, id, n, token, at) {
      LeaseRows(s, id, n, token, at);
      if s.t.jobs[id].record.status.CancelRequested? {
        StopEffect(s, id, n, token, at, later);
      } else if LiveLease(s.t, id, n, token, later) {
        LiveLeaseHeld(s, id, n, token, later);
        LeaseRows(s, id, n, token, later);
        HeldMove(s, id, Publish(at));
      }
    }
  }

  /** Every other completion changes nothing, and is answered so. */
  lemma CompleteOtherwise(s: State, id: string, e: Evidence, n: int, token: string, d1: nat, d2: nat)
    requires Inv(s)
    requires !(1 <= n <= 10 && ValidToken(token) && WithinSizes(e)
               && id in s.t.jobs && Active(s.t.jobs[id].record.status) && EvidenceFor(s.t.jobs[id].record, e))
    ensures
      var key := AttemptKey(id, n);
      var (s', r) := CompleteJob(s, id, e, n, token, d1, d2);
      && s'.t == s.t && s'.now == s.now + d1 + d2
      && r == if !(1 <= n <= 10 && ValidToken(token)) then Err(BadValue)
              else if !WithinSizes(e) then Err(PayloadTooLarge)
              else if id !in s.t.jobs || s.t.jobs[id].record.status.Queued? || s.t.jobs[id].record.status.Failed?
                      || s.t.jobs[id].record.status.Canceled? then Err(LeaseLost)
              else if !EvidenceFor(s.t.jobs[id].record, e) then Err(IllegalTransition)
              else if !(key in s.t.attempts && s.t.attempts[key].leaseToken == token
                        && s.t.attempts[key].status.AttemptSucceeded?) then Err(LeaseLost)
              else if SameDocumentStored(s.t, e) then Stored(s.t, id)
              else Err(ImmutableConflict)
  {
    hide Inv, CellInv, LiveLease, ValidToken, StopInstead, MoveJob, MoveCell;
  }

  /** Arguments out of range are refused before any table is looked at. */
  lemma ArgumentsRefused(s: State, id: string, n: int, worker: string, token: string, seconds: int, delay: int,
                         code: string, limit: int, base: int, cap: int, d1: nat, d2: nat, ds: seq<nat>)
    requires Inv(s)
    ensures
      var fence := 1 <= n <= 10 && ValidToken(token);
      && (!(ValidWorkerId(worker) && ValidToken(token) && 5 <= seconds <= 3600) ==>
            var (s', r) := ClaimNextJob(s, worker, token, seconds, d1, d2); r == Err(BadValue) && s'.t == s.t)
      && (!(fence && 5 <= seconds <= 3600) ==>
            var (s', r) := HeartbeatJob(s, id, n, token, seconds, d1, d2); r == Err(BadValue) && s'.t == s.t)
      && (!(fence && 1 <= delay <= 3600 && SafeCode(code)) ==>
            var (s', r) := RetryJob(s, id, n, token, delay, code, d1, d2); r == Err(BadValue) && s'.t == s.t)
      && (!(fence && SafeCode(code)) ==>
            var (s', r) := FailJob(s, id, n, token, code, d1, d2); r == Err(BadValue) && s'.t == s.t)
      && (!fence ==>
            var (s', r) := AcknowledgeCancellation(s, id, n, token, d1, d2); r == Err(BadValue) && s'.t == s.t)
      && (!(1 <= limit <= 100 && 1 <= base <= 300 && base <= cap <= 3600) ==>
            var (s', r) := ReapExpiredJobs(s, limit, base, cap, d1, ds); r == Err(BadValue) && s'.t == s.t)
  {
    hide Inv, ValidToken, ValidWorkerId, SafeCode, LiveLease, NextClaim, LapsedBatch, ExpireAll;
  }

  /** From the tables alone: no fenced operation reports a lost lease while the lease lasts to its
      last write. */
  lemma LeaseLostMeansOver(s: State, id: string, n: int, token: string, d1: nat, d2: nat,
                           seconds: int, delay: int, code: string, e: Evidence)
    requires Inv(s) && LiveLease(s.t, id, n, token, s.now + d1 + d2)
    ensures HeartbeatJob(s, id, n, token, seconds, d1, d2).1 != Err(LeaseLost)
    ensures RetryJob(s, id, n, token, delay, code, d1, d2).1 != Err(LeaseLost)
    ensures FailJob(s, id, n, token, code, d1, d2).1 != Err(LeaseLost)
    ensures AcknowledgeCancellation(s, id, n, token, d1, d2).1 != Err(LeaseLost)
    ensures CompleteJob(s, id, e, n, token, d1, d2).1 != Err(LeaseLost)
  {
    hide Inv, CellInv, ValidToken, SafeCode, MoveJob, MoveCell;
    LiveBefore(s.t, id, n, token, s.now + d1, s.now + d1 + d2);
  }

  // ---------------------------------------------------------------- enqueueing

  /** A first record of a job, as a submission makes it. */
  predicate FirstRecord(record: JobRecord, payload: Payload) {
    && ValidRecord(record) && record.status == Queued && record.attemptCount == 0 && payload.kind == record.kind
  }

  predicate KeyHolder(t: Tables, record: JobRecord, id: string) {
    id in t.jobs && t.jobs[id].record.kind == record.kind
    && t.jobs[id].record.idempotencyKey == record.idempotencyKey
  }

  predicate ResourceHolder(t: Tables, record: JobRecord, id: string) {
    id in t.jobs && t.jobs[id].record.kind == record.kind && t.jobs[id].record.resourceId == record.resourceId
  }

  ghost predicate NoCollision(t: Tables, record: JobRecord) {
    record.jobId !in t.jobs && forall id :: !KeyHolder(t, record, id) && !ResourceHolder(t, record, id)
  }

  /** A submission that collides with nothing is stored, payload and all, and answered as created. */
  lemma BeginCreates(s: State, record: JobRecord, payload: Payload, d1: nat)
    requires Inv(s) && FirstRecord(record, payload) && |payload.body| <= 4194304 && NoCollision(s.t, record)
    ensures
      var (s', r) := BeginJob(s, record, payload, d1);
      && r == Ok((record, true)) && s'.now == s.now + d1
      && s'.t == s.t.(jobs := s.t.jobs[record.jobId := JobRow(record, 0)],
                      payloads := s.t.payloads[record.jobId := PayloadRow(payload, record.createdAt)])
  {
    hide Inv, ValidRecord, KeyTaken, ResourceTaken;
    KeyTakenMeans(s.t, record);
    ResourceTakenMeans(s.t, record);
  }

  /** Every other submission changes nothing: it is malformed, too large, answered with the job that
      holds its key if that was the same request, or refused for a key, a resource or an identifier
      in use. */
  lemma BeginOtherwise(s: State, record: JobRecord, payload: Payload, d1: nat, holder: string)
    requires Inv(s)
    requires !(FirstRecord(record, payload) && |payload.body| <= 4194304 && NoCollision(s.t, record))
    ensures
      var (s', r) := BeginJob(s, record, payload, d1);
      && s'.t == s.t && s'.now == s.now + d1
      && (!FirstRecord(record, payload) ==> r == Err(BadValue))
      && (FirstRecord(record, payload) && 4194304 < |payload.body| ==> r == Err(PayloadTooLarge))
      && (FirstRecord(record, payload) && |payload.body| <= 4194304 ==>
            && (KeyHolder(s.t, record, holder) ==>
                  r == if s.t.jobs[holder].record.requestDigest == record.requestDigest
                       then Ok((s.t.jobs[holder].record, false)) else Err(IdempotencyConflict))
            && ((forall id :: !KeyHolder(s.t, record, id)) ==>
                  r == Err(if exists id :: ResourceHolder(s.t, record, id) then ResourceAlreadySubmitted
                           else ImmutableConflict)))
  {
    InvTables(s);
    hide Inv, CellInv, AttemptsInv, PayloadsInv, EvidenceInv, ValidRecord;
    if KeyHolder(s.t, record, holder) {
      var j := JobByKey(s.t, record.kind, record.idempotencyKey);
      assert SameKey(s.t.jobs[j].record, s.t.jobs[holder].record);
    } else {
      KeyTakenMeans(s.t, record);
      ResourceTakenMeans(s.t, record);
    }
  }

  lemma KeyTakenMeans(t: Tables, record: JobRecord)
    ensures KeyTaken(t, record.kind, record.idempotencyKey) <==> exists id :: KeyHolder(t, record, id)
  {
    if KeyTaken(t, record.kind, record.idempotencyKey) {
      var id :| id in t.jobs && t.jobs[id].record.kind == record.kind
                && t.jobs[id].record.idempotencyKey == record.idempotencyKey;
      assert KeyHolder(t, record, id);
    }
  }

  lemma ResourceTakenMeans(t: Tables, record: JobRecord)
    ensures ResourceTaken(t, record.kind, record.resourceId) <==> exists id :: ResourceHolder(t, record, id)
  {
    if ResourceTaken(t, record.kind, record.resourceId) {
      var id :| id in t.jobs && Owns(t.jobs[id].record, record.kind, record.resourceId);
      assert ResourceHolder(t, record, id);
    }
  }

  // ---------------------------------------------------------------- claiming

  predicate Ready(job: JobRecord, at: Time) {
    job.status == Queued && job.availableAt <= at
  }

  /** The order of the queue: available first, then created first, then by identifier. */
  predicate ComesBefore(a: JobRecord, b: JobRecord) {
    || a.availableAt < b.availableAt
    || (a.availableAt == b.availableAt && a.createdAt < b.createdAt)
    || (a.availableAt == b.availableAt && a.createdAt == b.createdAt && TextLess(a.jobId, b.jobId))
  }

  predicate UsedToken(t: Tables, id: string, token: string) {
    exists k :: k in t.attempts && k.jobId == id && t.attempts[k].leaseToken == token
  }

  function StartedJob(job: JobRecord, at: Time): JobRecord {
    job.(status := Running, errorCode := None, updatedAt := StampOf(job, at), attemptCount := job.attemptCount + 1)
  }

  /** The next attempt started, leased from `at`. */
  function Started(t: Tables, id: string, worker: string, token: string, at: Time, seconds: int): Tables {
    if id !in t.jobs then t
    else
      var job := StartedJob(t.jobs[id].record, at);
      Written(t, id, job, Attempt(AttemptRunning, worker, token, None, at, at, at + 1_000_000 * seconds, None))
  }

  /** A claim with good arguments: idle exactly when no job is ready; else it takes the ready job
      that comes before every other, and starts its next attempt unless that job's token was used. */
  lemma ClaimEffect(s: State, worker: string, token: string, seconds: int, d1: nat, d2: nat) returns (id: string)
    requires Inv(s) && ValidWorkerId(worker) && ValidToken(token) && 5 <= seconds <= 3600
    ensures
      var at, later := s.now + d1, s.now + d1 + d2;
      var (s', r) := ClaimNextJob(s, worker, token, seconds, d1, d2);
      && s'.now == later
      && if forall j :: j in s.t.jobs ==> !Ready(s.t.jobs[j].record, at) then r == Ok(None) && s'.t == s.t
         else
           && id in s.t.jobs && id in s.t.payloads && Ready(s.t.jobs[id].record, at)
           && (forall j :: j in s.t.jobs && j != id && Ready(s.t.jobs[j].record, at) ==>
                 ComesBefore(s.t.jobs[id].record, s.t.jobs[j].record))
           && if UsedToken(s.t, id, token) then r == Err(ConcurrentTransition) && s'.t == s.t
              else
                var job := StartedJob(s.t.jobs[id].record, later);
                && s'.t == Started(s.t, id, worker, token, later, seconds)
                && r == Ok(Some(ClaimedJob(
                     job, s.t.payloads[id].payload,
                     AttemptRecord(id, job.attemptCount, AttemptRunning, later, later, later + 1_000_000 * seconds),
                     token)))
  {
    hide Inv, CellInv, ValidToken, ValidWorkerId, MoveJob, MoveCell, NextClaim, FreshToken, Started, StartedJob,
      UsedToken;
    var at, later := s.now + d1, s.now + d1 + d2;
    id := "";
    if NextClaim(s.t, at).None? {
      NothingReady(s, at);
    } else {
      id := NextClaim(s.t, at).value;
      NextClaimIsFirst(s, at);
      assert Ready(s.t.jobs[id].record, at);
      FirstReady(s, at, id);
      TokenMeans(s, id, token);
      PayloadThere(s, id);
      if !UsedToken(s.t, id, token) {
        ClaimMove(s, id, Claim(worker, token, later, seconds));
      }
    }
  }

  lemma PayloadThere(s: State, id: string)
    requires Inv(s) && id in s.t.jobs
    ensures id in s.t.payloads
  {
    hide CellsInv, AttemptsInv, UniqueInv, EvidenceInv;
    assert id in s.t.jobs.Keys;
  }

  lemma NothingReady(s: State, at: Time)
    requires NextClaim(s.t, at).None?
    ensures forall j :: j in s.t.jobs ==> !Ready(s.t.jobs[j].record, at)
  {
    forall j | j in s.t.jobs
      ensures !Ready(s.t.jobs[j].record, at)
    {
      assert ClaimKey(s.t.jobs[j].record) !in ClaimableKeys(s.t, at);
    }
  }

  lemma FirstReady(s: State, at: Time, id: string)
    requires Inv(s) && NextClaim(s.t, at) == Some(id)
    ensures id in s.t.jobs
    ensures forall j :: j in s.t.jobs && j != id && Ready(s.t.jobs[j].record, at) ==>
              ComesBefore(s.t.jobs[id].record, s.t.jobs[j].record)
  {
    hide Inv, NextClaim;
    NextClaimIsFirst(s, at);
    forall j | j in s.t.jobs && j != id && Ready(s.t.jobs[j].record, at)
      ensures ComesBefore(s.t.jobs[id].record, s.t.jobs[j].record)
    {
      assert Claimable(s.t.jobs[j].record, at);
      ClaimOrder(s.t.jobs[id].record, s.t.jobs[j].record);
    }
  }

  lemma ClaimOrder(a: JobRecord, b: JobRecord)
    ensures KeyLess(ClaimKey(a), ClaimKey(b)) <==> ComesBefore(a, b)
  {
    var x, y := ClaimKey(a), ClaimKey(b);
    KeyLessCons(x, y);
    KeyLessCons(x[1..], y[1..]);
    KeyLessCons(x[2..], y[2..]);
    assert x[1..][1..] == x[2..] && y[1..][1..] == y[2..];
    assert x[2..][1..] == [] && y[2..][1..] == [];
  }

  lemma KeyLessCons(x: Key, y: Key)
    requires x != [] && y != []
    ensures KeyLess(x, y) <==> FieldLess(x[0], y[0]) || (x[0] == y[0] && KeyLess(x[1..], y[1..]))
  {
  }

  lemma TokenMeans(s: State, id: string, token: string)
    requires Inv(s) && id in s.t.jobs
    ensures Complete(s.t, id)
    ensures FreshToken(CellOf(s.t, id).history, token) <==> !UsedToken(s.t, id, token)
  {
    hide Inv, CellInv;
    InvTables(s);
    StoredCell(s, id);
    var h := CellOf(s.t, id).history;
    if UsedToken(s.t, id, token) {
      var k :| k in s.t.attempts && k.jobId == id && s.t.attempts[k].leaseToken == token;
      assert k == AttemptKey(id, k.number) && h[k.number - 1] == s.t.attempts[k];
    } else {
      forall i | 0 <= i < |h|
        ensures h[i].leaseToken != token
      {
        assert h[i] == s.t.attempts[AttemptKey(id, i + 1)];
      }
    }
  }

  lemma ClaimMove(s: State, id: string, m: Move)
    requires Inv(s) && id in s.t.jobs && Enabled(CellOf(s.t, id), m) && m.Claim?
    ensures MoveJob(s.t, id, m) == Started(s.t, id, m.worker, m.token, m.at, m.seconds)
    ensures
      var d := MoveCell(CellOf(s.t, id), m);
      && d.history != [] && d.row.record == StartedJob(s.t.jobs[id].record, m.at)
      && |d.history| == d.row.record.attemptCount
      && Last(d.history)
           == Attempt(AttemptRunning, m.worker, m.token, None, m.at, m.at, m.at + 1_000_000 * m.seconds, None)
  {
    hide Inv, CellInv, ValidToken, ValidWorkerId;
    StoredCell(s, id);
  }

  // ---------------------------------------------------------------- recovery

  /** A held job whose last lease is over. */
  predicate Over(t: Tables, id: string, at: Time) {
    && HasRows(t, id)
    && (t.jobs[id].record.status == Running || t.jobs[id].record.status == CancelRequested)
    && t.attempts[AttemptKey(id, t.jobs[id].record.attemptCount)].status == AttemptRunning
    && t.attempts[AttemptKey(id, t.jobs[id].record.attemptCount)].leaseExpiresAt <= at
  }

  function LeaseEnd(t: Tables, id: string): Time {
    if HasRows(t, id) then t.attempts[AttemptKey(id, t.jobs[id].record.attemptCount)].leaseExpiresAt else 0
  }

  /** The order of recovery: the lease that ended first, then by identifier. */
  predicate EndsBefore(t: Tables, a: string, b: string) {
    LeaseEnd(t, a) < LeaseEnd(t, b) || (LeaseEnd(t, a) == LeaseEnd(t, b) && TextLess(a, b))
  }

  /** What recovery leaves of one job: canceled if that was asked for, failed when its attempts are
      used up, else queued again after the backoff. */
  function RecoveredRows(t: Tables, id: string, at: Time, base: int, cap: int): Tables
    requires 1 <= base <= cap
  {
    if id !in t.jobs then t
    else
      var job := t.jobs[id].record;
      if job.status == CancelRequested then CanceledRows(t, id, at)
      else if job.maxAttempts <= job.attemptCount then
        EndedTogether(t, id, at, Failed, Some("lease_expired"), LeaseExpired, Some("lease_expired"))
      else if 1 <= job.attemptCount then
        Requeued(t, id, at, LeaseExpired, "lease_expired", Backoff(base, cap, job.attemptCount))
      else t
  }

  /** The same row and attempts of one job. */
  predicate SameRows(t: Tables, u: Tables, j: string) {
    && j in t.jobs && j in u.jobs && t.jobs[j] == u.jobs[j]
    && (forall k :: k in t.attempts && k.jobId == j ==> k in u.attempts && u.attempts[k] == t.attempts[k])
    && (forall k :: k in u.attempts && k.jobId == j ==> k in t.attempts)
  }

  lemma OverMeans(t: Tables, id: string, at: Time)
    ensures Lapsed(t, id, at) <==> Over(t, id, at)
  {
  }

  lemma LapsedThere(t: Tables, id: string, at: Time)
    requires Lapsed(t, id, at)
    ensures id in LapsedJobs(t, at)
  {
  }

  /** The batch: every job in it is over, they stand in the order of recovery, and a job that is
      over and left out comes after all of them when the batch is full. */
  lemma BatchEffect(t: Tables, at: Time, limit: nat)
    ensures
      var ids := LapsedBatch(t, at, limit);
      && |ids| <= limit
      && (forall i :: 0 <= i < |ids| ==> Over(t, ids[i], at))
      && (forall i, j :: 0 <= i < j < |ids| ==> ids[i] != ids[j] && EndsBefore(t, ids[i], ids[j]))
      && (forall x :: x in t.jobs && Over(t, x, at) && x !in ids ==>
            |ids| == limit && forall i :: 0 <= i < |ids| ==> EndsBefore(t, ids[i], x))
  {
    hide LapsedBatch, KeyLess, Lapsed, Over, HasRows;
    BatchIsFirst(t, at, limit);
    var ids := LapsedBatch(t, at, limit);
    forall i | 0 <= i < |ids|
      ensures Over(t, ids[i], at) && ids[i] in LapsedJobs(t, at)
    {
      OverMeans(t, ids[i], at);
      LapsedThere(t, ids[i], at);
    }
    forall i, j | 0 <= i < j < |ids|
      ensures EndsBefore(t, ids[i], ids[j])
    {
      ExpiryOrder(t, ids[i], ids[j], at);
    }
    forall x | x in t.jobs && Over(t, x, at) && x !in ids
      ensures |ids| == limit && forall i :: 0 <= i < |ids| ==> EndsBefore(t, ids[i], x)
    {
      OverMeans(t, x, at);
      assert x in LapsedJobs(t, at);
      if |ids| < limit {
        AllTaken(ids, LapsedJobs(t, at));
      }
      forall i | 0 <= i < |ids|
        ensures EndsBefore(t, ids[i], x)
      {
        ExpiryOrder(t, ids[i], x, at);
      }
    }
  }

  lemma ExpiryOrder(t: Tables, a: string, b: string, at: Time)
    requires Lapsed(t, a, at) && Lapsed(t, b, at)
    ensures KeyLess(ExpiryKey(t, a), ExpiryKey(t, b)) <==> EndsBefore(t, a, b)
  {
    var x, y := ExpiryKey(t, a), ExpiryKey(t, b);
    KeyLessCons(x, y);
    KeyLessCons(x[1..], y[1..]);
    assert x[1..][1..] == [] && y[1..][1..] == [];
  }

  lemma ExpireOneRows(s: State, id: string, base: int, cap: int, d: nat)
    requires Inv(s) && Lapsed(s.t, id, s.now) && 1 <= base <= cap <= 3600
    ensures
      var (s', job) := ExpireOne(s, id, base, cap, d);
      && s' == State(RecoveredRows(s.t, id, s.now + d, base, cap), s.now + d)
      && Ok(job) == Stored(s'.t, id)
  {
    hide Inv, CellInv, Backoff, MoveJob, MoveCell, Enabled, EndedTogether, Requeued;
    StoredCell(s, id);
    LapsedEnabled(s, id, base, cap, s.now + d);
    HeldMove(s, id, ExpiryMove(s.t.jobs[id].record, base, cap, s.now + d));
  }

  lemma WrittenOthers(t: Tables, id: string, job: JobRecord, a: Attempt, j: string)
    requires id in t.jobs && j in t.jobs && j != id
    ensures SameRows(Written(t, id, job, a), t, j) && Written(t, id, job, a).jobs.Keys == t.jobs.Keys
  {
  }

  lemma WrittenAlike(t: Tables, u: Tables, j: string, job: JobRecord, a: Attempt)
    requires SameRows(t, u, j)
    ensures SameRows(Written(t, j, job, a), Written(u, j, job, a), j)
  {
  }

  lemma SameRowsHas(t: Tables, u: Tables, j: string)
    requires SameRows(t, u, j)
    ensures j in t.jobs && j in u.jobs && t.jobs[j] == u.jobs[j] && (HasRows(t, j) <==> HasRows(u, j))
    ensures HasRows(t, j) ==>
              var key := AttemptKey(j, t.jobs[j].record.attemptCount); t.attempts[key] == u.attempts[key]
  {
  }

  lemma RecoveredOthers(t: Tables, id: string, at: Time, base: int, cap: int, j: string)
    requires 1 <= base <= cap && j in t.jobs && j != id
    ensures SameRows(RecoveredRows(t, id, at, base, cap), t, j)
    ensures var u := RecoveredRows(t, id, at, base, cap); u.jobs.Keys == t.jobs.Keys
  {
    hide Backoff, Written, SameRows;
    SameRowsSelf(t, j);
    if id in t.jobs {
      forall job, a
        ensures SameRows(Written(t, id, job, a), t, j) && Written(t, id, job, a).jobs.Keys == t.jobs.Keys
      {
        WrittenOthers(t, id, job, a, j);
      }
    }
  }

  lemma SameRowsSelf(t: Tables, j: string)
    requires j in t.jobs
    ensures SameRows(t, t, j)
  {
  }

  lemma RecoveredAlike(t: Tables, u: Tables, j: string, at: Time, base: int, cap: int)
    requires 1 <= base <= cap && SameRows(t, u, j)
    ensures SameRows(RecoveredRows(t, j, at, base, cap), RecoveredRows(u, j, at, base, cap), j)
  {
    hide Backoff, Written, SameRows;
    SameRowsHas(t, u, j);
    forall job, a
      ensures SameRows(Written(t, j, job, a), Written(u, j, job, a), j)
    {
      WrittenAlike(t, u, j, job, a);
    }
  }

  /** A pass over a batch: a job outside it keeps its rows; the job at a position is recovered, at
      some time during the pass, and reported there. */
  lemma {:induction false} ExpireAllRows(s: State, ids: seq<string>, base: int, cap: int, ds: seq<nat>, j: string)
    returns (at: Time)
    requires Inv(s) && AllLapsed(s.t, ids, s.now) && Distinct(ids) && 1 <= base <= cap <= 3600
    requires j in s.t.jobs
    ensures
      var (s', records) := ExpireAll(s, ids, base, cap, ds);
      && |records| == |ids|
      && (j !in ids ==> SameRows(s'.t, s.t, j))
      && (j in ids ==> s.now <= at <= s'.now && SameRows(s'.t, RecoveredRows(s.t, j, at, base, cap), j))
      && (forall i :: 0 <= i < |ids| && ids[i] == j ==> Ok(records[i]) == Stored(s'.t, j))
    decreases |ids|
  {
    hide Inv, Lapsed, ExpireOne, RecoveredRows;
    at := s.now;
    if ids != [] {
      var d := Delay(ds);
      var one := ExpireOne(s, ids[0], base, cap, d);
      ExpireOneInv(s, ids[0], base, cap, d);
      ExpireOneRows(s, ids[0], base, cap, d);
      ExpiredRest(s, ids, base, cap, d);
      if j == ids[0] {
        assert j !in ids[1..];
        RecoveredHas(s.t, j, s.now + d, base, cap);
        at := ExpireAllRows(one.0, ids[1..], base, cap, Rest(ds), j);
        at := s.now + d;
      } else {
        RecoveredOthers(s.t, ids[0], s.now + d, base, cap, j);
        at := ExpireAllRows(one.0, ids[1..], base, cap, Rest(ds), j);
        RecoveredAlike(one.0.t, s.t, j, at, base, cap);
      }
    }
  }

  lemma RecoveredHas(t: Tables, j: string, at: Time, base: int, cap: int)
    requires 1 <= base <= cap && j in t.jobs
    ensures j in RecoveredRows(t, j, at, base, cap).jobs
  {
    hide Backoff;
  }

  /** One reaper call, row by row. */
  lemma ReapEffect(s: State, limit: int, base: int, cap: int, d1: nat, ds: seq<nat>, j: string) returns (at: Time)
    requires Inv(s) && 1 <= limit <= 100 && 1 <= base <= 300 && base <= cap <= 3600 && j in s.t.jobs
    ensures
      var ids := LapsedBatch(s.t, s.now + d1, limit);
      var (s', r) := ReapExpiredJobs(s, limit, base, cap, d1, ds);
      && r.Ok? && |r.value| == |ids|
      && (j !in ids ==> SameRows(s'.t, s.t, j))
      && (j in ids ==>
            s.now + d1 <= at <= s'.now && SameRows(s'.t, RecoveredRows(s.t, j, at, base, cap), j))
      && (forall i :: 0 <= i < |ids| && ids[i] == j ==> Ok(r.value[i]) == Stored(s'.t, j))
  {
    hide Inv, Lapsed, LapsedBatch, ExpireAll, RecoveredRows;
    WaitInv(s, s.now + d1);
    LapsedBatchMembers(s.t, s.now + d1, limit);
    at := ExpireAllRows(s.(now := s.now + d1), LapsedBatch(s.t, s.now + d1, limit), base, cap, ds, j);
  }
}
