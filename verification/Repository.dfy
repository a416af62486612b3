/** The leased job repository. Every public method is one transaction: it reads the database
    clock, locks rows, writes them one table at a time, and restores what it wrote when a
    later write of the same transaction is refused. Each is proved to commit exactly the state
    and give exactly the answer that `Store` specifies for the operation. */
module JobRepository {
  import opened Common
  import opened Lifecycle
  import opened Cells
  import opened Store
  import opened Steps

  /** A move of the row alone writes back the attempt it found. */
  lemma RowMoveTables(t: Tables, id: string, m: Move)
    requires Complete(t, id) && Enabled(CellOf(t, id), m) && (m.AskCancel? || m.Withdraw?)
    ensures MoveJob(t, id, m) == t.(jobs := t.jobs[id := MoveCell(CellOf(t, id), m).row])
  {
    if CellOf(t, id).history != [] {
      LastOfCell(t, id);
      var k := AttemptKey(id, t.jobs[id].record.attemptCount);
      assert t.attempts[k := t.attempts[k]] == t.attempts;
    }
  }

  /** A requested cancellation of a queued or running job is the automaton's move. */
  lemma RequestIsMove(s: State, id: string, at: Time)
    requires Inv(s) && id in s.t.jobs && s.now <= at
    ensures
      var job := s.t.jobs[id].record;
      var c := CellOf(s.t, id);
      && (job.status.Running? ==>
            && Enabled(c, AskCancel(at))
            && MoveJob(s.t, id, AskCancel(at)) == s.t.(jobs := s.t.jobs[id := MoveCell(c, AskCancel(at)).row])
            && RequestCancellation(job, Max(at, job.updatedAt)) == Ok(MoveCell(c, AskCancel(at)).row.record))
      && (job.status.Queued? ==>
            && Enabled(c, Withdraw(at))
            && MoveJob(s.t, id, Withdraw(at)) == s.t.(jobs := s.t.jobs[id := MoveCell(c, Withdraw(at)).row])
            && RequestCancellation(job, Max(at, job.updatedAt)) == Ok(MoveCell(c, Withdraw(at)).row.record))
  {
    hide Inv, CellInv, RequestCancellation;
    StoredCell(s, id);
    var c := CellOf(s.t, id);
    if s.t.jobs[id].record.status.Running? {
      MoveIsTransition(c, AskCancel(at), s.now);
      RowMoveTables(s.t, id, AskCancel(at));
    }
    if s.t.jobs[id].record.status.Queued? {
      MoveIsTransition(c, Withdraw(at), s.now);
      RowMoveTables(s.t, id, Withdraw(at));
    }
  }

  /** The rows after a move that ends the running attempt: both rows of the job, written together. */
  function EndedRows(t: Tables, id: string, record: JobRecord, status: AttemptStatus, code: Option<string>): Tables
    requires id in t.jobs && AttemptKey(id, t.jobs[id].record.attemptCount) in t.attempts
  {
    var key := AttemptKey(id, t.jobs[id].record.attemptCount);
    t.(jobs := t.jobs[id := JobRow(record, t.jobs[id].version + 1)],
       attempts := t.attempts[key := Ended(t.attempts[key], status, code, record.updatedAt)])
  }

  lemma EndingMove(t: Tables, id: string, m: Move)
    requires Complete(t, id) && Enabled(CellOf(t, id), m)
    requires m.Retry? || m.Fail? || m.Publish? || m.Expire? || m.Exhaust? || m.Stop?
    ensures AttemptKey(id, t.jobs[id].record.attemptCount) in t.attempts
    ensures
      var next := MoveCell(CellOf(t, id), m).row.record;
      MoveJob(t, id, m) ==
        match m
        case Retry(_, _, code) => EndedRows(t, id, next, RetryScheduled, Some(code))
        case Fail(_, code) => EndedRows(t, id, next, AttemptFailed, Some(code))
        case Publish(_) => EndedRows(t, id, next, AttemptSucceeded, None)
        case Stop(_) => EndedRows(t, id, next, AttemptCanceled, None)
        case _ => EndedRows(t, id, next, LeaseExpired, Some(EXPIRED_CODE))
  {
    LastOfCell(t, id);
  }

  lemma BeatRows(t: Tables, id: string, at: Time, seconds: int)
    requires Complete(t, id) && Enabled(CellOf(t, id), Beat(at, seconds))
    ensures AttemptKey(id, t.jobs[id].record.attemptCount) in t.attempts
    ensures MoveCell(CellOf(t, id), Beat(at, seconds)).row == t.jobs[id]
    ensures
      var key := AttemptKey(id, t.jobs[id].record.attemptCount);
      MoveJob(t, id, Beat(at, seconds)) ==
        t.(attempts := t.attempts[key := t.attempts[key].(heartbeatAt := at, leaseExpiresAt := at + Seconds(seconds))])
  {
    LastOfCell(t, id);
    assert t.jobs[id := t.jobs[id]] == t.jobs;
  }

  lemma MovedIdentity(t: Tables, id: string, m: Move)
    requires Complete(t, id) && Enabled(CellOf(t, id), m)
    ensures MoveCell(CellOf(t, id), m).row.record.jobId == t.jobs[id].record.jobId
  {
  }

  lemma FencedStop(s: State, id: string, n: int, token: string, at: Time)
    requires Inv(s) && LiveLease(s.t, id, n, token, at)
    ensures Complete(s.t, id) && s.t.jobs[id].record.jobId == id
  {
    hide Inv, CellInv;
    StoredCell(s, id);
  }

  /** Failing or publishing a running job that passed the fence is always a legal transition. */
  lemma FencedMove(s: State, id: string, n: int, token: string, at: Time, m: Move)
    requires Inv(s) && LiveLease(s.t, id, n, token, at) && s.now <= at
    requires s.t.jobs[id].record.status.Running?
    requires (m.Fail? && SafeCode(m.code)) || m.Publish?
    requires m.at == at
    ensures Complete(s.t, id) && s.t.jobs[id].record.jobId == id
    ensures Enabled(CellOf(s.t, id), m)
    ensures
      var next := MoveCell(CellOf(s.t, id), m).row.record;
      var job := s.t.jobs[id].record;
      var stamp := Max(at, job.updatedAt);
      && next.jobId == id
      && TransitionTo(job, if m.Fail? then Failed else Succeeded, stamp,
                      if m.Fail? then Some(m.code) else None, None) == Ok(next)
  {
    hide Inv, CellInv, TransitionTo;
    StoredCell(s, id);
    LiveLeaseHeld(s, id, n, token, at);
    MoveIsTransition(CellOf(s.t, id), m, s.now);
  }

  /** A retry's record change is refused exactly when the attempts are used up. */
  lemma FencedRetry(s: State, id: string, n: int, token: string, at: Time, delay: int, code: string)
    requires Inv(s) && LiveLease(s.t, id, n, token, at) && s.now <= at
    requires s.t.jobs[id].record.status.Running? && 1 <= delay <= 3600 && SafeCode(code)
    ensures Complete(s.t, id) && s.t.jobs[id].record.jobId == id
    ensures
      var c := CellOf(s.t, id);
      var job := s.t.jobs[id].record;
      var m := Retry(at, delay, code);
      var stamp := Max(at, job.updatedAt);
      var next := TransitionTo(job, Queued, stamp, None, Some(stamp + Seconds(delay)));
      if job.attemptCount < job.maxAttempts
      then Enabled(c, m) && next == Ok(MoveCell(c, m).row.record)
      else next.Err?
  {
    hide Inv, CellInv, MoveCell;
    StoredCell(s, id);
    LiveLeaseHeld(s, id, n, token, at);
    var job := s.t.jobs[id].record;
    if job.attemptCount < job.maxAttempts {
      MoveIsTransition(CellOf(s.t, id), Retry(at, delay, code), s.now);
    }
  }

  lemma RequestIdentity(job: JobRecord, at: Time)
    ensures RequestCancellation(job, at).Ok? ==> RequestCancellation(job, at).value.jobId == job.jobId
  {
  }

  /** INSERT of a running attempt row: refused by its key, by the unique token of its job, and
      by the index that allows a job one running attempt. */
  predicate AttemptInsertable(t: Tables, id: string, n: int, token: string) {
    && AttemptKey(id, n) !in t.attempts
    && forall k :: k in t.attempts && k.jobId == id ==>
         t.attempts[k].leaseToken != token && !t.attempts[k].status.AttemptRunning?
  }

  lemma PayloadStored(s: State, id: string)
    requires Inv(s) && id in s.t.jobs
    ensures id in s.t.payloads
    ensures s.t.payloads[id].payload.kind == s.t.jobs[id].record.kind
    ensures s.t.payloads[id].createdAt == s.t.jobs[id].record.createdAt
    ensures |s.t.payloads[id].payload.body| <= MAX_PAYLOAD_BYTES
  {
    hide CellsInv, AttemptsInv, UniqueInv, EvidenceInv;
    assert id in s.t.jobs.Keys;
  }

  /** A queued job accepts its next attempt exactly when the token was never used by it. */
  lemma InsertableIffFresh(s: State, id: string, token: string)
    requires Inv(s) && id in s.t.jobs && s.t.jobs[id].record.status.Queued?
    ensures Complete(s.t, id)
    ensures AttemptInsertable(s.t, id, s.t.jobs[id].record.attemptCount + 1, token)
            <==> FreshToken(CellOf(s.t, id).history, token)
  {
    hide Inv, CellInv, PayloadsInv, UniqueInv, EvidenceInv;
    InvTables(s);
    StoredCell(s, id);
    var h := CellOf(s.t, id).history;
    forall k | k in s.t.attempts && k.jobId == id
      ensures 1 <= k.number <= |h| && h[k.number - 1] == s.t.attempts[k] && !s.t.attempts[k].status.AttemptRunning?
    {
      RunningAttemptIsLast(CellOf(s.t, id), s.now, k.number - 1);
    }
    forall i | 0 <= i < |h|
      ensures AttemptKey(id, i + 1) in s.t.attempts && s.t.attempts[AttemptKey(id, i + 1)] == h[i]
    {
    }
  }

  /** A claim writes the job row and inserts the attempt row. */
  lemma ClaimRows(s: State, id: string, worker: string, token: string, at: Time, seconds: int)
    requires Inv(s) && id in s.t.jobs && s.now <= at && Claimable(s.t.jobs[id].record, at)
    requires ValidWorkerId(worker) && ValidToken(token) && 5 <= seconds <= 3600
    ensures Complete(s.t, id) && s.t.jobs[id].record.jobId == id
    ensures
      var job := s.t.jobs[id].record;
      var n := job.attemptCount + 1;
      var stamp := Max(at, job.updatedAt);
      var next := job.(status := Running, errorCode := None, updatedAt := stamp, attemptCount := n);
      && TransitionTo(job, Running, stamp, None, None) == Ok(next)
      && (FreshToken(CellOf(s.t, id).history, token) ==>
            var m := Claim(worker, token, at, seconds);
            && Enabled(CellOf(s.t, id), m)
            && MoveCell(CellOf(s.t, id), m).row.record == next
            && |MoveCell(CellOf(s.t, id), m).history| == n
            && Last(MoveCell(CellOf(s.t, id), m).history) == ClaimedAttempt(worker, token, at, seconds)
            && MoveJob(s.t, id, m) ==
                 s.t.(jobs := s.t.jobs[id := JobRow(next, s.t.jobs[id].version + 1)],
                      attempts := s.t.attempts[AttemptKey(id, n) := ClaimedAttempt(worker, token, at, seconds)]))
  {
    hide Inv, HistoryInv;
    StoredCell(s, id);
  }

  lemma LeaseHolder(t: Tables, id: string, n: int, token: string, at: Time)
    requires LiveLease(t, id, n, token, at)
    ensures id in t.jobs && n == t.jobs[id].record.attemptCount && AttemptKey(id, n) in t.attempts
    ensures Active(t.jobs[id].record.status)
    ensures var a := t.attempts[AttemptKey(id, n)]; a.status.AttemptRunning? && a.leaseToken == token
  {
  }

  lemma LeaseLater(t: Tables, id: string, n: int, token: string, at: Time, later: Time)
    requires LiveLease(t, id, n, token, at)
    ensures LiveLease(t, id, n, token, later) <==> later < t.attempts[AttemptKey(id, n)].leaseExpiresAt
  {
  }

  lemma EvidenceOfJob(s: State, id: string)
    requires Inv(s) && id in s.t.jobs
    ensures
      var job := s.t.jobs[id].record;
      job.status.Succeeded? <==> HasEvidence(s.t, job.kind, job.resourceId)
  {
    hide CellsInv, AttemptsInv, PayloadsInv, UniqueInv, RunRowsInv, DecisionRowsInv, HasEvidence;
  }

  /** The record of a running job whose lease is over: failed when its attempts are used up,
      else queued again after the backoff. */
  function ExpiredRecord(job: JobRecord, base: int, cap: int, stamp: Time): Result<JobRecord, Error>
    requires 1 <= job.attemptCount
  {
    if job.maxAttempts <= job.attemptCount
    then TransitionTo(job, Failed, stamp, Some(EXPIRED_CODE), None)
    else TransitionTo(job, Queued, stamp, None, Some(stamp + Seconds(Backoff(base, cap, job.attemptCount))))
  }

  lemma LapsedHolder(t: Tables, id: string, at: Time)
    requires Lapsed(t, id, at)
    ensures id in t.jobs && Active(t.jobs[id].record.status)
    ensures var k := AttemptKey(id, t.jobs[id].record.attemptCount);
            k in t.attempts && t.attempts[k].status.AttemptRunning?
  {
  }

  lemma RecoverMove(s: State, id: string, base: int, cap: int, at: Time)
    requires Inv(s) && Lapsed(s.t, id, s.now) && 1 <= base <= cap <= 3600 && s.now <= at
    ensures Complete(s.t, id) && s.t.jobs[id].record.jobId == id && 1 <= s.t.jobs[id].record.attemptCount
    ensures Enabled(CellOf(s.t, id), ExpiryMove(s.t.jobs[id].record, base, cap, at))
    ensures
      var job := s.t.jobs[id].record;
      var m := ExpiryMove(job, base, cap, at);
      var next := MoveCell(CellOf(s.t, id), m).row.record;
      job.status.Running? ==>
        && next.jobId == id && AttemptKey(id, job.attemptCount) in s.t.attempts
        && ExpiredRecord(job, base, cap, Max(at, job.updatedAt)) == Ok(next)
        && MoveJob(s.t, id, m) == EndedRows(s.t, id, next, LeaseExpired, Some(EXPIRED_CODE))
  {
    hide Inv, CellInv, TransitionTo, Backoff, EndedRows, MoveJob;
    StoredCell(s, id);
    LapsedEnabled(s, id, base, cap, at);
    var m := ExpiryMove(s.t.jobs[id].record, base, cap, at);
    MoveIsTransition(CellOf(s.t, id), m, s.now);
    EndingMove(s.t, id, m);
  }

  lemma StopAtStamp(t: Tables, id: string, at: Time)
    requires Complete(t, id) && Enabled(CellOf(t, id), Stop(at))
    ensures
      var stamp := Max(at, t.jobs[id].record.updatedAt);
      && Enabled(CellOf(t, id), Stop(stamp))
      && MoveCell(CellOf(t, id), Stop(stamp)) == MoveCell(CellOf(t, id), Stop(at))
  {
  }

  class Repository {
    var jobs: map<string, JobRow>
    var payloads: map<string, PayloadRow>
    var attempts: map<AttemptKey, Attempt>
    var datasets: set<string>
    var runs: map<string, RunRecord>
    var decisions: map<string, DecisionRecord>
    var clock: Time

    function Rows(): Tables
      reads this
    {
      Tables(jobs, payloads, attempts, datasets, runs, decisions)
    }

    function View(): State
      reads this
    {
      State(Rows(), clock)
    }

    ghost predicate Valid()
      reads this
    {
      Inv(View())
    }

    constructor (start: Time)
      ensures Valid()
      ensures View() == State(EMPTY, start)
    {
      jobs, payloads, attempts := map[], map[], map[];
      datasets, runs, decisions := {}, map[], map[];
      clock := start;
      new;
      EmptyInv(start);
    }

    // ------------------------------------------------------------ rows and conditional writes

    /** Locks the job and attempt rows and tests the lease at time `at`. */
    method LockActiveLease(id: string, n: int, token: string, at: Time) returns (row: Option<JobRow>)
      ensures row.Some? <==> LiveLease(Rows(), id, n, token, at)
      ensures row.Some? ==> row.value == jobs[id]
    {
      row := None;
      if id in jobs && AttemptKey(id, n) in attempts {
        var current := jobs[id].record;
        var attempt := attempts[AttemptKey(id, n)];
        if && Active(current.status) && current.attemptCount == n
           && attempt.status.AttemptRunning? && attempt.leaseToken == token && at < attempt.leaseExpiresAt
        {
          row := Some(jobs[id]);
        }
      }
    }

    /** Ends a running attempt if it still holds this token and, unless expired leases are
        allowed, its lease is not over at `now`. */
    method FinishAttempt(id: string, n: int, token: string, status: AttemptStatus, code: Option<string>,
                         finishedAt: Time, now: Time, allowExpired: bool)
      returns (changed: bool)
      modifies this`attempts
      ensures
        var key := AttemptKey(id, n);
        && (changed <==>
              && key in old(attempts) && old(attempts)[key].status.AttemptRunning?
              && old(attempts)[key].leaseToken == token
              && (allowExpired || now < old(attempts)[key].leaseExpiresAt))
        && attempts == if changed
                       then old(attempts)[key := Ended(old(attempts)[key], status, code, finishedAt)]
                       else old(attempts)
    {
      var key := AttemptKey(id, n);
      changed := false;
      if key in attempts {
        var a := attempts[key];
        if a.status.AttemptRunning? && a.leaseToken == token && (allowExpired || now < a.leaseExpiresAt) {
          attempts := attempts[key := a.(status := status, errorCode := code, finishedAt := Some(finishedAt))];
          changed := true;
        }
      }
    }

    /** Compare-and-set of a job row on its version. */
    method UpdateJob(row: JobRow, record: JobRecord) returns (changed: bool)
      modifies this`jobs
      ensures changed <==> record.jobId in old(jobs) && old(jobs)[record.jobId].version == row.version
      ensures jobs == if changed
                      then old(jobs)[record.jobId := JobRow(record, row.version + 1)]
                      else old(jobs)
    {
      changed := false;
      if record.jobId in jobs && jobs[record.jobId].version == row.version {
        jobs := jobs[record.jobId := JobRow(record, row.version + 1)];
        changed := true;
      }
    }

    /** Ends the attempt and moves the job in one transaction, or leaves both as they were:
        when the lease is no longer active, and when the job row changed meanwhile. */
    method MoveAttemptAndJob(row: JobRow, record: JobRecord, n: int, token: string, status: AttemptStatus,
                             code: Option<string>, now: Time, allowExpired: bool)
      returns (r: Result<JobRecord, Error>)
      modifies this`jobs, this`attempts
      ensures
        var id := record.jobId;
        var key := AttemptKey(id, n);
        if && key in old(attempts) && old(attempts)[key].status.AttemptRunning?
           && old(attempts)[key].leaseToken == token
           && (allowExpired || now < old(attempts)[key].leaseExpiresAt)
        then
          if id in old(jobs) && old(jobs)[id].version == row.version then
            && r == Ok(record)
            && jobs == old(jobs)[id := JobRow(record, row.version + 1)]
            && attempts == old(attempts)[key := Ended(old(attempts)[key], status, code, record.updatedAt)]
          else
            r == Err(ConcurrentTransition) && jobs == old(jobs) && attempts == old(attempts)
        else
          r == Err(LeaseLost) && jobs == old(jobs) && attempts == old(attempts)
    {
      var jobs0, attempts0 := jobs, attempts;
      var finished := FinishAttempt(record.jobId, n, token, status, code, record.updatedAt, now, allowExpired);
      if !finished {
        r := Err(LeaseLost);
      } else {
        var updated := UpdateJob(row, record);
        r := Ok(record);
        if !updated {
          jobs, attempts := jobs0, attempts0;
          r := Err(ConcurrentTransition);
        }
      }
    }

    /** Cancels the running attempt of a job whose cancellation was requested. */
    method CancelActiveAttempt(row: JobRow, n: int, token: string, at: Time, now: Time, allowExpired: bool)
      returns (r: Result<JobRecord, Error>)
      requires Valid()
      requires row.record.jobId in jobs && jobs[row.record.jobId] == row
      requires row.record.status.CancelRequested? && n == row.record.attemptCount
      requires
        var key := AttemptKey(row.record.jobId, n);
        key in attempts && attempts[key].status.AttemptRunning? && attempts[key].leaseToken == token
      requires clock <= at
      modifies this`jobs, this`attempts
      ensures Complete(old(Rows()), row.record.jobId)
      ensures Enabled(CellOf(old(Rows()), row.record.jobId), Stop(at))
      ensures
        var id := row.record.jobId;
        if allowExpired || now < old(attempts)[AttemptKey(id, n)].leaseExpiresAt then
          && Rows() == MoveJob(old(Rows()), id, Stop(at))
          && r == Ok(MoveCell(CellOf(old(Rows()), id), Stop(at)).row.record)
        else
          Rows() == old(Rows()) && r == Err(LeaseLost)
    {
      hide Inv, CellInv, TransitionTo, MoveCell, MoveJob;
      var id := row.record.jobId;
      StoredCell(View(), id);
      MoveIsTransition(CellOf(Rows(), id), Stop(at), clock);
      EndingMove(Rows(), id, Stop(at));
      MovedIdentity(Rows(), id, Stop(at));
      var transitionAt := Max(at, row.record.updatedAt);
      var canceled := TransitionTo(row.record, Canceled, transitionAt, None, None);
      if canceled.Err? {
        r := Err(IllegalTransition);
      } else {
        r := MoveAttemptAndJob(row, canceled.value, n, token, AttemptCanceled, None, now, allowExpired);
      }
    }

    /** A fenced transaction that finds a cancellation request cancels instead. */
    method StopLocked(id: string, n: int, token: string, at: Time, now: Time) returns (r: Result<JobRecord, Error>)
      requires Valid() && LiveLease(Rows(), id, n, token, at) && jobs[id].record.status.CancelRequested?
      requires clock <= at <= now
      modifies this
      ensures (View(), r) == StopInstead(old(View()), id, n, token, at, now) && clock == now
    {
      hide Inv, CellInv, MoveCell, MoveJob, Complete, Enabled;
      FencedStop(View(), id, n, token, at);
      r := CancelActiveAttempt(jobs[id], n, token, at, now, false);
      clock := now;
    }

    // ------------------------------------------------------------ submission and cancellation

    method PutDataset(dataset: string, d1: nat)
      requires Valid()
      modifies this
      ensures Valid() && View() == Next(old(View()), DoPutDataset(dataset, d1))
    {
      hide Inv;
      NextInv(View(), DoPutDataset(dataset, d1));
      clock := clock + d1;
      datasets := datasets + {dataset};
    }

    method BeginJob(record: JobRecord, payload: Payload, d1: nat)
      returns (r: Result<(JobRecord, bool), Error>)
      requires Valid()
      modifies this
      ensures Valid() && (View(), r) == Store.BeginJob(old(View()), record, payload, d1)
    {
      hide Inv, UniqueInv, CellsInv, AttemptsInv, PayloadsInv, EvidenceInv, KeyTaken, ResourceTaken;
      NextInv(View(), DoBegin(record, payload, d1));
      InvTables(View());
      clock := clock + d1;
      if !ValidRecord(record) || !record.status.Queued? || record.attemptCount != 0 || payload.kind != record.kind {
        r := Err(BadValue);
      } else if MAX_PAYLOAD_BYTES < |payload.body| {
        r := Err(PayloadTooLarge);
      } else if record.jobId !in jobs
                && !KeyTaken(Rows(), record.kind, record.idempotencyKey)
                && !ResourceTaken(Rows(), record.kind, record.resourceId)
      {
        jobs := jobs[record.jobId := JobRow(record, 0)];
        payloads := payloads[record.jobId := PayloadRow(payload, record.createdAt)];
        r := Ok((record, true));
      } else if KeyTaken(Rows(), record.kind, record.idempotencyKey) {
        var existing := jobs[JobByKey(Rows(), record.kind, record.idempotencyKey)].record;
        if existing.requestDigest != record.requestDigest {
          r := Err(IdempotencyConflict);
        } else {
          r := Ok((existing, false));
        }
      } else if ResourceTaken(Rows(), record.kind, record.resourceId) {
        r := Err(ResourceAlreadySubmitted);
      } else {
        r := Err(ImmutableConflict);
      }
    }

    method CancelJob(id: string, d1: nat) returns (r: Result<JobRecord, Error>)
      requires Valid()
      modifies this
      ensures Valid() && (View(), r) == Store.CancelJob(old(View()), id, d1)
    {
      hide Inv, CellInv, MoveJob, RequestCancellation;
      NextInv(View(), DoCancel(id, d1));
      if id in jobs {
        StoredCell(View(), id);
        RequestIsMove(View(), id, clock + d1);
        RequestIdentity(jobs[id].record, Max(clock + d1, jobs[id].record.updatedAt));
      }
      clock := clock + d1;
      if id !in jobs {
        r := Err(NotFound);
      } else {
        var row := jobs[id];
        match row.record.status {
          case Canceled => r := Ok(row.record);
          case CancelRequested => r := Ok(row.record);
          case Succeeded => r := Err(IllegalTransition);
          case Failed => r := Err(IllegalTransition);
          case _ =>
            r := RequestCancellation(row.record, Max(clock, row.record.updatedAt));
            if r.Ok? {
              var updated := UpdateJob(row, r.value);
              if !updated {
                r := Err(ConcurrentTransition);
              }
            }
        }
      }
    }

    // ------------------------------------------------------------ claiming

    /** The stored payload of a job, checked against it. */
    function LoadPayload(id: string): Option<Payload>
      reads this
      requires id in jobs
    {
      if id in payloads && payloads[id].payload.kind == jobs[id].record.kind
         && payloads[id].createdAt == jobs[id].record.createdAt
         && |payloads[id].payload.body| <= MAX_PAYLOAD_BYTES
      then Some(payloads[id].payload)
      else None
    }

    method ClaimNextJob(worker: string, token: string, seconds: int, d1: nat, d2: nat)
      returns (r: Result<Option<ClaimedJob>, Error>)
      requires Valid()
      modifies this
      ensures Valid() && (View(), r) == Store.ClaimNextJob(old(View()), worker, token, seconds, d1, d2)
    {
      hide Inv, CellInv, TransitionTo, MoveCell, MoveJob, NextClaim, AttemptInsertable, FreshToken;
      NextInv(View(), DoClaim(worker, token, seconds, d1, d2));
      var at, now := clock + d1, clock + d1 + d2;
      r := Ok(None);
      if !(ValidWorkerId(worker) && ValidToken(token) && 5 <= seconds <= 3600) {
        r := Err(BadValue);
      } else {
        var selected := NextClaim(Rows(), at);
        if selected.Some? {
          var id := selected.value;
          NextClaimIsFirst(View(), at);
          PayloadStored(View(), id);
          ClaimRows(View(), id, worker, token, now, seconds);
          InsertableIffFresh(View(), id, token);
          var row := jobs[id];
          var payload := LoadPayload(id);
          var running := TransitionTo(row.record, Running, Max(now, row.record.updatedAt), None, None);
          if payload.None? {
            r := Err(CorruptRecord);
          } else if running.Err? {
            r := Err(IllegalTransition);
          } else {
            var n := running.value.attemptCount;
            var insertable := AttemptInsertable(Rows(), id, n, token);
            var jobs0 := jobs;
            var updated := UpdateJob(row, running.value);
            if updated && insertable {
              attempts := attempts[AttemptKey(id, n) := Attempt(
                AttemptRunning, worker, token, None, now, now, now + Seconds(seconds), None)];
              var view := AttemptRecord(id, n, AttemptRunning, now, now, now + Seconds(seconds));
              r := Ok(Some(ClaimedJob(running.value, payload.value, view, token)));
            } else {
              jobs := jobs0;
              r := Err(ConcurrentTransition);
            }
          }
        }
      }
      clock := now;
    }

    // ------------------------------------------------------------ fenced operations

    method HeartbeatJob(id: string, n: int, token: string, seconds: int, d1: nat, d2: nat)
      returns (r: Result<JobRecord, Error>)
      requires Valid()
      modifies this
      ensures Valid() && (View(), r) == Store.HeartbeatJob(old(View()), id, n, token, seconds, d1, d2)
    {
      hide Inv, CellInv, MoveCell, MoveJob;
      NextInv(View(), DoHeartbeat(id, n, token, seconds, d1, d2));
      var at, now := clock + d1, clock + d1 + d2;
      if !Fence(n, token) || !(5 <= seconds <= 3600) {
        r := Err(BadValue);
      } else {
        var locked := LockActiveLease(id, n, token, at);
        r := Err(LeaseLost);
        if locked.Some? {
          var key := AttemptKey(id, n);
          if now < attempts[key].leaseExpiresAt {
            LiveLeaseHeld(View(), id, n, token, now);
            BeatRows(Rows(), id, at, seconds);
            attempts := attempts[key := attempts[key].(heartbeatAt := at, leaseExpiresAt := at + Seconds(seconds))];
            r := Ok(locked.value.record);
          }
        }
      }
      clock := now;
    }

    method RetryJob(id: string, n: int, token: string, delay: int, code: string, d1: nat, d2: nat)
      returns (r: Result<JobRecord, Error>)
      requires Valid()
      modifies this
      ensures Valid() && (View(), r) == Store.RetryJob(old(View()), id, n, token, delay, code, d1, d2)
    {
      hide Inv, CellInv, TransitionTo, MoveCell, MoveJob, SafeCode, StopInstead;
      NextInv(View(), DoRetry(id, n, token, delay, code, d1, d2));
      var at, now := clock + d1, clock + d1 + d2;
      if !Fence(n, token) || !(1 <= delay <= 3600) || !SafeCode(code) {
        r := Err(BadValue);
      } else {
        var locked := LockActiveLease(id, n, token, at);
        if locked.None? {
          r := Err(LeaseLost);
        } else if locked.value.record.status.CancelRequested? {
          r := StopLocked(id, n, token, at, now);
        } else {
          FencedRetry(View(), id, n, token, at, delay, code);
          var row := locked.value;
          var stamp := Max(at, row.record.updatedAt);
          var queued := TransitionTo(row.record, Queued, stamp, None, Some(stamp + Seconds(delay)));
          if queued.Err? {
            r := Err(IllegalTransition);
          } else {
            EndingMove(Rows(), id, Retry(at, delay, code));
            MovedIdentity(Rows(), id, Retry(at, delay, code));
            r := MoveAttemptAndJob(row, queued.value, n, token, RetryScheduled, Some(code), now, false);
          }
        }
      }
      clock := now;
    }

    method FailJob(id: string, n: int, token: string, code: string, d1: nat, d2: nat)
      returns (r: Result<JobRecord, Error>)
      requires Valid()
      modifies this
      ensures Valid() && (View(), r) == Store.FailJob(old(View()), id, n, token, code, d1, d2)
    {
      hide Inv, CellInv, TransitionTo, MoveCell, MoveJob, SafeCode, StopInstead;
      NextInv(View(), DoFail(id, n, token, code, d1, d2));
      var at, now := clock + d1, clock + d1 + d2;
      if !Fence(n, token) || !SafeCode(code) {
        r := Err(BadValue);
      } else {
        var locked := LockActiveLease(id, n, token, at);
        if locked.None? {
          r := Err(LeaseLost);
        } else {
          var row := locked.value;
          if row.record.status.CancelRequested? {
            r := StopLocked(id, n, token, at, now);
          } else {
            FencedMove(View(), id, n, token, at, Fail(at, code));
            var failed := TransitionTo(row.record, Failed, Max(at, row.record.updatedAt), Some(code), None);
            if failed.Err? {
              r := Err(IllegalTransition);
            } else {
              EndingMove(Rows(), id, Fail(at, code));
              r := MoveAttemptAndJob(row, failed.value, n, token, AttemptFailed, Some(code), now, false);
            }
          }
        }
      }
      clock := now;
    }

    method AcknowledgeCancellation(id: string, n: int, token: string, d1: nat, d2: nat)
      returns (r: Result<JobRecord, Error>)
      requires Valid()
      modifies this
      ensures Valid() && (View(), r) == Store.AcknowledgeCancellation(old(View()), id, n, token, d1, d2)
    {
      hide Inv, CellInv, MoveCell, MoveJob;
      NextInv(View(), DoAcknowledge(id, n, token, d1, d2));
      var at, now := clock + d1, clock + d1 + d2;
      if !Fence(n, token) {
        r := Err(BadValue);
      } else if id !in jobs {
        r := Err(LeaseLost);
      } else if jobs[id].record.status.Canceled? {
        r := if TerminalAttempt(Rows(), id, n, token, AttemptCanceled) then Ok(jobs[id].record) else Err(LeaseLost);
      } else {
        var locked := LockActiveLease(id, n, token, at);
        if locked.None? {
          r := Err(LeaseLost);
        } else if !locked.value.record.status.CancelRequested? {
          r := Err(IllegalTransition);
        } else {
          r := StopLocked(id, n, token, at, now);
        }
      }
      clock := now;
    }

    // ------------------------------------------------------------ publication

    /** Ends the attempt and the job as succeeded, if the lease is still active at `now`. */
    method PublishAttempt(row: JobRow, n: int, token: string, at: Time, now: Time)
      returns (r: Result<JobRecord, Error>)
      requires
        var id := row.record.jobId;
        && id in jobs && jobs[id] == row && n == row.record.attemptCount
        && AttemptKey(id, n) in attempts
        && attempts[AttemptKey(id, n)].status.AttemptRunning? && attempts[AttemptKey(id, n)].leaseToken == token
      requires
        TransitionTo(row.record, Succeeded, Max(at, row.record.updatedAt), None, None).Ok?
      modifies this`jobs, this`attempts
      ensures
        var id := row.record.jobId;
        var next := TransitionTo(row.record, Succeeded, Max(at, row.record.updatedAt), None, None).value;
        if now < old(attempts)[AttemptKey(id, n)].leaseExpiresAt then
          && r == Ok(next)
          && jobs == EndedRows(old(Rows()), id, next, AttemptSucceeded, None).jobs
          && attempts == EndedRows(old(Rows()), id, next, AttemptSucceeded, None).attempts
        else
          r == Err(LeaseLost) && jobs == old(jobs) && attempts == old(attempts)
    {
      var succeeded := TransitionTo(row.record, Succeeded, Max(at, row.record.updatedAt), None, None);
      r := MoveAttemptAndJob(row, succeeded.value, n, token, AttemptSucceeded, None, now, false);
    }

    method CompleteRun(id: string, record: RunRecord, n: int, token: string, d1: nat, d2: nat)
      returns (r: Result<JobRecord, Error>)
      requires Valid()
      modifies this
      ensures Valid()
      ensures (View(), r) == CompleteJob(old(View()), id, RunEvidence(record), n, token, d1, d2)
    {
      hide Inv, CellInv, TransitionTo, MoveCell, MoveJob, LiveLease, Enabled, Complete, Fence, StopInstead;
      NextInv(View(), DoComplete(id, RunEvidence(record), n, token, d1, d2));
      var at, now := clock + d1, clock + d1 + d2;
      if !Fence(n, token) {
        r := Err(BadValue);
      } else if MAX_DOCUMENT_BYTES < |record.document| || MAX_OPERATIONAL_VALUE < record.inputUnits
                || MAX_OPERATIONAL_VALUE < record.outputUnits
      {
        r := Err(PayloadTooLarge);
      } else if id !in jobs || (!Active(jobs[id].record.status) && !jobs[id].record.status.Succeeded?) {
        r := Err(LeaseLost);
      } else if jobs[id].record.kind != RunJob || jobs[id].record.resourceId != record.runId {
        r := Err(IllegalTransition);
      } else {
        EvidenceOfJob(View(), id);
        var row := jobs[id];
        var stored := if record.runId in runs then Some(runs[record.runId].document) else None;
        if row.record.status.Succeeded? {
          if !TerminalAttempt(Rows(), id, n, token, AttemptSucceeded) {
            r := Err(LeaseLost);
          } else if stored.None? {
            r := Err(CorruptRecord);
          } else if stored.value != record.document {
            r := Err(ImmutableConflict);
          } else {
            r := Ok(row.record);
          }
        } else {
          var locked := LockActiveLease(id, n, token, at);
          if locked.None? {
            r := Err(LeaseLost);
          } else {
            LeaseHolder(Rows(), id, n, token, at);
            LeaseLater(Rows(), id, n, token, at, now);
            if row.record.status.CancelRequested? {
              r := StopLocked(id, n, token, at, now);
            } else if stored.None? && !(record.dataset in datasets) {
              r := Err(ImmutableConflict);
            } else if stored.Some? && stored != Some(record.document) {
              r := Err(ImmutableConflict);
            } else {
              FencedMove(View(), id, n, token, at, Publish(at));
              EndingMove(Rows(), id, Publish(at));
              var before := runs;
              if stored.None? {
                runs := runs[record.runId := record];
              }
              r := PublishAttempt(row, n, token, at, now);
              if r.Err? {
                runs := before;
              }
            }
          }
        }
      }
      clock := now;
    }

    method CompleteReleaseDecision(id: string, record: DecisionRecord, n: int, token: string, d1: nat, d2: nat)
      returns (r: Result<JobRecord, Error>)
      requires Valid()
      modifies this
      ensures Valid()
      ensures (View(), r) == CompleteJob(old(View()), id, DecisionEvidence(record), n, token, d1, d2)
    {
      hide Inv, CellInv, TransitionTo, MoveCell, MoveJob, LiveLease, Enabled, Complete, Fence, StopInstead;
      NextInv(View(), DoComplete(id, DecisionEvidence(record), n, token, d1, d2));
      var at, now := clock + d1, clock + d1 + d2;
      if !Fence(n, token) {
        r := Err(BadValue);
      } else if MAX_DOCUMENT_BYTES < |record.document| {
        r := Err(PayloadTooLarge);
      } else if id !in jobs || (!Active(jobs[id].record.status) && !jobs[id].record.status.Succeeded?) {
        r := Err(LeaseLost);
      } else if jobs[id].record.kind != ComparisonJob || jobs[id].record.resourceId != record.decisionId {
        r := Err(IllegalTransition);
      } else {
        EvidenceOfJob(View(), id);
        var row := jobs[id];
        var stored := if record.decisionId in decisions then Some(decisions[record.decisionId].document) else None;
        if row.record.status.Succeeded? {
          if !TerminalAttempt(Rows(), id, n, token, AttemptSucceeded) {
            r := Err(LeaseLost);
          } else if stored.None? {
            r := Err(CorruptRecord);
          } else if stored.value != record.document {
            r := Err(ImmutableConflict);
          } else {
            r := Ok(row.record);
          }
        } else {
          var locked := LockActiveLease(id, n, token, at);
          if locked.None? {
            r := Err(LeaseLost);
          } else {
            LeaseHolder(Rows(), id, n, token, at);
            LeaseLater(Rows(), id, n, token, at, now);
            if row.record.status.CancelRequested? {
              r := StopLocked(id, n, token, at, now);
            } else if stored.None? && !(record.baselineRunId in runs && record.candidateRunId in runs) {
              r := Err(ConcurrentTransition);
            } else if stored.Some? && stored != Some(record.document) {
              r := Err(ImmutableConflict);
            } else {
              FencedMove(View(), id, n, token, at, Publish(at));
              EndingMove(Rows(), id, Publish(at));
              var before := decisions;
              if stored.None? {
                decisions := decisions[record.decisionId := record];
              }
              r := PublishAttempt(row, n, token, at, now);
              if r.Err? {
                decisions := before;
              }
            }
          }
        }
      }
      clock := now;
    }

    // ------------------------------------------------------------ recovery

    /** Recovers one selected job: its lease was over at selection time. */
    method RecoverJob(id: string, base: int, cap: int, d: nat) returns (r: Result<JobRecord, Error>)
      requires Valid() && Lapsed(Rows(), id, clock) && 1 <= base <= cap <= 3600
      modifies this`jobs, this`attempts, this`clock
      ensures Valid()
      ensures
        var one := ExpireOne(old(View()), id, base, cap, d);
        View() == one.0 && r == Ok(one.1)
    {
      hide Inv, CellInv, MoveCell, ExpiredRecord, Enabled, Complete, Lapsed;
      ExpireOneInv(View(), id, base, cap, d);
      LapsedHolder(Rows(), id, clock);
      var at := clock + d;
      RecoverMove(View(), id, base, cap, at);
      var row := jobs[id];
      var n := row.record.attemptCount;
      var token := attempts[AttemptKey(id, n)].leaseToken;
      var stamp := Max(at, row.record.updatedAt);
      if row.record.status.CancelRequested? {
        StopAtStamp(Rows(), id, at);
        r := CancelActiveAttempt(row, n, token, stamp, at, true);
      } else {
        var next := ExpiredRecord(row.record, base, cap, stamp);
        r := MoveAttemptAndJob(row, next.value, n, token, LeaseExpired, Some(EXPIRED_CODE), at, true);
      }
      clock := at;
    }

    method ReapExpiredJobs(limit: int, base: int, cap: int, d1: nat, ds: seq<nat>)
      returns (r: Result<seq<JobRecord>, Error>)
      requires Valid()
      modifies this
      ensures Valid() && (View(), r) == Store.ReapExpiredJobs(old(View()), limit, base, cap, d1, ds)
    {
      hide Inv, ExpireOne, Lapsed, LapsedBatch;
      NextInv(View(), DoReap(limit, base, cap, d1, ds));
      WaitInv(View(), clock + d1);
      clock := clock + d1;
      if !ReapBounds(limit, base, cap) {
        r := Err(BadValue);
      } else {
        LapsedBatchMembers(Rows(), clock, limit);
        var candidates := LapsedBatch(Rows(), clock, limit);
        var recovered, delays, i := [], ds, 0;
        ghost var goal := ExpireAll(View(), candidates, base, cap, ds);
        while i < |candidates|
          invariant 0 <= i <= |candidates|
          invariant Valid() && AllLapsed(Rows(), candidates[i..], clock) && Distinct(candidates[i..])
          invariant
            var rest := ExpireAll(View(), candidates[i..], base, cap, delays);
            rest.0 == goal.0 && recovered + rest.1 == goal.1
        {
          ghost var ids := candidates[i..];
          assert ids[0] == candidates[i] && ids[1..] == candidates[i + 1..];
          ExpiredRest(View(), ids, base, cap, Delay(delays));
          ExpireOneInv(View(), ids[0], base, cap, Delay(delays));
          var one := RecoverJob(candidates[i], base, cap, Delay(delays));
          recovered := recovered + [one.value];
          delays := Rest(delays);
          i := i + 1;
        }
        assert candidates[i..] == [] && recovered + [] == recovered;
        r := Ok(recovered);
      }
    }

    // ------------------------------------------------------------ any operation

    method Execute(e: Event)
      requires Valid()
      modifies this
      ensures Valid() && View() == Next(old(View()), e)
    {
      hide Inv;
      match e {
        case DoBegin(record, payload, d1) => var _ := BeginJob(record, payload, d1);
        case DoClaim(worker, token, seconds, d1, d2) => var _ := ClaimNextJob(worker, token, seconds, d1, d2);
        case DoHeartbeat(id, n, token, seconds, d1, d2) => var _ := HeartbeatJob(id, n, token, seconds, d1, d2);
        case DoRetry(id, n, token, delay, code, d1, d2) => var _ := RetryJob(id, n, token, delay, code, d1, d2);
        case DoFail(id, n, token, code, d1, d2) => var _ := FailJob(id, n, token, code, d1, d2);
        case DoReap(limit, base, cap, d1, ds) => var _ := ReapExpiredJobs(limit, base, cap, d1, ds);
        case DoCancel(id, d1) => var _ := CancelJob(id, d1);
        case DoAcknowledge(id, n, token, d1, d2) => var _ := AcknowledgeCancellation(id, n, token, d1, d2);
        case DoComplete(id, evidence, n, token, d1, d2) =>
          match evidence {
            case RunEvidence(run) => var _ := CompleteRun(id, run, n, token, d1, d2);
            case DecisionEvidence(decision) => var _ := CompleteReleaseDecision(id, decision, n, token, d1, d2);
          }
        case DoPutDataset(dataset, d1) => PutDataset(dataset, d1);
      }
    }

    /** Any operations by any other callers, in any order. */
    method ExecuteAll(events: seq<Event>)
      requires Valid()
      modifies this
      ensures Valid() && View() == Run(old(View()), events)
    {
      hide Inv, Next;
      ghost var start := View();
      var i := 0;
      while i < |events|
        invariant 0 <= i <= |events|
        invariant Valid() && Run(View(), events[i..]) == Run(start, events)
      {
        assert events[i..][0] == events[i] && events[i..][1..] == events[i + 1..];
        Execute(events[i]);
        i := i + 1;
      }
    }
  }
}
