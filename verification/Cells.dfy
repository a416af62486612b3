/** The life of one job: its row and the history of its attempts, moved by a small automaton.
    The repository's transactions are proved to move every job by this automaton only. */
module Cells {
  import opened Common
  import opened Lifecycle

  /** A job row with its attempts 1, 2, ... in order. */
  datatype Cell = Cell(row: JobRow, history: seq<Attempt>)

  datatype Move =
    | Claim(worker: string, token: string, at: Time, seconds: int)
    | Beat(at: Time, seconds: int)
    | Retry(at: Time, delay: int, code: string)
    | Fail(at: Time, code: string)
    | Expire(at: Time, delay: int)
    | Exhaust(at: Time)
    | Withdraw(at: Time)
    | AskCancel(at: Time)
    | Stop(at: Time)
    | Publish(at: Time)

  const EXPIRED_CODE := "lease_expired"

  function Last(history: seq<Attempt>): Attempt
    requires history != []
  {
    history[|history| - 1]
  }

  function Ended(a: Attempt, status: AttemptStatus, code: Option<string>, at: Time): Attempt {
    a.(status := status, errorCode := code, finishedAt := Some(at))
  }

  function ReplaceLast(history: seq<Attempt>, a: Attempt): seq<Attempt>
    requires history != []
  {
    history[|history| - 1 := a]
  }

  /** The job is held by its last attempt. */
  predicate Held(c: Cell) {
    Active(c.row.record.status) && c.history != [] && Last(c.history).status.AttemptRunning?
  }

  predicate FreshToken(history: seq<Attempt>, token: string) {
    forall i :: 0 <= i < |history| ==> history[i].leaseToken != token
  }

  /** When a move may happen. */
  predicate Enabled(c: Cell, m: Move) {
    var job := c.row.record;
    match m
    case Claim(worker, token, at, seconds) =>
      && job.status.Queued? && job.availableAt <= at && FreshToken(c.history, token)
      && ValidWorkerId(worker) && ValidToken(token) && 5 <= seconds <= 3600
    case Beat(at, seconds) => Held(c) && at < Last(c.history).leaseExpiresAt && 5 <= seconds <= 3600
    case Retry(at, delay, code) =>
      && Held(c) && job.status.Running? && at < Last(c.history).leaseExpiresAt
      && job.attemptCount < job.maxAttempts && 1 <= delay <= 3600 && SafeCode(code)
    case Fail(at, code) =>
      Held(c) && job.status.Running? && at < Last(c.history).leaseExpiresAt && SafeCode(code)
    case Expire(at, delay) =>
      && Held(c) && job.status.Running? && Last(c.history).leaseExpiresAt <= at
      && job.attemptCount < job.maxAttempts && 1 <= delay <= 3600
    case Exhaust(at) =>
      && Held(c) && job.status.Running? && Last(c.history).leaseExpiresAt <= at
      && job.maxAttempts <= job.attemptCount
    case Withdraw(at) => job.status.Queued?
    case AskCancel(at) => Held(c) && job.status.Running?
    case Stop(at) => Held(c) && job.status.CancelRequested?
    case Publish(at) => Held(c) && job.status.Running? && at < Last(c.history).leaseExpiresAt
  }

  /** The time a transition is stamped with: the database clock, never before the last update. */
  function Stamp(c: Cell, at: Time): Time {
    Max(at, c.row.record.updatedAt)
  }

  function MovedRow(c: Cell, status: JobStatus, at: Time, code: Option<string>): JobRow {
    JobRow(c.row.record.(status := status, errorCode := code, updatedAt := Stamp(c, at)), c.row.version + 1)
  }

  function ClaimedAttempt(worker: string, token: string, at: Time, seconds: int): Attempt {
    Attempt(AttemptRunning, worker, token, None, at, at, at + Seconds(seconds), None)
  }

  function MoveCell(c: Cell, m: Move): Cell
    requires Enabled(c, m)
  {
    var job := c.row.record;
    match m
    case Claim(worker, token, at, seconds) =>
      var row := MovedRow(c, Running, at, None);
      Cell(row.(record := row.record.(attemptCount := job.attemptCount + 1)),
           c.history + [ClaimedAttempt(worker, token, at, seconds)])
    case Beat(at, seconds) =>
      var beaten := Last(c.history).(heartbeatAt := at, leaseExpiresAt := at + Seconds(seconds));
      c.(history := ReplaceLast(c.history, beaten))
    case Retry(at, delay, code) =>
      var row := MovedRow(c, Queued, at, None);
      Cell(row.(record := row.record.(availableAt := Stamp(c, at) + Seconds(delay))),
           ReplaceLast(c.history, Ended(Last(c.history), RetryScheduled, Some(code), Stamp(c, at))))
    case Fail(at, code) =>
      Cell(MovedRow(c, Failed, at, Some(code)),
           ReplaceLast(c.history, Ended(Last(c.history), AttemptFailed, Some(code), Stamp(c, at))))
    case Expire(at, delay) =>
      var row := MovedRow(c, Queued, at, None);
      Cell(row.(record := row.record.(availableAt := Stamp(c, at) + Seconds(delay))),
           ReplaceLast(c.history, Ended(Last(c.history), LeaseExpired, Some(EXPIRED_CODE), Stamp(c, at))))
    case Exhaust(at) =>
      Cell(MovedRow(c, Failed, at, Some(EXPIRED_CODE)),
           ReplaceLast(c.history, Ended(Last(c.history), LeaseExpired, Some(EXPIRED_CODE), Stamp(c, at))))
    case Withdraw(at) => c.(row := MovedRow(c, Canceled, at, None))
    case AskCancel(at) => c.(row := MovedRow(c, CancelRequested, at, None))
    case Stop(at) =>
      Cell(MovedRow(c, Canceled, at, None),
           ReplaceLast(c.history, Ended(Last(c.history), AttemptCanceled, None, Stamp(c, at))))
    case Publish(at) =>
      Cell(MovedRow(c, Succeeded, at, None),
           ReplaceLast(c.history, Ended(Last(c.history), AttemptSucceeded, None, Stamp(c, at))))
  }

  /** Version of a row made by begin_job, as a function of its state. */
  function VersionOf(job: JobRecord): int {
    match job.status
    case Running => 2 * job.attemptCount - 1
    case Canceled => 2 * job.attemptCount + 1
    case _ => 2 * job.attemptCount
  }

  predicate Superseded(a: Attempt) {
    a.status.RetryScheduled? || a.status.LeaseExpired?
  }

  /** How the last attempt fits the job's status. */
  predicate LastFits(c: Cell) {
    var job := c.row.record;
    match job.status
    case Queued =>
      c.history != [] ==>
        Superseded(Last(c.history)) && Last(c.history).finishedAt.Some?
        && Last(c.history).finishedAt.value + SECOND <= job.availableAt
    case Running => c.history != [] && Last(c.history).status.AttemptRunning?
    case CancelRequested => c.history != [] && Last(c.history).status.AttemptRunning?
    case Succeeded =>
      && c.history != [] && Last(c.history).status.AttemptSucceeded?
      && Last(c.history).finishedAt == Some(job.updatedAt)
    case Failed =>
      && c.history != [] && (Last(c.history).status.AttemptFailed? || Last(c.history).status.LeaseExpired?)
      && Last(c.history).errorCode == job.errorCode && Last(c.history).finishedAt == Some(job.updatedAt)
    case Canceled =>
      c.history != [] ==>
        || Superseded(Last(c.history))
        || (Last(c.history).status.AttemptCanceled? && Last(c.history).finishedAt == Some(job.updatedAt))
  }

  predicate AttemptInv(a: Attempt, now: Time) {
    && ValidAttempt(a)
    && a.heartbeatAt <= now
    && (a.status.LeaseExpired? ==> a.finishedAt.Some? && a.leaseExpiresAt <= a.finishedAt.value)
  }

  /** An earlier attempt ended, to be retried, at least a second before a later one starts,
      and their tokens differ. */
  predicate Precedes(a: Attempt, b: Attempt) {
    && Superseded(a)
    && a.finishedAt.Some? && a.finishedAt.value + SECOND <= b.startedAt
    && a.leaseToken != b.leaseToken
  }

  predicate HistoryInv(h: seq<Attempt>, now: Time) {
    && (forall i :: 0 <= i < |h| ==> AttemptInv(h[i], now))
    && (forall i, j :: 0 <= i < j < |h| ==> Precedes(h[i], h[j]))
  }

  /** What holds of every job in every reachable state. */
  predicate CellInv(c: Cell, now: Time) {
    && ValidRecord(c.row.record)
    && c.row.version == VersionOf(c.row.record)
    && |c.history| == c.row.record.attemptCount
    && HistoryInv(c.history, now)
    && LastFits(c)
  }

  lemma HistoryGrows(h: seq<Attempt>, a: Attempt, now: Time, later: Time)
    requires HistoryInv(h, now) && now <= later
    requires AttemptInv(a, later) && FreshToken(h, a.leaseToken)
    requires h != [] ==> Precedes(Last(h), a)
    ensures HistoryInv(h + [a], later)
  {
    forall i | 0 <= i < |h|
      ensures Precedes(h[i], a)
    {
      if i < |h| - 1 {
        assert Precedes(h[i], Last(h));
        assert AttemptInv(Last(h), now);
      }
    }
  }

  lemma HistoryLastChanges(h: seq<Attempt>, a: Attempt, now: Time, later: Time)
    requires HistoryInv(h, now) && now <= later && h != []
    requires AttemptInv(a, later) && a.leaseToken == Last(h).leaseToken && a.startedAt == Last(h).startedAt
    ensures HistoryInv(ReplaceLast(h, a), later)
  {
    var k := ReplaceLast(h, a);
    forall i, j | 0 <= i < j < |k|
      ensures Precedes(k[i], k[j])
    {
      assert Precedes(h[i], h[j]);
    }
  }

  /** Every enabled move keeps the invariant. */
  lemma MoveKeepsInv(c: Cell, m: Move, now: Time, later: Time)
    requires CellInv(c, now)
    requires Enabled(c, m)
    requires now <= m.at <= later
    ensures CellInv(MoveCell(c, m), later)
  {
    var d := MoveCell(c, m);
    var h := c.history;
    assert h != [] ==> AttemptInv(Last(h), now);
    match m
    case Claim(worker, token, at, seconds) =>
      HistoryGrows(h, ClaimedAttempt(worker, token, at, seconds), now, later);
    case Withdraw(_) =>
      WaitKeepsInv(c, now, later);
    case AskCancel(_) =>
      WaitKeepsInv(c, now, later);
    case _ =>
      HistoryLastChanges(h, Last(d.history), now, later);
  }

  /** Fields no move touches. */
  predicate SameIdentity(a: JobRecord, b: JobRecord) {
    && a.jobId == b.jobId && a.kind == b.kind && a.idempotencyKey == b.idempotencyKey
    && a.requestDigest == b.requestDigest && a.resourceId == b.resourceId
    && a.maxAttempts == b.maxAttempts && a.createdAt == b.createdAt
  }

  /** A move adds one attempt or changes the last one, and touches no identity field. */
  lemma MoveShape(c: Cell, m: Move, now: Time)
    requires CellInv(c, now)
    requires Enabled(c, m)
    ensures
      var d := MoveCell(c, m);
      && SameIdentity(c.row.record, d.row.record)
      && |d.history| == d.row.record.attemptCount
      && |c.history| <= |d.history| <= |c.history| + 1
      && (forall i :: 0 <= i < |d.history| - 1 ==> d.history[i] == c.history[i])
      && (d.row.record.status.Succeeded? <==> m.Publish?)
      && !Terminal(c.row.record.status)
  {
  }

  /** Time passing alone keeps it too. */
  lemma WaitKeepsInv(c: Cell, now: Time, later: Time)
    requires CellInv(c, now)
    requires now <= later
    ensures CellInv(c, later)
  {
  }

  /** Exactly one attempt is running, and it is attempt number attempt_count,
      precisely when the job is running or cancel_requested. */
  lemma RunningAttemptIsLast(c: Cell, now: Time, i: int)
    requires CellInv(c, now)
    requires 0 <= i < |c.history|
    ensures c.history[i].status.AttemptRunning? <==>
            Active(c.row.record.status) && i + 1 == c.row.record.attemptCount
  {
  }

  /** The record part of a move is the lifecycle transition the source asks for. */
  lemma MoveIsTransition(c: Cell, m: Move, now: Time)
    requires CellInv(c, now)
    requires Enabled(c, m)
    requires now <= m.at
    ensures
      var job := c.row.record;
      var at := Stamp(c, m.at);
      var next := MoveCell(c, m).row.record;
      match m
      case Claim(_, _, _, _) => TransitionTo(job, Running, at, None, None) == Ok(next)
      case Beat(_, _) => next == job
      case Retry(_, delay, _) => TransitionTo(job, Queued, at, None, Some(at + Seconds(delay))) == Ok(next)
      case Fail(_, code) => TransitionTo(job, Failed, at, Some(code), None) == Ok(next)
      case Expire(_, delay) => TransitionTo(job, Queued, at, None, Some(at + Seconds(delay))) == Ok(next)
      case Exhaust(_) => TransitionTo(job, Failed, at, Some(EXPIRED_CODE), None) == Ok(next)
      case Withdraw(_) => RequestCancellation(job, at) == Ok(next)
      case AskCancel(_) => RequestCancellation(job, at) == Ok(next)
      case Stop(_) => TransitionTo(job, Canceled, at, None, None) == Ok(next)
      case Publish(_) => TransitionTo(job, Succeeded, at, None, None) == Ok(next)
  {
  }
}
