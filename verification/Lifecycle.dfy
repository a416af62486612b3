/** Job and attempt records, the job transition table, and the constraints that the
    jobs and attempts tables declare. Times are database timestamps in microseconds. */
module Lifecycle {
  import opened Common

  type Time = int

  const SECOND: int := 1_000_000

  function Seconds(n: int): Time {
    n * SECOND
  }

  datatype JobKind = RunJob | ComparisonJob

  datatype JobStatus = Queued | Running | CancelRequested | Succeeded | Failed | Canceled

  datatype AttemptStatus =
    | AttemptRunning
    | AttemptSucceeded
    | RetryScheduled
    | AttemptFailed
    | AttemptCanceled
    | LeaseExpired

  datatype Error =
    | BadValue
    | LeaseLost
    | IllegalTransition
    | ConcurrentTransition
    | ImmutableConflict
    | IdempotencyConflict
    | ResourceAlreadySubmitted
    | NotFound
    | CorruptRecord
    | PayloadTooLarge
    | StoreFailure

  datatype JobRecord = JobRecord(
    jobId: string,
    kind: JobKind,
    status: JobStatus,
    idempotencyKey: string,
    requestDigest: string,
    resourceId: string,
    attemptCount: int,
    maxAttempts: int,
    availableAt: Time,
    errorCode: Option<string>,
    createdAt: Time,
    updatedAt: Time)

  /** A stored job: the record and the compare-and-set version beside it. */
  datatype JobRow = JobRow(record: JobRecord, version: int)

  datatype Attempt = Attempt(
    status: AttemptStatus,
    workerId: string,
    leaseToken: string,
    errorCode: Option<string>,
    startedAt: Time,
    heartbeatAt: Time,
    leaseExpiresAt: Time,
    finishedAt: Option<Time>)

  predicate Letter(c: char) {
    'A' <= c <= 'Z' || 'a' <= c <= 'z'
  }

  predicate Digit(c: char) {
    '0' <= c <= '9'
  }

  predicate ValidToken(token: string) {
    && 32 <= |token| <= 128
    && forall i :: 0 <= i < |token| ==> Letter(token[i]) || Digit(token[i]) || token[i] == '_' || token[i] == '-'
  }

  predicate WorkerChar(c: char) {
    Letter(c) || Digit(c) || c == '.' || c == '_' || c == ':' || c == '-'
  }

  predicate ValidWorkerId(worker: string) {
    && 1 <= |worker| <= 128 && (Letter(worker[0]) || Digit(worker[0]))
    && forall i :: 0 <= i < |worker| ==> WorkerChar(worker[i])
  }

  predicate SafeCode(code: string) {
    && 1 <= |code| <= 64 && 'a' <= code[0] <= 'z'
    && forall i :: 0 <= i < |code| ==> 'a' <= code[i] <= 'z' || Digit(code[i]) || code[i] == '_'
  }

  predicate Terminal(status: JobStatus) {
    status.Succeeded? || status.Failed? || status.Canceled?
  }

  predicate Active(status: JobStatus) {
    status.Running? || status.CancelRequested?
  }

  /** The record validator; also every CHECK constraint of the jobs table on these columns. */
  predicate ValidRecord(job: JobRecord) {
    && 1 <= job.maxAttempts <= 10
    && 0 <= job.attemptCount <= job.maxAttempts
    && job.createdAt <= job.updatedAt
    && job.createdAt <= job.availableAt
    && (job.status.Queued? ==> job.attemptCount < job.maxAttempts)
    && (Active(job.status) || job.status.Succeeded? || job.status.Failed? ==> 1 <= job.attemptCount)
    && (job.status.Failed? <==> job.errorCode.Some?)
    && (job.errorCode.Some? ==> SafeCode(job.errorCode.value))
  }

  /** Every CHECK constraint of the attempts table. */
  predicate ValidAttempt(a: Attempt) {
    && ValidWorkerId(a.workerId)
    && ValidToken(a.leaseToken)
    && a.startedAt <= a.heartbeatAt < a.leaseExpiresAt
    && (a.finishedAt.Some? ==> a.heartbeatAt <= a.finishedAt.value)
    && (a.status.AttemptRunning? <==> a.finishedAt.None?)
    && (a.status.RetryScheduled? || a.status.AttemptFailed? || a.status.LeaseExpired? <==> a.errorCode.Some?)
    && (a.errorCode.Some? ==> SafeCode(a.errorCode.value))
  }

  function AllowedFrom(status: JobStatus): set<JobStatus> {
    match status
    case Queued => {Running, Canceled}
    case Running => {Queued, CancelRequested, Succeeded, Failed}
    case CancelRequested => {Canceled}
    case Succeeded => {}
    case Failed => {}
    case Canceled => {}
  }

  /** Model validation after a change: the record itself or an error. */
  function Validated(job: JobRecord): Result<JobRecord, Error> {
    if ValidRecord(job) then Ok(job) else Err(IllegalTransition)
  }

  /** One lifecycle change; a request for the state already held is accepted when it agrees. */
  function TransitionTo(job: JobRecord, status: JobStatus, at: Time,
                        errorCode: Option<string>, availableAt: Option<Time>): Result<JobRecord, Error>
  {
    var moved := job.(status := status, errorCode := errorCode, updatedAt := at);
    if status == job.status then
      if errorCode != job.errorCode || (availableAt.Some? && availableAt.value != job.availableAt)
      then Err(IllegalTransition)
      else Ok(job)
    else if status !in AllowedFrom(job.status) || at < job.updatedAt || status.Failed? != errorCode.Some? then
      Err(IllegalTransition)
    else if job.status.Queued? && status.Running? then
      if at < job.availableAt || job.maxAttempts <= job.attemptCount || availableAt.Some? then
        Err(IllegalTransition)
      else
        Validated(moved.(attemptCount := job.attemptCount + 1))
    else if job.status.Running? && status.Queued? then
      if availableAt.None? || availableAt.value < at || job.maxAttempts <= job.attemptCount then
        Err(IllegalTransition)
      else
        Validated(moved.(availableAt := availableAt.value))
    else if availableAt.Some? then
      Err(IllegalTransition)
    else
      Validated(moved)
  }

  function RequestCancellation(job: JobRecord, at: Time): Result<JobRecord, Error> {
    match job.status
    case Queued => TransitionTo(job, Canceled, at, None, None)
    case Running => TransitionTo(job, CancelRequested, at, None, None)
    case _ => Ok(job)
  }

  function Pow2(k: nat): (p: nat)
    ensures 1 <= p
  {
    if k == 0 then 1 else 2 * Pow2(k - 1)
  }

  /** Delay in seconds before attempt `attempt + 1`, as the worker and the reaper compute it. */
  function Backoff(base: int, cap: int, attempt: int): int
    requires 1 <= attempt
  {
    Min(base * Pow2(attempt - 1), cap)
  }

  lemma Pow2Monotone(j: nat, k: nat)
    requires j <= k
    ensures Pow2(j) <= Pow2(k)
  {
    if j < k {
      Pow2Monotone(j, k - 1);
    }
  }

  lemma MulMonotone(a: int, p: int, q: int)
    requires 0 <= a && p <= q
    ensures a * p <= a * q
  {
  }

  /** The backoff never shrinks from one attempt to the next and stays within [base, cap];
      below the cap it doubles. */
  lemma BackoffBounds(base: int, cap: int, j: int, k: int)
    requires 1 <= base <= cap
    requires 1 <= j <= k
    ensures base <= Backoff(base, cap, j) <= Backoff(base, cap, k) <= cap
    ensures Backoff(base, cap, 1) == base
    ensures Backoff(base, cap, k + 1) == Min(2 * Backoff(base, cap, k), cap)
  {
    Pow2Monotone(j - 1, k - 1);
    var p, q := Pow2(j - 1), Pow2(k - 1);
    MulMonotone(base, 1, p);
    MulMonotone(base, p, q);
    assert base * 1 == base && Pow2(0) == 1;
    assert Pow2(k) == 2 * q;
    DoubleProduct(base, q);
    hide Pow2;
  }

  lemma DoubleProduct(a: int, q: int)
    ensures a * (2 * q) == 2 * (a * q)
  {
  }
}
