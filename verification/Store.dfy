/** The control-plane tables and, for every repository operation, the state it commits and
    the answer it gives. Each operation is one atomic step; the time it reads first and the
    time of its last conditional write are the clock advanced by `d1` and then by `d2`. */
module Store {
  import opened Common
  import opened Ordering
  import opened Lifecycle
  import opened Cells

  datatype AttemptKey = AttemptKey(jobId: string, number: int)

  datatype Payload = Payload(kind: JobKind, body: string)

  datatype PayloadRow = PayloadRow(payload: Payload, createdAt: Time)

  datatype RunRecord = RunRecord(
    runId: string,
    dataset: string,
    inputUnits: int,
    outputUnits: int,
    document: string,
    createdAt: Time)

  datatype DecisionRecord = DecisionRecord(
    decisionId: string,
    baselineRunId: string,
    candidateRunId: string,
    document: string,
    createdAt: Time)

  datatype Tables = Tables(
    jobs: map<string, JobRow>,
    payloads: map<string, PayloadRow>,
    attempts: map<AttemptKey, Attempt>,
    datasets: set<string>,
    runs: map<string, RunRecord>,
    decisions: map<string, DecisionRecord>)

  datatype State = State(t: Tables, now: Time)

  // Sizes count the bytes of the stored text, one character each.

  const MAX_PAYLOAD_BYTES: int := 4 * 1024 * 1024
  const MAX_DOCUMENT_BYTES: int := 64 * 1024 * 1024
  const MAX_OPERATIONAL_VALUE: int := 0x7FFF_FFFF_FFFF_FFFF

  const EMPTY := Tables(map[], map[], map[], {}, map[], map[])

  /** Evidence a worker publishes: a run or a release decision. */
  datatype Evidence = RunEvidence(run: RunRecord) | DecisionEvidence(decision: DecisionRecord)

  datatype AttemptRecord = AttemptRecord(
    jobId: string, attemptNumber: int, status: AttemptStatus,
    startedAt: Time, heartbeatAt: Time, leaseExpiresAt: Time)

  datatype ClaimedJob = ClaimedJob(
    job: JobRecord, payload: Payload, attempt: AttemptRecord, leaseToken: string)

  // ---------------------------------------------------------------- cells of the tables

  predicate Complete(t: Tables, id: string) {
    && id in t.jobs
    && 0 <= t.jobs[id].record.attemptCount
    && forall n :: 1 <= n <= t.jobs[id].record.attemptCount ==> AttemptKey(id, n) in t.attempts
  }

  function CellOf(t: Tables, id: string): Cell
    requires Complete(t, id)
  {
    Cell(t.jobs[id],
         seq(t.jobs[id].record.attemptCount,
             i requires 0 <= i < t.jobs[id].record.attemptCount => t.attempts[AttemptKey(id, i + 1)]))
  }

  /** Writes a cell back: its row and its last attempt. */
  function Install(t: Tables, id: string, c: Cell): Tables {
    t.(jobs := t.jobs[id := c.row],
       attempts := if c.history == [] then t.attempts
                   else t.attempts[AttemptKey(id, |c.history|) := Last(c.history)])
  }

  // ---------------------------------------------------------------- the store invariant

  predicate CellsInv(s: State) {
    forall id :: id in s.t.jobs ==>
      && Complete(s.t, id)
      && CellInv(CellOf(s.t, id), s.now)
      && s.t.jobs[id].record.jobId == id
  }

  /** Attempts belong to a job and are numbered 1..attempt_count. */
  predicate AttemptsInv(t: Tables) {
    forall k :: k in t.attempts ==>
      k.jobId in t.jobs && 1 <= k.number <= t.jobs[k.jobId].record.attemptCount
  }

  predicate PayloadsInv(t: Tables) {
    && t.payloads.Keys == t.jobs.Keys
    && forall id :: id in t.jobs && id in t.payloads ==>
         && t.payloads[id].payload.kind == t.jobs[id].record.kind
         && t.payloads[id].createdAt == t.jobs[id].record.createdAt
         && |t.payloads[id].payload.body| <= MAX_PAYLOAD_BYTES
  }

  predicate SameKey(a: JobRecord, b: JobRecord) {
    a.kind == b.kind && a.idempotencyKey == b.idempotencyKey
  }

  predicate SameResource(a: JobRecord, b: JobRecord) {
    a.kind == b.kind && a.resourceId == b.resourceId
  }

  /** At most one job per (kind, idempotency_key) and per (kind, resource_id). */
  predicate UniqueInv(t: Tables) {
    forall a, b {:trigger SameKey(t.jobs[a].record, t.jobs[b].record)}
      {:trigger SameResource(t.jobs[a].record, t.jobs[b].record)} ::
      a in t.jobs && b in t.jobs && a != b ==>
      && !SameKey(t.jobs[a].record, t.jobs[b].record)
      && !SameResource(t.jobs[a].record, t.jobs[b].record)
  }

  predicate Owns(job: JobRecord, kind: JobKind, resourceId: string) {
    job.kind == kind && job.resourceId == resourceId
  }

  predicate HasEvidence(t: Tables, kind: JobKind, resourceId: string) {
    match kind
    case RunJob => resourceId in t.runs
    case ComparisonJob => resourceId in t.decisions
  }

  predicate ResourceTaken(t: Tables, kind: JobKind, resourceId: string) {
    exists id :: id in t.jobs && Owns(t.jobs[id].record, kind, resourceId)
  }

  /** Evidence exists exactly for the resources of succeeded jobs. */
  predicate SucceededIffEvidence(t: Tables) {
    forall id :: id in t.jobs ==>
      (t.jobs[id].record.status.Succeeded? <==>
         HasEvidence(t, t.jobs[id].record.kind, t.jobs[id].record.resourceId))
  }

  predicate RunRowsInv(t: Tables) {
    forall r {:trigger t.runs[r]} :: r in t.runs ==>
      t.runs[r].runId == r && t.runs[r].dataset in t.datasets && ResourceTaken(t, RunJob, r)
  }

  predicate DecisionRowsInv(t: Tables) {
    forall r {:trigger t.decisions[r]} :: r in t.decisions ==>
      && t.decisions[r].decisionId == r
      && t.decisions[r].baselineRunId in t.runs && t.decisions[r].candidateRunId in t.runs
      && ResourceTaken(t, ComparisonJob, r)
  }

  predicate EvidenceInv(t: Tables) {
    SucceededIffEvidence(t) && RunRowsInv(t) && DecisionRowsInv(t)
  }

  predicate Inv(s: State) {
    CellsInv(s) && AttemptsInv(s.t) && PayloadsInv(s.t) && UniqueInv(s.t) && EvidenceInv(s.t)
  }

  lemma InvTables(s: State)
    requires Inv(s)
    ensures AttemptsInv(s.t) && PayloadsInv(s.t) && UniqueInv(s.t) && EvidenceInv(s.t)
  {
    hide CellsInv, AttemptsInv, PayloadsInv, UniqueInv, EvidenceInv;
  }

  /** What the invariant says of one stored job. */
  lemma StoredCell(s: State, id: string)
    requires Inv(s) && id in s.t.jobs
    ensures Complete(s.t, id) && CellInv(CellOf(s.t, id), s.now) && s.t.jobs[id].record.jobId == id
    ensures Active(s.t.jobs[id].record.status) ==>
              Held(CellOf(s.t, id)) && 1 <= s.t.jobs[id].record.attemptCount
  {
    hide AttemptsInv, PayloadsInv, UniqueInv, EvidenceInv, HistoryInv, ValidRecord;
  }

  lemma EmptyInv(now: Time)
    ensures Inv(State(EMPTY, now))
  {
  }

  lemma WaitInv(s: State, later: Time)
    requires Inv(s) && s.now <= later
    ensures Inv(s.(now := later))
  {
    forall id | id in s.t.jobs
      ensures CellInv(CellOf(s.t, id), later)
    {
      WaitKeepsInv(CellOf(s.t, id), s.now, later);
    }
  }

  // ---------------------------------------------------------------- moving one job

  /** The tables after one move of one job. */
  function MoveJob(t: Tables, id: string, m: Move): Tables
    requires Complete(t, id) && Enabled(CellOf(t, id), m)
  {
    Install(t, id, MoveCell(CellOf(t, id), m))
  }

  /** Writing back a cell that adds or changes only the last attempt. */
  lemma InstallOwnCell(t: Tables, id: string, d: Cell)
    requires Complete(t, id) && |d.history| == d.row.record.attemptCount
    requires |CellOf(t, id).history| <= |d.history| <= |CellOf(t, id).history| + 1
    requires forall i :: 0 <= i < |d.history| - 1 ==> d.history[i] == CellOf(t, id).history[i]
    ensures Complete(Install(t, id, d), id) && CellOf(Install(t, id, d), id) == d
  {
    var t' := Install(t, id, d);
    forall n | 1 <= n <= |d.history|
      ensures AttemptKey(id, n) in t'.attempts && t'.attempts[AttemptKey(id, n)] == d.history[n - 1]
    {
      if n < |d.history| {
        assert d.history[n - 1] == CellOf(t, id).history[n - 1];
      }
    }
    assert CellOf(t', id).history == d.history;
  }

  lemma InstallOtherCell(t: Tables, id: string, d: Cell, j: string)
    requires j != id && Complete(t, j)
    ensures Complete(Install(t, id, d), j) && CellOf(Install(t, id, d), j) == CellOf(t, j)
  {
    assert CellOf(Install(t, id, d), j).history == CellOf(t, j).history;
  }

  /** A move changes the cell of its own job as the automaton says, and no other cell. */
  lemma MoveJobCells(s: State, id: string, m: Move, j: string)
    requires Inv(s) && id in s.t.jobs && Enabled(CellOf(s.t, id), m)
    requires j in s.t.jobs
    ensures Complete(MoveJob(s.t, id, m), j)
    ensures CellOf(MoveJob(s.t, id, m), j) == if j == id then MoveCell(CellOf(s.t, id), m) else CellOf(s.t, j)
  {
    if j == id {
      MoveShape(CellOf(s.t, id), m, s.now);
      InstallOwnCell(s.t, id, MoveCell(CellOf(s.t, id), m));
    } else {
      InstallOtherCell(s.t, id, MoveCell(CellOf(s.t, id), m), j);
    }
  }

  lemma InstallTables(t: Tables, id: string, d: Cell)
    requires id in t.jobs
    requires AttemptsInv(t) && PayloadsInv(t) && UniqueInv(t)
    requires SameIdentity(t.jobs[id].record, d.row.record)
    requires |d.history| == d.row.record.attemptCount && t.jobs[id].record.attemptCount <= |d.history|
    ensures var t' := Install(t, id, d); AttemptsInv(t') && PayloadsInv(t') && UniqueInv(t')
  {
    InstallUnique(t, id, d);
    InstallPayloads(t, id, d);
    hide UniqueInv, PayloadsInv;
  }

  lemma InstallPayloads(t: Tables, id: string, d: Cell)
    requires id in t.jobs && PayloadsInv(t)
    requires SameIdentity(t.jobs[id].record, d.row.record)
    ensures PayloadsInv(Install(t, id, d))
  {
  }

  lemma InstallUnique(t: Tables, id: string, d: Cell)
    requires id in t.jobs && UniqueInv(t)
    requires SameIdentity(t.jobs[id].record, d.row.record)
    ensures UniqueInv(Install(t, id, d))
  {
    var t' := Install(t, id, d);
    forall a, b | a in t'.jobs && b in t'.jobs && a != b
      ensures !SameKey(t'.jobs[a].record, t'.jobs[b].record) && !SameResource(t'.jobs[a].record, t'.jobs[b].record)
    {
      assert !SameKey(t.jobs[a].record, t.jobs[b].record) && !SameResource(t.jobs[a].record, t.jobs[b].record);
    }
  }

  /** Ownership of resources survives any change that keeps every job's identity. */
  lemma OwnersRemain(t: Tables, t': Tables)
    requires forall j :: j in t.jobs ==> j in t'.jobs && SameIdentity(t.jobs[j].record, t'.jobs[j].record)
    ensures forall kind, r :: ResourceTaken(t, kind, r) ==> ResourceTaken(t', kind, r)
  {
    forall kind, r | ResourceTaken(t, kind, r)
      ensures ResourceTaken(t', kind, r)
    {
      var j :| j in t.jobs && Owns(t.jobs[j].record, kind, r);
      assert Owns(t'.jobs[j].record, kind, r);
    }
  }

  lemma InstallEvidence(t: Tables, id: string, d: Cell)
    requires id in t.jobs && EvidenceInv(t)
    requires SameIdentity(t.jobs[id].record, d.row.record)
    requires t.jobs[id].record.status.Succeeded? <==> d.row.record.status.Succeeded?
    ensures EvidenceInv(Install(t, id, d))
  {
    OwnersRemain(t, Install(t, id, d));
    InstallIff(t, id, d);
    hide ResourceTaken, SucceededIffEvidence;
  }

  lemma InstallIff(t: Tables, id: string, d: Cell)
    requires id in t.jobs && SucceededIffEvidence(t)
    requires SameIdentity(t.jobs[id].record, d.row.record)
    requires t.jobs[id].record.status.Succeeded? <==> d.row.record.status.Succeeded?
    ensures SucceededIffEvidence(Install(t, id, d))
  {
  }

  lemma MoveJobKeepsCells(s: State, id: string, m: Move, later: Time)
    requires Inv(s) && id in s.t.jobs && Enabled(CellOf(s.t, id), m)
    requires s.now <= m.at <= later
    ensures CellsInv(State(MoveJob(s.t, id, m), later))
  {
    hide CellInv, Enabled, MoveCell;
    var t' := MoveJob(s.t, id, m);
    forall j | j in t'.jobs
      ensures Complete(t', j) && CellInv(CellOf(t', j), later) && t'.jobs[j].record.jobId == j
    {
      MoveJobCells(s, id, m, j);
      if j == id {
        MoveShape(CellOf(s.t, id), m, s.now);
        MoveKeepsInv(CellOf(s.t, id), m, s.now, later);
      } else {
        WaitKeepsInv(CellOf(s.t, j), s.now, later);
      }
    }
  }

  /** A move keeps everything but, when it publishes, the evidence clause. */
  lemma MoveJobInv(s: State, id: string, m: Move, later: Time)
    requires Inv(s) && id in s.t.jobs && Enabled(CellOf(s.t, id), m)
    requires s.now <= m.at <= later
    ensures
      var s' := State(MoveJob(s.t, id, m), later);
      && CellsInv(s') && AttemptsInv(s'.t) && PayloadsInv(s'.t) && UniqueInv(s'.t)
      && (!m.Publish? ==> EvidenceInv(s'.t))
  {
    var c := CellOf(s.t, id);
    MoveJobKeepsCells(s, id, m, later);
    MoveShape(c, m, s.now);
    InstallTables(s.t, id, MoveCell(c, m));
    if !m.Publish? {
      InstallEvidence(s.t, id, MoveCell(c, m));
    }
  }

  lemma QuietMoveInv(s: State, id: string, m: Move, later: Time)
    requires Inv(s) && id in s.t.jobs && Enabled(CellOf(s.t, id), m)
    requires s.now <= m.at <= later && !m.Publish?
    ensures Inv(State(MoveJob(s.t, id, m), later))
  {
    MoveJobInv(s, id, m, later);
    hide CellsInv, AttemptsInv, PayloadsInv, UniqueInv, EvidenceInv;
  }

  // ---------------------------------------------------------------- fencing

  /** The test a fenced transaction makes on the locked job and attempt rows. */
  predicate LiveLease(t: Tables, id: string, n: int, token: string, at: Time) {
    && id in t.jobs
    && AttemptKey(id, n) in t.attempts
    && Active(t.jobs[id].record.status)
    && t.jobs[id].record.attemptCount == n
    && t.attempts[AttemptKey(id, n)].status.AttemptRunning?
    && t.attempts[AttemptKey(id, n)].leaseToken == token
    && at < t.attempts[AttemptKey(id, n)].leaseExpiresAt
  }

  lemma LastOfCell(t: Tables, id: string)
    requires Complete(t, id) && 1 <= t.jobs[id].record.attemptCount
    ensures CellOf(t, id).history != []
    ensures Last(CellOf(t, id).history) == t.attempts[AttemptKey(id, t.jobs[id].record.attemptCount)]
  {
  }

  lemma LiveLeaseHeld(s: State, id: string, n: int, token: string, at: Time)
    requires Inv(s) && LiveLease(s.t, id, n, token, at)
    ensures Complete(s.t, id) && Held(CellOf(s.t, id))
    ensures Last(CellOf(s.t, id).history) == s.t.attempts[AttemptKey(id, n)]
  {
    hide Inv, CellInv;
    StoredCell(s, id);
    LastOfCell(s.t, id);
  }

  function Commit(s: State, id: string, m: Move, later: Time): (State, Result<JobRecord, Error>)
    requires Inv(s) && id in s.t.jobs && Enabled(CellOf(s.t, id), m)
  {
    (State(MoveJob(s.t, id, m), later), Ok(MoveCell(CellOf(s.t, id), m).row.record))
  }

  function Refuse<T>(s: State, later: Time, e: Error): (State, Result<T, Error>) {
    (s.(now := later), Err(e))
  }

  // ---------------------------------------------------------------- begin_job

  predicate KeyTaken(t: Tables, kind: JobKind, key: string) {
    exists id :: id in t.jobs && t.jobs[id].record.kind == kind && t.jobs[id].record.idempotencyKey == key
  }

  /** The unique job holding an idempotency key. */
  function JobByKey(t: Tables, kind: JobKind, key: string): (id: string)
    requires UniqueInv(t) && KeyTaken(t, kind, key)
    ensures id in t.jobs && t.jobs[id].record.kind == kind && t.jobs[id].record.idempotencyKey == key
  {
    assert forall a, b ::
      && a in t.jobs && t.jobs[a].record.kind == kind && t.jobs[a].record.idempotencyKey == key
      && b in t.jobs && t.jobs[b].record.kind == kind && t.jobs[b].record.idempotencyKey == key
      ==> a == b by {
      assert forall a, b :: a in t.jobs && b in t.jobs && a != b ==>
        !SameKey(t.jobs[a].record, t.jobs[b].record);
    }
    var id :| id in t.jobs && t.jobs[id].record.kind == kind && t.jobs[id].record.idempotencyKey == key;
    id
  }

  function Enqueued(t: Tables, record: JobRecord, payload: Payload): Tables {
    t.(jobs := t.jobs[record.jobId := JobRow(record, 0)],
       payloads := t.payloads[record.jobId := PayloadRow(payload, record.createdAt)])
  }

  predicate NewRecord(record: JobRecord, payload: Payload) {
    ValidRecord(record) && record.status.Queued? && record.attemptCount == 0 && payload.kind == record.kind
  }

  predicate NewJob(record: JobRecord, payload: Payload) {
    NewRecord(record, payload) && |payload.body| <= MAX_PAYLOAD_BYTES
  }

  predicate Collides(t: Tables, record: JobRecord) {
    || record.jobId in t.jobs
    || KeyTaken(t, record.kind, record.idempotencyKey)
    || ResourceTaken(t, record.kind, record.resourceId)
  }

  function BeginJob(s: State, record: JobRecord, payload: Payload, d1: nat)
    : (State, Result<(JobRecord, bool), Error>)
    requires Inv(s)
  {
    var later := s.now + d1;
    if !NewRecord(record, payload) then
      Refuse(s, later, BadValue)
    else if !NewJob(record, payload) then
      Refuse(s, later, PayloadTooLarge)
    else if !Collides(s.t, record) then
      (State(Enqueued(s.t, record, payload), later), Ok((record, true)))
    else if KeyTaken(s.t, record.kind, record.idempotencyKey) then
      var existing := s.t.jobs[JobByKey(s.t, record.kind, record.idempotencyKey)].record;
      if existing.requestDigest != record.requestDigest then Refuse(s, later, IdempotencyConflict)
      else (s.(now := later), Ok((existing, false)))
    else if ResourceTaken(s.t, record.kind, record.resourceId) then
      Refuse(s, later, ResourceAlreadySubmitted)
    else
      Refuse(s, later, ImmutableConflict)
  }

  // ---------------------------------------------------------------- claim_next_job

  function ClaimKey(job: JobRecord): Key {
    [Num(job.availableAt), Num(job.createdAt), Text(job.jobId)]
  }

  predicate Claimable(job: JobRecord, at: Time) {
    job.status.Queued? && job.availableAt <= at
  }

  function ClaimableKeys(t: Tables, at: Time): set<Key> {
    set id | id in t.jobs && Claimable(t.jobs[id].record, at) :: ClaimKey(t.jobs[id].record)
  }

  /** SELECT ... WHERE status = 'queued' AND available_at <= at ORDER BY ... LIMIT 1. */
  function NextClaim(t: Tables, at: Time): Option<string> {
    var keys := ClaimableKeys(t, at);
    if keys == {} then None else Some(Least(keys)[2].s)
  }

  lemma NextClaimIsFirst(s: State, at: Time)
    requires Inv(s) && NextClaim(s.t, at).Some?
    ensures
      var id := NextClaim(s.t, at).value;
      && Complete(s.t, id) && Claimable(s.t.jobs[id].record, at)
      && forall j :: j in s.t.jobs && j != id && Claimable(s.t.jobs[j].record, at) ==>
           KeyLess(ClaimKey(s.t.jobs[id].record), ClaimKey(s.t.jobs[j].record))
  {
    var k := Least(ClaimableKeys(s.t, at));
    var id :| id in s.t.jobs && Claimable(s.t.jobs[id].record, at) && ClaimKey(s.t.jobs[id].record) == k;
    assert k[2] == Text(id);
    forall j | j in s.t.jobs && j != id && Claimable(s.t.jobs[j].record, at)
      ensures KeyLess(ClaimKey(s.t.jobs[id].record), ClaimKey(s.t.jobs[j].record))
    {
      assert ClaimKey(s.t.jobs[j].record)[2] == Text(j);
      assert ClaimKey(s.t.jobs[j].record) in ClaimableKeys(s.t, at);
    }
  }

  function AttemptView(id: string, n: int, a: Attempt): AttemptRecord {
    AttemptRecord(id, n, a.status, a.startedAt, a.heartbeatAt, a.leaseExpiresAt)
  }

  function ClaimNextJob(s: State, worker: string, token: string, seconds: int, d1: nat, d2: nat)
    : (State, Result<Option<ClaimedJob>, Error>)
    requires Inv(s)
  {
    var at, later := s.now + d1, s.now + d1 + d2;
    if !(ValidWorkerId(worker) && ValidToken(token) && 5 <= seconds <= 3600) then
      Refuse(s, later, BadValue)
    else if NextClaim(s.t, at).None? then
      (s.(now := later), Ok(None))
    else
      NextClaimIsFirst(s, at);
      var id := NextClaim(s.t, at).value;
      var c := CellOf(s.t, id);
      if !FreshToken(c.history, token) then
        Refuse(s, later, ConcurrentTransition)
      else
        var m := Claim(worker, token, later, seconds);
        var d := MoveCell(c, m);
        (State(MoveJob(s.t, id, m), later),
         Ok(Some(ClaimedJob(d.row.record, s.t.payloads[id].payload,
                            AttemptView(id, |d.history|, Last(d.history)), token))))
  }

  // ---------------------------------------------------------------- fenced operations

  predicate Fence(n: int, token: string) {
    1 <= n <= 10 && ValidToken(token)
  }

  function HeartbeatJob(s: State, id: string, n: int, token: string, seconds: int, d1: nat, d2: nat)
    : (State, Result<JobRecord, Error>)
    requires Inv(s)
  {
    var at, later := s.now + d1, s.now + d1 + d2;
    if !Fence(n, token) || !(5 <= seconds <= 3600) then
      Refuse(s, later, BadValue)
    else if !LiveLease(s.t, id, n, token, later) then
      Refuse(s, later, LeaseLost)
    else
      LiveLeaseHeld(s, id, n, token, later);
      Commit(s, id, Beat(at, seconds), later)
  }

  /** A fenced transaction that finds a cancellation request cancels instead. */
  function StopInstead(s: State, id: string, n: int, token: string, at: Time, later: Time)
    : (State, Result<JobRecord, Error>)
    requires Inv(s) && LiveLease(s.t, id, n, token, at) && s.t.jobs[id].record.status.CancelRequested?
  {
    LiveLeaseHeld(s, id, n, token, at);
    if !LiveLease(s.t, id, n, token, later) then Refuse(s, later, LeaseLost)
    else Commit(s, id, Stop(at), later)
  }

  function RetryJob(s: State, id: string, n: int, token: string, delay: int, code: string, d1: nat, d2: nat)
    : (State, Result<JobRecord, Error>)
    requires Inv(s)
  {
    var at, later := s.now + d1, s.now + d1 + d2;
    if !Fence(n, token) || !(1 <= delay <= 3600) || !SafeCode(code) then
      Refuse(s, later, BadValue)
    else if !LiveLease(s.t, id, n, token, at) then
      Refuse(s, later, LeaseLost)
    else if s.t.jobs[id].record.status.CancelRequested? then
      StopInstead(s, id, n, token, at, later)
    else if s.t.jobs[id].record.maxAttempts <= s.t.jobs[id].record.attemptCount then
      Refuse(s, later, IllegalTransition)
    else if !LiveLease(s.t, id, n, token, later) then
      Refuse(s, later, LeaseLost)
    else
      LiveLeaseHeld(s, id, n, token, later);
      Commit(s, id, Retry(at, delay, code), later)
  }

  function FailJob(s: State, id: string, n: int, token: string, code: string, d1: nat, d2: nat)
    : (State, Result<JobRecord, Error>)
    requires Inv(s)
  {
    var at, later := s.now + d1, s.now + d1 + d2;
    if !Fence(n, token) || !SafeCode(code) then
      Refuse(s, later, BadValue)
    else if !LiveLease(s.t, id, n, token, at) then
      Refuse(s, later, LeaseLost)
    else if s.t.jobs[id].record.status.CancelRequested? then
      StopInstead(s, id, n, token, at, later)
    else if !LiveLease(s.t, id, n, token, later) then
      Refuse(s, later, LeaseLost)
    else
      LiveLeaseHeld(s, id, n, token, later);
      Commit(s, id, Fail(at, code), later)
  }

  /** The attempt a finished job ended with, as a replay must name it. */
  predicate TerminalAttempt(t: Tables, id: string, n: int, token: string, status: AttemptStatus) {
    && AttemptKey(id, n) in t.attempts
    && t.attempts[AttemptKey(id, n)].leaseToken == token
    && t.attempts[AttemptKey(id, n)].status == status
  }

  function AcknowledgeCancellation(s: State, id: string, n: int, token: string, d1: nat, d2: nat)
    : (State, Result<JobRecord, Error>)
    requires Inv(s)
  {
    var at, later := s.now + d1, s.now + d1 + d2;
    if !Fence(n, token) then
      Refuse(s, later, BadValue)
    else if id in s.t.jobs && s.t.jobs[id].record.status.Canceled? then
      if TerminalAttempt(s.t, id, n, token, AttemptCanceled) then (s.(now := later), Ok(s.t.jobs[id].record))
      else Refuse(s, later, LeaseLost)
    else if !LiveLease(s.t, id, n, token, at) then
      Refuse(s, later, LeaseLost)
    else if !s.t.jobs[id].record.status.CancelRequested? then
      Refuse(s, later, IllegalTransition)
    else
      StopInstead(s, id, n, token, at, later)
  }

  function CancelJob(s: State, id: string, d1: nat): (State, Result<JobRecord, Error>)
    requires Inv(s)
  {
    var at := s.now + d1;
    if id !in s.t.jobs then
      Refuse(s, at, NotFound)
    else
      match s.t.jobs[id].record.status
      case Canceled => (s.(now := at), Ok(s.t.jobs[id].record))
      case CancelRequested => (s.(now := at), Ok(s.t.jobs[id].record))
      case Succeeded => Refuse(s, at, IllegalTransition)
      case Failed => Refuse(s, at, IllegalTransition)
      case Running => Commit(s, id, AskCancel(at), at)
      case Queued => Commit(s, id, Withdraw(at), at)
  }

  // ---------------------------------------------------------------- publishing evidence

  function KindOf(e: Evidence): JobKind {
    if e.RunEvidence? then RunJob else ComparisonJob
  }

  function ResourceOf(e: Evidence): string {
    if e.RunEvidence? then e.run.runId else e.decision.decisionId
  }

  function DocumentOf(e: Evidence): string {
    if e.RunEvidence? then e.run.document else e.decision.document
  }

  /** Evidence refused before any table is looked at. */
  predicate Oversized(e: Evidence) {
    || MAX_DOCUMENT_BYTES < |DocumentOf(e)|
    || (e.RunEvidence? && (MAX_OPERATIONAL_VALUE < e.run.inputUnits || MAX_OPERATIONAL_VALUE < e.run.outputUnits))
  }

  function StoredDocument(t: Tables, kind: JobKind, resourceId: string): Option<string> {
    match kind
    case RunJob => if resourceId in t.runs then Some(t.runs[resourceId].document) else None
    case ComparisonJob => if resourceId in t.decisions then Some(t.decisions[resourceId].document) else None
  }

  predicate References(t: Tables, e: Evidence) {
    match e
    case RunEvidence(run) => run.dataset in t.datasets
    case DecisionEvidence(decision) => decision.baselineRunId in t.runs && decision.candidateRunId in t.runs
  }

  /** How a refused insert is reported: the two completions translate it differently. */
  function InsertError(e: Evidence): Error {
    if e.RunEvidence? then ImmutableConflict else ConcurrentTransition
  }

  function Inserted(t: Tables, e: Evidence): Tables {
    match e
    case RunEvidence(run) => t.(runs := t.runs[run.runId := run])
    case DecisionEvidence(decision) => t.(decisions := t.decisions[decision.decisionId := decision])
  }

  function CompleteJob(s: State, id: string, e: Evidence, n: int, token: string, d1: nat, d2: nat)
    : (State, Result<JobRecord, Error>)
    requires Inv(s)
  {
    var at, later := s.now + d1, s.now + d1 + d2;
    if !Fence(n, token) then
      Refuse(s, later, BadValue)
    else if Oversized(e) then
      Refuse(s, later, PayloadTooLarge)
    else if id !in s.t.jobs then
      Refuse(s, later, LeaseLost)
    else
      var job := s.t.jobs[id].record;
      var stored := StoredDocument(s.t, KindOf(e), ResourceOf(e));
      if !Active(job.status) && !job.status.Succeeded? then
        Refuse(s, later, LeaseLost)
      else if !Owns(job, KindOf(e), ResourceOf(e)) then
        Refuse(s, later, IllegalTransition)
      else if job.status.Succeeded? then
        if !TerminalAttempt(s.t, id, n, token, AttemptSucceeded) then Refuse(s, later, LeaseLost)
        else if stored != Some(DocumentOf(e)) then Refuse(s, later, ImmutableConflict)
        else (s.(now := later), Ok(job))
      else if !LiveLease(s.t, id, n, token, at) then
        Refuse(s, later, LeaseLost)
      else if job.status.CancelRequested? then
        StopInstead(s, id, n, token, at, later)
      else if !References(s.t, e) then
        Refuse(s, later, InsertError(e))
      else if !LiveLease(s.t, id, n, token, later) then
        Refuse(s, later, LeaseLost)
      else
        LiveLeaseHeld(s, id, n, token, later);
        var r := Commit(s, id, Publish(at), later);
        (r.0.(t := Inserted(r.0.t, e)), r.1)
  }

  lemma PublishInv(s: State, id: string, e: Evidence, at: Time, later: Time)
    requires Inv(s) && id in s.t.jobs && Enabled(CellOf(s.t, id), Publish(at))
    requires Owns(s.t.jobs[id].record, KindOf(e), ResourceOf(e)) && References(s.t, e)
    requires s.now <= at <= later
    ensures Inv(State(Inserted(MoveJob(s.t, id, Publish(at)), e), later))
  {
    StoredCell(s, id);
    var c := CellOf(s.t, id);
    MoveJobInv(s, id, Publish(at), later);
    MoveShape(c, Publish(at), s.now);
    InsertedTables(MoveJob(s.t, id, Publish(at)), e);
    hide CellsInv, AttemptsInv, PayloadsInv, UniqueInv, MoveCell, Enabled, EvidenceInv, Inserted, CellInv;
    InsertedCells(State(MoveJob(s.t, id, Publish(at)), later), e);
    PublishEvidence(s.t, id, MoveCell(c, Publish(at)), e);
  }

  lemma InsertedTables(t: Tables, e: Evidence)
    requires AttemptsInv(t) && PayloadsInv(t) && UniqueInv(t)
    ensures AttemptsInv(Inserted(t, e)) && PayloadsInv(Inserted(t, e)) && UniqueInv(Inserted(t, e))
  {
  }

  lemma PublishEvidence(t: Tables, id: string, d: Cell, e: Evidence)
    requires id in t.jobs && UniqueInv(t) && EvidenceInv(t)
    requires SameIdentity(t.jobs[id].record, d.row.record) && d.row.record.status.Succeeded?
    requires Owns(t.jobs[id].record, KindOf(e), ResourceOf(e)) && References(t, e)
    ensures EvidenceInv(Inserted(Install(t, id, d), e))
  {
    var t1 := Install(t, id, d);
    OwnersRemain(t, t1);
    InstallOthers(t, id, d);
    assert ResourceTaken(t, KindOf(e), ResourceOf(e));
    InsertedIff(t1, id, e);
    InsertedRuns(t1, e);
    InsertedDecisions(t1, e);
  }

  lemma InstallOthers(t: Tables, id: string, d: Cell)
    requires id in t.jobs && UniqueInv(t) && EvidenceInv(t)
    requires SameIdentity(t.jobs[id].record, d.row.record)
    ensures
      var t' := Install(t, id, d);
      && RunRowsInv(t') && DecisionRowsInv(t')
      && (forall j :: j in t'.jobs && j != id ==> !SameResource(t'.jobs[j].record, t'.jobs[id].record))
      && (forall j :: j in t'.jobs && j != id ==>
           (t'.jobs[j].record.status.Succeeded? <==>
              HasEvidence(t', t'.jobs[j].record.kind, t'.jobs[j].record.resourceId)))
  {
    var t' := Install(t, id, d);
    OwnersRemain(t, t');
    forall j | j in t'.jobs && j != id
      ensures !SameResource(t'.jobs[j].record, t'.jobs[id].record)
    {
      assert !SameResource(t.jobs[j].record, t.jobs[id].record);
    }
  }

  lemma InsertedCells(s: State, e: Evidence)
    requires CellsInv(s)
    ensures CellsInv(s.(t := Inserted(s.t, e)))
  {
    var t' := Inserted(s.t, e);
    forall j | j in t'.jobs
      ensures Complete(t', j) && CellOf(t', j) == CellOf(s.t, j)
    {
      assert CellOf(t', j).history == CellOf(s.t, j).history;
    }
  }

  lemma InsertedIff(t: Tables, id: string, e: Evidence)
    requires id in t.jobs && t.jobs[id].record.status.Succeeded?
    requires Owns(t.jobs[id].record, KindOf(e), ResourceOf(e))
    requires forall j :: j in t.jobs && j != id ==> !SameResource(t.jobs[j].record, t.jobs[id].record)
    requires forall j :: j in t.jobs && j != id ==>
      (t.jobs[j].record.status.Succeeded? <==> HasEvidence(t, t.jobs[j].record.kind, t.jobs[j].record.resourceId))
    ensures SucceededIffEvidence(Inserted(t, e))
  {
  }

  lemma InsertedRuns(t: Tables, e: Evidence)
    requires RunRowsInv(t) && References(t, e) && ResourceTaken(t, KindOf(e), ResourceOf(e))
    ensures RunRowsInv(Inserted(t, e))
  {
    var t' := Inserted(t, e);
    assert forall j :: j in t.jobs ==> SameIdentity(t.jobs[j].record, t'.jobs[j].record);
    OwnersRemain(t, t');
    forall r | r in t'.runs
      ensures t'.runs[r].runId == r && t'.runs[r].dataset in t'.datasets && ResourceTaken(t', RunJob, r)
    {
      assert r in t.runs || (e.RunEvidence? && r == e.run.runId);
      assert ResourceTaken(t, RunJob, r);
    }
  }

  lemma InsertedDecisions(t: Tables, e: Evidence)
    requires DecisionRowsInv(t) && References(t, e) && ResourceTaken(t, KindOf(e), ResourceOf(e))
    ensures DecisionRowsInv(Inserted(t, e))
  {
    var t' := Inserted(t, e);
    assert forall j :: j in t.jobs ==> SameIdentity(t.jobs[j].record, t'.jobs[j].record);
    OwnersRemain(t, t');
    forall r | r in t'.decisions
      ensures && t'.decisions[r].decisionId == r
              && t'.decisions[r].baselineRunId in t'.runs && t'.decisions[r].candidateRunId in t'.runs
              && ResourceTaken(t', ComparisonJob, r)
    {
      assert r in t.decisions || (e.DecisionEvidence? && r == e.decision.decisionId);
      assert ResourceTaken(t, ComparisonJob, r);
    }
  }

  // ---------------------------------------------------------------- reap_expired_jobs

  /** A held job whose lease is over at time `at`. */
  predicate Lapsed(t: Tables, id: string, at: Time) {
    && id in t.jobs
    && Active(t.jobs[id].record.status)
    && AttemptKey(id, t.jobs[id].record.attemptCount) in t.attempts
    && t.attempts[AttemptKey(id, t.jobs[id].record.attemptCount)].status.AttemptRunning?
    && t.attempts[AttemptKey(id, t.jobs[id].record.attemptCount)].leaseExpiresAt <= at
  }

  function ExpiryKey(t: Tables, id: string): Key
    requires id in t.jobs && AttemptKey(id, t.jobs[id].record.attemptCount) in t.attempts
  {
    [Num(t.attempts[AttemptKey(id, t.jobs[id].record.attemptCount)].leaseExpiresAt), Text(id)]
  }

  function LapsedKeys(t: Tables, at: Time): set<Key> {
    set id | id in t.jobs && Lapsed(t, id, at) :: ExpiryKey(t, id)
  }

  function KeyIds(keys: seq<Key>): (ids: seq<string>)
    requires forall k: Key :: k in keys ==> |k| == 2 && k[1].Text?
    ensures |ids| == |keys|
    ensures forall i :: 0 <= i < |ids| ==> ids[i] == keys[i][1].s
  {
    if keys == [] then [] else [keys[0][1].s] + KeyIds(keys[1..])
  }

  /** SELECT the lapsed jobs ORDER BY lease_expires_at, job_id LIMIT limit. */
  function LapsedBatch(t: Tables, at: Time, limit: nat): seq<string> {
    var keys := SortedKeys(LapsedKeys(t, at));
    assert forall k: Key :: k in keys ==> |k| == 2 && k[1].Text?;
    KeyIds(if limit < |keys| then keys[..limit] else keys)
  }

  predicate Distinct(ids: seq<string>) {
    forall i, j :: 0 <= i < j < |ids| ==> ids[i] != ids[j]
  }

  predicate AllLapsed(t: Tables, ids: seq<string>, at: Time) {
    forall i :: 0 <= i < |ids| ==> Lapsed(t, ids[i], at)
  }

  lemma LapsedBatchMembers(t: Tables, at: Time, limit: nat)
    ensures AllLapsed(t, LapsedBatch(t, at, limit), at)
    ensures Distinct(LapsedBatch(t, at, limit))
  {
    var keys := SortedKeys(LapsedKeys(t, at));
    var taken := if limit < |keys| then keys[..limit] else keys;
    var ids := LapsedBatch(t, at, limit);
    forall i | 0 <= i < |taken|
      ensures Lapsed(t, ids[i], at) && taken[i] == ExpiryKey(t, ids[i])
    {
      assert taken[i] == keys[i] && keys[i] in keys;
      var id :| id in t.jobs && Lapsed(t, id, at) && ExpiryKey(t, id) == taken[i];
    }
    forall i, j | 0 <= i < j < |ids|
      ensures ids[i] != ids[j]
    {
      KeyTotal(taken[i], taken[j]);
    }
  }

  /** What recovery does to one lapsed job. */
  function ExpiryMove(job: JobRecord, base: int, cap: int, at: Time): Move
    requires 1 <= job.attemptCount
  {
    if job.status.CancelRequested? then Stop(at)
    else if job.maxAttempts <= job.attemptCount then Exhaust(at)
    else Expire(at, Backoff(base, cap, job.attemptCount))
  }

  predicate ReapBounds(limit: int, base: int, cap: int) {
    1 <= limit <= 100 && 1 <= base <= 300 && 1 <= cap <= 3600 && base <= cap
  }

  lemma ExpiryAt(job: JobRecord, base: int, cap: int, at: Time)
    requires 1 <= job.attemptCount
    ensures ExpiryMove(job, base, cap, at).at == at
    ensures var m := ExpiryMove(job, base, cap, at); m.Stop? || m.Exhaust? || m.Expire?
  {
  }

  lemma LapsedEnabled(s: State, id: string, base: int, cap: int, at: Time)
    requires Inv(s) && Lapsed(s.t, id, at) && 1 <= base <= cap <= 3600
    ensures Complete(s.t, id) && 1 <= s.t.jobs[id].record.attemptCount
    ensures Enabled(CellOf(s.t, id), ExpiryMove(s.t.jobs[id].record, base, cap, at))
  {
    hide Inv, CellInv, Backoff;
    StoredCell(s, id);
    LastOfCell(s.t, id);
    BackoffBounds(base, cap, 1, s.t.jobs[id].record.attemptCount);
  }

  /** Recovery of one lapsed job, `d` later. */
  function ExpireOne(s: State, id: string, base: int, cap: int, d: nat): (State, JobRecord)
    requires Inv(s) && Lapsed(s.t, id, s.now) && 1 <= base <= cap <= 3600
  {
    var at := s.now + d;
    LapsedEnabled(s, id, base, cap, at);
    var r := Commit(s, id, ExpiryMove(s.t.jobs[id].record, base, cap, at), at);
    (r.0, r.1.value)
  }

  lemma ExpireOneInv(s: State, id: string, base: int, cap: int, d: nat)
    requires Inv(s) && Lapsed(s.t, id, s.now) && 1 <= base <= cap <= 3600
    ensures Inv(ExpireOne(s, id, base, cap, d).0)
    ensures ExpireOne(s, id, base, cap, d).0.now == s.now + d
  {
    hide Inv, CellInv, MoveCell, MoveJob, Enabled, ExpiryMove;
    StoredCell(s, id);
    LapsedEnabled(s, id, base, cap, s.now + d);
    var m := ExpiryMove(s.t.jobs[id].record, base, cap, s.now + d);
    ExpiryAt(s.t.jobs[id].record, base, cap, s.now + d);
    assert ExpireOne(s, id, base, cap, d).0 == State(MoveJob(s.t, id, m), s.now + d);
    QuietMoveInv(s, id, m, s.now + d);
  }

  /** Recovering one job leaves every other job lapsed or not as it was. */
  lemma ExpireOneOthers(s: State, id: string, base: int, cap: int, d: nat, j: string, at: Time)
    requires Inv(s) && Lapsed(s.t, id, s.now) && 1 <= base <= cap <= 3600
    ensures Lapsed(ExpireOne(s, id, base, cap, d).0.t, j, at) <==> j != id && Lapsed(s.t, j, at)
  {
    StoredCell(s, id);
    hide Inv, CellInv, MoveCell, Enabled, Lapsed;
    LapsedEnabled(s, id, base, cap, s.now + d);
    var c := CellOf(s.t, id);
    var m := ExpiryMove(s.t.jobs[id].record, base, cap, s.now + d);
    ExpiryAt(s.t.jobs[id].record, base, cap, s.now + d);
    ExpiryDeactivates(c, m);
    InstallLapsed(s.t, id, MoveCell(c, m), j, at);
  }

  lemma ExpiryDeactivates(c: Cell, m: Move)
    requires Enabled(c, m) && (m.Stop? || m.Exhaust? || m.Expire?)
    ensures !Active(MoveCell(c, m).row.record.status)
  {
  }

  lemma InstallLapsed(t: Tables, id: string, d: Cell, j: string, at: Time)
    requires !Active(d.row.record.status)
    ensures Lapsed(Install(t, id, d), j, at) <==> j != id && Lapsed(t, j, at)
  {
  }

  function Delay(ds: seq<nat>): nat {
    if ds == [] then 0 else ds[0]
  }

  function Rest(ds: seq<nat>): seq<nat> {
    if ds == [] then [] else ds[1..]
  }

  /** Recovery of a batch in its order; each job reads the clock once more. */
  function ExpireAll(s: State, ids: seq<string>, base: int, cap: int, ds: seq<nat>)
    : (r: (State, seq<JobRecord>))
    requires Inv(s) && AllLapsed(s.t, ids, s.now) && Distinct(ids) && 1 <= base <= cap <= 3600
    ensures Inv(r.0) && s.now <= r.0.now
    decreases |ids|
  {
    if ids == [] then (s, [])
    else
      ExpireOneInv(s, ids[0], base, cap, Delay(ds));
      var one := ExpireOne(s, ids[0], base, cap, Delay(ds));
      ExpiredRest(s, ids, base, cap, Delay(ds));
      var rest := ExpireAll(one.0, ids[1..], base, cap, Rest(ds));
      (rest.0, [one.1] + rest.1)
  }

  lemma LapsedLater(t: Tables, id: string, at: Time, later: Time)
    requires Lapsed(t, id, at) && at <= later
    ensures Lapsed(t, id, later)
  {
  }

  lemma ExpiredRest(s: State, ids: seq<string>, base: int, cap: int, d: nat)
    requires Inv(s) && AllLapsed(s.t, ids, s.now) && Distinct(ids) && 1 <= base <= cap <= 3600
    requires ids != []
    ensures AllLapsed(ExpireOne(s, ids[0], base, cap, d).0.t, ids[1..], s.now + d)
    ensures Distinct(ids[1..])
  {
    hide Inv, Lapsed, ExpireOne;
    var s' := ExpireOne(s, ids[0], base, cap, d).0;
    forall i | 0 <= i < |ids[1..]|
      ensures Lapsed(s'.t, ids[1..][i], s.now + d)
    {
      assert ids[i + 1] != ids[0];
      assert Lapsed(s.t, ids[i + 1], s.now);
      ExpireOneOthers(s, ids[0], base, cap, d, ids[i + 1], s.now + d);
      LapsedLater(s.t, ids[i + 1], s.now, s.now + d);
    }
  }

  function ReapExpiredJobs(s: State, limit: int, base: int, cap: int, d1: nat, ds: seq<nat>)
    : (State, Result<seq<JobRecord>, Error>)
    requires Inv(s)
  {
    var at := s.now + d1;
    if !ReapBounds(limit, base, cap) then
      Refuse(s, at, BadValue)
    else
      WaitInv(s, at);
      LapsedBatchMembers(s.t, at, limit);
      var r := ExpireAll(s.(now := at), LapsedBatch(s.t, at, limit), base, cap, ds);
      (r.0, Ok(r.1))
  }

  // ---------------------------------------------------------------- all operations as events

  datatype Event =
    | DoBegin(record: JobRecord, payload: Payload, d1: nat)
    | DoClaim(worker: string, token: string, seconds: int, d1: nat, d2: nat)
    | DoHeartbeat(id: string, n: int, token: string, seconds: int, d1: nat, d2: nat)
    | DoRetry(id: string, n: int, token: string, delay: int, code: string, d1: nat, d2: nat)
    | DoFail(id: string, n: int, token: string, code: string, d1: nat, d2: nat)
    | DoReap(limit: int, base: int, cap: int, d1: nat, ds: seq<nat>)
    | DoCancel(id: string, d1: nat)
    | DoAcknowledge(id: string, n: int, token: string, d1: nat, d2: nat)
    | DoComplete(id: string, evidence: Evidence, n: int, token: string, d1: nat, d2: nat)
    | DoPutDataset(dataset: string, d1: nat)

  function Next(s: State, e: Event): State
    requires Inv(s)
  {
    match e
    case DoBegin(record, payload, d1) => BeginJob(s, record, payload, d1).0
    case DoClaim(worker, token, seconds, d1, d2) => ClaimNextJob(s, worker, token, seconds, d1, d2).0
    case DoHeartbeat(id, n, token, seconds, d1, d2) => HeartbeatJob(s, id, n, token, seconds, d1, d2).0
    case DoRetry(id, n, token, delay, code, d1, d2) => RetryJob(s, id, n, token, delay, code, d1, d2).0
    case DoFail(id, n, token, code, d1, d2) => FailJob(s, id, n, token, code, d1, d2).0
    case DoReap(limit, base, cap, d1, ds) => ReapExpiredJobs(s, limit, base, cap, d1, ds).0
    case DoCancel(id, d1) => CancelJob(s, id, d1).0
    case DoAcknowledge(id, n, token, d1, d2) => AcknowledgeCancellation(s, id, n, token, d1, d2).0
    case DoComplete(id, evidence, n, token, d1, d2) => CompleteJob(s, id, evidence, n, token, d1, d2).0
    case DoPutDataset(dataset, d1) => State(s.t.(datasets := s.t.datasets + {dataset}), s.now + d1)
  }
}
