/** Submitting a job and watching it: idempotent replays of a submission, and the views of
    one job that a polling client accepts as consistent. */
module Submission {
  import opened Common
  import opened Lifecycle
  import opened Cells
  import opened Store
  import opened Steps
  import opened Runs

  // ---------------------------------------------------------------- idempotent submission

  /** The durable replay looked up before a submission consults anything else. */
  function IdempotentReplay(s: State, kind: JobKind, key: string, digest: string): Result<Option<JobRecord>, Error>
    requires Inv(s)
  {
    if !KeyTaken(s.t, kind, key) then Ok(None)
    else
      var existing := s.t.jobs[JobByKey(s.t, kind, key)].record;
      if existing.requestDigest != digest then Err(IdempotencyConflict) else Ok(Some(existing))
  }

  /** The job submitted under this key for this request is `id`. */
  predicate Submitted(t: Tables, kind: JobKind, key: string, digest: string, id: string) {
    && id in t.jobs
    && t.jobs[id].record.kind == kind && t.jobs[id].record.idempotencyKey == key
    && t.jobs[id].record.requestDigest == digest
  }

  lemma KeyIsUnique(t: Tables, kind: JobKind, key: string, digest: string, id: string)
    requires UniqueInv(t) && Submitted(t, kind, key, digest, id)
    ensures KeyTaken(t, kind, key) && JobByKey(t, kind, key) == id
  {
    assert KeyTaken(t, kind, key);
    var j := JobByKey(t, kind, key);
    assert SameKey(t.jobs[j].record, t.jobs[id].record);
  }

  /** An accepted submission is on record, whether it was new or a replay. */
  lemma BeginSubmits(s: State, record: JobRecord, payload: Payload, d1: nat)
    requires Inv(s) && BeginJob(s, record, payload, d1).1.Ok?
    ensures
      var r := BeginJob(s, record, payload, d1);
      var job := r.1.value.0;
      && Submitted(r.0.t, record.kind, record.idempotencyKey, record.requestDigest, job.jobId)
      && r.0.t.jobs[job.jobId].record == job
      && (r.1.value.1 <==> record.jobId !in s.t.jobs && job == record)
  {
    InvTables(s);
    if Collides(s.t, record) {
      StoredCell(s, JobByKey(s.t, record.kind, record.idempotencyKey));
    }
    hide Inv, CellInv, AttemptsInv, PayloadsInv, EvidenceInv;
  }

  /** Over any interleaving, a later proposal under the same key creates nothing: for the same
      request it answers with that same job, for another request it is a conflict. */
  lemma ReplayFindsSameJob(s: State, events: seq<Event>, id: string, record: JobRecord, payload: Payload, d1: nat)
    requires Inv(s) && NewRecord(record, payload)
    requires id in s.t.jobs && SameKey(s.t.jobs[id].record, record)
    ensures
      var s' := Run(s, events);
      var r := BeginJob(s', record, payload, d1);
      && id in s'.t.jobs && r.0.t == s'.t
      && (MAX_PAYLOAD_BYTES < |payload.body| ==> r.1 == Err(PayloadTooLarge))
      && (s.t.jobs[id].record.requestDigest == record.requestDigest ==>
            && (|payload.body| <= MAX_PAYLOAD_BYTES ==> r.1 == Ok((s'.t.jobs[id].record, false)))
            && IdempotentReplay(s', record.kind, record.idempotencyKey, record.requestDigest)
                 == Ok(Some(s'.t.jobs[id].record)))
      && (s.t.jobs[id].record.requestDigest != record.requestDigest ==>
            && (|payload.body| <= MAX_PAYLOAD_BYTES ==> r.1 == Err(IdempotencyConflict))
            && IdempotentReplay(s', record.kind, record.idempotencyKey, record.requestDigest)
                 == Err(IdempotencyConflict))
  {
    hide Inv, CellInv, AttemptsInv, PayloadsInv, EvidenceInv, UniqueInv;
    RunLater(s, events, id);
    var s' := Run(s, events);
    InvTables(s');
    KeyIsUnique(s'.t, record.kind, record.idempotencyKey, s.t.jobs[id].record.requestDigest, id);
  }

  /** In every reachable store there is at most one job per (kind, idempotency_key) and at most
      one per (kind, resource_id). */
  lemma OneJobPerKey(start: Time, events: seq<Event>, a: string, b: string)
    requires
      var t := Reached(start, events).t;
      a in t.jobs && b in t.jobs
      && (SameKey(t.jobs[a].record, t.jobs[b].record) || SameResource(t.jobs[a].record, t.jobs[b].record))
    ensures a == b
  {
    var s := Reached(start, events);
    InvTables(s);
    hide Inv;
    assert UniqueInv(s.t);
  }

  // ---------------------------------------------------------------- the polling client

  /** Timestamps as the client compares them: whole milliseconds. */
  function Millis(t: Time): int {
    t / 1000
  }

  predicate IsLocalJob(job: JobRecord, kind: JobKind) {
    && job.kind == kind
    && 0 <= job.attemptCount && 0 < job.maxAttempts && job.attemptCount <= job.maxAttempts
    && Millis(job.createdAt) <= Millis(job.updatedAt)
    && (job.errorCode.Some? ==> 1 <= |job.errorCode.value| <= 64)
  }

  /** The client's test of a new view against the one it held. */
  predicate Consistent(previous: JobRecord, value: JobRecord, kind: JobKind) {
    && IsLocalJob(previous, kind) && IsLocalJob(value, kind)
    && value.jobId == previous.jobId && value.resourceId == previous.resourceId
    && value.createdAt == previous.createdAt && value.maxAttempts == previous.maxAttempts
    && previous.attemptCount <= value.attemptCount
    && Millis(previous.updatedAt) <= Millis(value.updatedAt)
    && (Terminal(previous.status) ==> value.status == previous.status)
  }

  lemma MillisMonotone(a: Time, b: Time)
    requires a <= b
    ensures Millis(a) <= Millis(b)
  {
  }

  lemma LaterConsistent(c: Cell, d: Cell, now: Time, later: Time)
    requires CellInv(c, now) && CellInv(d, later) && Later(c, d)
    ensures Consistent(c.row.record, d.row.record, c.row.record.kind)
  {
    hide HistoryInv, VersionOf, LastFits;
    MillisMonotone(c.row.record.createdAt, c.row.record.updatedAt);
    MillisMonotone(d.row.record.createdAt, d.row.record.updatedAt);
    MillisMonotone(c.row.record.updatedAt, d.row.record.updatedAt);
  }

  /** Observations are monotone: a view of a job taken at any time and a view taken after any
      further run always pass the client's consistency test. */
  lemma ObservationsConsistent(s: State, events: seq<Event>, id: string)
    requires Inv(s) && id in s.t.jobs
    ensures
      var t' := Run(s, events).t;
      id in t'.jobs && Consistent(s.t.jobs[id].record, t'.jobs[id].record, s.t.jobs[id].record.kind)
  {
    hide Inv, CellInv, Later;
    RunLater(s, events, id);
    StoredCell(s, id);
    StoredCell(Run(s, events), id);
    LaterConsistent(CellOf(s.t, id), CellOf(Run(s, events).t, id), s.now, Run(s, events).now);
  }
}
