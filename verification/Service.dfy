/** The submission service: an idempotent replay first, then validation, then one enqueue, with
    other callers free to act between its two repository calls. */
module Service {
  import opened Common
  import opened Lifecycle
  import opened Cells
  import opened Store
  import opened Steps
  import opened JobRepository
  import opened Submission
  import opened Effects

  datatype SubmissionError = KeyReused | MissingDependency | InvalidSubmission | IdentityTaken | StoreRefused

  /** What a client asks for, and the identifiers and time the service picks for a new job. */
  datatype Request = Request(kind: JobKind, key: string, digest: string, dataset: string, body: string)

  datatype Identity = Identity(jobId: string, resourceId: string, now: Time)

  datatype SubmissionResult = SubmissionResult(job: JobRecord, created: bool)

  function Proposed(r: Request, id: Identity, maxAttempts: int): JobRecord {
    JobRecord(id.jobId, r.kind, Queued, r.key, r.digest, id.resourceId, 0, maxAttempts, id.now, None, id.now, id.now)
  }

  /** How an enqueue of a new record ends, read off the tables: too large, answered or refused for the
      holder of its key, refused for an identifier in use, or stored with its payload. */
  ghost predicate Enqueues(s: State, t': Tables, record: JobRecord, body: string,
                           answer: Result<SubmissionResult, SubmissionError>) {
    if 4194304 < |body| then answer == Err(StoreRefused) && t' == s.t
    else if NoCollision(s.t, record) then
      && answer == Ok(SubmissionResult(record, true))
      && t' == s.t.(jobs := s.t.jobs[record.jobId := JobRow(record, 0)],
                    payloads := s.t.payloads[record.jobId := PayloadRow(Payload(record.kind, body), record.createdAt)])
    else
      && t' == s.t
      && (forall j :: KeyHolder(s.t, record, j) ==>
            answer == if s.t.jobs[j].record.requestDigest == record.requestDigest
                      then Ok(SubmissionResult(s.t.jobs[j].record, false)) else Err(KeyReused))
      && ((forall j :: !KeyHolder(s.t, record, j)) ==> answer == Err(IdentityTaken))
  }

  function Translated(begun: Result<(JobRecord, bool), Error>): Result<SubmissionResult, SubmissionError> {
    match begun
    case Ok(result) => Ok(SubmissionResult(result.0, result.1))
    case Err(IdempotencyConflict) => Err(KeyReused)
    case Err(ResourceAlreadySubmitted) => Err(IdentityTaken)
    case Err(ImmutableConflict) => Err(IdentityTaken)
    case Err(_) => Err(StoreRefused)
  }

  lemma EnqueueDecided(s: State, record: JobRecord, body: string, d1: nat)
    requires Inv(s) && FirstRecord(record, Payload(record.kind, body))
    ensures
      var r := BeginJob(s, record, Payload(record.kind, body), d1);
      Enqueues(s, r.0.t, record, body, Translated(r.1))
  {
    hide Inv, BeginJob, FirstRecord, NoCollision, ResourceHolder;
    var payload := Payload(record.kind, body);
    if |body| <= 4194304 && NoCollision(s.t, record) {
      BeginCreates(s, record, payload, d1);
    } else {
      BeginOtherwise(s, record, payload, d1, "");
      forall j | KeyHolder(s.t, record, j)
        ensures
          var r := BeginJob(s, record, payload, d1).1;
          |body| <= 4194304 ==>
            r == if s.t.jobs[j].record.requestDigest == record.requestDigest
                 then Ok((s.t.jobs[j].record, false)) else Err(IdempotencyConflict)
      {
        BeginOtherwise(s, record, payload, d1, j);
      }
    }
  }

  class ControlPlaneService {
    const repository: Repository
    const maxAttempts: int

    constructor (repository: Repository, maxAttempts: int)
      ensures this.repository == repository && this.maxAttempts == maxAttempts
    {
      this.repository, this.maxAttempts := repository, maxAttempts;
    }

    /** Submits a run. Success is a job on record under the request's key and digest, which is
        either the one that was there before or the one proposed now; a key held for another
        request is always refused. A request already on record is answered before its dataset and
        plan are looked at. */
    method SubmitRun(r: Request, valid: bool, id: Identity, others: seq<Event>, d1: nat)
      returns (answer: Result<SubmissionResult, SubmissionError>)
      requires repository.Valid() && 1 <= maxAttempts <= 10 && r.kind.RunJob?
      modifies repository
      ensures repository.Valid()
      ensures answer.Ok? ==>
                && Submitted(repository.Rows(), r.kind, r.key, r.digest, answer.value.job.jobId)
                && repository.Rows().jobs[answer.value.job.jobId].record == answer.value.job
                && (answer.value.created ==> answer.value.job == Proposed(r, id, maxAttempts))
      ensures
        match IdempotentReplay(old(repository.View()), r.kind, r.key, r.digest)
        case Err(_) => answer == Err(KeyReused) && repository.View() == old(repository.View())
        case Ok(Some(job)) => answer == Ok(SubmissionResult(job, false)) && repository.View() == old(repository.View())
        case Ok(None) =>
          && (r.dataset !in old(repository.datasets) ==> answer == Err(MissingDependency))
          && (r.dataset in old(repository.datasets) && !valid ==> answer == Err(InvalidSubmission))
          && (r.dataset in old(repository.datasets) && valid ==>
                && Inv(old(repository.View()))
                && var s := Run(old(repository.View()), others);
                   Enqueues(s, repository.Rows(), Proposed(r, id, maxAttempts), r.body, answer))
    {
      InvTables(repository.View());
      hide Inv, AttemptsInv, PayloadsInv, EvidenceInv, ValidRecord, Enqueues;
      var t := repository.Rows();
      if KeyTaken(t, r.kind, r.key) {
        var existing := t.jobs[JobByKey(t, r.kind, r.key)].record;
        StoredCell(repository.View(), existing.jobId);
        if existing.requestDigest != r.digest {
          return Err(KeyReused);
        }
        return Ok(SubmissionResult(existing, false));
      }
      if r.dataset !in repository.datasets {
        return Err(MissingDependency);
      }
      if !valid {
        return Err(InvalidSubmission);
      }
      repository.ExecuteAll(others);
      var proposed := Proposed(r, id, maxAttempts);
      ProposedIsNew(r, id, maxAttempts);
      BeginAnswers(repository.View(), proposed, Payload(r.kind, r.body), d1);
      EnqueueDecided(repository.View(), proposed, r.body, d1);
      var begun := repository.BeginJob(proposed, Payload(r.kind, r.body), d1);
      answer := Translated(begun);
    }
  }

  lemma ProposedIsNew(r: Request, id: Identity, maxAttempts: int)
    requires 1 <= maxAttempts <= 10
    ensures NewRecord(Proposed(r, id, maxAttempts), Payload(r.kind, r.body))
  {
  }

  /** Enqueuing a new record either records it, answers with the job already under its key, names
      one of three conflicts, or finds the payload too large. */
  lemma BeginAnswers(s: State, record: JobRecord, payload: Payload, d1: nat)
    requires Inv(s) && NewRecord(record, payload)
    ensures
      var r := BeginJob(s, record, payload, d1);
      match r.1
      case Ok(result) =>
        && Submitted(r.0.t, record.kind, record.idempotencyKey, record.requestDigest, result.0.jobId)
        && r.0.t.jobs[result.0.jobId].record == result.0 && (result.1 ==> result.0 == record)
      case Err(e) =>
        || e == IdempotencyConflict || e == ResourceAlreadySubmitted || e == ImmutableConflict
        || (e == PayloadTooLarge && MAX_PAYLOAD_BYTES < |payload.body|)
  {
    hide Inv, KeyTaken, ResourceTaken, NewRecord;
    if BeginJob(s, record, payload, d1).1.Ok? {
      BeginSubmits(s, record, payload, d1);
    }
  }

  /** Submitting the same request twice, with anything at all in between, answers with one job. */
  method SubmitTwice(service: ControlPlaneService, r: Request, valid1: bool, id1: Identity, others1: seq<Event>,
                     d1: nat, between: seq<Event>, valid2: bool, id2: Identity, others2: seq<Event>, d2: nat)
    returns (first: Result<SubmissionResult, SubmissionError>, second: Result<SubmissionResult, SubmissionError>)
    requires service.repository.Valid() && 1 <= service.maxAttempts <= 10 && r.kind.RunJob?
    modifies service.repository
    ensures service.repository.Valid()
    ensures first.Ok? ==>
              && second.Ok? && !second.value.created
              && second.value.job.jobId == first.value.job.jobId
              && Consistent(first.value.job, second.value.job, r.kind)
  {
    hide Inv, Consistent;
    first := service.SubmitRun(r, valid1, id1, others1, d1);
    ghost var s := service.repository.View();
    service.repository.ExecuteAll(between);
    if first.Ok? {
      var id := first.value.job.jobId;
      ObservationsConsistent(s, between, id);
      ReplayOfSubmitted(s, between, r, id);
    }
    second := service.SubmitRun(r, valid2, id2, others2, d2);
  }

  lemma ReplayOfSubmitted(s: State, events: seq<Event>, r: Request, id: string)
    requires Inv(s) && Submitted(s.t, r.kind, r.key, r.digest, id)
    ensures
      var s' := Run(s, events);
      && id in s'.t.jobs && s'.t.jobs[id].record.jobId == id
      && IdempotentReplay(s', r.kind, r.key, r.digest) == Ok(Some(s'.t.jobs[id].record))
  {
    hide Inv, CellInv;
    var record := Proposed(r, Identity("", "", 0), 1);
    ProposedIsNew(r, Identity("", "", 0), 1);
    ReplayFindsSameJob(s, events, id, record, Payload(r.kind, ""), 0);
    StoredCell(Run(s, events), id);
  }
}
