/** What holds over whole runs of the store: any operations, by any callers, in any order. */
module Runs {
  import opened Common
  import opened Lifecycle
  import opened Cells
  import opened Store
  import opened Steps

  // ---------------------------------------------------------------- jobs only move forward

  /** An attempt keeps its owner and token, and once ended never changes. */
  predicate AttemptLater(a: Attempt, b: Attempt) {
    && a.workerId == b.workerId && a.leaseToken == b.leaseToken && a.startedAt == b.startedAt
    && (!a.status.AttemptRunning? ==> a == b)
  }

  /** `d` is a possible future of `c`. */
  predicate Later(c: Cell, d: Cell) {
    && SameIdentity(c.row.record, d.row.record)
    && c.row.version <= d.row.version
    && (c.row.version == d.row.version ==> c.row == d.row)
    && c.row.record.attemptCount <= d.row.record.attemptCount
    && c.row.record.updatedAt <= d.row.record.updatedAt
    && |c.history| <= |d.history|
    && (forall i :: 0 <= i < |c.history| ==> AttemptLater(c.history[i], d.history[i]))
    && (Terminal(c.row.record.status) ==> c == d)
    && (c.row.record.status.CancelRequested? ==>
          && (d.row.record.status.CancelRequested? || d.row.record.status.Canceled?)
          && c.row.record.attemptCount == d.row.record.attemptCount)
  }

  lemma LaterTransitive(c: Cell, d: Cell, e: Cell)
    requires Later(c, d) && Later(d, e)
    ensures Later(c, e)
  {
    forall i | 0 <= i < |c.history|
      ensures AttemptLater(c.history[i], e.history[i])
    {
      assert AttemptLater(c.history[i], d.history[i]);
      assert AttemptLater(d.history[i], e.history[i]);
    }
  }

  lemma MoveLater(c: Cell, m: Move, now: Time)
    requires CellInv(c, now) && Enabled(c, m)
    ensures Later(c, MoveCell(c, m))
    ensures MoveCell(c, m).row.version <= c.row.version + 1
  {
    MoveShape(c, m, now);
    hide CellInv, HistoryInv;
  }

  lemma SmallLater(s: State, f: Effect, s': State, id: string)
    requires Small(s, f, s') && id in s.t.jobs
    ensures Complete(s.t, id) && Complete(s'.t, id) && Later(CellOf(s.t, id), CellOf(s'.t, id))
  {
    hide Inv, MoveCell, Enabled, Effected, Later, CellInv;
    StoredCell(s, id);
    SmallCell(s, f, s', id);
    var c := CellOf(s.t, id);
    LaterReflexive(c);
    match f
    case MoveOne(j, m) =>
      if j == id {
        MoveLater(c, m, s.now);
      }
    case PublishOne(j, at, _) =>
      if j == id {
        MoveLater(c, Publish(at), s.now);
      }
    case _ =>
  }

  lemma LaterReflexive(c: Cell)
    ensures Later(c, c)
  {
  }

  lemma {:induction false} PathLater(s: State, steps: seq<Step>, id: string)
    requires Path(s, steps) && id in s.t.jobs
    ensures Complete(s.t, id) && Complete(PathEnd(s, steps).t, id)
    ensures Later(CellOf(s.t, id), CellOf(PathEnd(s, steps).t, id))
    decreases |steps|
  {
    hide Inv, Small, Later, Complete;
    StoredCell(s, id);
    LaterReflexive(CellOf(s.t, id));
    if steps != [] {
      var s1 := steps[0].to;
      SmallLater(s, steps[0].effect, s1, id);
      JobOfComplete(s1.t, id);
      PathLater(s1, steps[1..], id);
      LaterTransitive(CellOf(s.t, id), CellOf(s1.t, id), CellOf(PathEnd(s, steps).t, id));
    }
  }

  lemma JobOfComplete(t: Tables, id: string)
    requires Complete(t, id)
    ensures id in t.jobs
  {
  }

  /** In every run a job only moves forward: identity and ended attempts never change, counts,
      versions and update times never fall, a terminal job never changes again, and a job whose
      cancellation was requested can only become canceled. */
  lemma RunLater(s: State, events: seq<Event>, id: string)
    requires Inv(s) && id in s.t.jobs
    ensures Complete(s.t, id) && Complete(Run(s, events).t, id)
    ensures Later(CellOf(s.t, id), CellOf(Run(s, events).t, id))
  {
    hide Inv, Small, Later, Complete;
    var steps := RunPath(s, events);
    PathLater(s, steps, id);
  }

  lemma RunAfter(s: State, e: Event, events: seq<Event>)
    requires Inv(s)
    ensures Inv(Next(s, e)) && Run(s, [e] + events) == Run(Next(s, e), events)
  {
    hide Inv, Next;
    NextInv(s, e);
    assert ([e] + events)[1..] == events;
  }

  lemma NextLater(s: State, e: Event, id: string)
    requires Inv(s) && id in s.t.jobs
    ensures Complete(s.t, id) && Complete(Next(s, e).t, id)
    ensures Later(CellOf(s.t, id), CellOf(Next(s, e).t, id))
  {
    hide Inv, Small, Later, Complete;
    var steps := EventPath(s, e);
    PathLater(s, steps, id);
  }

  // ---------------------------------------------------------------- reachable stores

  /** The store after a run that starts with no rows at all. */
  function Reached(start: Time, events: seq<Event>): (s: State)
    ensures Inv(s)
  {
    EmptyInv(start);
    Run(State(EMPTY, start), events)
  }

  /** What is true of a job row and one of its attempts in every reachable store. */
  predicate AttemptFits(row: JobRow, n: int, a: Attempt) {
    var job := row.record;
    && ValidAttempt(a)
    && (a.status.AttemptRunning? <==> Active(job.status) && n == job.attemptCount)
    && (n < job.attemptCount ==> Superseded(a))
    && (n == job.attemptCount ==>
          && (job.status.Queued? ==> Superseded(a))
          && (job.status.Succeeded? <==> a.status.AttemptSucceeded?)
          && (Terminal(job.status) && !Superseded(a) ==> a.finishedAt == Some(job.updatedAt))
          && (job.status.Failed? ==>
                (a.status.AttemptFailed? || a.status.LeaseExpired?) && a.errorCode == job.errorCode)
          && (job.status.Canceled? ==> Superseded(a) || a.status.AttemptCanceled?))
  }

  lemma CellAttemptFits(c: Cell, now: Time, n: int)
    requires CellInv(c, now) && 1 <= n <= c.row.record.attemptCount
    ensures AttemptFits(c.row, n, c.history[n - 1])
  {
    RunningAttemptIsLast(c, now, n - 1);
    assert AttemptInv(c.history[n - 1], now);
    if n < c.row.record.attemptCount {
      assert Precedes(c.history[n - 1], c.history[n]);
    }
  }

  lemma CellVersionBound(c: Cell, now: Time)
    requires CellInv(c, now)
    ensures ValidRecord(c.row.record) && 0 <= c.row.version
    ensures c.row.version == VersionOf(c.row.record) <= 2 * c.row.record.maxAttempts + 1
  {
    hide HistoryInv;
  }

  lemma AttemptNumbers(t: Tables, id: string, n: int)
    requires AttemptsInv(t) && Complete(t, id)
    ensures AttemptKey(id, n) in t.attempts <==> 1 <= n <= t.jobs[id].record.attemptCount
  {
  }

  /** Every job of every reachable store: its attempts are exactly 1..attempt_count; the running
      one, if any, is the last and exists exactly while the job is active; earlier ones were
      superseded; every table constraint holds; and the version is a function of the state. */
  lemma ReachedJob(start: Time, events: seq<Event>, id: string, n: int)
    requires id in Reached(start, events).t.jobs
    ensures
      var t := Reached(start, events).t;
      var row := t.jobs[id];
      && ValidRecord(row.record)
      && row.version == VersionOf(row.record) <= 2 * row.record.maxAttempts + 1
      && (AttemptKey(id, n) in t.attempts <==> 1 <= n <= row.record.attemptCount)
      && (1 <= n <= row.record.attemptCount ==> AttemptFits(row, n, t.attempts[AttemptKey(id, n)]))
  {
    var s := Reached(start, events);
    StoredJob(s, id, n);
  }

  lemma StoredJob(s: State, id: string, n: int)
    requires Inv(s) && id in s.t.jobs
    ensures
      var row := s.t.jobs[id];
      && ValidRecord(row.record)
      && row.version == VersionOf(row.record) <= 2 * row.record.maxAttempts + 1
      && (AttemptKey(id, n) in s.t.attempts <==> 1 <= n <= row.record.attemptCount)
      && (1 <= n <= row.record.attemptCount ==> AttemptFits(row, n, s.t.attempts[AttemptKey(id, n)]))
  {
    hide Inv, CellInv, ValidRecord, VersionOf, AttemptFits, AttemptsInv, PayloadsInv, UniqueInv, EvidenceInv;
    InvTables(s);
    StoredCell(s, id);
    AttemptNumbers(s.t, id, n);
    CellVersionBound(CellOf(s.t, id), s.now);
    if 1 <= n <= s.t.jobs[id].record.attemptCount {
      CellAttemptFits(CellOf(s.t, id), s.now, n);
    }
  }

  /** How many operations of a run change a job's row; heartbeats do not. */
  function RowChanges(s: State, events: seq<Event>, id: string): nat
    requires Inv(s) && id in s.t.jobs
    decreases |events|
  {
    if events == [] then 0
    else
      NextInv(s, events[0]);
      NextLater(s, events[0], id);
      JobOfComplete(Next(s, events[0]).t, id);
      (if Next(s, events[0]).t.jobs[id] != s.t.jobs[id] then 1 else 0)
      + RowChanges(Next(s, events[0]), events[1..], id)
  }

  lemma {:induction false} RowChangesByVersion(s: State, events: seq<Event>, id: string)
    requires Inv(s) && id in s.t.jobs
    ensures id in Run(s, events).t.jobs
    ensures RowChanges(s, events, id) <= Run(s, events).t.jobs[id].version - s.t.jobs[id].version
    decreases |events|
  {
    hide Inv, Complete;
    if events != [] {
      var s1 := Next(s, events[0]);
      NextInv(s, events[0]);
      NextLater(s, events[0], id);
      JobOfComplete(s1.t, id);
      LaterVersions(CellOf(s.t, id), CellOf(s1.t, id));
      RowChangesByVersion(s1, events[1..], id);
    }
  }

  lemma LaterVersions(c: Cell, d: Cell)
    requires Later(c, d)
    ensures c.row.version <= d.row.version
    ensures c.row != d.row ==> c.row.version < d.row.version
  {
  }

  /** Every lifecycle terminates: however long the run, a job's row changes at most
      2 * max_attempts + 1 times after it was enqueued. */
  lemma LifecycleTerminates(s: State, events: seq<Event>, id: string)
    requires Inv(s) && id in s.t.jobs
    ensures RowChanges(s, events, id) <= 2 * s.t.jobs[id].record.maxAttempts + 1 - s.t.jobs[id].version
    ensures 0 <= s.t.jobs[id].version
  {
    hide Inv, CellInv;
    RowChangesByVersion(s, events, id);
    RunLater(s, events, id);
    StoredCell(s, id);
    StoredCell(Run(s, events), id);
    CellVersionBound(CellOf(s.t, id), s.now);
    CellVersionBound(CellOf(Run(s, events).t, id), Run(s, events).now);
  }

  // ---------------------------------------------------------------- fencing

  /** The attempt at position `i` holds this token, and it has ended or its lease is over. */
  predicate DeadAt(c: Cell, i: int, token: string, now: Time) {
    && 0 <= i < |c.history|
    && c.history[i].leaseToken == token
    && (!c.history[i].status.AttemptRunning? || c.history[i].leaseExpiresAt <= now)
  }

  predicate Dead(s: State, id: string, i: int, token: string) {
    Complete(s.t, id) && DeadAt(CellOf(s.t, id), i, token, s.now)
  }

  lemma MoveDead(c: Cell, m: Move, now: Time, later: Time, i: int, token: string)
    requires CellInv(c, now) && Enabled(c, m) && now <= m.at <= later
    requires DeadAt(c, i, token, now)
    ensures DeadAt(MoveCell(c, m), i, token, later)
  {
    hide HistoryInv;
  }

  lemma SmallDead(s: State, f: Effect, s': State, id: string, i: int, token: string)
    requires Small(s, f, s') && Dead(s, id, i, token)
    ensures Dead(s', id, i, token)
  {
    hide Inv, MoveCell, Enabled, Effected, CellInv;
    StoredCell(s, id);
    SmallCell(s, f, s', id);
    match f
    case MoveOne(j, m) =>
      if j == id {
        MoveDead(CellOf(s.t, id), m, s.now, s'.now, i, token);
      }
    case PublishOne(j, at, _) =>
      if j == id {
        MoveDead(CellOf(s.t, id), Publish(at), s.now, s'.now, i, token);
      }
    case _ =>
  }

  lemma {:induction false} PathDead(s: State, steps: seq<Step>, id: string, i: int, token: string)
    requires Path(s, steps) && Dead(s, id, i, token)
    ensures Dead(PathEnd(s, steps), id, i, token)
    decreases |steps|
  {
    hide Inv, Small, Dead;
    if steps != [] {
      SmallDead(s, steps[0].effect, steps[0].to, id, i, token);
      PathDead(steps[0].to, steps[1..], id, i, token);
    }
  }

  lemma TokensDistinct(h: seq<Attempt>, now: Time, i: int, j: int)
    requires HistoryInv(h, now) && 0 <= i < |h| && 0 <= j < |h|
    requires h[i].leaseToken == h[j].leaseToken
    ensures i == j
  {
  }

  /** A dead token passes the fence under no attempt number. */
  lemma DeadNeverLive(s: State, id: string, i: int, token: string, n: int, at: Time)
    requires Inv(s) && Dead(s, id, i, token) && s.now <= at
    ensures !LiveLease(s.t, id, n, token, at)
  {
    hide Inv, HistoryInv, ValidRecord, VersionOf, LastFits;
    StoredCell(s, id);
    if LiveLease(s.t, id, n, token, at) {
      LiveLeaseHeld(s, id, n, token, at);
      TokensDistinct(CellOf(s.t, id).history, s.now, i, |CellOf(s.t, id).history| - 1);
    }
  }

  predicate FencedEvent(e: Event, id: string, token: string) {
    match e
    case DoHeartbeat(j, _, k, _, _, _) => j == id && k == token
    case DoRetry(j, _, k, _, _, _, _) => j == id && k == token
    case DoFail(j, _, k, _, _, _) => j == id && k == token
    case DoAcknowledge(j, _, k, _, _) => j == id && k == token
    case DoComplete(j, _, _, k, _, _) => j == id && k == token
    case _ => false
  }

  lemma HeartbeatIdle(s: State, id: string, n: int, token: string, seconds: int, d1: nat, d2: nat)
    requires Inv(s) && !LiveLease(s.t, id, n, token, s.now + d1 + d2)
    ensures HeartbeatJob(s, id, n, token, seconds, d1, d2).0.t == s.t
  {
    hide Inv, LiveLease;
  }

  lemma RetryIdle(s: State, id: string, n: int, token: string, delay: int, code: string, d1: nat, d2: nat)
    requires Inv(s) && !LiveLease(s.t, id, n, token, s.now + d1)
    ensures RetryJob(s, id, n, token, delay, code, d1, d2).0.t == s.t
  {
    hide Inv, LiveLease, SafeCode;
  }

  lemma FailIdle(s: State, id: string, n: int, token: string, code: string, d1: nat, d2: nat)
    requires Inv(s) && !LiveLease(s.t, id, n, token, s.now + d1)
    ensures FailJob(s, id, n, token, code, d1, d2).0.t == s.t
  {
    hide Inv, LiveLease, SafeCode;
  }

  lemma AcknowledgeIdle(s: State, id: string, n: int, token: string, d1: nat, d2: nat)
    requires Inv(s) && !LiveLease(s.t, id, n, token, s.now + d1)
    ensures AcknowledgeCancellation(s, id, n, token, d1, d2).0.t == s.t
  {
    hide Inv, LiveLease;
  }

  lemma CompleteIdle(s: State, id: string, evidence: Evidence, n: int, token: string, d1: nat, d2: nat)
    requires Inv(s) && !LiveLease(s.t, id, n, token, s.now + d1)
    ensures CompleteJob(s, id, evidence, n, token, d1, d2).0.t == s.t
  {
    hide Inv, LiveLease;
  }

  lemma DeadTokenIdle(s: State, id: string, i: int, token: string, e: Event)
    requires Inv(s) && Dead(s, id, i, token) && FencedEvent(e, id, token)
    ensures Next(s, e).t == s.t
  {
    hide Inv, LiveLease, Dead, HeartbeatJob, RetryJob, FailJob, AcknowledgeCancellation, CompleteJob;
    DeadNeverLive(s, id, i, token, e.n, s.now + e.d1);
    DeadNeverLive(s, id, i, token, e.n, s.now + e.d1 + e.d2);
    match e
    case DoHeartbeat(_, n, _, seconds, d1, d2) => HeartbeatIdle(s, id, n, token, seconds, d1, d2);
    case DoRetry(_, n, _, delay, code, d1, d2) => RetryIdle(s, id, n, token, delay, code, d1, d2);
    case DoFail(_, n, _, code, d1, d2) => FailIdle(s, id, n, token, code, d1, d2);
    case DoAcknowledge(_, n, _, d1, d2) => AcknowledgeIdle(s, id, n, token, d1, d2);
    case DoComplete(_, evidence, n, _, d1, d2) => CompleteIdle(s, id, evidence, n, token, d1, d2);
  }

  /** Fencing over whole runs: once an attempt has ended or its lease is over, no fenced
      operation with its token, under any attempt number, ever changes a table again. */
  lemma DeadTokenFenced(s: State, events: seq<Event>, id: string, i: int, token: string, e: Event)
    requires Inv(s) && Dead(s, id, i, token) && FencedEvent(e, id, token)
    ensures Next(Run(s, events), e).t == Run(s, events).t
  {
    hide Inv, Small, Dead;
    var steps := RunPath(s, events);
    PathDead(s, steps, id, i, token);
    DeadTokenIdle(Run(s, events), id, i, token, e);
  }

  /** At any instant at most one (attempt, token) of a job passes the fence. */
  lemma OneLiveToken(s: State, id: string, n: int, token: string, at: Time, n': int, token': string, at': Time)
    requires LiveLease(s.t, id, n, token, at) && LiveLease(s.t, id, n', token', at')
    ensures n == n' && token == token'
  {
  }

  predicate Fenced(e: Event) {
    e.DoHeartbeat? || e.DoRetry? || e.DoFail? || e.DoAcknowledge? || e.DoComplete?
  }

  /** What a fenced operation answers. */
  function AnswerOf(s: State, e: Event): Result<JobRecord, Error>
    requires Inv(s) && Fenced(e)
  {
    match e
    case DoHeartbeat(id, n, token, seconds, d1, d2) => HeartbeatJob(s, id, n, token, seconds, d1, d2).1
    case DoRetry(id, n, token, delay, code, d1, d2) => RetryJob(s, id, n, token, delay, code, d1, d2).1
    case DoFail(id, n, token, code, d1, d2) => FailJob(s, id, n, token, code, d1, d2).1
    case DoAcknowledge(id, n, token, d1, d2) => AcknowledgeCancellation(s, id, n, token, d1, d2).1
    case DoComplete(id, evidence, n, token, d1, d2) => CompleteJob(s, id, evidence, n, token, d1, d2).1
  }

  /** Whether the operation's own arguments, or the job it is fenced for, refuse it before its last
      conditional write; None is an operation that gets there. */
  function RefusedEarlier(t: Tables, e: Event): Option<Error>
    requires Fenced(e) && e.id in t.jobs
  {
    var job := t.jobs[e.id].record;
    match e
    case DoHeartbeat(_, _, _, seconds, _, _) => if 5 <= seconds <= 3600 then None else Some(BadValue)
    case DoRetry(_, _, _, delay, code, _, _) =>
      if !(1 <= delay <= 3600) || !SafeCode(code) then Some(BadValue)
      else if job.status.Running? && job.maxAttempts <= job.attemptCount then Some(IllegalTransition)
      else None
    case DoFail(_, _, _, code, _, _) => if SafeCode(code) then None else Some(BadValue)
    case DoAcknowledge(_, _, _, _, _) => if job.status.CancelRequested? then None else Some(IllegalTransition)
    case DoComplete(_, evidence, _, _, _, _) =>
      if Oversized(evidence) then Some(PayloadTooLarge)
      else if !Owns(job, KindOf(evidence), ResourceOf(evidence)) then Some(IllegalTransition)
      else if !job.status.CancelRequested? && !References(t, evidence) then Some(InsertError(evidence))
      else None
  }

  /** A lease that was active when the rows were locked and is over at the last conditional write:
      every table is as it was, evidence already inserted included, and the answer is that the
      lease is lost, unless the operation was refused for another reason before that write. */
  lemma SecondCheckRollsBack(s: State, e: Event)
    requires Inv(s) && Fenced(e)
    requires LiveLease(s.t, e.id, e.n, e.token, s.now + e.d1)
    requires !LiveLease(s.t, e.id, e.n, e.token, s.now + e.d1 + e.d2)
    ensures Next(s, e).t == s.t && Next(s, e).now == s.now + e.d1 + e.d2
    ensures
      var refused := RefusedEarlier(s.t, e);
      AnswerOf(s, e) == Err(if refused.Some? then refused.value else LeaseLost)
  {
    hide Inv, LiveLease, Fence, Oversized, SafeCode;
    LiveStatus(s.t, e.id, e.n, e.token, s.now + e.d1);
    LiveFence(s, e.id, e.n, e.token, s.now + e.d1);
  }

  lemma LiveStatus(t: Tables, id: string, n: int, token: string, at: Time)
    requires LiveLease(t, id, n, token, at)
    ensures id in t.jobs && Active(t.jobs[id].record.status)
  {
  }

  /** Whoever holds a live lease names a valid attempt number and token. */
  lemma LiveFence(s: State, id: string, n: int, token: string, at: Time)
    requires Inv(s) && LiveLease(s.t, id, n, token, at)
    ensures Fence(n, token)
  {
    hide Inv, CellInv;
    StoredJob(s, id, n);
  }

  // ---------------------------------------------------------------- evidence

  predicate EvidenceKept(t: Tables, t': Tables) {
    && (forall r :: r in t.runs ==> r in t'.runs && t'.runs[r] == t.runs[r])
    && (forall r :: r in t.decisions ==> r in t'.decisions && t'.decisions[r] == t.decisions[r])
  }

  lemma PublishFresh(s: State, id: string, at: Time, e: Evidence)
    requires Inv(s) && id in s.t.jobs && Enabled(CellOf(s.t, id), Publish(at))
    requires Owns(s.t.jobs[id].record, KindOf(e), ResourceOf(e))
    ensures !HasEvidence(s.t, KindOf(e), ResourceOf(e))
  {
    hide Inv, CellsInv, AttemptsInv, PayloadsInv, UniqueInv, RunRowsInv, DecisionRowsInv, HasEvidence;
    InvTables(s);
  }

  lemma SmallEvidence(s: State, f: Effect, s': State)
    requires Small(s, f, s')
    ensures EvidenceKept(s.t, s'.t)
  {
    hide Inv, MoveCell, Enabled, EvidenceKept, Complete, CellInv, ValidRecord;
    match f
    case PublishOne(id, at, e) =>
      StoredCell(s, id);
      PublishFresh(s, id, at, e);
      InsertedKept(s.t, MoveJob(s.t, id, Publish(at)), e);
    case _ =>
      UnchangedKept(s.t, s'.t);
  }

  lemma UnchangedKept(t: Tables, t': Tables)
    requires t.runs == t'.runs && t.decisions == t'.decisions
    ensures EvidenceKept(t, t')
  {
  }

  lemma InsertedKept(t: Tables, t1: Tables, e: Evidence)
    requires t1.runs == t.runs && t1.decisions == t.decisions
    requires !HasEvidence(t, KindOf(e), ResourceOf(e))
    ensures EvidenceKept(t, Inserted(t1, e))
  {
  }

  lemma {:induction false} PathEvidence(s: State, steps: seq<Step>)
    requires Path(s, steps)
    ensures EvidenceKept(s.t, PathEnd(s, steps).t)
    decreases |steps|
  {
    hide Inv, Small;
    if steps != [] {
      SmallEvidence(s, steps[0].effect, steps[0].to);
      PathEvidence(steps[0].to, steps[1..]);
    }
  }

  /** A run or decision row, once stored, is there unchanged after every run. */
  lemma RunEvidenceKept(s: State, events: seq<Event>)
    requires Inv(s)
    ensures EvidenceKept(s.t, Run(s, events).t)
  {
    hide Inv, Small, EvidenceKept;
    var steps := RunPath(s, events);
    PathEvidence(s, steps);
  }

  lemma EvidenceOwned(t: Tables, kind: JobKind, resourceId: string)
    requires RunRowsInv(t) && DecisionRowsInv(t) && HasEvidence(t, kind, resourceId)
    ensures ResourceTaken(t, kind, resourceId)
  {
    match kind
    case RunJob => assert t.runs[resourceId].runId == resourceId;
    case ComparisonJob => assert t.decisions[resourceId].decisionId == resourceId;
  }

  lemma SoleOwner(t: Tables, a: string, b: string, kind: JobKind, resourceId: string)
    requires UniqueInv(t) && a in t.jobs && b in t.jobs
    requires Owns(t.jobs[a].record, kind, resourceId) && Owns(t.jobs[b].record, kind, resourceId)
    ensures a == b
  {
    assert SameResource(t.jobs[a].record, t.jobs[b].record);
  }

  /** The job that owns a resource, succeeded, through its last attempt. */
  predicate SucceededOwner(t: Tables, kind: JobKind, resourceId: string, id: string) {
    && id in t.jobs && Owns(t.jobs[id].record, kind, resourceId)
    && t.jobs[id].record.status.Succeeded?
    && AttemptKey(id, t.jobs[id].record.attemptCount) in t.attempts
    && t.attempts[AttemptKey(id, t.jobs[id].record.attemptCount)].status.AttemptSucceeded?
    && forall j :: j in t.jobs && Owns(t.jobs[j].record, kind, resourceId) ==> j == id
  }

  /** Evidence for a resource exists exactly when a job owning it succeeded, and that
      job is the only owner and its last attempt succeeded. */
  lemma EvidenceIffSucceeded(start: Time, events: seq<Event>, kind: JobKind, resourceId: string)
    ensures HasEvidence(Reached(start, events).t, kind, resourceId) <==>
            exists id :: SucceededOwner(Reached(start, events).t, kind, resourceId, id)
  {
    StoredEvidence(Reached(start, events), kind, resourceId);
  }

  lemma StoredEvidence(s: State, kind: JobKind, resourceId: string)
    requires Inv(s)
    ensures HasEvidence(s.t, kind, resourceId) <==> exists id :: SucceededOwner(s.t, kind, resourceId, id)
  {
    hide Inv, CellInv, AttemptsInv, PayloadsInv, RunRowsInv, DecisionRowsInv, UniqueInv;
    InvTables(s);
    if HasEvidence(s.t, kind, resourceId) {
      EvidenceOwned(s.t, kind, resourceId);
      var id :| id in s.t.jobs && Owns(s.t.jobs[id].record, kind, resourceId);
      assert s.t.jobs[id].record.status.Succeeded?;
      StoredCell(s, id);
      SucceededAttempt(s, id);
      forall j | j in s.t.jobs && Owns(s.t.jobs[j].record, kind, resourceId)
        ensures j == id
      {
        SoleOwner(s.t, j, id, kind, resourceId);
      }
      assert SucceededOwner(s.t, kind, resourceId, id);
    }
  }

  lemma SucceededAttempt(s: State, id: string)
    requires Inv(s) && id in s.t.jobs && s.t.jobs[id].record.status.Succeeded?
    ensures
      var n := s.t.jobs[id].record.attemptCount;
      1 <= n && AttemptKey(id, n) in s.t.attempts && s.t.attempts[AttemptKey(id, n)].status.AttemptSucceeded?
  {
    hide Inv, HistoryInv;
    StoredCell(s, id);
    LastOfCell(s.t, id);
  }

  /** Cancellation wins: after a cancellation request, whatever comes next, the job is canceled
      or still waiting for it, gets no further attempt, and no evidence for it exists. */
  lemma CancellationWins(s: State, events: seq<Event>, id: string)
    requires Inv(s) && id in s.t.jobs && s.t.jobs[id].record.status.CancelRequested?
    ensures
      var t := Run(s, events).t;
      && id in t.jobs
      && (t.jobs[id].record.status.CancelRequested? || t.jobs[id].record.status.Canceled?)
      && t.jobs[id].record.attemptCount == s.t.jobs[id].record.attemptCount
      && !HasEvidence(t, s.t.jobs[id].record.kind, s.t.jobs[id].record.resourceId)
  {
    assert SucceededIffEvidence(Run(s, events).t);
    hide Inv;
    RunLater(s, events, id);
  }

  /** The job succeeded through this attempt and token, with this document as its evidence. */
  predicate Completed(t: Tables, id: string, e: Evidence, n: int, token: string) {
    && Fence(n, token) && !Oversized(e) && Complete(t, id)
    && t.jobs[id].record.status.Succeeded?
    && Owns(t.jobs[id].record, KindOf(e), ResourceOf(e))
    && 1 <= n <= t.jobs[id].record.attemptCount
    && TerminalAttempt(t, id, n, token, AttemptSucceeded)
    && StoredDocument(t, KindOf(e), ResourceOf(e)) == Some(DocumentOf(e))
  }

  /** Replaying a completion with the same token and document, at any later time, answers with
      the same record and changes nothing. */
  lemma CompletionReplays(s: State, events: seq<Event>, id: string, e: Evidence, n: int, token: string,
                          d1: nat, d2: nat)
    requires Inv(s) && Completed(s.t, id, e, n, token)
    ensures
      var again := CompleteJob(Run(s, events), id, e, n, token, d1, d2);
      again.1 == Ok(s.t.jobs[id].record) && again.0.t == Run(s, events).t
  {
    hide Inv;
    RunLater(s, events, id);
    RunEvidenceKept(s, events);
    TerminalReplay(s, Run(s, events), id, e, n, token, d1, d2);
  }

  lemma TerminalReplay(s1: State, s2: State, id: string, e: Evidence, n: int, token: string, d1: nat, d2: nat)
    requires Inv(s2) && Completed(s1.t, id, e, n, token)
    requires Complete(s2.t, id) && CellOf(s1.t, id) == CellOf(s2.t, id)
    requires EvidenceKept(s1.t, s2.t)
    ensures
      var again := CompleteJob(s2, id, e, n, token, d1, d2);
      again.1 == Ok(s1.t.jobs[id].record) && again.0.t == s2.t
  {
    hide Inv;
    assert CellOf(s1.t, id).history[n - 1] == s1.t.attempts[AttemptKey(id, n)];
    assert CellOf(s2.t, id).history[n - 1] == s2.t.attempts[AttemptKey(id, n)];
  }

  /** What a successful completion leaves: the job and attempt succeeded, the document stored. */
  lemma CompletionCompletes(s: State, id: string, e: Evidence, n: int, token: string, d1: nat, d2: nat)
    requires Inv(s)
    requires CompleteJob(s, id, e, n, token, d1, d2).1.Ok?
    requires CompleteJob(s, id, e, n, token, d1, d2).1.value.status.Succeeded?
    ensures
      var r := CompleteJob(s, id, e, n, token, d1, d2);
      Completed(r.0.t, id, e, n, token) && r.0.t.jobs[id].record == r.1.value
  {
    hide Inv, CellInv, MoveJob, Inserted, Completed, LiveLease, Fence, StopInstead, Oversized,
      AttemptsInv, PayloadsInv, UniqueInv, EvidenceInv;
    InvTables(s);
    var at, later := s.now + d1, s.now + d1 + d2;
    StoredCell(s, id);
    if s.t.jobs[id].record.status.Succeeded? {
      ReplayedCompletion(s.t, id, e, n, token);
    } else if s.t.jobs[id].record.status.CancelRequested? {
      StopIsCanceled(s, id, n, token, at, later);
    } else {
      PublishedRow(s, id, e, n, token, at, later);
    }
  }

  lemma ReplayedCompletion(t: Tables, id: string, e: Evidence, n: int, token: string)
    requires AttemptsInv(t) && Complete(t, id) && t.jobs[id].record.status.Succeeded?
    requires Fence(n, token) && !Oversized(e) && Owns(t.jobs[id].record, KindOf(e), ResourceOf(e))
    requires TerminalAttempt(t, id, n, token, AttemptSucceeded)
    requires StoredDocument(t, KindOf(e), ResourceOf(e)) == Some(DocumentOf(e))
    ensures Completed(t, id, e, n, token)
  {
  }

  lemma StopIsCanceled(s: State, id: string, n: int, token: string, at: Time, later: Time)
    requires Inv(s) && LiveLease(s.t, id, n, token, at) && s.t.jobs[id].record.status.CancelRequested?
    ensures
      var r := StopInstead(s, id, n, token, at, later).1;
      r.Ok? ==> r.value.status.Canceled?
  {
    hide Inv, CellInv;
    LiveLeaseHeld(s, id, n, token, at);
  }

  lemma PublishedRow(s: State, id: string, e: Evidence, n: int, token: string, at: Time, later: Time)
    requires Inv(s) && LiveLease(s.t, id, n, token, at) && LiveLease(s.t, id, n, token, later)
    requires Fence(n, token) && !Oversized(e) && s.t.jobs[id].record.status.Running?
    requires Owns(s.t.jobs[id].record, KindOf(e), ResourceOf(e))
    ensures Complete(s.t, id) && Enabled(CellOf(s.t, id), Publish(at))
    ensures
      var t := Inserted(MoveJob(s.t, id, Publish(at)), e);
      Completed(t, id, e, n, token) && t.jobs[id].record == MoveCell(CellOf(s.t, id), Publish(at)).row.record
  {
    hide Inv, CellInv;
    LiveLeaseHeld(s, id, n, token, at);
    StoredCell(s, id);
    var c := CellOf(s.t, id);
    MoveJobCells(s, id, Publish(at), id);
    var t1 := MoveJob(s.t, id, Publish(at));
    assert CellOf(t1, id).history[n - 1] == t1.attempts[AttemptKey(id, n)];
  }
}
