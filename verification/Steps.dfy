/** Every operation of the store, taken apart into small steps: one job enqueued, one job
    moved by its automaton, one job published with its evidence, or nothing at all. What
    every run keeps is proved once, over small steps. */
module Steps {
  import opened Lifecycle
  import opened Cells
  import opened Store

  datatype Effect =
    | Idle
    | Enqueue(record: JobRecord, payload: Payload)
    | AddDataset(dataset: string)
    | MoveOne(id: string, move: Move)
    | PublishOne(id: string, at: Time, evidence: Evidence)

  predicate Allowed(s: State, f: Effect, later: Time)
    requires Inv(s)
  {
    match f
    case Idle => true
    case Enqueue(record, payload) => NewJob(record, payload) && !Collides(s.t, record)
    case AddDataset(_) => true
    case MoveOne(id, m) =>
      && id in s.t.jobs && Enabled(CellOf(s.t, id), m) && !m.Publish? && s.now <= m.at <= later
    case PublishOne(id, at, e) =>
      && id in s.t.jobs && Enabled(CellOf(s.t, id), Publish(at)) && s.now <= at <= later
      && Owns(s.t.jobs[id].record, KindOf(e), ResourceOf(e)) && References(s.t, e)
  }

  function Effected(s: State, f: Effect, later: Time): Tables
    requires Inv(s) && Allowed(s, f, later)
  {
    match f
    case Idle => s.t
    case Enqueue(record, payload) => Enqueued(s.t, record, payload)
    case AddDataset(dataset) => s.t.(datasets := s.t.datasets + {dataset})
    case MoveOne(id, m) => MoveJob(s.t, id, m)
    case PublishOne(id, at, e) => Inserted(MoveJob(s.t, id, Publish(at)), e)
  }

  /** One small step from `s` to `s'`. */
  predicate Small(s: State, f: Effect, s': State) {
    Inv(s) && s.now <= s'.now && Allowed(s, f, s'.now) && s'.t == Effected(s, f, s'.now)
  }

  lemma EnqueuedCells(s: State, record: JobRecord, payload: Payload, later: Time)
    requires Inv(s) && s.now <= later && NewJob(record, payload) && !Collides(s.t, record)
    ensures CellsInv(State(Enqueued(s.t, record, payload), later))
  {
    var t' := Enqueued(s.t, record, payload);
    forall j | j in t'.jobs
      ensures Complete(t', j) && CellInv(CellOf(t', j), later) && t'.jobs[j].record.jobId == j
    {
      if j == record.jobId {
        assert CellOf(t', j) == Cell(JobRow(record, 0), []);
      } else {
        assert CellOf(t', j).history == CellOf(s.t, j).history;
        WaitKeepsInv(CellOf(s.t, j), s.now, later);
      }
    }
  }

  lemma EnqueuedTables(t: Tables, record: JobRecord, payload: Payload)
    requires AttemptsInv(t) && PayloadsInv(t)
    requires NewJob(record, payload) && record.jobId !in t.jobs
    ensures AttemptsInv(Enqueued(t, record, payload)) && PayloadsInv(Enqueued(t, record, payload))
  {
    hide ValidRecord;
  }

  lemma EnqueuedRows(t: Tables, record: JobRecord, payload: Payload)
    requires EvidenceInv(t) && record.jobId !in t.jobs
    ensures RunRowsInv(Enqueued(t, record, payload)) && DecisionRowsInv(Enqueued(t, record, payload))
  {
    var t' := Enqueued(t, record, payload);
    assert forall j :: j in t.jobs ==> t'.jobs[j] == t.jobs[j];
    OwnersRemain(t, t');
    hide ResourceTaken, SucceededIffEvidence;
  }

  lemma EnqueuedUnique(t: Tables, record: JobRecord, payload: Payload)
    requires UniqueInv(t) && !Collides(t, record)
    ensures UniqueInv(Enqueued(t, record, payload))
  {
    forall a | a in t.jobs
      ensures !SameKey(t.jobs[a].record, record) && !SameResource(t.jobs[a].record, record)
    {
      assert !Owns(t.jobs[a].record, record.kind, record.resourceId);
    }
  }

  lemma EnqueuedEvidence(t: Tables, record: JobRecord, payload: Payload)
    requires EvidenceInv(t)
    requires NewJob(record, payload) && !Collides(t, record)
    ensures SucceededIffEvidence(Enqueued(t, record, payload))
  {
    assert !ResourceTaken(t, record.kind, record.resourceId);
  }

  lemma DatasetCells(s: State, dataset: string)
    requires CellsInv(s)
    ensures CellsInv(s.(t := s.t.(datasets := s.t.datasets + {dataset})))
  {
    hide CellInv;
    var t' := s.t.(datasets := s.t.datasets + {dataset});
    forall j | j in t'.jobs
      ensures Complete(t', j) && CellOf(t', j) == CellOf(s.t, j)
    {
      assert CellOf(t', j).history == CellOf(s.t, j).history;
    }
  }

  lemma DatasetInv(s: State, dataset: string, later: Time)
    requires Inv(s) && s.now <= later
    ensures Inv(State(s.t.(datasets := s.t.datasets + {dataset}), later))
  {
    WaitInv(s, later);
    DatasetCells(s.(now := later), dataset);
    var t' := s.t.(datasets := s.t.datasets + {dataset});
    DatasetRows(s.t, dataset);
    hide CellsInv;
    assert AttemptsInv(t') && PayloadsInv(t') && UniqueInv(t');
  }

  lemma DatasetRows(t: Tables, dataset: string)
    requires EvidenceInv(t)
    ensures EvidenceInv(t.(datasets := t.datasets + {dataset}))
  {
    OwnersRemain(t, t.(datasets := t.datasets + {dataset}));
  }

  /** Every small step keeps the store invariant. */
  lemma SmallInv(s: State, f: Effect, s': State)
    requires Small(s, f, s')
    ensures Inv(s')
  {
    match f
    case Idle =>
      WaitInv(s, s'.now);
    case Enqueue(record, payload) =>
      EnqueuedCells(s, record, payload, s'.now);
      EnqueuedTables(s.t, record, payload);
      EnqueuedRows(s.t, record, payload);
      EnqueuedUnique(s.t, record, payload);
      EnqueuedEvidence(s.t, record, payload);
    case AddDataset(dataset) =>
      DatasetInv(s, dataset, s'.now);
    case MoveOne(id, m) =>
      QuietMoveInv(s, id, m, s'.now);
    case PublishOne(id, at, e) =>
      PublishInv(s, id, e, at, s'.now);
  }

  /** A small step moves a job's cell by at most one move of the automaton. */
  lemma SmallCell(s: State, f: Effect, s': State, id: string)
    requires Small(s, f, s') && id in s.t.jobs
    ensures Complete(s'.t, id)
    ensures
      CellOf(s'.t, id) ==
        match f
        case MoveOne(j, m) => if j == id then MoveCell(CellOf(s.t, id), m) else CellOf(s.t, id)
        case PublishOne(j, at, _) => if j == id then MoveCell(CellOf(s.t, id), Publish(at)) else CellOf(s.t, id)
        case _ => CellOf(s.t, id)
  {
    hide Inv, MoveCell, Enabled;
    StoredCell(s, id);
    match f
    case Idle =>
    case Enqueue(record, payload) =>
      assert CellOf(s'.t, id).history == CellOf(s.t, id).history;
    case AddDataset(dataset) =>
      assert CellOf(s'.t, id).history == CellOf(s.t, id).history;
    case MoveOne(j, m) =>
      MoveJobCells(s, j, m, id);
    case PublishOne(j, at, e) =>
      StoredCell(s, j);
      MoveJobCells(s, j, Publish(at), id);
      assert CellOf(s'.t, id).history == CellOf(MoveJob(s.t, j, Publish(at)), id).history;
  }

  // ---------------------------------------------------------------- operations as small steps

  lemma StopInsteadStep(s: State, id: string, n: int, token: string, at: Time, later: Time) returns (f: Effect)
    requires Inv(s) && LiveLease(s.t, id, n, token, at) && s.t.jobs[id].record.status.CancelRequested?
    requires s.now <= at <= later
    ensures Small(s, f, StopInstead(s, id, n, token, at, later).0) && !f.Enqueue?
  {
    hide Inv, MoveCell;
    LiveLeaseHeld(s, id, n, token, at);
    f := if LiveLease(s.t, id, n, token, later) then MoveOne(id, Stop(at)) else Idle;
  }

  lemma BeginStep(s: State, record: JobRecord, payload: Payload, d1: nat) returns (f: Effect)
    requires Inv(s)
    ensures Small(s, f, BeginJob(s, record, payload, d1).0)
  {
    f := if NewJob(record, payload) && !Collides(s.t, record) then Enqueue(record, payload) else Idle;
  }

  lemma ClaimStep(s: State, worker: string, token: string, seconds: int, d1: nat, d2: nat) returns (f: Effect)
    requires Inv(s)
    ensures Small(s, f, ClaimNextJob(s, worker, token, seconds, d1, d2).0) && !f.Enqueue?
  {
    hide Inv, MoveCell;
    var at, later := s.now + d1, s.now + d1 + d2;
    f := Idle;
    if ValidWorkerId(worker) && ValidToken(token) && 5 <= seconds <= 3600 && NextClaim(s.t, at).Some? {
      NextClaimIsFirst(s, at);
      var id := NextClaim(s.t, at).value;
      if FreshToken(CellOf(s.t, id).history, token) {
        f := MoveOne(id, Claim(worker, token, later, seconds));
      }
    }
  }

  lemma HeartbeatStep(s: State, id: string, n: int, token: string, seconds: int, d1: nat, d2: nat)
    returns (f: Effect)
    requires Inv(s)
    ensures Small(s, f, HeartbeatJob(s, id, n, token, seconds, d1, d2).0) && !f.Enqueue?
  {
    hide Inv, MoveCell;
    var at, later := s.now + d1, s.now + d1 + d2;
    f := Idle;
    if Fence(n, token) && 5 <= seconds <= 3600 && LiveLease(s.t, id, n, token, later) {
      LiveLeaseHeld(s, id, n, token, later);
      f := MoveOne(id, Beat(at, seconds));
    }
  }

  lemma RetryStep(s: State, id: string, n: int, token: string, delay: int, code: string, d1: nat, d2: nat)
    returns (f: Effect)
    requires Inv(s)
    ensures Small(s, f, RetryJob(s, id, n, token, delay, code, d1, d2).0) && !f.Enqueue?
  {
    hide Inv, MoveCell;
    var at, later := s.now + d1, s.now + d1 + d2;
    f := Idle;
    if Fence(n, token) && 1 <= delay <= 3600 && SafeCode(code) && LiveLease(s.t, id, n, token, at) {
      if s.t.jobs[id].record.status.CancelRequested? {
        f := StopInsteadStep(s, id, n, token, at, later);
      } else if s.t.jobs[id].record.attemptCount < s.t.jobs[id].record.maxAttempts
                && LiveLease(s.t, id, n, token, later) {
        LiveLeaseHeld(s, id, n, token, later);
        f := MoveOne(id, Retry(at, delay, code));
      }
    }
  }

  lemma FailStep(s: State, id: string, n: int, token: string, code: string, d1: nat, d2: nat)
    returns (f: Effect)
    requires Inv(s)
    ensures Small(s, f, FailJob(s, id, n, token, code, d1, d2).0) && !f.Enqueue?
  {
    hide Inv, MoveCell;
    var at, later := s.now + d1, s.now + d1 + d2;
    f := Idle;
    if Fence(n, token) && SafeCode(code) && LiveLease(s.t, id, n, token, at) {
      if s.t.jobs[id].record.status.CancelRequested? {
        f := StopInsteadStep(s, id, n, token, at, later);
      } else if LiveLease(s.t, id, n, token, later) {
        LiveLeaseHeld(s, id, n, token, later);
        f := MoveOne(id, Fail(at, code));
      }
    }
  }

  lemma CancelStep(s: State, id: string, d1: nat) returns (f: Effect)
    requires Inv(s)
    ensures Small(s, f, CancelJob(s, id, d1).0) && !f.Enqueue?
  {
    hide Inv, MoveCell, CellInv;
    f := Idle;
    if id in s.t.jobs {
      StoredCell(s, id);
      if s.t.jobs[id].record.status.Running? {
        f := MoveOne(id, AskCancel(s.now + d1));
      } else if s.t.jobs[id].record.status.Queued? {
        f := MoveOne(id, Withdraw(s.now + d1));
      }
    }
  }

  lemma AcknowledgeStep(s: State, id: string, n: int, token: string, d1: nat, d2: nat) returns (f: Effect)
    requires Inv(s)
    ensures Small(s, f, AcknowledgeCancellation(s, id, n, token, d1, d2).0) && !f.Enqueue?
  {
    hide Inv, MoveCell;
    f := Idle;
    if Fence(n, token) && LiveLease(s.t, id, n, token, s.now + d1) && s.t.jobs[id].record.status.CancelRequested? {
      f := StopInsteadStep(s, id, n, token, s.now + d1, s.now + d1 + d2);
    }
  }

  lemma CompleteStep(s: State, id: string, e: Evidence, n: int, token: string, d1: nat, d2: nat)
    returns (f: Effect)
    requires Inv(s)
    ensures Small(s, f, CompleteJob(s, id, e, n, token, d1, d2).0) && !f.Enqueue?
  {
    hide Inv, MoveCell;
    var at, later := s.now + d1, s.now + d1 + d2;
    f := Idle;
    if Fence(n, token) && !Oversized(e) && LiveLease(s.t, id, n, token, at)
       && Owns(s.t.jobs[id].record, KindOf(e), ResourceOf(e)) {
      if s.t.jobs[id].record.status.CancelRequested? {
        f := StopInsteadStep(s, id, n, token, at, later);
      } else if References(s.t, e) && LiveLease(s.t, id, n, token, later) {
        LiveLeaseHeld(s, id, n, token, later);
        f := PublishOne(id, at, e);
      }
    }
  }

  lemma DatasetStep(s: State, dataset: string, d1: nat) returns (f: Effect)
    requires Inv(s)
    ensures Small(s, f, Next(s, DoPutDataset(dataset, d1))) && !f.Enqueue?
  {
    f := AddDataset(dataset);
  }

  // ---------------------------------------------------------------- paths of small steps

  datatype Step = Step(effect: Effect, to: State)

  predicate Path(s: State, steps: seq<Step>)
    decreases |steps|
  {
    Inv(s) && (steps != [] ==> Small(s, steps[0].effect, steps[0].to) && Path(steps[0].to, steps[1..]))
  }

  /** No step of the path enqueues a job. */
  predicate NoEnqueue(steps: seq<Step>) {
    forall i :: 0 <= i < |steps| ==> !steps[i].effect.Enqueue?
  }

  function PathEnd(s: State, steps: seq<Step>): State {
    if steps == [] then s else steps[|steps| - 1].to
  }

  lemma {:induction false} PathInv(s: State, steps: seq<Step>)
    requires Path(s, steps)
    ensures Inv(PathEnd(s, steps))
    decreases |steps|
  {
    hide Inv, Small;
    if steps != [] {
      PathInv(steps[0].to, steps[1..]);
    }
  }

  lemma {:induction false} PathJoin(s: State, a: seq<Step>, b: seq<Step>)
    requires Path(s, a) && Path(PathEnd(s, a), b)
    ensures Path(s, a + b) && PathEnd(s, a + b) == PathEnd(PathEnd(s, a), b)
    decreases |a|
  {
    hide Inv, Small;
    if a == [] {
      assert a + b == b;
    } else {
      PathJoin(a[0].to, a[1..], b);
      assert (a + b)[1..] == a[1..] + b;
    }
  }

  lemma {:induction false} ExpireAllPath(s: State, ids: seq<string>, base: int, cap: int, ds: seq<nat>)
    returns (steps: seq<Step>)
    requires Inv(s) && AllLapsed(s.t, ids, s.now) && Distinct(ids) && 1 <= base <= cap <= 3600
    ensures Path(s, steps) && PathEnd(s, steps) == ExpireAll(s, ids, base, cap, ds).0 && NoEnqueue(steps)
    decreases |ids|
  {
    hide Inv, MoveCell;
    steps := [];
    if ids != [] {
      var d := Delay(ds);
      var one := ExpireOne(s, ids[0], base, cap, d).0;
      ExpireOneInv(s, ids[0], base, cap, d);
      ExpiredRest(s, ids, base, cap, d);
      LapsedEnabled(s, ids[0], base, cap, s.now + d);
      var m := ExpiryMove(s.t.jobs[ids[0]].record, base, cap, s.now + d);
      assert Small(s, MoveOne(ids[0], m), one);
      var rest := ExpireAllPath(one, ids[1..], base, cap, Rest(ds));
      steps := [Step(MoveOne(ids[0], m), one)] + rest;
      assert steps[1..] == rest;
    }
  }

  lemma IdleSmall(s: State, s1: State)
    requires Inv(s) && s1.t == s.t && s.now <= s1.now
    ensures Small(s, Idle, s1)
  {
    hide Inv;
  }

  lemma ReapPath(s: State, limit: int, base: int, cap: int, d1: nat, ds: seq<nat>) returns (steps: seq<Step>)
    requires Inv(s)
    ensures Path(s, steps) && PathEnd(s, steps) == ReapExpiredJobs(s, limit, base, cap, d1, ds).0 && NoEnqueue(steps)
  {
    hide Inv, Small, Lapsed, LapsedBatch, ExpireAll, AllLapsed, Distinct;
    var s1 := s.(now := s.now + d1);
    IdleSmall(s, s1);
    WaitInv(s, s1.now);
    steps := [Step(Idle, s1)];
    assert steps[1..] == [];
    assert Path(s1, []);
    if ReapBounds(limit, base, cap) {
      LapsedBatchMembers(s.t, s1.now, limit);
      var rest := ExpireAllPath(s1, LapsedBatch(s.t, s1.now, limit), base, cap, ds);
      PathJoin(s, steps, rest);
      steps := steps + rest;
    }
  }

  lemma EventStep(s: State, e: Event) returns (f: Effect)
    requires Inv(s) && !e.DoReap?
    ensures Small(s, f, Next(s, e)) && (f.Enqueue? ==> e.DoBegin?)
  {
    hide Inv, Small;
    match e
    case DoBegin(record, payload, d1) => f := BeginStep(s, record, payload, d1);
    case DoClaim(worker, token, seconds, d1, d2) => f := ClaimStep(s, worker, token, seconds, d1, d2);
    case DoHeartbeat(id, n, token, seconds, d1, d2) => f := HeartbeatStep(s, id, n, token, seconds, d1, d2);
    case DoRetry(id, n, token, delay, code, d1, d2) => f := RetryStep(s, id, n, token, delay, code, d1, d2);
    case DoFail(id, n, token, code, d1, d2) => f := FailStep(s, id, n, token, code, d1, d2);
    case DoCancel(id, d1) => f := CancelStep(s, id, d1);
    case DoAcknowledge(id, n, token, d1, d2) => f := AcknowledgeStep(s, id, n, token, d1, d2);
    case DoComplete(id, evidence, n, token, d1, d2) => f := CompleteStep(s, id, evidence, n, token, d1, d2);
    case DoPutDataset(dataset, d1) => f := DatasetStep(s, dataset, d1);
  }

  /** Every operation is a path of small steps. */
  lemma EventPath(s: State, e: Event) returns (steps: seq<Step>)
    requires Inv(s)
    ensures Path(s, steps) && PathEnd(s, steps) == Next(s, e)
    ensures !e.DoBegin? ==> NoEnqueue(steps)
  {
    hide Inv, Small;
    if e.DoReap? {
      steps := ReapPath(s, e.limit, e.base, e.cap, e.d1, e.ds);
    } else {
      var f := EventStep(s, e);
      SmallInv(s, f, Next(s, e));
      steps := [Step(f, Next(s, e))];
      assert steps[1..] == [];
      assert Path(Next(s, e), []);
    }
  }

  /** Every operation keeps the store invariant. */
  lemma NextInv(s: State, e: Event)
    requires Inv(s)
    ensures Inv(Next(s, e)) && s.now <= Next(s, e).now
  {
    hide Inv, Small;
    var steps := EventPath(s, e);
    PathInv(s, steps);
    PathClock(s, steps);
  }

  lemma {:induction false} PathClock(s: State, steps: seq<Step>)
    requires Path(s, steps)
    ensures s.now <= PathEnd(s, steps).now
    decreases |steps|
  {
    hide Inv, Allowed, Effected;
    if steps != [] {
      PathClock(steps[0].to, steps[1..]);
    }
  }

  /** The state after a whole run: any operations by any callers in any order. */
  function Run(s: State, events: seq<Event>): (r: State)
    requires Inv(s)
    ensures Inv(r)
    decreases |events|
  {
    if events == [] then s
    else
      NextInv(s, events[0]);
      Run(Next(s, events[0]), events[1..])
  }

  lemma {:induction false} RunPath(s: State, events: seq<Event>) returns (steps: seq<Step>)
    requires Inv(s)
    ensures Path(s, steps) && PathEnd(s, steps) == Run(s, events)
    decreases |events|
  {
    hide Inv, Small;
    steps := [];
    if events != [] {
      NextInv(s, events[0]);
      var first := EventPath(s, events[0]);
      var rest := RunPath(Next(s, events[0]), events[1..]);
      PathJoin(s, first, rest);
      steps := first + rest;
    }
  }
}
