/** Order in the queue: how long attempts stay apart, how often a waiting job can be
    overtaken, and what one pass of the reaper does. */
module Queue {
  import opened Common
  import opened Ordering
  import opened Lifecycle
  import opened Cells
  import opened Store
  import opened Steps
  import opened Runs

  // ---------------------------------------------------------------- attempts stay apart

  /** Attempt `k` was superseded, and attempt `k + 1` starts, or may be claimed, `gap` later at
      the earliest. */
  predicate SpacedAfter(c: Cell, k: int, gap: int) {
    && 1 <= k <= |c.history|
    && Superseded(c.history[k - 1]) && c.history[k - 1].finishedAt.Some?
    && (k < |c.history| ==> c.history[k - 1].finishedAt.value + gap <= c.history[k].startedAt)
    && (k == |c.history| ==>
          || c.row.record.status.Canceled?
          || (c.row.record.status.Queued? && c.history[k - 1].finishedAt.value + gap <= c.row.record.availableAt))
  }

  /** Attempt `k` ended, and attempt `k + 1`, if there is one, started `gap` or more later. */
  predicate StartsAfter(t: Tables, id: string, k: int, gap: int) {
    && AttemptKey(id, k) in t.attempts && t.attempts[AttemptKey(id, k)].finishedAt.Some?
    && (AttemptKey(id, k + 1) in t.attempts ==>
          t.attempts[AttemptKey(id, k)].finishedAt.value + gap <= t.attempts[AttemptKey(id, k + 1)].startedAt)
  }

  predicate Spaced(s: State, id: string, k: int, gap: int) {
    Complete(s.t, id) && SpacedAfter(CellOf(s.t, id), k, gap)
  }

  lemma MoveSpaced(c: Cell, m: Move, now: Time, k: int, gap: int)
    requires CellInv(c, now) && Enabled(c, m)
    requires SpacedAfter(c, k, gap)
    ensures SpacedAfter(MoveCell(c, m), k, gap)
  {
    hide HistoryInv, ValidRecord, VersionOf;
  }

  lemma SmallSpaced(s: State, f: Effect, s': State, id: string, k: int, gap: int)
    requires Small(s, f, s') && Spaced(s, id, k, gap)
    ensures Spaced(s', id, k, gap)
  {
    hide Inv, MoveCell, Enabled, Effected, CellInv, SpacedAfter;
    StoredCell(s, id);
    SmallCell(s, f, s', id);
    match f
    case MoveOne(j, m) =>
      if j == id {
        MoveSpaced(CellOf(s.t, id), m, s.now, k, gap);
      }
    case PublishOne(j, at, _) =>
      if j == id {
        MoveSpaced(CellOf(s.t, id), Publish(at), s.now, k, gap);
      }
    case _ =>
  }

  lemma {:induction false} PathSpaced(s: State, steps: seq<Step>, id: string, k: int, gap: int)
    requires Path(s, steps) && Spaced(s, id, k, gap)
    ensures Spaced(PathEnd(s, steps), id, k, gap)
    decreases |steps|
  {
    hide Inv, Small, Spaced;
    if steps != [] {
      SmallSpaced(s, steps[0].effect, steps[0].to, id, k, gap);
      PathSpaced(steps[0].to, steps[1..], id, k, gap);
    }
  }

  /** The spacing a retry or an expiry sets is kept by every run: if the next attempt is ever
      started, it starts no earlier than the end of this one plus the delay. */
  lemma RunSpaced(s: State, events: seq<Event>, id: string, k: int, gap: int)
    requires Inv(s) && Spaced(s, id, k, gap)
    ensures StartsAfter(Run(s, events).t, id, k, gap)
  {
    hide Inv, Small, Spaced;
    var steps := RunPath(s, events);
    PathSpaced(s, steps, id, k, gap);
    SpacedRows(Run(s, events), id, k, gap);
  }

  lemma SpacedRows(s: State, id: string, k: int, gap: int)
    requires Inv(s) && Spaced(s, id, k, gap)
    ensures StartsAfter(s.t, id, k, gap)
  {
    hide Inv;
    StoredCell(s, id);
    StoredJob(s, id, k + 1);
    var h := CellOf(s.t, id).history;
    assert h[k - 1] == s.t.attempts[AttemptKey(id, k)];
    if k < |h| {
      assert h[k] == s.t.attempts[AttemptKey(id, k + 1)];
    }
  }

  /** A move that schedules another attempt sets the spacing to its delay. */
  lemma RescheduleSpaced(c: Cell, m: Move, now: Time)
    requires CellInv(c, now) && Enabled(c, m) && (m.Retry? || m.Expire?)
    ensures SpacedAfter(MoveCell(c, m), c.row.record.attemptCount, Seconds(m.delay))
  {
    hide HistoryInv, ValidRecord, VersionOf;
  }

  /** An accepted retry of an unstopped job is one move of it. */
  lemma RetryIsMove(s: State, id: string, n: int, token: string, delay: int, code: string, d1: nat, d2: nat)
    requires Inv(s)
    requires RetryJob(s, id, n, token, delay, code, d1, d2).1.Ok?
    requires RetryJob(s, id, n, token, delay, code, d1, d2).1.value.status.Queued?
    ensures
      var m := Retry(s.now + d1, delay, code);
      && Complete(s.t, id) && Enabled(CellOf(s.t, id), m) && n == s.t.jobs[id].record.attemptCount
      && RetryJob(s, id, n, token, delay, code, d1, d2).0 == State(MoveJob(s.t, id, m), s.now + d1 + d2)
  {
    hide Inv, CellInv, MoveJob, StopInstead;
    var at, later := s.now + d1, s.now + d1 + d2;
    if s.t.jobs[id].record.status.CancelRequested? {
      StopIsCanceled(s, id, n, token, at, later);
    } else {
      LiveLeaseHeld(s, id, n, token, later);
    }
  }

  /** Attempts never overlap: after a retry with delay `delay`, in every run, the next attempt
      starts at least `delay` seconds after this one finished (by RunSpaced). */
  lemma RetrySpacing(s: State, id: string, n: int, token: string, delay: int, code: string, d1: nat, d2: nat)
    requires Inv(s)
    requires RetryJob(s, id, n, token, delay, code, d1, d2).1.Ok?
    requires RetryJob(s, id, n, token, delay, code, d1, d2).1.value.status.Queued?
    ensures Spaced(RetryJob(s, id, n, token, delay, code, d1, d2).0, id, n, Seconds(delay))
  {
    hide Inv, CellInv, MoveCell, RetryJob, MoveJob;
    RetryIsMove(s, id, n, token, delay, code, d1, d2);
    StoredCell(s, id);
    var m := Retry(s.now + d1, delay, code);
    RescheduleSpaced(CellOf(s.t, id), m, s.now);
    MoveJobCells(s, id, m, id);
  }

  /** After a retry with delay `delay`, in every run, the next attempt starts at least `delay`
      seconds after this one finished. */
  lemma RetryThenRun(s: State, id: string, n: int, token: string, delay: int, code: string, d1: nat, d2: nat,
                     events: seq<Event>)
    requires Inv(s)
    requires RetryJob(s, id, n, token, delay, code, d1, d2).1.Ok?
    requires RetryJob(s, id, n, token, delay, code, d1, d2).1.value.status.Queued?
    ensures
      StartsAfter(Run(s, [DoRetry(id, n, token, delay, code, d1, d2)] + events).t, id, n, Seconds(delay))
  {
    hide Inv, RetryJob, Spaced, Run;
    var e := DoRetry(id, n, token, delay, code, d1, d2);
    RunAfter(s, e, events);
    RetrySpacing(s, id, n, token, delay, code, d1, d2);
    RunSpaced(Next(s, e), events, id, n, Seconds(delay));
  }

  /** Recovery by the reaper sets the spacing to its backoff. */
  lemma ExpirySpacing(s: State, id: string, base: int, cap: int, d: nat)
    requires Inv(s) && Lapsed(s.t, id, s.now) && 1 <= base <= cap <= 3600
    requires ExpireOne(s, id, base, cap, d).1.status.Queued?
    ensures 1 <= s.t.jobs[id].record.attemptCount
    ensures
      var n := s.t.jobs[id].record.attemptCount;
      Spaced(ExpireOne(s, id, base, cap, d).0, id, n, Seconds(Backoff(base, cap, n)))
  {
    hide Inv, CellInv, Backoff;
    StoredCell(s, id);
    LapsedEnabled(s, id, base, cap, s.now + d);
    var m := ExpiryMove(s.t.jobs[id].record, base, cap, s.now + d);
    MoveJobCells(s, id, m, id);
    if m.Expire? {
      RescheduleSpaced(CellOf(s.t, id), m, s.now);
    }
  }

  /** In every reachable store the attempts of a job never overlap: a later one starts at least a
      second after an earlier one finished, and one whose lease ran out finished no earlier. */
  lemma AttemptsNeverOverlap(start: Time, events: seq<Event>, id: string, j: int, k: int)
    requires
      var t := Reached(start, events).t;
      j < k && AttemptKey(id, j) in t.attempts && AttemptKey(id, k) in t.attempts
    ensures
      var t := Reached(start, events).t;
      var earlier, later := t.attempts[AttemptKey(id, j)], t.attempts[AttemptKey(id, k)];
      && Superseded(earlier) && earlier.finishedAt.Some?
      && earlier.finishedAt.value + SECOND <= later.startedAt
      && (earlier.status.LeaseExpired? ==> earlier.leaseExpiresAt <= earlier.finishedAt.value)
  {
    hide Inv, CellInv, ValidAttempt;
    var s := Reached(start, events);
    InvTables(s);
    KeyedAttempts(s.t, id, j);
    KeyedAttempts(s.t, id, k);
    StoredCell(s, id);
    HistoryOfCell(CellOf(s.t, id), s.now);
    var h := CellOf(s.t, id).history;
    assert h[j - 1] == s.t.attempts[AttemptKey(id, j)] && h[k - 1] == s.t.attempts[AttemptKey(id, k)];
    assert Precedes(h[j - 1], h[k - 1]) && AttemptInv(h[j - 1], s.now);
  }

  lemma KeyedAttempts(t: Tables, id: string, n: int)
    requires AttemptsInv(t) && AttemptKey(id, n) in t.attempts
    ensures id in t.jobs && 1 <= n <= t.jobs[id].record.attemptCount
  {
  }

  lemma HistoryOfCell(c: Cell, now: Time)
    requires CellInv(c, now)
    ensures HistoryInv(c.history, now) && |c.history| == c.row.record.attemptCount
  {
    hide HistoryInv;
  }

  /** Recovery of a batch sets the spacing of every job of it that goes back to the queue. */
  lemma {:induction false} ExpireAllSpacing(s: State, ids: seq<string>, base: int, cap: int, ds: seq<nat>, j: string)
    requires Inv(s) && AllLapsed(s.t, ids, s.now) && Distinct(ids) && 1 <= base <= cap <= 3600
    requires j in ids && j in s.t.jobs
    requires s.t.jobs[j].record.status.Running?
    requires s.t.jobs[j].record.attemptCount < s.t.jobs[j].record.maxAttempts
    ensures 1 <= s.t.jobs[j].record.attemptCount
    ensures
      var n := s.t.jobs[j].record.attemptCount;
      Spaced(ExpireAll(s, ids, base, cap, ds).0, j, n, Seconds(Backoff(base, cap, n)))
    decreases |ids|
  {
    hide Inv, CellInv, Backoff, ExpireOne, Lapsed, Spaced, Small, Recovered;
    StoredCell(s, j);
    var d := Delay(ds);
    var one := ExpireOne(s, ids[0], base, cap, d);
    ExpireOneInv(s, ids[0], base, cap, d);
    ExpiredRest(s, ids, base, cap, d);
    assert Lapsed(s.t, ids[0], s.now);
    if j == ids[0] {
      RequeuedByExpiry(s, j, base, cap, d);
      ExpirySpacing(s, j, base, cap, d);
      var steps := ExpireAllPath(one.0, ids[1..], base, cap, Rest(ds));
      var n := s.t.jobs[j].record.attemptCount;
      PathSpaced(one.0, steps, j, n, Seconds(Backoff(base, cap, n)));
    } else {
      ExpireOneRecovers(s, ids[0], base, cap, d, j);
      ExpireAllSpacing(one.0, ids[1..], base, cap, Rest(ds), j);
    }
  }

  lemma RequeuedByExpiry(s: State, id: string, base: int, cap: int, d: nat)
    requires Inv(s) && Lapsed(s.t, id, s.now) && 1 <= base <= cap <= 3600
    requires s.t.jobs[id].record.status.Running?
    requires s.t.jobs[id].record.attemptCount < s.t.jobs[id].record.maxAttempts
    ensures ExpireOne(s, id, base, cap, d).1.status.Queued?
  {
    hide Inv, CellInv, Backoff;
    LapsedEnabled(s, id, base, cap, s.now + d);
  }

  /** After a reaper call requeued a job, in every run, its next attempt starts no earlier than
      the end of the lost one plus the backoff. */
  lemma ReapThenRun(s: State, limit: int, base: int, cap: int, d1: nat, ds: seq<nat>, events: seq<Event>, j: string)
    requires Inv(s) && ReapBounds(limit, base, cap)
    requires j in LapsedBatch(s.t, s.now + d1, limit) && j in s.t.jobs
    requires s.t.jobs[j].record.status.Running?
    requires s.t.jobs[j].record.attemptCount < s.t.jobs[j].record.maxAttempts
    ensures 1 <= s.t.jobs[j].record.attemptCount
    ensures
      var n := s.t.jobs[j].record.attemptCount;
      StartsAfter(Run(s, [DoReap(limit, base, cap, d1, ds)] + events).t, j, n, Seconds(Backoff(base, cap, n)))
  {
    hide Inv, Backoff, Lapsed, Spaced, ExpireAll, StartsAfter, Run, LapsedBatch;
    var at := s.now + d1;
    var e := DoReap(limit, base, cap, d1, ds);
    WaitInv(s, at);
    LapsedBatchMembers(s.t, at, limit);
    ExpireAllSpacing(s.(now := at), LapsedBatch(s.t, at, limit), base, cap, ds, j);
    RunAfter(s, e, events);
    var n := s.t.jobs[j].record.attemptCount;
    RunSpaced(Next(s, e), events, j, n, Seconds(Backoff(base, cap, n)));
  }

  // ---------------------------------------------------------------- bounded overtaking

  /** The queued jobs that come before `key` in claim order. */
  function Ahead(t: Tables, key: Key): set<string> {
    set id | id in t.jobs && t.jobs[id].record.status.Queued? && KeyLess(ClaimKey(t.jobs[id].record), key)
  }

  lemma LaterKeyNotLess(a: int, b: int, c: int, d: int, x: string, y: string)
    requires b < a
    ensures !KeyLess([Num(a), Num(c), Text(x)], [Num(b), Num(d), Text(y)])
  {
  }

  /** Only a new submission can come to stand before a key whose time has come. */
  lemma SmallAhead(s: State, f: Effect, s': State, key: Key, available: Time, created: Time, x: string)
    requires Small(s, f, s') && !f.Enqueue?
    requires key == [Num(available), Num(created), Text(x)] && available <= s.now
    ensures Ahead(s'.t, key) <= Ahead(s.t, key)
  {
    forall i | i in Ahead(s'.t, key)
      ensures i in Ahead(s.t, key)
    {
      AheadBefore(s, f, s', key, available, created, x, i);
    }
  }

  lemma AheadBefore(s: State, f: Effect, s': State, key: Key, available: Time, created: Time, x: string, i: string)
    requires Small(s, f, s') && !f.Enqueue?
    requires key == [Num(available), Num(created), Text(x)] && available <= s.now
    requires i in Ahead(s'.t, key)
    ensures i in Ahead(s.t, key)
  {
    hide Inv, CellInv, MoveCell, Enabled;
    assert i in s.t.jobs;
    StoredCell(s, i);
    SmallCell(s, f, s', i);
    var c, d := CellOf(s.t, i), CellOf(s'.t, i);
    if f.MoveOne? && f.id == i {
      MovedKey(c, f.move, available);
      var job := d.row.record;
      if available < job.availableAt {
        LaterKeyNotLess(job.availableAt, available, job.createdAt, created, job.jobId, x);
      }
    } else if f.PublishOne? && f.id == i {
      MovedKey(c, Publish(f.at), available);
    }
  }

  /** A move leaves a job queued only by rescheduling it after `now`. */
  lemma MovedKey(c: Cell, m: Move, available: Time)
    requires Enabled(c, m) && available <= m.at
    ensures
      var d := MoveCell(c, m);
      d.row.record.status.Queued? ==> available < d.row.record.availableAt
  {
  }

  lemma {:induction false} PathAhead(s: State, steps: seq<Step>, key: Key, available: Time, created: Time, x: string)
    requires Path(s, steps) && NoEnqueue(steps)
    requires key == [Num(available), Num(created), Text(x)] && available <= s.now
    ensures Ahead(PathEnd(s, steps).t, key) <= Ahead(s.t, key)
    decreases |steps|
  {
    hide Inv, Allowed, Effected, Ahead;
    if steps != [] {
      SmallAhead(s, steps[0].effect, steps[0].to, key, available, created, x);
      assert NoEnqueue(steps[1..]);
      PathAhead(steps[0].to, steps[1..], key, available, created, x);
    }
  }

  /** The operation hands a job to a worker. */
  predicate Claims(s: State, e: Event)
    requires Inv(s)
  {
    e.DoClaim? &&
    var r := ClaimNextJob(s, e.worker, e.token, e.seconds, e.d1, e.d2).1;
    r.Ok? && r.value.Some?
  }

  /** The operation enqueues a new job before `key`. */
  predicate Overtakes(s: State, e: Event, key: Key)
    requires Inv(s)
  {
    e.DoBegin? && NewJob(e.record, e.payload) && !Collides(s.t, e.record) && KeyLess(ClaimKey(e.record), key)
  }

  function CountClaims(s: State, events: seq<Event>): nat
    requires Inv(s)
    decreases |events|
  {
    if events == [] then 0
    else
      NextInv(s, events[0]);
      (if Claims(s, events[0]) then 1 else 0) + CountClaims(Next(s, events[0]), events[1..])
  }

  function CountOvertakers(s: State, events: seq<Event>, key: Key): nat
    requires Inv(s)
    decreases |events|
  {
    if events == [] then 0
    else
      NextInv(s, events[0]);
      (if Overtakes(s, events[0], key) then 1 else 0) + CountOvertakers(Next(s, events[0]), events[1..], key)
  }

  predicate Waiting(t: Tables, j: string, now: Time) {
    j in t.jobs && t.jobs[j].record.status.Queued? && t.jobs[j].record.availableAt <= now
  }

  /** The job a claim takes is ahead of every waiting job before, and of none after. */
  lemma TakenFromAhead(s: State, e: Event, j: string)
    requires Inv(s) && Waiting(s.t, j, s.now) && Claims(s, e)
    requires j in Next(s, e).t.jobs && Next(s, e).t.jobs[j] == s.t.jobs[j]
    ensures NextClaim(s.t, s.now + e.d1).Some?
    ensures
      var i, key := NextClaim(s.t, s.now + e.d1).value, ClaimKey(s.t.jobs[j].record);
      i in Ahead(s.t, key) && i !in Ahead(Next(s, e).t, key)
  {
    hide Inv, CellInv, ValidToken, ValidWorkerId, KeyLess;
    var at := s.now + e.d1;
    ClaimableOffered(s, at, j);
    NextClaimIsFirst(s, at);
    var i := NextClaim(s.t, at).value;
    assert Next(s, e).t.jobs[i].record.status.Running?;
    assert i != j;
  }

  lemma NextOfClaim(s: State, e: Event)
    requires Inv(s) && e.DoClaim?
    ensures Next(s, e) == ClaimNextJob(s, e.worker, e.token, e.seconds, e.d1, e.d2).0
  {
    hide Inv;
  }

  lemma ClaimAhead(s: State, e: Event, j: string)
    requires Inv(s) && Waiting(s.t, j, s.now) && Claims(s, e)
    requires j in Next(s, e).t.jobs && Next(s, e).t.jobs[j] == s.t.jobs[j]
    ensures
      var key := ClaimKey(s.t.jobs[j].record);
      |Ahead(Next(s, e).t, key)| + 1 <= |Ahead(s.t, key)|
  {
    hide Inv, Ahead, NextClaim, Next, ClaimNextJob, Small;
    assert e.DoClaim?;
    NextOfClaim(s, e);
    TakenFromAhead(s, e, j);
    var job := s.t.jobs[j].record;
    var i, key := NextClaim(s.t, s.now + e.d1).value, ClaimKey(job);
    var f := ClaimStep(s, e.worker, e.token, e.seconds, e.d1, e.d2);
    SmallAhead(s, f, Next(s, e), key, job.availableAt, job.createdAt, job.jobId);
    SubsetSize(Ahead(Next(s, e).t, key), Ahead(s.t, key) - {i});
  }

  lemma ClaimableOffered(s: State, at: Time, j: string)
    requires Waiting(s.t, j, at)
    ensures NextClaim(s.t, at).Some?
  {
    assert ClaimKey(s.t.jobs[j].record) in ClaimableKeys(s.t, at);
  }

  lemma SubsetSize<T>(a: set<T>, b: set<T>)
    requires a <= b
    ensures |a| <= |b|
  {
    if a != {} {
      var x :| x in a;
      SubsetSize(a - {x}, b - {x});
    }
  }

  lemma BeginAhead(s: State, e: Event, key: Key)
    requires Inv(s) && e.DoBegin?
    ensures |Ahead(Next(s, e).t, key)| <= |Ahead(s.t, key)| + (if Overtakes(s, e, key) then 1 else 0)
  {
    hide Inv;
    var t' := Next(s, e).t;
    if Overtakes(s, e, key) {
      assert Ahead(t', key) <= Ahead(s.t, key) + {e.record.jobId};
      SubsetSize(Ahead(t', key), Ahead(s.t, key) + {e.record.jobId});
    } else {
      assert Ahead(t', key) <= Ahead(s.t, key);
      SubsetSize(Ahead(t', key), Ahead(s.t, key));
    }
  }

  /** One operation that leaves job `j` waiting: a claim shrinks the set ahead of it, and
      nothing but a submission before its key enlarges the set. */
  lemma EventAhead(s: State, e: Event, j: string)
    requires Inv(s) && Waiting(s.t, j, s.now)
    requires j in Next(s, e).t.jobs && Next(s, e).t.jobs[j] == s.t.jobs[j]
    ensures
      var key := ClaimKey(s.t.jobs[j].record);
      |Ahead(Next(s, e).t, key)| + (if Claims(s, e) then 1 else 0)
        <= |Ahead(s.t, key)| + (if Overtakes(s, e, key) then 1 else 0)
  {
    hide Inv, Small, Ahead, ClaimNextJob;
    var job := s.t.jobs[j].record;
    var key := ClaimKey(job);
    if e.DoBegin? {
      BeginAhead(s, e, key);
    } else if Claims(s, e) {
      ClaimAhead(s, e, j);
    } else {
      var steps := EventPath(s, e);
      PathAhead(s, steps, key, job.availableAt, job.createdAt, job.jobId);
      SubsetSize(Ahead(Next(s, e).t, key), Ahead(s.t, key));
    }
  }

  /** Bounded overtaking: while a job whose time has come keeps waiting, the claims made by
      anyone number at most the jobs that stood before it plus the submissions that came to
      stand before it. So it is claimed or canceled within that many claims and one more. */
  lemma {:induction false} BoundedOvertaking(s: State, events: seq<Event>, j: string)
    requires Inv(s) && Waiting(s.t, j, s.now)
    requires j in Run(s, events).t.jobs && Run(s, events).t.jobs[j] == s.t.jobs[j]
    ensures
      var key := ClaimKey(s.t.jobs[j].record);
      CountClaims(s, events) + |Ahead(Run(s, events).t, key)|
        <= |Ahead(s.t, key)| + CountOvertakers(s, events, key)
    decreases |events|
  {
    hide Inv, Ahead, Claims, Overtakes;
    if events != [] {
      var s1 := Next(s, events[0]);
      NextInv(s, events[0]);
      RowHeld(s, events, j);
      EventAhead(s, events[0], j);
      BoundedOvertaking(s1, events[1..], j);
    }
  }

  // A job that is overtaken although nothing stood ahead of it.

  const TOKEN := "0123456789abcdef0123456789abcdef"

  function Submission(id: string, at: Time): JobRecord {
    JobRecord(id, RunJob, Queued, id, "digest", id, 0, 1, at, None, at, at)
  }

  function SubmissionEvent(id: string, at: Time): Event {
    DoBegin(Submission(id, at), Payload(RunJob, ""), 0)
  }

  lemma EnqueueEvent(s: State, id: string, at: Time)
    requires Inv(s) && id !in s.t.jobs && !Collides(s.t, Submission(id, at))
    ensures Next(s, SubmissionEvent(id, at)) == s.(t := Enqueued(s.t, Submission(id, at), Payload(RunJob, "")))
  {
  }

  /** The stores of the example: one job stamped 10, then another stamped 5 that arrives after it. */
  lemma OvertakenStores() returns (one: State, two: State)
    ensures Inv(one) && one == Reached(10, [SubmissionEvent("late", 10)])
    ensures one == State(Enqueued(EMPTY, Submission("late", 10), Payload(RunJob, "")), 10)
    ensures Inv(two) && two == Next(one, SubmissionEvent("early", 5))
    ensures two == one.(t := Enqueued(one.t, Submission("early", 5), Payload(RunJob, "")))
  {
    hide Inv, Next;
    EmptyInv(10);
    var zero := State(EMPTY, 10);
    EnqueueEvent(zero, "late", 10);
    NextInv(zero, SubmissionEvent("late", 10));
    one := Next(zero, SubmissionEvent("late", 10));
    assert [SubmissionEvent("late", 10)][1..] == [];
    EnqueueEvent(one, "early", 5);
    NextInv(one, SubmissionEvent("early", 5));
    two := Next(one, SubmissionEvent("early", 5));
  }

  lemma ExampleWorker()
    ensures ValidToken(TOKEN) && ValidWorkerId("worker")
  {
  }

  /** The claim goes to the submission with the earlier stamp. */
  lemma EarlyClaimed(two: State)
    requires Inv(two) && two.now == 10
    requires two.t.jobs
          == map["late" := JobRow(Submission("late", 10), 0), "early" := JobRow(Submission("early", 5), 0)]
    ensures
      var claim := DoClaim("worker", TOKEN, 30, 0, 0);
      Claims(two, claim) && "late" in Next(two, claim).t.jobs && Next(two, claim).t.jobs["late"] == two.t.jobs["late"]
  {
    hide Inv, KeyLess, NextClaim, MoveCell, ValidRecord, ValidToken, ValidWorkerId;
    ExampleWorker();
    assert Waiting(two.t, "early", 10);
    ClaimableOffered(two, 10, "early");
    NextClaimIsFirst(two, 10);
    LaterKeyNotLess(10, 5, 10, 5, "late", "early");
    var id := NextClaim(two.t, 10).value;
    assert id == "early";
    assert CellOf(two.t, id).history == [];
  }

  /** Without agreeing clocks nothing bounds the claims by the jobs ahead alone: in a reachable
      store a waiting job has nobody ahead of it, a submission with an earlier stamp arrives, and
      after one claim, one more than the jobs ahead, the job is still waiting. */
  lemma OvertakenExample()
    ensures
      var s := Reached(10, [SubmissionEvent("late", 10)]);
      var events := [SubmissionEvent("early", 5), DoClaim("worker", TOKEN, 30, 0, 0)];
      && Waiting(s.t, "late", s.now) && Waiting(Run(s, events).t, "late", s.now)
      && CountClaims(s, events) == |Ahead(s.t, ClaimKey(s.t.jobs["late"].record))| + 1
  {
    hide Inv, Next, Claims, KeyLess;
    var one, two := OvertakenStores();
    var claim := DoClaim("worker", TOKEN, 30, 0, 0);
    var events := [SubmissionEvent("early", 5), claim];
    EarlyClaimed(two);
    KeyTotal(ClaimKey(Submission("late", 10)), ClaimKey(Submission("late", 10)));
    assert Ahead(one.t, ClaimKey(Submission("late", 10))) == {};
    NextInv(one, events[0]);
    NextInv(two, claim);
    NotAClaim(one, events[0]);
    assert events[1..] == [claim] && [claim][1..] == [];
    assert Run(one, events) == Run(two, [claim]) == Next(two, claim);
    assert CountClaims(one, events) == CountClaims(two, [claim]) == 1;
    NextClock(two, claim);
  }

  lemma NextClock(s: State, e: Event)
    requires Inv(s) && e.DoClaim?
    ensures Next(s, e).now == s.now + e.d1 + e.d2
  {
    hide Inv;
  }

  lemma NotAClaim(s: State, e: Event)
    requires Inv(s) && !e.DoClaim?
    ensures !Claims(s, e)
  {
  }

  /** No submission of the run stands before the key. */
  predicate NoneBefore(events: seq<Event>, key: Key) {
    forall i :: 0 <= i < |events| && events[i].DoBegin? ==> !KeyLess(ClaimKey(events[i].record), key)
  }

  /** Submissions stamped, as available, after the key's own time do not stand before it. */
  lemma LaterStampsNotBefore(events: seq<Event>, job: JobRecord)
    requires forall i :: 0 <= i < |events| && events[i].DoBegin? ==> job.availableAt < events[i].record.availableAt
    ensures NoneBefore(events, ClaimKey(job))
  {
    forall i | 0 <= i < |events| && events[i].DoBegin?
      ensures !KeyLess(ClaimKey(events[i].record), ClaimKey(job))
    {
      var other := events[i].record;
      LaterKeyNotLess(other.availableAt, job.availableAt, other.createdAt, job.createdAt, other.jobId, job.jobId);
    }
  }

  lemma {:induction false} NoOvertakers(s: State, events: seq<Event>, key: Key)
    requires Inv(s) && NoneBefore(events, key)
    ensures CountOvertakers(s, events, key) == 0
    decreases |events|
  {
    hide Inv, Next, KeyLess, ClaimKey;
    if events != [] {
      NextInv(s, events[0]);
      assert NoneBefore(events[1..], key);
      NoOvertakers(Next(s, events[0]), events[1..], key);
    }
  }

  lemma QueuedMove(c: Cell, m: Move)
    requires Enabled(c, m) && c.row.record.status.Queued?
    ensures MoveCell(c, m).row.record.status.Running? || MoveCell(c, m).row.record.status.Canceled?
  {
  }

  lemma ReapLeavesQueued(s: State, e: Event, j: string)
    requires Inv(s) && e.DoReap? && j in s.t.jobs && s.t.jobs[j].record.status.Queued?
    ensures j in Next(s, e).t.jobs && Next(s, e).t.jobs[j] == s.t.jobs[j]
  {
    hide Inv, CellInv, LapsedBatch, ReapExpiredJobs, Recovered;
    if ReapBounds(e.limit, e.base, e.cap) {
      ReaperRefinement(s, e.limit, e.base, e.cap, e.d1, e.ds, j);
      BatchIsFirst(s.t, s.now + e.d1, e.limit);
    } else {
      RefusedReap(s, e);
    }
  }

  lemma RefusedReap(s: State, e: Event)
    requires Inv(s) && e.DoReap? && !ReapBounds(e.limit, e.base, e.cap)
    ensures Next(s, e).t == s.t
  {
    hide Inv;
  }

  /** A queued job leaves its row only by being claimed or canceled. */
  lemma QueuedThenClaimedOrCanceled(s: State, e: Event, j: string)
    requires Inv(s) && j in s.t.jobs && s.t.jobs[j].record.status.Queued?
    ensures j in Next(s, e).t.jobs
    ensures
      var row := Next(s, e).t.jobs[j];
      row == s.t.jobs[j] || row.record.status.Running? || row.record.status.Canceled?
  {
    hide Inv, CellInv, MoveCell, Enabled, Effected, Next;
    if e.DoReap? {
      ReapLeavesQueued(s, e, j);
    } else {
      var f := EventStep(s, e);
      StoredCell(s, j);
      SmallCell(s, f, Next(s, e), j);
      match f
      case MoveOne(i, m) =>
        if i == j {
          QueuedMove(CellOf(s.t, j), m);
        }
      case PublishOne(i, at, _) =>
        if i == j {
          QueuedMove(CellOf(s.t, j), Publish(at));
        }
      case _ =>
    }
  }

  /** The job waits through the first `k` operations, and the next one claims or cancels it. */
  predicate LeavesAt(s: State, events: seq<Event>, j: string, k: nat)
    requires Inv(s)
  {
    && k < |events| && j in s.t.jobs
    && j in Run(s, events[..k]).t.jobs && Run(s, events[..k]).t.jobs[j] == s.t.jobs[j]
    && j in Run(s, events[..k + 1]).t.jobs
    && (var status := Run(s, events[..k + 1]).t.jobs[j].record.status; status.Running? || status.Canceled?)
  }

  lemma {:induction false} LeavesSomewhere(s: State, events: seq<Event>, j: string) returns (k: nat)
    requires Inv(s) && j in s.t.jobs && s.t.jobs[j].record.status.Queued?
    requires !(j in Run(s, events).t.jobs && Run(s, events).t.jobs[j] == s.t.jobs[j])
    ensures LeavesAt(s, events, j, k)
    decreases |events|
  {
    hide Inv, Next;
    var e, rest := events[0], events[1..];
    QueuedThenClaimedOrCanceled(s, e, j);
    NextInv(s, e);
    assert events[..0] == [] && events[..1] == [e] + [];
    RunAfter(s, e, []);
    if Next(s, e).t.jobs[j] == s.t.jobs[j] {
      var i := LeavesSomewhere(Next(s, e), rest, j);
      k := i + 1;
      assert events[..k] == [e] + rest[..i] && events[..k + 1] == [e] + rest[..i + 1];
      RunAfter(s, e, rest[..i]);
      RunAfter(s, e, rest[..i + 1]);
    } else {
      k := 0;
    }
  }

  /** When no submission comes to stand before it, as with agreeing clocks, a waiting job is claimed
      or canceled within as many claims, by anyone, as there were jobs ahead of it and one more. */
  lemma ClaimedWithinBound(s: State, events: seq<Event>, j: string) returns (k: nat)
    requires Inv(s) && Waiting(s.t, j, s.now) && NoneBefore(events, ClaimKey(s.t.jobs[j].record))
    requires |Ahead(s.t, ClaimKey(s.t.jobs[j].record))| < CountClaims(s, events)
    ensures LeavesAt(s, events, j, k)
  {
    hide Inv, Ahead, Claims, Overtakes, CountClaims, CountOvertakers, ClaimKey, LeavesAt;
    var key := ClaimKey(s.t.jobs[j].record);
    if j in Run(s, events).t.jobs && Run(s, events).t.jobs[j] == s.t.jobs[j] {
      BoundedOvertaking(s, events, j);
      NoOvertakers(s, events, key);
      assert false;
    }
    k := LeavesSomewhere(s, events, j);
  }

  /** A row found unchanged at the end of a run was unchanged after its first operation. */
  lemma RowHeld(s: State, events: seq<Event>, j: string)
    requires Inv(s) && j in s.t.jobs && events != []
    requires j in Run(s, events).t.jobs && Run(s, events).t.jobs[j] == s.t.jobs[j]
    ensures j in Next(s, events[0]).t.jobs && Next(s, events[0]).t.jobs[j] == s.t.jobs[j]
  {
    hide Inv, Complete;
    var s1 := Next(s, events[0]);
    NextInv(s, events[0]);
    NextLater(s, events[0], j);
    JobOfComplete(s1.t, j);
    RunLater(s1, events[1..], j);
    LaterVersions(CellOf(s.t, j), CellOf(s1.t, j));
    LaterVersions(CellOf(s1.t, j), CellOf(Run(s1, events[1..]).t, j));
  }

  // ---------------------------------------------------------------- the reaper

  /** The jobs whose lease is over at time `at`. */
  function LapsedJobs(t: Tables, at: Time): set<string> {
    set id | id in t.jobs && Lapsed(t, id, at)
  }

  lemma ExpiryKeySize(t: Tables, at: Time, ids: set<string>)
    requires ids <= LapsedJobs(t, at)
    ensures |set id | id in ids && Lapsed(t, id, at) :: ExpiryKey(t, id)| == |ids|
    decreases |ids|
  {
    var keys := set id | id in ids && Lapsed(t, id, at) :: ExpiryKey(t, id);
    if ids != {} {
      var x :| x in ids;
      var rest := ids - {x};
      ExpiryKeySize(t, at, rest);
      var restKeys := set id | id in rest && Lapsed(t, id, at) :: ExpiryKey(t, id);
      assert x in LapsedJobs(t, at);
      assert ExpiryKey(t, x)[1] == Text(x);
      assert keys == restKeys + {ExpiryKey(t, x)};
    }
  }

  /** The batch is the first `limit` lapsed jobs in (lease_expires_at, job_id) order. */
  lemma BatchIsFirst(t: Tables, at: Time, limit: nat)
    ensures
      var ids := LapsedBatch(t, at, limit);
      && |ids| == Min(limit, |LapsedJobs(t, at)|)
      && AllLapsed(t, ids, at) && Distinct(ids)
      && (forall i, j :: 0 <= i < j < |ids| ==> KeyLess(ExpiryKey(t, ids[i]), ExpiryKey(t, ids[j])))
      && (forall i, x :: 0 <= i < |ids| && x in LapsedJobs(t, at) && x !in ids ==>
            KeyLess(ExpiryKey(t, ids[i]), ExpiryKey(t, x)))
  {
    LapsedBatchMembers(t, at, limit);
    var all := SortedKeys(LapsedKeys(t, at));
    var ids := LapsedBatch(t, at, limit);
    assert LapsedKeys(t, at) ==
           set id | id in LapsedJobs(t, at) && Lapsed(t, id, at) :: ExpiryKey(t, id);
    ExpiryKeySize(t, at, LapsedJobs(t, at));
    forall i | 0 <= i < |ids|
      ensures ExpiryKey(t, ids[i]) == all[i]
    {
      assert all[i] in all;
      var id :| id in t.jobs && Lapsed(t, id, at) && ExpiryKey(t, id) == all[i];
      assert all[i][1] == Text(id);
    }
    forall i, x | 0 <= i < |ids| && x in LapsedJobs(t, at) && x !in ids
      ensures KeyLess(ExpiryKey(t, ids[i]), ExpiryKey(t, x))
    {
      assert ExpiryKey(t, x) in all;
      var k :| 0 <= k < |all| && all[k] == ExpiryKey(t, x);
      assert all[k][1] == Text(x);
    }
  }

  /** Whether a lapsed job was canceled, failed or requeued, and by which rule. */
  predicate Recovered(before: JobRecord, after: JobRecord, base: int, cap: int) {
    && (before.status.CancelRequested? ==> after.status.Canceled?)
    && (before.status.Running? && before.maxAttempts <= before.attemptCount ==>
          after.status.Failed? && after.errorCode == Some(EXPIRED_CODE))
    && (before.status.Running? && before.attemptCount < before.maxAttempts && 1 <= before.attemptCount ==>
          && after.status.Queued?
          && after.availableAt == after.updatedAt + Seconds(Backoff(base, cap, before.attemptCount)))
  }

  /** What a recovery pass over `ids` does to job `j`: nothing unless it is in the batch; if it
      is at position `i`, it is recovered and reported there. */
  predicate Reaped(t: Tables, t': Tables, ids: seq<string>, records: seq<JobRecord>, j: string, base: int, cap: int) {
    && Complete(t, j) && Complete(t', j) && |records| == |ids|
    && (j !in ids ==> CellOf(t', j) == CellOf(t, j))
    && (forall i :: 0 <= i < |ids| && ids[i] == j ==>
          t'.jobs[j].record == records[i] && Recovered(t.jobs[j].record, records[i], base, cap))
  }

  lemma ExpireOneRecovers(s: State, id: string, base: int, cap: int, d: nat, j: string)
    requires Inv(s) && Lapsed(s.t, id, s.now) && 1 <= base <= cap <= 3600
    requires j in s.t.jobs
    ensures Complete(s.t, j) && Complete(ExpireOne(s, id, base, cap, d).0.t, j)
    ensures
      var t' := ExpireOne(s, id, base, cap, d).0.t;
      && (j != id ==> CellOf(t', j) == CellOf(s.t, j))
      && (j == id ==>
            && t'.jobs[id].record == ExpireOne(s, id, base, cap, d).1
            && Recovered(s.t.jobs[id].record, t'.jobs[id].record, base, cap))
  {
    hide Inv, CellInv, Backoff;
    StoredCell(s, j);
    LapsedEnabled(s, id, base, cap, s.now + d);
    MoveJobCells(s, id, ExpiryMove(s.t.jobs[id].record, base, cap, s.now + d), j);
  }

  lemma {:induction false} ExpireAllRecovers(s: State, ids: seq<string>, base: int, cap: int, ds: seq<nat>, j: string)
    requires Inv(s) && AllLapsed(s.t, ids, s.now) && Distinct(ids) && 1 <= base <= cap <= 3600
    requires j in s.t.jobs
    ensures
      var r := ExpireAll(s, ids, base, cap, ds);
      Reaped(s.t, r.0.t, ids, r.1, j, base, cap)
    decreases |ids|
  {
    hide Inv, CellInv, Recovered, ExpireOne, Lapsed;
    StoredCell(s, j);
    if ids != [] {
      var d := Delay(ds);
      var one := ExpireOne(s, ids[0], base, cap, d);
      ExpireOneInv(s, ids[0], base, cap, d);
      ExpiredRest(s, ids, base, cap, d);
      ExpireOneRecovers(s, ids[0], base, cap, d, j);
      ExpireAllRecovers(one.0, ids[1..], base, cap, Rest(ds), j);
      forall i | 0 <= i < |ids| && ids[i] == j
        ensures i == 0 <==> j == ids[0]
      {
      }
      if j == ids[0] {
        assert j !in ids[1..];
      }
    }
  }

  /** One reaper call: it recovers the first min(limit, lapsed) jobs in lease order, each as the
      rule for a single job says, and reports them in that order; it touches no other job. */
  lemma ReaperRefinement(s: State, limit: int, base: int, cap: int, d1: nat, ds: seq<nat>, j: string)
    requires Inv(s) && ReapBounds(limit, base, cap) && j in s.t.jobs
    ensures
      var ids := LapsedBatch(s.t, s.now + d1, limit);
      var r := ReapExpiredJobs(s, limit, base, cap, d1, ds);
      && r.1.Ok? && |ids| == Min(limit, |LapsedJobs(s.t, s.now + d1)|)
      && Reaped(s.t, r.0.t, ids, r.1.value, j, base, cap)
  {
    hide Inv, CellInv, Recovered, Lapsed, Reaped, LapsedBatch, LapsedJobs, ExpireAll;
    var at := s.now + d1;
    WaitInv(s, at);
    LapsedBatchMembers(s.t, at, limit);
    BatchIsFirst(s.t, at, limit);
    ExpireAllRecovers(s.(now := at), LapsedBatch(s.t, at, limit), base, cap, ds, j);
  }

  /** With enough limit, no lease that was over at selection time is left. */
  lemma ReaperLeavesNone(s: State, limit: int, base: int, cap: int, d1: nat, ds: seq<nat>, j: string)
    requires Inv(s) && ReapBounds(limit, base, cap) && j in s.t.jobs
    requires |LapsedJobs(s.t, s.now + d1)| <= limit
    ensures !Lapsed(ReapExpiredJobs(s, limit, base, cap, d1, ds).0.t, j, s.now + d1)
  {
    hide Inv, CellInv, ReapExpiredJobs, LapsedBatch, HistoryInv;
    var at := s.now + d1;
    var ids := LapsedBatch(s.t, at, limit);
    var r := ReapExpiredJobs(s, limit, base, cap, d1, ds);
    ReaperRefinement(s, limit, base, cap, d1, ds, j);
    BatchIsFirst(s.t, at, limit);
    AllTaken(ids, LapsedJobs(s.t, at));
    StoredCell(s, j);
    NotLapsedAfter(s.t, r.0.t, ids, r.1.value, j, base, cap, at);
  }

  lemma NotLapsedAfter(t: Tables, t': Tables, ids: seq<string>, records: seq<JobRecord>, j: string,
                       base: int, cap: int, at: Time)
    requires Reaped(t, t', ids, records, j, base, cap)
    requires Lapsed(t, j, at) <==> j in ids
    requires Active(t.jobs[j].record.status) ==> 1 <= t.jobs[j].record.attemptCount
    ensures !Lapsed(t', j, at)
  {
    if j in ids {
      var i :| 0 <= i < |ids| && ids[i] == j;
      assert Recovered(t.jobs[j].record, t'.jobs[j].record, base, cap);
    } else if Lapsed(t', j, at) {
      SameCellLapsed(t, t', j, at);
    }
  }

  lemma SameCellLapsed(t: Tables, t': Tables, j: string, at: Time)
    requires Complete(t, j) && Complete(t', j) && CellOf(t, j) == CellOf(t', j)
    requires Lapsed(t', j, at) && 1 <= t'.jobs[j].record.attemptCount
    ensures Lapsed(t, j, at)
  {
    LastOfCell(t, j);
    LastOfCell(t', j);
  }

  lemma AllTaken(ids: seq<string>, all: set<string>)
    requires Distinct(ids) && |ids| == |all|
    requires forall i :: 0 <= i < |ids| ==> ids[i] in all
    ensures forall x :: x in all ==> x in ids
  {
    var taken := set x | x in ids;
    DistinctSize(ids);
    if exists x :: x in all && x !in ids {
      var x :| x in all && x !in ids;
      SubsetSize(taken, all - {x});
    }
  }

  lemma {:induction false} DistinctSize(ids: seq<string>)
    requires Distinct(ids)
    ensures |set x | x in ids| == |ids|
    decreases |ids|
  {
    if ids != [] {
      DistinctSize(ids[1..]);
      assert ids[0] !in ids[1..];
      assert (set x | x in ids) == (set x | x in ids[1..]) + {ids[0]};
    }
  }
}
