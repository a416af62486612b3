/** Create-once publishing of run artifacts in one directory, by any number of save calls at
    once, each of which may fail or be cut off at any step. A call writes a temporary file in
    pieces and then links it, in one step, to the name its run identifier hashes to. */
module Publisher {
  import opened Common

  type Bytes = seq<int>

  datatype Name = Stored(key: string) | Temporary(n: nat)

  /** The size limit, the hash that names artifacts, and the run identifier found in valid bytes. */
  datatype Setup = Setup(limit: int, key: string -> string, owner: Bytes -> Option<string>)

  datatype Outcome = Saved | StoreFailure | Conflict | Corrupt

  /** Where a save call stands. */
  datatype Phase =
    | Entered
    | Creating
    | Writing(temp: nat, written: nat)
    | Synced(temp: nat)
    | Comparing(left: Option<nat>)
    | Closing(temp: nat, outcome: Outcome)
    | Ended(outcome: Outcome)
    | Crashed

  datatype Call = Call(runId: string, payload: Bytes, phase: Phase)

  /** Directory entries, file contents, and the calls in flight. */
  datatype Disk = Disk(names: map<Name, nat>, inodes: map<nat, Bytes>, calls: map<nat, Call>)

  datatype Event =
    | Begin(id: nat, runId: string, payload: Bytes)
    | Check(id: nat)
    | Create(id: nat, temp: nat)
    | Write(id: nat, upTo: nat)
    | Sync(id: nat)
    | Link(id: nat)
    | Compare(id: nat)
    | Finish(id: nat, removed: bool)
    | Fault(id: nat, removed: bool)
    | CutOff(id: nat)

  const EMPTY := Disk(map[], map[], map[])

  function WithPhase(d: Disk, id: nat, phase: Phase): Disk
    requires id in d.calls
  {
    d.(calls := d.calls[id := d.calls[id].(phase := phase)])
  }

  function Unlinked(names: map<Name, nat>, temp: nat, removed: bool): map<Name, nat> {
    if removed then names - {Temporary(temp)} else names
  }

  function Closed(left: Option<nat>, outcome: Outcome): Phase {
    if left.Some? then Closing(left.value, outcome) else Ended(outcome)
  }

  /** Where an operating-system error leaves a call; one while comparing reads as corruption. */
  function AfterFault(phase: Phase): Phase {
    match phase
    case Writing(temp, _) => Closing(temp, StoreFailure)
    case Synced(temp) => Closing(temp, StoreFailure)
    case Comparing(left) => Closed(left, Corrupt)
    case _ => Ended(StoreFailure)
  }

  /** The verdict on the bytes found under the name: the call's own, another artifact of the same
      run, or nothing valid for it. */
  function Verdict(u: Setup, c: Call, found: Bytes): Outcome {
    if found == c.payload then Saved
    else if u.owner(found) == Some(c.runId) then Conflict
    else Corrupt
  }

  /** One step of one call; a step the call is not at does nothing. */
  function Next(u: Setup, d: Disk, e: Event): Disk {
    if e.Begin? then
      if e.id in d.calls then d
      else
        var phase := if u.limit < |e.payload| then Ended(StoreFailure) else Entered;
        d.(calls := d.calls[e.id := Call(e.runId, e.payload, phase)])
    else if e.id !in d.calls then d
    else
      var c := d.calls[e.id];
      var dest := Stored(u.key(c.runId));
      match e
      case Begin(_, _, _) => d
      case Check(id) =>
        if !c.phase.Entered? then d
        else WithPhase(d, id, if dest in d.names then Comparing(None) else Creating)
      case Create(id, temp) =>
        if !c.phase.Creating? || temp in d.inodes then d
        else
          var made := d.(names := d.names[Temporary(temp) := temp], inodes := d.inodes[temp := []]);
          WithPhase(made, id, Writing(temp, 0))
      case Write(id, upTo) =>
        if !(c.phase.Writing? && c.phase.written < upTo <= |c.payload| && c.phase.temp in d.inodes) then d
        else
          var more := d.inodes[c.phase.temp] + c.payload[c.phase.written..upTo];
          WithPhase(d.(inodes := d.inodes[c.phase.temp := more]), id, Writing(c.phase.temp, upTo))
      case Sync(id) =>
        if !(c.phase.Writing? && c.phase.written == |c.payload|) then d
        else WithPhase(d, id, Synced(c.phase.temp))
      case Link(id) =>
        if !c.phase.Synced? then d
        else if dest in d.names then WithPhase(d, id, Comparing(Some(c.phase.temp)))
        else WithPhase(d.(names := d.names[dest := c.phase.temp]), id, Closing(c.phase.temp, Saved))
      case Compare(id) =>
        if !(c.phase.Comparing? && dest in d.names && d.names[dest] in d.inodes) then d
        else WithPhase(d, id, Closed(c.phase.left, Verdict(u, c, d.inodes[d.names[dest]])))
      case Finish(id, removed) =>
        if !c.phase.Closing? then d
        else WithPhase(d.(names := Unlinked(d.names, c.phase.temp, removed)), id, Ended(c.phase.outcome))
      case CutOff(id) =>
        if c.phase.Ended? then d else WithPhase(d, id, Crashed)
      case Fault(id, removed) =>
        if c.phase.Ended? || c.phase.Crashed? then d
        else
          var names := if c.phase.Closing? then Unlinked(d.names, c.phase.temp, removed) else d.names;
          WithPhase(d.(names := names), id, AfterFault(c.phase))
  }

  // ---------------------------------------------------------------- what every step keeps

  /** The call still owns its temporary file alone. */
  predicate Owning(c: Call) {
    c.phase.Writing? || c.phase.Synced?
  }

  predicate SavedCall(c: Call) {
    (c.phase.Closing? || c.phase.Ended?) && c.phase.outcome == Saved
  }

  /** The artifact under a name is the complete payload of a call for that name. */
  ghost predicate PublishedBy(u: Setup, d: Disk, key: string, id: nat) {
    && id in d.calls && u.key(d.calls[id].runId) == key
    && Stored(key) in d.names && d.names[Stored(key)] in d.inodes
    && d.inodes[d.names[Stored(key)]] == d.calls[id].payload
  }

  ghost predicate StoredInv(u: Setup, d: Disk) {
    forall key {:trigger Stored(key)} :: Stored(key) in d.names ==> exists id :: PublishedBy(u, d, key, id)
  }

  /** What a call in flight has on disk. */
  ghost predicate CallInv(d: Disk, c: Call) {
    && (Owning(c) ==> c.phase.temp in d.inodes)
    && (c.phase.Writing? ==>
          c.phase.written <= |c.payload| && d.inodes[c.phase.temp] == c.payload[..c.phase.written])
    && (c.phase.Synced? ==> d.inodes[c.phase.temp] == c.payload)
    && (Owning(c) ==>
          forall key {:trigger Stored(key)} :: Stored(key) in d.names ==> d.names[Stored(key)] != c.phase.temp)
  }

  ghost predicate CallsInv(d: Disk) {
    forall id :: id in d.calls ==> CallInv(d, d.calls[id])
  }

  ghost predicate OwnersApart(d: Disk) {
    forall a, b :: a in d.calls && b in d.calls && a != b && Owning(d.calls[a]) && Owning(d.calls[b]) ==>
      d.calls[a].phase.temp != d.calls[b].phase.temp
  }

  ghost predicate SavedInv(u: Setup, d: Disk) {
    forall id :: id in d.calls && SavedCall(d.calls[id]) ==> PublishedBy(u, d, u.key(d.calls[id].runId), id)
  }

  ghost predicate DiskInv(u: Setup, d: Disk) {
    StoredInv(u, d) && CallsInv(d) && OwnersApart(d) && SavedInv(u, d)
  }

  /** Artifacts stay, with their bytes; calls keep what they were asked to store. */
  ghost predicate Kept(d: Disk, e: Disk) {
    && (forall key {:trigger Stored(key)} :: Stored(key) in d.names && d.names[Stored(key)] in d.inodes ==>
          && Stored(key) in e.names && e.names[Stored(key)] in e.inodes
          && e.inodes[e.names[Stored(key)]] == d.inodes[d.names[Stored(key)]])
    && (forall id :: id in d.calls ==>
          && id in e.calls && e.calls[id].runId == d.calls[id].runId && e.calls[id].payload == d.calls[id].payload
          && (d.calls[id].phase.Ended? ==> e.calls[id] == d.calls[id]))
  }

  lemma KeptTransitive(a: Disk, b: Disk, c: Disk)
    requires Kept(a, b) && Kept(b, c)
    ensures Kept(a, c)
  {
  }

  lemma PublishedKept(u: Setup, d: Disk, e: Disk, key: string, id: nat)
    requires Kept(d, e) && PublishedBy(u, d, key, id)
    ensures PublishedBy(u, e, key, id)
  {
  }

  /** A step that leaves artifacts and the other calls alone, and gives the stepping call a phase
      that claims nothing new, keeps the invariant. */
  ghost predicate Quiet(d: Disk, e: Disk, id: nat) {
    && id in d.calls && e.calls.Keys == d.calls.Keys
    && e.inodes == d.inodes
    && (forall key {:trigger Stored(key)} :: Stored(key) in e.names <==> Stored(key) in d.names)
    && (forall key {:trigger Stored(key)} :: Stored(key) in d.names ==> e.names[Stored(key)] == d.names[Stored(key)])
    && (forall j :: j in d.calls && j != id ==> e.calls[j] == d.calls[j])
    && e.calls[id].runId == d.calls[id].runId && e.calls[id].payload == d.calls[id].payload
    && !d.calls[id].phase.Ended?
  }

  lemma QuietKept(d: Disk, e: Disk, id: nat)
    requires Quiet(d, e, id)
    ensures Kept(d, e)
  {
  }

  /** What was published stays published when no new artifact name appears. */
  lemma StoredKept(u: Setup, d: Disk, e: Disk)
    requires StoredInv(u, d) && Kept(d, e)
    requires forall key {:trigger Stored(key)} :: Stored(key) in e.names ==> Stored(key) in d.names
    ensures StoredInv(u, e)
  {
    hide Kept, PublishedBy;
    forall key | Stored(key) in e.names
      ensures exists j :: PublishedBy(u, e, key, j)
    {
      var j :| PublishedBy(u, d, key, j);
      PublishedKept(u, d, e, key, j);
    }
  }

  lemma SavedKept(u: Setup, d: Disk, e: Disk, id: nat)
    requires SavedInv(u, d) && Kept(d, e)
    requires forall j :: j in e.calls && SavedCall(e.calls[j]) && j != id ==> j in d.calls && SavedCall(d.calls[j])
    requires id in e.calls && SavedCall(e.calls[id]) ==> PublishedBy(u, e, u.key(e.calls[id].runId), id)
    ensures SavedInv(u, e)
  {
    hide PublishedBy, SavedCall;
    forall j | j in e.calls && SavedCall(e.calls[j])
      ensures PublishedBy(u, e, u.key(e.calls[j].runId), j)
    {
      if j != id {
        PublishedKept(u, d, e, u.key(d.calls[j].runId), j);
      }
    }
  }

  lemma QuietInv(u: Setup, d: Disk, e: Disk, id: nat)
    requires DiskInv(u, d) && Quiet(d, e, id)
    requires Owning(e.calls[id]) ==> Owning(d.calls[id]) && e.calls[id].phase.temp == d.calls[id].phase.temp
                                     && CallInv(e, e.calls[id])
    requires SavedCall(e.calls[id]) ==> PublishedBy(u, e, u.key(e.calls[id].runId), id)
    ensures DiskInv(u, e) && Kept(d, e)
  {
    QuietKept(d, e, id);
    hide PublishedBy, SavedCall;
    StoredKept(u, d, e);
    SavedKept(u, d, e, id);
    hide StoredInv, SavedInv, Kept;
  }

  lemma BeginInv(u: Setup, d: Disk, e: Event)
    requires DiskInv(u, d) && e.Begin?
    ensures DiskInv(u, Next(u, d, e)) && Kept(d, Next(u, d, e))
  {
    var r := Next(u, d, e);
    hide PublishedBy, StoredInv, SavedInv;
    StoredKept(u, d, r);
    if r != d {
      SavedKept(u, d, r, e.id);
    }
  }

  /** A file no artifact name points to. */
  lemma FreshUnlinked(u: Setup, d: Disk, temp: nat, key: string)
    requires StoredInv(u, d) && temp !in d.inodes && Stored(key) in d.names
    ensures d.names[Stored(key)] != temp && d.names[Stored(key)] in d.inodes
  {
    var j :| PublishedBy(u, d, key, j);
  }

  lemma CreateKept(u: Setup, d: Disk, e: Event)
    requires DiskInv(u, d) && e.Create?
    ensures Kept(d, Next(u, d, e))
  {
    hide PublishedBy, StoredInv, SavedInv, OwnersApart, CallsInv;
    var r := Next(u, d, e);
    forall key | Stored(key) in d.names
      ensures d.names[Stored(key)] in d.inodes && Stored(key) in r.names && r.names[Stored(key)] == d.names[Stored(key)]
    {
      StoredReadable(u, d, key);
    }
  }

  lemma CreateApart(u: Setup, d: Disk, e: Event)
    requires DiskInv(u, d) && e.Create?
    ensures CallsInv(Next(u, d, e)) && OwnersApart(Next(u, d, e))
  {
    hide PublishedBy, StoredInv, SavedInv;
    var r := Next(u, d, e);
    if r != d {
      forall key | Stored(key) in r.names
        ensures d.names[Stored(key)] != e.temp && r.names[Stored(key)] == d.names[Stored(key)]
      {
        FreshUnlinked(u, d, e.temp, key);
      }
    }
  }

  lemma CreateInv(u: Setup, d: Disk, e: Event)
    requires DiskInv(u, d) && e.Create?
    ensures DiskInv(u, Next(u, d, e)) && Kept(d, Next(u, d, e))
  {
    hide PublishedBy, StoredInv, SavedInv, Kept, CallsInv, OwnersApart;
    CreateKept(u, d, e);
    CreateApart(u, d, e);
    StoredKept(u, d, Next(u, d, e));
    if Next(u, d, e) != d {
      SavedKept(u, d, Next(u, d, e), e.id);
    }
  }

  lemma WriteInv(u: Setup, d: Disk, e: Event)
    requires DiskInv(u, d) && e.Write?
    ensures DiskInv(u, Next(u, d, e)) && Kept(d, Next(u, d, e))
  {
    var r := Next(u, d, e);
    hide PublishedBy, StoredInv, SavedInv;
    if r != d {
      var c := d.calls[e.id];
      assert CallInv(d, c);
      assert c.payload[..c.phase.written] + c.payload[c.phase.written..e.upTo] == c.payload[..e.upTo];
      StoredKept(u, d, r);
      SavedKept(u, d, r, e.id);
    }
  }

  lemma LinkInv(u: Setup, d: Disk, e: Event)
    requires DiskInv(u, d) && e.Link?
    ensures DiskInv(u, Next(u, d, e)) && Kept(d, Next(u, d, e))
  {
    var r := Next(u, d, e);
    if r != d {
      assert CallInv(d, d.calls[e.id]);
      if Stored(u.key(d.calls[e.id].runId)) in d.names {
        QuietInv(u, d, r, e.id);
      } else {
        NewLink(u, d, e.id);
      }
    }
  }

  /** Linking a finished file to a free name publishes it. */
  lemma NewLink(u: Setup, d: Disk, id: nat)
    requires DiskInv(u, d) && id in d.calls && d.calls[id].phase.Synced?
    requires Stored(u.key(d.calls[id].runId)) !in d.names
    ensures DiskInv(u, Next(u, d, Link(id))) && Kept(d, Next(u, d, Link(id)))
  {
    var r := Next(u, d, Link(id));
    var key := u.key(d.calls[id].runId);
    assert CallInv(d, d.calls[id]);
    assert PublishedBy(u, r, key, id);
    hide PublishedBy;
    SavedKept(u, d, r, id);
    hide SavedInv;
    forall k | Stored(k) in r.names
      ensures exists j :: PublishedBy(u, r, k, j)
    {
      if k != key {
        var j :| PublishedBy(u, d, k, j);
        PublishedKept(u, d, r, k, j);
      }
    }
  }

  lemma CheckOrSyncInv(u: Setup, d: Disk, e: Event)
    requires DiskInv(u, d) && (e.Check? || e.Sync? || e.CutOff?)
    ensures DiskInv(u, Next(u, d, e)) && Kept(d, Next(u, d, e))
  {
    hide StoredInv, SavedInv, PublishedBy;
    var r := Next(u, d, e);
    if r != d {
      assert CallInv(d, d.calls[e.id]);
      QuietInv(u, d, r, e.id);
    }
  }

  lemma CompareInv(u: Setup, d: Disk, e: Event)
    requires DiskInv(u, d) && e.Compare?
    ensures DiskInv(u, Next(u, d, e)) && Kept(d, Next(u, d, e))
  {
    hide StoredInv, SavedInv, CallsInv, OwnersApart;
    var r := Next(u, d, e);
    if r != d {
      QuietInv(u, d, r, e.id);
    }
  }

  lemma FinishInv(u: Setup, d: Disk, e: Event)
    requires DiskInv(u, d) && e.Finish?
    ensures DiskInv(u, Next(u, d, e)) && Kept(d, Next(u, d, e))
  {
    hide StoredInv, CallsInv, OwnersApart;
    var r := Next(u, d, e);
    if r != d {
      QuietInv(u, d, r, e.id);
    }
  }

  lemma FaultInv(u: Setup, d: Disk, e: Event)
    requires DiskInv(u, d) && e.Fault?
    ensures DiskInv(u, Next(u, d, e)) && Kept(d, Next(u, d, e))
  {
    hide StoredInv, SavedInv, CallsInv, OwnersApart, PublishedBy;
    var r := Next(u, d, e);
    if r != d {
      QuietInv(u, d, r, e.id);
    }
  }

  /** Every step of every call keeps the invariant and every artifact. */
  lemma NextInv(u: Setup, d: Disk, e: Event)
    requires DiskInv(u, d)
    ensures DiskInv(u, Next(u, d, e)) && Kept(d, Next(u, d, e))
  {
    hide DiskInv, Kept, Next;
    match e
    case Begin(_, _, _) => BeginInv(u, d, e);
    case Create(_, _) => CreateInv(u, d, e);
    case Write(_, _) => WriteInv(u, d, e);
    case Link(_) => LinkInv(u, d, e);
    case Check(_) => CheckOrSyncInv(u, d, e);
    case Sync(_) => CheckOrSyncInv(u, d, e);
    case CutOff(_) => CheckOrSyncInv(u, d, e);
    case Compare(_) => CompareInv(u, d, e);
    case Finish(_, _) => FinishInv(u, d, e);
    case Fault(_, _) => FaultInv(u, d, e);
  }

  // ---------------------------------------------------------------- whole runs

  function Run(u: Setup, d: Disk, events: seq<Event>): Disk
    decreases |events|
  {
    if events == [] then d else Run(u, Next(u, d, events[0]), events[1..])
  }

  lemma {:induction false} RunInv(u: Setup, d: Disk, events: seq<Event>)
    requires DiskInv(u, d)
    ensures DiskInv(u, Run(u, d, events)) && Kept(d, Run(u, d, events))
    decreases |events|
  {
    hide DiskInv, Next;
    if events == [] {
      KeptReflexive(d);
    } else {
      hide Kept;
      NextInv(u, d, events[0]);
      RunInv(u, Next(u, d, events[0]), events[1..]);
      KeptTransitive(d, Next(u, d, events[0]), Run(u, d, events));
    }
  }

  lemma KeptReflexive(d: Disk)
    ensures Kept(d, d)
  {
  }

  lemma EmptyInv(u: Setup)
    ensures DiskInv(u, EMPTY)
  {
  }

  /** The bytes under a run's name, if any. */
  function Artifact(u: Setup, d: Disk, runId: string): Option<Bytes> {
    var dest := Stored(u.key(runId));
    if dest in d.names && d.names[dest] in d.inodes then Some(d.inodes[d.names[dest]]) else None
  }

  /** At every instant of every run, a destination is absent or holds one complete payload, that
      of a call for it; and whatever happens later, it holds those bytes. */
  lemma DestinationNeverPartial(u: Setup, before: seq<Event>, after: seq<Event>, runId: string)
    ensures
      var d := Run(u, EMPTY, before);
      match Artifact(u, d, runId)
      case None => Stored(u.key(runId)) !in d.names
      case Some(bytes) =>
        && (exists id :: id in d.calls && u.key(d.calls[id].runId) == u.key(runId) && d.calls[id].payload == bytes)
        && Artifact(u, Run(u, d, after), runId) == Some(bytes)
  {
    EmptyInv(u);
    RunInv(u, EMPTY, before);
    var d := Run(u, EMPTY, before);
    RunInv(u, d, after);
    if Stored(u.key(runId)) in d.names {
      var id :| PublishedBy(u, d, u.key(runId), id);
      assert id in d.calls && u.key(d.calls[id].runId) == u.key(runId);
    }
  }

  /** A call that returned normally finds its own bytes stored, then and ever after. */
  lemma NormalReturnStored(u: Setup, before: seq<Event>, after: seq<Event>, id: nat)
    requires
      var d := Run(u, EMPTY, before);
      id in d.calls && d.calls[id].phase == Ended(Saved)
    ensures
      var d := Run(u, EMPTY, before);
      Artifact(u, Run(u, d, after), d.calls[id].runId) == Some(d.calls[id].payload)
  {
    EmptyInv(u);
    RunInv(u, EMPTY, before);
    var d := Run(u, EMPTY, before);
    RunInv(u, d, after);
    assert SavedCall(d.calls[id]);
    PublishedKept(u, d, Run(u, d, after), u.key(d.calls[id].runId), id);
  }

  /** Two calls that returned normally for one run identifier stored the same payload. */
  lemma NeverBothSucceed(u: Setup, events: seq<Event>, a: nat, b: nat)
    requires
      var d := Run(u, EMPTY, events);
      && a in d.calls && b in d.calls && d.calls[a].runId == d.calls[b].runId
      && d.calls[a].phase == Ended(Saved) && d.calls[b].phase == Ended(Saved)
    ensures
      var d := Run(u, EMPTY, events);
      d.calls[a].payload == d.calls[b].payload
  {
    NormalReturnStored(u, events, [], a);
    NormalReturnStored(u, events, [], b);
  }

  // ---------------------------------------------------------------- what callers are told

  predicate Told(c: Call, outcome: Outcome) {
    (c.phase.Closing? || c.phase.Ended?) && c.phase.outcome == outcome
  }

  /** Another artifact of the call's own run is stored. */
  predicate OtherStored(u: Setup, d: Disk, c: Call) {
    var found := Artifact(u, d, c.runId);
    found.Some? && found.value != c.payload && u.owner(found.value) == Some(c.runId)
  }

  ghost predicate ConflictInv(u: Setup, d: Disk) {
    forall id :: id in d.calls && Told(d.calls[id], Conflict) ==> OtherStored(u, d, d.calls[id])
  }

  /** A conflict is told by the step that found another artifact, and by no other. */
  lemma ToldConflict(u: Setup, d: Disk, e: Event, id: nat)
    requires id in Next(u, d, e).calls && Told(Next(u, d, e).calls[id], Conflict)
    ensures id in d.calls && (Told(d.calls[id], Conflict) || OtherStored(u, d, d.calls[id]))
  {
  }

  lemma OtherStays(u: Setup, d: Disk, e: Disk, id: nat)
    requires Kept(d, e) && id in d.calls && OtherStored(u, d, d.calls[id])
    ensures OtherStored(u, e, e.calls[id])
  {
    hide Artifact;
    ArtifactKept(u, d, e, d.calls[id].runId);
  }

  lemma NextConflict(u: Setup, d: Disk, e: Event)
    requires DiskInv(u, d) && ConflictInv(u, d)
    ensures ConflictInv(u, Next(u, d, e))
  {
    hide DiskInv, Kept, Next, OtherStored, Told;
    NextInv(u, d, e);
    var r := Next(u, d, e);
    forall id | id in r.calls && Told(r.calls[id], Conflict)
      ensures OtherStored(u, r, r.calls[id])
    {
      ToldConflict(u, d, e, id);
      OtherStays(u, d, r, id);
    }
  }

  lemma {:induction false} RunConflict(u: Setup, d: Disk, events: seq<Event>)
    requires DiskInv(u, d) && ConflictInv(u, d)
    ensures ConflictInv(u, Run(u, d, events))
    decreases |events|
  {
    hide DiskInv, ConflictInv, Next, Kept;
    if events != [] {
      NextInv(u, d, events[0]);
      NextConflict(u, d, events[0]);
      RunConflict(u, Next(u, d, events[0]), events[1..]);
    }
  }

  predicate Answered(c: Call) {
    c.phase == Ended(Saved) || c.phase == Ended(Conflict)
  }

  /** What a save was told stays true: in every continuation an artifact of its run is stored, with
      the call's own bytes if it was saved and with other bytes if it met a conflict. */
  lemma AnswerStaysTrue(u: Setup, before: seq<Event>, after: seq<Event>, id: nat)
    requires
      var d := Run(u, EMPTY, before);
      id in d.calls && Answered(d.calls[id])
    ensures
      var d := Run(u, EMPTY, before);
      var found := Artifact(u, Run(u, d, after), d.calls[id].runId);
      && found.Some?
      && (d.calls[id].phase == Ended(Saved) <==> found.value == d.calls[id].payload)
      && (d.calls[id].phase == Ended(Conflict) ==> u.owner(found.value) == Some(d.calls[id].runId))
  {
    hide DiskInv, Run, Artifact;
    EmptyInv(u);
    RunInv(u, EMPTY, before);
    RunConflict(u, EMPTY, before);
    var d := Run(u, EMPTY, before);
    RunInv(u, d, after);
    if d.calls[id].phase == Ended(Saved) {
      NormalReturnStored(u, before, after, id);
    } else {
      assert Told(d.calls[id], Conflict);
      ArtifactKept(u, d, Run(u, d, after), d.calls[id].runId);
    }
  }

  /** Two saves of one payload for one run, however far apart, are never told different things: an
      identical retry of a save succeeds with it, and of a conflict meets it again. */
  lemma RetriesAgree(u: Setup, events: seq<Event>, a: nat, b: nat)
    requires
      var d := Run(u, EMPTY, events);
      && a in d.calls && b in d.calls && Answered(d.calls[a]) && Answered(d.calls[b])
      && d.calls[a].runId == d.calls[b].runId && d.calls[a].payload == d.calls[b].payload
    ensures
      var d := Run(u, EMPTY, events);
      d.calls[a].phase == d.calls[b].phase
  {
    hide Artifact;
    AnswerStaysTrue(u, events, [], a);
    AnswerStaysTrue(u, events, [], b);
  }

  // ---------------------------------------------------------------- one call among others

  /** Steps of calls other than `id`. */
  predicate OfOthers(events: seq<Event>, id: nat) {
    forall i :: 0 <= i < |events| ==> events[i].id != id
  }

  lemma {:induction false} OthersLeaveCall(u: Setup, d: Disk, events: seq<Event>, id: nat)
    requires id in d.calls && OfOthers(events, id)
    ensures id in Run(u, d, events).calls && Run(u, d, events).calls[id] == d.calls[id]
    decreases |events|
  {
    if events != [] {
      OthersLeaveCall(u, Next(u, d, events[0]), events[1..], id);
    }
  }

  /** One write of the payload up to a position, and what other calls do after it. */
  datatype Piece = Piece(upTo: nat, after: seq<Event>)

  /** What other calls do between the steps of one call. */
  datatype Interference = Interference(
    afterBegin: seq<Event>, afterCheck: seq<Event>, afterCreate: seq<Event>, writes: seq<Piece>,
    afterSync: seq<Event>, afterLink: seq<Event>, afterCompare: seq<Event>)

  predicate FromOthers(o: Interference, id: nat) {
    && OfOthers(o.afterBegin, id) && OfOthers(o.afterCheck, id) && OfOthers(o.afterCreate, id)
    && (forall i :: 0 <= i < |o.writes| ==> OfOthers(o.writes[i].after, id))
    && OfOthers(o.afterSync, id) && OfOthers(o.afterLink, id) && OfOthers(o.afterCompare, id)
  }

  /** The step of a call that an operating-system error hits, if any. */
  datatype FaultStep = NoFault | AtCreate | AtWrite | AtLink | AtCompare | AtClose

  /** What a call reports is true of the disk: saved with its own bytes stored, in conflict with
      other bytes of its run stored, corrupt with something else there or there but not readable. A
      failure is one of the operating system, and one after the artifact was linked leaves it there. */
  predicate Truthful(u: Setup, d: Disk, c: Call, outcome: Outcome, fault: FaultStep) {
    var stored := Artifact(u, d, c.runId);
    match outcome
    case Saved => stored == Some(c.payload)
    case Conflict => stored.Some? && stored.value != c.payload && u.owner(stored.value) == Some(c.runId)
    case Corrupt =>
      && stored.Some?
      && (fault.AtCompare? || (stored.value != c.payload && u.owner(stored.value) != Some(c.runId)))
    case StoreFailure =>
      fault.AtCreate? || fault.AtWrite? || fault.AtLink? || (fault.AtClose? && stored == Some(c.payload))
  }

  /** An error of the operating system at one of these steps is told as a failure to store. */
  predicate Interrupted(fault: FaultStep, outcome: Outcome) {
    && (fault.AtCreate? || fault.AtWrite? || fault.AtLink? ==> outcome == StoreFailure)
    && (fault.AtClose? ==> outcome != Saved)
  }

  /** No other call takes a step in between. */
  predicate Alone(o: Interference) {
    && o.afterBegin == [] && o.afterCheck == [] && o.afterCreate == []
    && (forall i :: 0 <= i < |o.writes| ==> o.writes[i].after == [])
    && o.afterSync == [] && o.afterLink == [] && o.afterCompare == []
  }

  /** Every temporary name there is was there before. */
  ghost predicate NoNewTemp(before: map<Name, nat>, after: map<Name, nat>) {
    forall n: nat {:trigger Temporary(n)} :: Temporary(n) in after ==> Temporary(n) in before
  }

  ghost predicate TempGone(before: map<Name, nat>, after: map<Name, nat>, temp: nat) {
    NoNewTemp(before, after) && Temporary(temp) !in after
  }

  /** It stays true whatever comes after. */
  lemma TruthStays(u: Setup, d: Disk, e: Disk, c: Call, outcome: Outcome, fault: FaultStep)
    requires Kept(d, e) && Truthful(u, d, c, outcome, fault)
    ensures Truthful(u, e, c, outcome, fault)
  {
    hide Kept, Artifact;
    if Artifact(u, d, c.runId).Some? {
      ArtifactKept(u, d, e, c.runId);
    }
  }

  class RunDirectory {
    const setup: Setup
    var names: map<Name, nat>
    var inodes: map<nat, Bytes>
    var calls: map<nat, Call>

    constructor (setup: Setup)
      ensures this.setup == setup && View() == EMPTY && DiskInv(setup, View())
    {
      this.setup := setup;
      names, inodes, calls := map[], map[], map[];
      new;
      EmptyInv(setup);
    }

    function View(): Disk
      reads this
    {
      Disk(names, inodes, calls)
    }

    /** Any steps of other calls. */
    method Others(events: seq<Event>, id: nat)
      requires DiskInv(setup, View()) && id in calls && OfOthers(events, id)
      modifies this
      ensures View() == Run(setup, old(View()), events)
      ensures DiskInv(setup, View()) && Kept(old(View()), View())
      ensures id in calls && calls[id] == old(calls)[id]
      ensures events == [] ==> names == old(names)
    {
      hide DiskInv, Kept, Next;
      ghost var start := View();
      RunInv(setup, start, events);
      OthersLeaveCall(setup, start, events, id);
      var i := 0;
      while i < |events|
        invariant 0 <= i <= |events|
        invariant Run(setup, View(), events[i..]) == Run(setup, start, events)
        invariant events == [] ==> names == old(names)
      {
        assert events[i..][0] == events[i] && events[i..][1..] == events[i + 1..];
        var after := Next(setup, View(), events[i]);
        names, inodes, calls := after.names, after.inodes, after.calls;
        i := i + 1;
      }
    }

    method SetPhase(id: nat, phase: Phase)
      requires id in calls
      modifies this`calls
      ensures calls == old(calls)[id := old(calls)[id].(phase := phase)]
    {
      calls := calls[id := calls[id].(phase := phase)];
    }

    /** Whether the destination exists; the call goes on to compare or to create. */
    method CheckExists(id: nat) returns (present: bool)
      requires DiskInv(setup, View()) && id in calls && calls[id].phase.Entered?
      modifies this
      ensures View() == Next(setup, old(View()), Check(id))
      ensures DiskInv(setup, View()) && Kept(old(View()), View())
      ensures id in calls && calls[id] == old(calls)[id].(phase := if present then Comparing(None) else Creating)
      ensures present <==> Stored(setup.key(calls[id].runId)) in old(names)
      ensures names == old(names)
    {
      NextInv(setup, View(), Check(id));
      hide DiskInv, Kept;
      present := Stored(setup.key(calls[id].runId)) in names;
      SetPhase(id, if present then Comparing(None) else Creating);
    }

    /** A new empty file under a new temporary name. */
    method CreateTemp(id: nat) returns (temp: nat)
      requires DiskInv(setup, View()) && id in calls && calls[id].phase.Creating?
      modifies this
      ensures View() == Next(setup, old(View()), Create(id, temp))
      ensures DiskInv(setup, View()) && Kept(old(View()), View())
      ensures id in calls && calls[id] == old(calls)[id].(phase := Writing(temp, 0))
      ensures names == old(names)[Temporary(temp) := temp]
    {
      FreshNumber(inodes.Keys);
      temp :| temp !in inodes;
      NextInv(setup, View(), Create(id, temp));
      hide DiskInv, Kept;
      names, inodes := names[Temporary(temp) := temp], inodes[temp := []];
      SetPhase(id, Writing(temp, 0));
    }

    /** Appends to the temporary file what comes next of the payload. */
    method WriteUpTo(id: nat, upTo: nat)
      requires DiskInv(setup, View()) && id in calls && calls[id].phase.Writing?
      requires calls[id].phase.written < upTo <= |calls[id].payload|
      modifies this
      ensures View() == Next(setup, old(View()), Write(id, upTo))
      ensures DiskInv(setup, View()) && Kept(old(View()), View())
      ensures id in calls && calls[id] == old(calls)[id].(phase := Writing(old(calls)[id].phase.temp, upTo))
      ensures names == old(names)
    {
      NextInv(setup, View(), Write(id, upTo));
      assert CallInv(View(), calls[id]);
      hide DiskInv, Kept, CallInv;
      var c := calls[id];
      inodes := inodes[c.phase.temp := inodes[c.phase.temp] + c.payload[c.phase.written..upTo]];
      SetPhase(id, Writing(c.phase.temp, upTo));
    }

    method SyncTemp(id: nat)
      requires DiskInv(setup, View()) && id in calls && calls[id].phase.Writing?
      requires calls[id].phase.written == |calls[id].payload|
      modifies this
      ensures View() == Next(setup, old(View()), Sync(id))
      ensures DiskInv(setup, View()) && Kept(old(View()), View())
      ensures id in calls && calls[id] == old(calls)[id].(phase := Synced(old(calls)[id].phase.temp))
      ensures names == old(names)
    {
      NextInv(setup, View(), Sync(id));
      hide DiskInv, Kept;
      SetPhase(id, Synced(calls[id].phase.temp));
    }

    /** Gives the file its final name, unless that name exists already. */
    method LinkTemp(id: nat) returns (linked: bool)
      requires DiskInv(setup, View()) && id in calls && calls[id].phase.Synced?
      modifies this
      ensures View() == Next(setup, old(View()), Link(id))
      ensures DiskInv(setup, View()) && Kept(old(View()), View())
      ensures
        var temp := old(calls)[id].phase.temp;
        id in calls && calls[id]
          == old(calls)[id].(phase := if linked then Closing(temp, Saved) else Comparing(Some(temp)))
      ensures Stored(setup.key(calls[id].runId)) in names
      ensures NoNewTemp(old(names), names)
    {
      NextInv(setup, View(), Link(id));
      hide DiskInv, Kept;
      var dest, temp := Stored(setup.key(calls[id].runId)), calls[id].phase.temp;
      linked := dest !in names;
      if linked {
        names := names[dest := temp];
        SetPhase(id, Closing(temp, Saved));
      } else {
        SetPhase(id, Comparing(Some(temp)));
      }
    }

    /** Removes the temporary name. */
    method Close(id: nat)
      requires DiskInv(setup, View()) && id in calls && calls[id].phase.Closing?
      modifies this
      ensures View() == Next(setup, old(View()), Finish(id, true))
      ensures DiskInv(setup, View()) && Kept(old(View()), View())
      ensures id in calls && calls[id] == old(calls)[id].(phase := Ended(old(calls)[id].phase.outcome))
      ensures TempGone(old(names), names, old(calls)[id].phase.temp)
    {
      NextInv(setup, View(), Finish(id, true));
      hide DiskInv, Kept;
      var c := calls[id];
      names := names - {Temporary(c.phase.temp)};
      SetPhase(id, Ended(c.phase.outcome));
    }

    /** An error of the operating system. */
    method Fail(id: nat)
      requires DiskInv(setup, View()) && id in calls && !calls[id].phase.Ended? && !calls[id].phase.Crashed?
      modifies this
      ensures View() == Next(setup, old(View()), Fault(id, true))
      ensures DiskInv(setup, View()) && Kept(old(View()), View())
      ensures id in calls && calls[id] == old(calls)[id].(phase := AfterFault(old(calls)[id].phase))
      ensures NoNewTemp(old(names), names)
      ensures old(calls)[id].phase.Closing? ==> TempGone(old(names), names, old(calls)[id].phase.temp)
    {
      NextInv(setup, View(), Fault(id, true));
      hide DiskInv, Kept;
      var c := calls[id];
      if c.phase.Closing? {
        names := names - {Temporary(c.phase.temp)};
      }
      SetPhase(id, AfterFault(c.phase));
    }

    /** A call that an error stops before its artifact is linked: the temporary file is removed. */
    method GiveUp(id: nat)
      requires DiskInv(setup, View()) && id in calls
      requires calls[id].phase.Creating? || calls[id].phase.Writing? || calls[id].phase.Synced?
      modifies this
      ensures DiskInv(setup, View()) && Kept(old(View()), View())
      ensures id in calls && calls[id] == old(calls)[id].(phase := Ended(StoreFailure))
      ensures NoNewTemp(old(names), names)
      ensures !old(calls)[id].phase.Creating? ==> TempGone(old(names), names, old(calls)[id].phase.temp)
    {
      hide DiskInv, Kept, Next;
      ghost var start := View();
      Fail(id);
      ghost var d := View();
      if calls[id].phase.Closing? {
        Close(id);
        KeptTransitive(start, d, View());
      }
    }

    /** The bytes found under the name decide, if they can be read. */
    method RequireIdentical(id: nat, fault: FaultStep) returns (outcome: Outcome)
      requires DiskInv(setup, View()) && id in calls && calls[id].phase.Comparing?
      requires Stored(setup.key(calls[id].runId)) in names
      modifies this
      ensures DiskInv(setup, View()) && Kept(old(View()), View())
      ensures id in calls && calls[id] == old(calls)[id].(phase := Closed(old(calls)[id].phase.left, outcome))
      ensures outcome != StoreFailure && Truthful(setup, View(), calls[id], outcome, fault)
      ensures fault.AtCompare? ==> outcome == Corrupt
      ensures NoNewTemp(old(names), names)
    {
      hide DiskInv, Kept, Truthful;
      StoredReadable(setup, View(), setup.key(calls[id].runId));
      var c := calls[id];
      if fault.AtCompare? {
        Fail(id);
        outcome := Corrupt;
        CorruptTruth(setup, View(), calls[id], fault);
      } else {
        NextInv(setup, View(), Compare(id));
        var found := inodes[names[Stored(setup.key(c.runId))]];
        outcome := if found == c.payload then Saved
                   else if setup.owner(found) == Some(c.runId) then Conflict
                   else Corrupt;
        SetPhase(id, Closed(c.phase.left, outcome));
        VerdictTruth(setup, View(), calls[id], fault);
      }
    }

    /** Writes the payload in any number of pieces, up to its end. */
    method WritePieces(id: nat, pieces: seq<Piece>)
      requires DiskInv(setup, View()) && id in calls && calls[id].phase.Writing?
      requires calls[id].phase.written <= |calls[id].payload|
      requires forall i :: 0 <= i < |pieces| ==> OfOthers(pieces[i].after, id)
      modifies this
      ensures DiskInv(setup, View()) && Kept(old(View()), View())
      ensures
        var temp := old(calls)[id].phase.temp;
        id in calls && calls[id] == old(calls)[id].(phase := Writing(temp, |old(calls)[id].payload|))
      ensures (forall i :: 0 <= i < |pieces| ==> pieces[i].after == []) ==> names == old(names)
    {
      hide DiskInv, Kept, Next;
      ghost var start := View();
      KeptReflexive(start);
      var temp, i := calls[id].phase.temp, 0;
      while i < |pieces|
        invariant 0 <= i <= |pieces|
        invariant DiskInv(setup, View()) && Kept(start, View())
        invariant id in calls && calls[id] == old(calls)[id].(phase := calls[id].phase)
        invariant calls[id].phase.Writing? && calls[id].phase.temp == temp
        invariant calls[id].phase.written <= |calls[id].payload|
        invariant (forall j :: 0 <= j < i ==> pieces[j].after == []) ==> names == old(names)
      {
        ghost var d := View();
        if calls[id].phase.written < pieces[i].upTo <= |calls[id].payload| {
          WriteUpTo(id, pieces[i].upTo);
          KeptTransitive(start, d, View());
          d := View();
        }
        Others(pieces[i].after, id);
        KeptTransitive(start, d, View());
        i := i + 1;
      }
      ghost var d := View();
      if calls[id].phase.written < |calls[id].payload| {
        WriteUpTo(id, |calls[id].payload|);
        KeptTransitive(start, d, View());
      }
    }

    /** Publishes a payload once, while other calls run between any two of its steps and an error
        of the operating system may hit any one of them. What it reports is true of the disk, then
        and ever after; it fails only for its size or for an error at a step it came to, and by itself
        it leaves no temporary file behind. */
    method Save(id: nat, runId: string, payload: Bytes, others: Interference, fault: FaultStep)
      returns (outcome: Outcome)
      requires DiskInv(setup, View()) && id !in calls && FromOthers(others, id)
      modifies this
      ensures DiskInv(setup, View()) && Kept(old(View()), View())
      ensures id in calls && calls[id] == Call(runId, payload, Ended(outcome))
      ensures setup.limit < |payload| ==> outcome == StoreFailure && names == old(names) && inodes == old(inodes)
      ensures setup.limit >= |payload| ==> Truthful(setup, View(), calls[id], outcome, fault)
      ensures
        setup.limit >= |payload| && Stored(setup.key(runId)) in old(names) ==>
          outcome != StoreFailure && (fault.AtCompare? ==> outcome == Corrupt)
      ensures
        setup.limit >= |payload| && Stored(setup.key(runId)) !in old(names) && others.afterBegin == [] ==>
          Interrupted(fault, outcome)
      ensures Alone(others) ==> NoNewTemp(old(names), names)
    {
      hide DiskInv, Kept, Next, Truthful;
      ghost var start := View();
      BeginKept(setup, start, id, runId, payload);
      if setup.limit < |payload| {
        outcome := StoreFailure;
        calls := calls[id := Call(runId, payload, Ended(outcome))];
      } else {
        calls := calls[id := Call(runId, payload, Entered)];
        ghost var begun := View();
        Others(others.afterBegin, id);
        ghost var d1 := View();
        KeptTransitive(start, begun, d1);
        if Stored(setup.key(runId)) in begun.names {
          NameKept(setup, begun, d1, runId);
        }
        var present := CheckExists(id);
        ghost var d2 := View();
        KeptTransitive(start, d1, d2);
        if present {
          NamePresent(setup, d1, id);
          outcome := CompareAndReport(id, others, fault);
        } else {
          outcome := CreateAndLink(id, others, fault);
        }
        KeptTransitive(start, d2, View());
      }
    }

    /** The destination was there: its bytes decide. */
    method CompareAndReport(id: nat, others: Interference, fault: FaultStep) returns (outcome: Outcome)
      requires DiskInv(setup, View()) && id in calls && calls[id].phase == Comparing(None) && FromOthers(others, id)
      requires Stored(setup.key(calls[id].runId)) in names
      modifies this
      ensures DiskInv(setup, View()) && Kept(old(View()), View())
      ensures id in calls && calls[id] == old(calls)[id].(phase := Ended(outcome))
      ensures Truthful(setup, View(), calls[id], outcome, fault)
      ensures outcome != StoreFailure && (fault.AtCompare? ==> outcome == Corrupt)
      ensures Alone(others) ==> NoNewTemp(old(names), names)
    {
      hide DiskInv, Kept, Next, Truthful;
      ghost var start := View();
      Others(others.afterCheck, id);
      ghost var d1 := View();
      NameKept(setup, start, d1, calls[id].runId);
      outcome := RequireIdentical(id, fault);
      ghost var d2 := View();
      KeptTransitive(start, d1, d2);
      Others(others.afterCompare, id);
      KeptTransitive(start, d2, View());
      TruthStays(setup, d2, View(), calls[id], outcome, fault);
    }

    /** The destination was not there: write a temporary file, link it, and compare if someone
        else's link came first. */
    method CreateAndLink(id: nat, others: Interference, fault: FaultStep) returns (outcome: Outcome)
      requires DiskInv(setup, View()) && id in calls && calls[id].phase.Creating? && FromOthers(others, id)
      modifies this
      ensures DiskInv(setup, View()) && Kept(old(View()), View())
      ensures id in calls && calls[id] == old(calls)[id].(phase := Ended(outcome))
      ensures Truthful(setup, View(), calls[id], outcome, fault)
      ensures Interrupted(fault, outcome)
      ensures Alone(others) ==> NoNewTemp(old(names), names)
    {
      hide DiskInv, Kept, Next, Artifact;
      ghost var start := View();
      Others(others.afterCheck, id);
      ghost var d := View();
      if fault.AtCreate? {
        GiveUp(id);
        KeptTransitive(start, d, View());
        return StoreFailure;
      }
      var temp := CreateTemp(id);
      KeptTransitive(start, d, View());
      d := View();
      Others(others.afterCreate, id);
      KeptTransitive(start, d, View());
      d := View();
      hide Truthful;
      outcome := WriteAndLink(id, others, fault);
      KeptTransitive(start, d, View());
    }

    method WriteAndLink(id: nat, others: Interference, fault: FaultStep) returns (outcome: Outcome)
      requires DiskInv(setup, View()) && id in calls && calls[id].phase.Writing? && FromOthers(others, id)
      requires calls[id].phase.written <= |calls[id].payload|
      modifies this
      ensures DiskInv(setup, View()) && Kept(old(View()), View())
      ensures id in calls && calls[id] == old(calls)[id].(phase := Ended(outcome))
      ensures Truthful(setup, View(), calls[id], outcome, fault)
      ensures !fault.AtCreate? ==> Interrupted(fault, outcome)
      ensures Alone(others) ==> TempGone(old(names), names, old(calls)[id].phase.temp)
    {
      hide DiskInv, Kept, Next, Artifact;
      ghost var start := View();
      WritePieces(id, others.writes);
      ghost var d := View();
      if fault.AtWrite? {
        GiveUp(id);
        KeptTransitive(start, d, View());
        return StoreFailure;
      }
      SyncTemp(id);
      KeptTransitive(start, d, View());
      d := View();
      Others(others.afterSync, id);
      KeptTransitive(start, d, View());
      d := View();
      if fault.AtLink? {
        GiveUp(id);
        KeptTransitive(start, d, View());
        return StoreFailure;
      }
      hide Truthful;
      outcome := LinkAndClose(id, others, fault);
      KeptTransitive(start, d, View());
    }

    method LinkAndClose(id: nat, others: Interference, fault: FaultStep) returns (outcome: Outcome)
      requires DiskInv(setup, View()) && id in calls && calls[id].phase.Synced? && FromOthers(others, id)
      modifies this
      ensures DiskInv(setup, View()) && Kept(old(View()), View())
      ensures id in calls && calls[id] == old(calls)[id].(phase := Ended(outcome))
      ensures Truthful(setup, View(), calls[id], outcome, fault)
      ensures fault.AtClose? ==> outcome != Saved
      ensures Alone(others) ==> TempGone(old(names), names, old(calls)[id].phase.temp)
    {
      hide DiskInv, Kept, Next, Truthful;
      ghost var start := View();
      var linked := LinkTemp(id);
      ghost var d := View();
      Others(others.afterLink, id);
      NameKept(setup, d, View(), calls[id].runId);
      KeptTransitive(start, d, View());
      d := View();
      if linked {
        outcome := Saved;
        SavedTruth(setup, View(), id, fault);
      } else {
        outcome := RequireIdentical(id, fault);
        KeptTransitive(start, d, View());
        d := View();
        Others(others.afterCompare, id);
        KeptTransitive(start, d, View());
        TruthStays(setup, d, View(), calls[id], outcome, fault);
        d := View();
      }
      outcome := CloseCall(id, outcome, fault);
      KeptTransitive(start, d, View());
    }

    /** Removes the temporary file; an error while making a new artifact durable is reported, and the
        artifact stays. */
    method CloseCall(id: nat, told: Outcome, fault: FaultStep) returns (outcome: Outcome)
      requires DiskInv(setup, View()) && id in calls && calls[id].phase.Closing? && calls[id].phase.outcome == told
      requires Truthful(setup, View(), calls[id], told, fault)
      modifies this
      ensures DiskInv(setup, View()) && Kept(old(View()), View())
      ensures id in calls && calls[id] == old(calls)[id].(phase := Ended(outcome))
      ensures Truthful(setup, View(), calls[id], outcome, fault)
      ensures outcome == if fault.AtClose? && told == Saved then StoreFailure else told
      ensures TempGone(old(names), names, old(calls)[id].phase.temp)
    {
      hide DiskInv, Kept, Next, Artifact;
      ghost var start, c := View(), calls[id];
      if fault.AtClose? && told == Saved {
        Fail(id);
        outcome := StoreFailure;
        TruthStays(setup, start, View(), c, told, fault);
      } else {
        Close(id);
        outcome := told;
        TruthStays(setup, start, View(), c, told, fault);
        SameCallSameTruth(setup, View(), c, calls[id], told, fault);
      }
    }
  }

  lemma CorruptTruth(u: Setup, d: Disk, c: Call, fault: FaultStep)
    requires fault.AtCompare? && Artifact(u, d, c.runId).Some?
    ensures Truthful(u, d, c, Corrupt, fault)
  {
  }

  lemma VerdictTruth(u: Setup, d: Disk, c: Call, fault: FaultStep)
    requires Artifact(u, d, c.runId).Some?
    ensures Truthful(u, d, c, Verdict(u, c, Artifact(u, d, c.runId).value), fault)
  {
  }

  lemma SameCallSameTruth(u: Setup, d: Disk, c: Call, c': Call, outcome: Outcome, fault: FaultStep)
    requires Truthful(u, d, c, outcome, fault) && c'.runId == c.runId && c'.payload == c.payload
    ensures Truthful(u, d, c', outcome, fault)
  {
  }

  lemma SavedTruth(u: Setup, d: Disk, id: nat, fault: FaultStep)
    requires DiskInv(u, d) && id in d.calls && SavedCall(d.calls[id])
    ensures Truthful(u, d, d.calls[id], Saved, fault)
  {
    hide DiskInv, Artifact, SavedCall;
    SavedArtifact(u, d, id);
  }

  lemma FreshNumber(s: set<nat>)
    ensures exists n: nat :: n !in s
  {
    var bound: nat := UpperBound(s);
    assert bound !in s;
  }

  /** A number above every member. */
  lemma UpperBound(s: set<nat>) returns (bound: nat)
    ensures forall n :: n in s ==> n < bound
    decreases |s|
  {
    bound := 0;
    if s != {} {
      var x :| x in s;
      var rest := UpperBound(s - {x});
      bound := if rest < x + 1 then x + 1 else rest;
      assert forall n :: n in s ==> n == x || n in s - {x};
    }
  }

  lemma BeginKept(u: Setup, d: Disk, id: nat, runId: string, payload: Bytes)
    requires DiskInv(u, d) && id !in d.calls
    ensures
      var phase := if u.limit < |payload| then Ended(StoreFailure) else Entered;
      var e := d.(calls := d.calls[id := Call(runId, payload, phase)]);
      e == Next(u, d, Begin(id, runId, payload)) && DiskInv(u, e) && Kept(d, e)
  {
    hide DiskInv, Kept;
    NextInv(u, d, Begin(id, runId, payload));
  }

  /** Checking leaves the name it found. */
  lemma NamePresent(u: Setup, d: Disk, id: nat)
    requires id in d.calls
    ensures Next(u, d, Check(id)).names == d.names
  {
  }

  lemma StoredReadable(u: Setup, d: Disk, key: string)
    requires DiskInv(u, d) && Stored(key) in d.names
    ensures d.names[Stored(key)] in d.inodes
  {
    var j :| PublishedBy(u, d, key, j);
  }

  lemma NameKept(u: Setup, d: Disk, e: Disk, runId: string)
    requires DiskInv(u, d) && Kept(d, e) && Stored(u.key(runId)) in d.names
    ensures Stored(u.key(runId)) in e.names
  {
    StoredReadable(u, d, u.key(runId));
  }

  lemma ArtifactKept(u: Setup, d: Disk, e: Disk, runId: string)
    requires Kept(d, e) && Artifact(u, d, runId).Some?
    ensures Artifact(u, e, runId) == Artifact(u, d, runId)
  {
  }

  lemma SavedArtifact(u: Setup, d: Disk, id: nat)
    requires DiskInv(u, d) && id in d.calls && SavedCall(d.calls[id])
    ensures Artifact(u, d, d.calls[id].runId) == Some(d.calls[id].payload)
  {
    assert PublishedBy(u, d, u.key(d.calls[id].runId), id);
  }
}
