/** The two models of the registry agree: a request that runs while nobody else moves does in the step
    system what the operation relation of `acquire` says, with the timestamps erased. */
module Solo {
  import opened Prelude
  import opened Vocabulary
  import opened Protocol
  import opened Ledger
  import opened Conservation
  import opened Invariants
  import opened Runs
  import opened Safety
  import opened Waits
  import opened CacheSpec

  // ---- the registry part of a state ----

  ghost predicate Same(s: State, s': State) {
    s'.links == s.links && s'.entries == s.entries && s'.processFree == s.processFree
  }

  /** Nothing in the map is being opened or closed. */
  ghost predicate Calm(c: Config, s: State) {
    && |s.links.Keys| <= c.maxOpen
    && forall n :: n in s.links ==> s.links[n] < |s.entries| && Resting(s.entries[s.links[n]], n)
  }

  predicate Resting(x: Entry, n: Name) {
    x.name == n && x.counter != CLOSED && x.opener.None? && !x.pools.Shut?
  }

  predicate Idle(s: State, v: Name) {
    v in s.links && At(s, s.links[v]).counter == 0
  }

  /** Every resident is leased and there is no room for `n`. */
  ghost predicate Busy(c: Config, s: State, n: Name) {
    && n !in s.links && |s.links.Keys| >= c.maxOpen
    && forall v :: v in s.links ==> !Idle(s, v)
  }

  /** `s` with the entry of the idle name `v` closed. */
  ghost predicate ClosedIn(c: Config, s0: State, n: Name, v: Name, s: State) {
    && n !in s0.links && |s0.links.Keys| >= c.maxOpen && Idle(s0, v) && s0.links[v] < |s0.entries|
    && s.entries == s0.entries[s0.links[v] := s0.entries[s0.links[v]].(counter := CLOSED)]
    && s.processFree == s0.processFree
  }

  ghost predicate EvictedIn(c: Config, s0: State, n: Name, v: Name, s: State) {
    ClosedIn(c, s0, n, v, s) && s.links == s0.links - {v}
  }

  /** There is room for `n`, or one idle name has made it. */
  ghost predicate HasRoom(c: Config, s0: State, n: Name, s: State) {
    || (n !in s0.links && |s0.links.Keys| < c.maxOpen && Same(s0, s))
    || (exists v :: EvictedIn(c, s0, n, v, s))
  }

  /** `n` is resident in `b` under `id`: as it was, or freshly admitted. */
  ghost predicate Base(c: Config, s0: State, n: Name, b: State, id: EntryId) {
    || (n in s0.links && id == s0.links[n] && Same(s0, b))
    || (exists r: State :: HasRoom(c, s0, n, r) && id == |r.entries|
          && b.links == r.links[n := id] && b.entries == r.entries + [NewEntry(c, n)]
          && b.processFree == r.processFree)
  }

  // ---- where the request can be ----

  /** Before the entry is found or admitted. */
  ghost predicate Searching(c: Config, s0: State, n: Name, s: State, p: Phase) {
    if p.Lookup? then p == Lookup(n, 0) && Same(s0, s)
    else if p.AwaitAdmission? || p.Recheck? then p.name == n && p.round == 0 && n !in s0.links && Same(s0, s)
    else if p.Measure? then
      && p.name == n && p.round == 0 && n !in s0.links && p.shard <= c.shards
      && p.total == |Below(c, s.links.Keys, p.shard)|
      && (if p.attempts == 0 then Same(s0, s) else p.attempts == 1 && exists v :: EvictedIn(c, s0, n, v, s))
    else if p.Scan? then
      && p.name == n && p.round == 0 && p.attempts == 1 && n !in s0.links && |s0.links.Keys| >= c.maxOpen
      && Same(s0, s)
      && (p.candidate.Some? ==> Idle(s0, p.candidate.value))
      && (p.candidate.None? ==> forall v :: v in p.visited ==> !Idle(s0, v))
    else if p.TakeGet? || p.TakeClose? then
      && p.take == Eviction(n, 0, 1) && n !in s0.links && |s0.links.Keys| >= c.maxOpen && Same(s0, s)
      && Idle(s0, p.victim) && (p.TakeClose? ==> p.id == s0.links[p.victim])
    else if p.TakeUnlink? then
      p.take == Eviction(n, 0, 1) && s.links == s0.links && ClosedIn(c, s0, n, p.victim, s)
    else if p.SpawnClose? then
      p.name == n && p.round == 0 && p.attempts == 1 && exists v :: EvictedIn(c, s0, n, v, s)
    else if p.Insert? then p == Insert(n, 0) && HasRoom(c, s0, n, s)
    else if p.Unlock? then
      && p.name == n && p.round == 0
      && (if p.hit.Some? then Base(c, s0, n, s, p.hit.value) else Busy(c, s0, n) && Same(s0, s))
    else false
  }

  /** `b` with `leases` more and `slots` fewer on entry `id`, and `process` fewer process permits. */
  ghost predicate Lent(b: State, id: EntryId, s: State, leases: nat, slots: nat, process: nat) {
    && id < |b.entries| && b.entries[id].tenantFree >= slots && b.processFree >= process
    && s.entries == b.entries[id := b.entries[id].(
                                counter := b.entries[id].counter + leases,
                                tenantFree := b.entries[id].tenantFree - slots)]
    && s.processFree == b.processFree - process
  }

  /** Lent one of each, with the pools in the given state. */
  ghost predicate LentAll(b: State, id: EntryId, s: State, pools: Pools, opener: Option<TaskId>) {
    && id < |b.entries| && b.entries[id].tenantFree > 0 && b.processFree > 0
    && s.entries == b.entries[id := b.entries[id].(
                                counter := b.entries[id].counter + 1,
                                tenantFree := b.entries[id].tenantFree - 1, pools := pools, opener := opener)]
    && s.processFree == b.processFree - 1
  }

  ghost predicate Shed(b: State, id: EntryId) {
    id < |b.entries| && (b.entries[id].tenantFree == 0 || b.processFree == 0)
  }

  /** The open is what failed: the permits were there. */
  ghost predicate Failed(b: State, id: EntryId, n: Name, s: State) {
    && id < |b.entries| && b.entries[id].tenantFree > 0 && b.processFree > 0 && b.entries[id].pools.Unopened?
    && s.links == b.links - {n}
  }

  /** From the resident entry on. */
  ghost predicate Served(b: State, id: EntryId, n: Name, s: State, p: Phase) {
    && id < |b.entries|
    && (if p.LeaseLoad? then p == LeaseLoad(id, Request(n, 0)) && Same(b, s)
        else if p.LeaseCas? then p == LeaseCas(id, b.entries[id].counter, Request(n, 0)) && Same(b, s)
        else if p.AwaitTenant? then p.id == id && s.links == b.links && Lent(b, id, s, 1, 0, 0)
        else if p.AwaitProcess? then p.id == id && s.links == b.links && Lent(b, id, s, 1, 1, 0)
        else if p.AwaitPools? then p.id == id && s.links == b.links && Lent(b, id, s, 1, 1, 1)
        else if p.Opening? then
          && p.id == id && s.links == b.links && b.entries[id].pools.Unopened?
          && exists t: TaskId :: LentAll(b, id, s, Unopened, Some(t))
        else if p.UnlinkFailed? then
          p.id == id && s.links == b.links && b.entries[id].pools.Unopened? && Lent(b, id, s, 1, 1, 1)
        else if p.Holding? then p.id == id && s.links == b.links && LentAll(b, id, s, Opened, None)
        else if p.GiveBackTenant? then
          p.id == id && s.links == b.links && b.processFree == 0 && Lent(b, id, s, 1, 1, 0)
        else if p.DropDecrement? then
          && p.id == id && p.resume.None?
          && (if p.permits then Lent(b, id, s, 1, 1, 1) && Failed(b, id, n, s)
              else Lent(b, id, s, 1, 0, 0) && Shed(b, id) && s.links == b.links)
        else if p.DropTenant? then p.id == id && Lent(b, id, s, 0, 1, 1) && Failed(b, id, n, s)
        else if p.DropProcess? then Lent(b, id, s, 0, 0, 1) && Failed(b, id, n, s)
        else false)
  }

  /** The request has ended without a lease. */
  ghost predicate Refused(b: State, id: EntryId, n: Name, s: State, answer: Answer) {
    && s.entries == b.entries && s.processFree == b.processFree
    && (if answer == Overloaded then s.links == b.links && Shed(b, id)
        else answer == OpenFailed && Failed(b, id, n, s))
  }

  ghost predicate Continues(c: Config, s0: State, n: Name, s: State, q: Option<Phase>) {
    || (q.Some? && Searching(c, s0, n, s, q.value))
    || (q.None? && Busy(c, s0, n) && Same(s0, s))
    || (exists b: State, id: EntryId :: Base(c, s0, n, b, id) && q.Some? && Served(b, id, n, s, q.value))
    || (exists b: State, id: EntryId, answer: Answer :: Base(c, s0, n, b, id) && q.None? && Refused(b, id, n, s, answer))
  }

  /** The registry after an effect; the tasks do not matter here. */
  ghost predicate After(c: Config, s: State, t: TaskId, effect: Effect, s': State) {
    s'.links == Apply(c, s, t, effect).links && s'.entries == Apply(c, s, t, effect).entries
    && s'.processFree == Apply(c, s, t, effect).processFree
  }

  // ---- one step of the search ----

  lemma LookupStep(c: Config, s0: State, n: Name, s: State, t: TaskId, p: Phase, effect: Effect, q: Option<Phase>, s': State)
    requires Searching(c, s0, n, s, p) && SlotStep(c, s, p, effect, q) && After(c, s, t, effect, s')
    requires Calm(c, s0) && (p.Lookup? || p.AwaitAdmission? || p.Recheck?)
    ensures Continues(c, s0, n, s', q)
  {
    assert Same(s, s');
    if p.Lookup? && n in s.links {
      assert Base(c, s0, n, s', s0.links[n]) && Served(s', s0.links[n], n, s', q.value);
    } else {
      assert Below(c, s'.links.Keys, 0) == {};
      assert Searching(c, s0, n, s', q.value);
    }
  }

  lemma RoomAfterEviction(c: Config, s0: State, n: Name, v: Name, s: State)
    requires Calm(c, s0) && EvictedIn(c, s0, n, v, s)
    ensures |s.links.Keys| < c.maxOpen
  {
    RemoveOne(s0.links.Keys, v);
    assert s.links.Keys == s0.links.Keys - {v};
  }

  lemma MeasureStep(c: Config, s0: State, n: Name, s: State, t: TaskId, p: Phase, effect: Effect, q: Option<Phase>, s': State)
    requires ValidConfig(c) && Calm(c, s0)
    requires Searching(c, s0, n, s, p) && SlotStep(c, s, p, effect, q) && After(c, s, t, effect, s') && p.Measure?
    ensures Continues(c, s0, n, s', q)
  {
    hide Calm, EvictedIn, From;
    assert Same(s, s');
    ShardCounted(c, s.links, p.shard);
    AllShardsCounted(c, s.links.Keys);
    if p.attempts == 1 {
      var v :| EvictedIn(c, s0, n, v, s);
      RoomAfterEviction(c, s0, n, v, s);
      SameEvicted(c, s0, n, v, s, s');
    }
    Measured(c, s0, n, s, p, effect, q, s');
  }

  lemma Measured(c: Config, s0: State, n: Name, s: State, p: Phase, effect: Effect, q: Option<Phase>, s': State)
    requires p.Measure? && Searching(c, s0, n, s, p) && SlotStep(c, s, p, effect, q) && Same(s, s')
    requires |Below(c, s.links.Keys, p.shard + 1)| == |Below(c, s.links.Keys, p.shard)| + ShardLen(c, s.links, p.shard)
    requires Below(c, s.links.Keys, c.shards) == s.links.Keys
    requires p.attempts == 1 ==> |s.links.Keys| < c.maxOpen && exists v :: EvictedIn(c, s0, n, v, s')
    ensures q.Some? && Searching(c, s0, n, s', q.value)
  {
    hide EvictedIn, Below, ShardLen;
  }

  lemma SameEvicted(c: Config, s0: State, n: Name, v: Name, s: State, s': State)
    requires EvictedIn(c, s0, n, v, s) && Same(s, s')
    ensures EvictedIn(c, s0, n, v, s')
  {
  }

  lemma InsertStep(c: Config, s0: State, n: Name, s: State, t: TaskId, p: Phase, effect: Effect, q: Option<Phase>, s': State)
    requires Searching(c, s0, n, s, p) && SlotStep(c, s, p, effect, q) && After(c, s, t, effect, s') && p.Insert?
    ensures Continues(c, s0, n, s', q)
  {
    hide HasRoom;
    assert HasRoom(c, s0, n, s);
    assert Base(c, s0, n, s', |s.entries|);
    assert Searching(c, s0, n, s', q.value);
  }

  lemma BaseNamesEntry(c: Config, s0: State, n: Name, b: State, id: EntryId)
    requires Calm(c, s0) && Base(c, s0, n, b, id)
    ensures n in b.links && b.links[n] == id && id < |b.entries| && Resting(b.entries[id], n)
  {
  }

  lemma UnlockStep(c: Config, s0: State, n: Name, s: State, t: TaskId, p: Phase, effect: Effect, q: Option<Phase>, s': State)
    requires Calm(c, s0)
    requires Searching(c, s0, n, s, p) && SlotStep(c, s, p, effect, q) && After(c, s, t, effect, s') && p.Unlock?
    ensures Continues(c, s0, n, s', q)
  {
    hide Base, Calm, Busy;
    assert Same(s, s');
    if p.hit.Some? {
      BaseNamesEntry(c, s0, n, s, p.hit.value);
      assert Served(s, p.hit.value, n, s', q.value);
    }
  }

  lemma ScanStep(c: Config, s0: State, n: Name, s: State, t: TaskId, p: Phase, effect: Effect, q: Option<Phase>, s': State)
    requires Calm(c, s0)
    requires Searching(c, s0, n, s, p) && TakeStep(c, s, p, effect, q) && After(c, s, t, effect, s') && p.Scan?
    ensures Continues(c, s0, n, s', q)
  {
    assert Same(s, s');
    if q.value.Scan? {
      var v :| Visits(s, p, v, q);
      assert Idle(s0, v) <==> At(s, s.links[v]).counter == 0;
      assert Searching(c, s0, n, s', q.value);
    } else if p.candidate.None? {
      assert Busy(c, s0, n);
      assert Searching(c, s0, n, s', q.value);
    } else {
      assert Searching(c, s0, n, s', q.value);
    }
  }

  lemma CloseStep(c: Config, s0: State, n: Name, s: State, t: TaskId, p: Phase, effect: Effect, q: Option<Phase>, s': State)
    requires Calm(c, s0)
    requires Searching(c, s0, n, s, p) && TakeStep(c, s, p, effect, q) && After(c, s, t, effect, s')
    requires p.TakeGet? || p.TakeClose?
    ensures Continues(c, s0, n, s', q)
  {
    assert Searching(c, s0, n, s', q.value);
  }

  lemma RemoveApplies(c: Config, s: State, t: TaskId, p: Phase, effect: Effect, q: Option<Phase>, s': State)
    requires TakeStep(c, s, p, effect, q) && After(c, s, t, effect, s') && (p.TakeUnlink? || p.SpawnClose?)
    ensures s'.entries == s.entries && s'.processFree == s.processFree
    ensures s'.links == if p.TakeUnlink? then s.links - {p.victim} else s.links
    ensures p.TakeUnlink? && p.take.Eviction? ==>
              q == Some(SpawnClose(p.id, p.take.name, p.take.round, p.take.attempts))
    ensures p.SpawnClose? ==> q == Some(Measure(p.name, p.round, p.attempts, 0, 0))
  {
  }

  lemma UnlinkStep(c: Config, s0: State, n: Name, s: State, t: TaskId, p: Phase, effect: Effect, q: Option<Phase>, s': State)
    requires Searching(c, s0, n, s, p) && TakeStep(c, s, p, effect, q) && After(c, s, t, effect, s') && p.TakeUnlink?
    ensures Continues(c, s0, n, s', q)
  {
    RemoveApplies(c, s, t, p, effect, q, s');
    hide ClosedIn, EvictedIn, TakeStep, After, Busy, Base, HasRoom, Served, Refused, Below;
    UnlinkEvicts(c, s0, n, p.victim, s, s');
    assert Searching(c, s0, n, s', q.value);
  }

  lemma HandoffStep(c: Config, s0: State, n: Name, s: State, t: TaskId, p: Phase, effect: Effect, q: Option<Phase>, s': State)
    requires Searching(c, s0, n, s, p) && TakeStep(c, s, p, effect, q) && After(c, s, t, effect, s') && p.SpawnClose?
    ensures Continues(c, s0, n, s', q)
  {
    RemoveApplies(c, s, t, p, effect, q, s');
    hide ClosedIn, EvictedIn, TakeStep, After, Busy, Base, HasRoom, Served, Refused, Below;
    var v :| EvictedIn(c, s0, n, v, s);
    SameEvicted(c, s0, n, v, s, s');
    EvictedIsNew(c, s0, n, v, s);
    NothingBelow(c, s'.links.Keys);
    assert Searching(c, s0, n, s', q.value);
  }

  lemma NothingBelow(c: Config, names: set<Name>)
    ensures |Below(c, names, 0)| == 0
  {
    assert Below(c, names, 0) == {};
  }

  lemma UnlinkEvicts(c: Config, s0: State, n: Name, v: Name, s: State, s': State)
    requires ClosedIn(c, s0, n, v, s) && s.links == s0.links
    requires s'.entries == s.entries && s'.processFree == s.processFree && s'.links == s.links - {v}
    ensures EvictedIn(c, s0, n, v, s')
  {
  }

  lemma EvictedIsNew(c: Config, s0: State, n: Name, v: Name, s: State)
    requires EvictedIn(c, s0, n, v, s)
    ensures n !in s0.links
  {
  }

  // ---- one step with the entry ----

  lemma LeasingStep(b: State, id: EntryId, n: Name, c: Config, s: State, t: TaskId, p: Phase, effect: Effect, q: Option<Phase>, s': State)
    requires Served(b, id, n, s, p) && Resting(b.entries[id], n)
    requires LeaseStep(c, s, p, effect, q) && After(c, s, t, effect, s')
    ensures q.Some? && Served(b, id, n, s', q.value)
  {
  }

  lemma AdmittingStep(b: State, id: EntryId, n: Name, c: Config, s: State, t: TaskId, p: Phase, effect: Effect, q: Option<Phase>, s': State)
    requires Served(b, id, n, s, p) && Resting(b.entries[id], n)
    requires AdmitStep(c, s, p, effect, q) && After(c, s, t, effect, s')
    ensures q.Some? && Served(b, id, n, s', q.value)
  {
  }

  /** The admission timeout, which strikes only while the permit is not available. */
  lemma TimeoutStep(b: State, id: EntryId, n: Name, c: Config, s: State, t: TaskId, p: Phase, effect: Effect, q: Option<Phase>, s': State)
    requires Served(b, id, n, s, p) && Resting(b.entries[id], n)
    requires Abandons(p, effect, q) && After(c, s, t, effect, s')
    requires (p.AwaitTenant? && At(s, p.id).tenantFree == 0) || (p.AwaitProcess? && s.processFree == 0)
    ensures q.Some? && Served(b, id, n, s', q.value)
  {
  }

  lemma ReturningStep(b: State, id: EntryId, n: Name, c: Config, s: State, t: TaskId, p: Phase, effect: Effect, q: Option<Phase>, s': State)
    requires Served(b, id, n, s, p) && Resting(b.entries[id], n) && n in b.links && b.links[n] == id && !p.Holding?
    requires ReturnStep(c, s, p, effect, q) && After(c, s, t, effect, s')
    ensures if q.Some? then Served(b, id, n, s', q.value) else exists answer :: Refused(b, id, n, s', answer)
  {
    if q.None? {
      assert Refused(b, id, n, s', if p.DropProcess? then OpenFailed else Overloaded);
    }
  }

  // ---- a whole run ----

  /** A step of task `t` that no cancellation causes, and a timeout only while the permit is taken. */
  ghost predicate Patient(c: Config, s: State, t: TaskId, a: Action) {
    && a.Run? && a.task == t && t in s.tasks
    && (|| Proceeds(c, s, s.tasks[t], a.effect, a.next)
        || (Abandons(s.tasks[t], a.effect, a.next) && Blocked(s, t)
            && (s.tasks[t].AwaitTenant? || s.tasks[t].AwaitProcess?)))
  }

  /** A run in which only task `t` moves, patiently, and not after it has got its lease. */
  ghost predicate Alone(c: Config, states: seq<State>, actions: seq<Action>, t: TaskId) {
    && |states| == |actions| + 1
    && (forall i {:trigger actions[i]} :: 0 <= i < |actions| ==>
          && Next(c, states[i], actions[i], states[i + 1])
          && Patient(c, states[i], t, actions[i]) && !states[i].tasks[t].Holding?)
  }

  predicate InSearch(p: Phase) {
    || p.Lookup? || p.AwaitAdmission? || p.Recheck? || p.Measure? || p.Scan? || p.Insert? || p.Unlock?
    || p.TakeGet? || p.TakeClose? || p.TakeUnlink? || p.SpawnClose?
  }

  predicate InService(p: Phase) {
    || p.LeaseLoad? || p.LeaseCas? || p.AwaitTenant? || p.AwaitProcess? || p.AwaitPools? || p.Opening?
    || p.UnlinkFailed? || p.Holding? || p.GiveBackTenant? || p.DropDecrement? || p.DropTenant? || p.DropProcess?
  }

  lemma SearchPhases(c: Config, s0: State, n: Name, s: State, p: Phase)
    requires Searching(c, s0, n, s, p)
    ensures InSearch(p)
  {
  }

  lemma ServedPhases(b: State, id: EntryId, n: Name, s: State, p: Phase)
    requires Served(b, id, n, s, p)
    ensures InService(p)
  {
  }

  lemma LeaseStepPhases(c: Config, s: State, p: Phase, effect: Effect, q: Option<Phase>)
    requires LeaseStep(c, s, p, effect, q)
    ensures !InSearch(p)
  {
  }

  lemma AdmitStepPhases(c: Config, s: State, p: Phase, effect: Effect, q: Option<Phase>)
    requires AdmitStep(c, s, p, effect, q)
    ensures !InSearch(p)
  {
  }

  lemma ReturnStepPhases(c: Config, s: State, p: Phase, effect: Effect, q: Option<Phase>)
    requires ReturnStep(c, s, p, effect, q)
    ensures !InSearch(p)
  {
  }

  lemma SlotStepPhases(c: Config, s: State, p: Phase, effect: Effect, q: Option<Phase>)
    requires SlotStep(c, s, p, effect, q)
    ensures !InService(p)
  {
  }

  lemma TakeStepPhases(c: Config, s: State, p: Phase, effect: Effect, q: Option<Phase>)
    requires TakeStep(c, s, p, effect, q)
    ensures !InService(p)
  {
  }

  lemma CleanStepPhases(c: Config, s: State, p: Phase, effect: Effect, q: Option<Phase>)
    requires CleanStep(c, s, p, effect, q)
    ensures !InSearch(p) && !InService(p)
  {
  }

  lemma CheckpointStepPhases(c: Config, s: State, p: Phase, effect: Effect, q: Option<Phase>)
    requires CheckpointStep(c, s, p, effect, q)
    ensures !InSearch(p) && !InService(p)
  {
  }

  lemma SearchingMoves(c: Config, s: State, p: Phase, effect: Effect, q: Option<Phase>)
    requires InSearch(p) && Proceeds(c, s, p, effect, q)
    ensures SlotStep(c, s, p, effect, q) || TakeStep(c, s, p, effect, q)
  {
    hide SlotStep, TakeStep, LeaseStep, AdmitStep, ReturnStep, CleanStep, CheckpointStep, InSearch, InService;
    if LeaseStep(c, s, p, effect, q) {
      LeaseStepPhases(c, s, p, effect, q);
    } else if AdmitStep(c, s, p, effect, q) {
      AdmitStepPhases(c, s, p, effect, q);
    } else if ReturnStep(c, s, p, effect, q) {
      ReturnStepPhases(c, s, p, effect, q);
    } else if CleanStep(c, s, p, effect, q) {
      CleanStepPhases(c, s, p, effect, q);
    } else if CheckpointStep(c, s, p, effect, q) {
      CheckpointStepPhases(c, s, p, effect, q);
    }
  }

  lemma ServedMoves(c: Config, s: State, p: Phase, effect: Effect, q: Option<Phase>)
    requires InService(p) && Proceeds(c, s, p, effect, q)
    ensures LeaseStep(c, s, p, effect, q) || AdmitStep(c, s, p, effect, q) || ReturnStep(c, s, p, effect, q)
  {
    hide SlotStep, TakeStep, LeaseStep, AdmitStep, ReturnStep, CleanStep, CheckpointStep, InSearch, InService;
    if SlotStep(c, s, p, effect, q) {
      SlotStepPhases(c, s, p, effect, q);
    } else if TakeStep(c, s, p, effect, q) {
      TakeStepPhases(c, s, p, effect, q);
    } else if CleanStep(c, s, p, effect, q) {
      CleanStepPhases(c, s, p, effect, q);
    } else if CheckpointStep(c, s, p, effect, q) {
      CheckpointStepPhases(c, s, p, effect, q);
    }
  }

  lemma SearchStep(c: Config, s0: State, n: Name, s: State, t: TaskId, p: Phase, effect: Effect, q: Option<Phase>, s': State)
    requires ValidConfig(c) && Calm(c, s0)
    requires Searching(c, s0, n, s, p) && Proceeds(c, s, p, effect, q) && After(c, s, t, effect, s')
    ensures Continues(c, s0, n, s', q)
  {
    SearchPhases(c, s0, n, s, p);
    SearchingMoves(c, s, p, effect, q);
    PhasesOfSearch(c, s0, n, s, p, effect, q);
    hide *;
    if p.Measure? {
      MeasureStep(c, s0, n, s, t, p, effect, q, s');
    } else if p.Insert? {
      InsertStep(c, s0, n, s, t, p, effect, q, s');
    } else if p.Unlock? {
      UnlockStep(c, s0, n, s, t, p, effect, q, s');
    } else if p.Scan? {
      ScanStep(c, s0, n, s, t, p, effect, q, s');
    } else if SlotStep(c, s, p, effect, q) {
      LookupStep(c, s0, n, s, t, p, effect, q, s');
    } else if p.TakeGet? || p.TakeClose? {
      CloseStep(c, s0, n, s, t, p, effect, q, s');
    } else if p.TakeUnlink? {
      UnlinkStep(c, s0, n, s, t, p, effect, q, s');
    } else {
      HandoffStep(c, s0, n, s, t, p, effect, q, s');
    }
  }

  lemma PhasesOfSearch(c: Config, s0: State, n: Name, s: State, p: Phase, effect: Effect, q: Option<Phase>)
    requires Searching(c, s0, n, s, p) && (SlotStep(c, s, p, effect, q) || TakeStep(c, s, p, effect, q))
    ensures if p.Measure? || p.Insert? || p.Unlock? || p.Lookup? || p.AwaitAdmission? || p.Recheck?
            then SlotStep(c, s, p, effect, q)
            else !SlotStep(c, s, p, effect, q)
                 && (p.Scan? || p.TakeGet? || p.TakeClose? || p.TakeUnlink? || p.SpawnClose?)
  {
    hide Base, HasRoom, EvictedIn, Busy, ClosedIn;
  }

  lemma ServeStep(
      b: State, id: EntryId, n: Name, c: Config, s: State, t: TaskId, a: Action, s': State)
    requires t in s.tasks && Served(b, id, n, s, s.tasks[t]) && Resting(b.entries[id], n)
    requires n in b.links && b.links[n] == id && !s.tasks[t].Holding?
    requires Patient(c, s, t, a) && After(c, s, t, a.effect, s')
    ensures if a.next.Some? then Served(b, id, n, s', a.next.value) else exists answer :: Refused(b, id, n, s', answer)
  {
    hide Served, LeaseStep, AdmitStep, ReturnStep, Proceeds, Abandons, After, Resting, Refused;
    var p := s.tasks[t];
    if Proceeds(c, s, p, a.effect, a.next) {
      ServedPhases(b, id, n, s, p);
      ServedMoves(c, s, p, a.effect, a.next);
      if LeaseStep(c, s, p, a.effect, a.next) {
        LeasingStep(b, id, n, c, s, t, p, a.effect, a.next, s');
      } else if AdmitStep(c, s, p, a.effect, a.next) {
        AdmittingStep(b, id, n, c, s, t, p, a.effect, a.next, s');
      } else {
        ReturningStep(b, id, n, c, s, t, p, a.effect, a.next, s');
      }
    } else {
      TimeoutStep(b, id, n, c, s, t, p, a.effect, a.next, s');
    }
  }

  lemma NotBoth(c: Config, s0: State, n: Name, s: State, t: TaskId, a: Action)
    requires t in s.tasks && Searching(c, s0, n, s, s.tasks[t]) && Patient(c, s, t, a)
    ensures Proceeds(c, s, s.tasks[t], a.effect, a.next)
  {
  }

  lemma SoloStep(c: Config, s0: State, n: Name, s: State, t: TaskId, a: Action, s': State)
    requires ValidConfig(c) && Calm(c, s0) && t in s.tasks && !s.tasks[t].Holding?
    requires Continues(c, s0, n, s, Some(s.tasks[t])) && Patient(c, s, t, a) && After(c, s, t, a.effect, s')
    ensures Continues(c, s0, n, s', a.next)
  {
    hide Searching, Served, Refused, Base, Busy, Patient, Proceeds, Calm, ValidConfig, After, Resting;
    var p := s.tasks[t];
    PatientRuns(c, s, t, a);
    if Searching(c, s0, n, s, p) {
      NotBoth(c, s0, n, s, t, a);
      SearchStep(c, s0, n, s, t, p, a.effect, a.next, s');
    } else {
      var b: State, id: EntryId :| Base(c, s0, n, b, id) && Served(b, id, n, s, p);
      BaseNamesEntry(c, s0, n, b, id);
      ServeStep(b, id, n, c, s, t, a, s');
    }
  }

  ghost function PhaseOf(s: State, t: TaskId): Option<Phase> {
    if t in s.tasks then Some(s.tasks[t]) else None
  }

  lemma StepApplies(c: Config, s: State, a: Action, s': State)
    requires Next(c, s, a, s') && a.Run?
    ensures After(c, s, a.task, a.effect, s') && PhaseOf(s', a.task) == a.next
  {
    hide Moves, Apply;
  }

  lemma {:induction false} SoloRun(
      c: Config, states: seq<State>, actions: seq<Action>, t: TaskId, n: Name, i: nat)
    requires ValidConfig(c) && |states| > 0 && Calm(c, states[0]) && Alone(c, states, actions, t)
    requires PhaseOf(states[0], t) == Some(Lookup(n, 0)) && i < |states|
    ensures Continues(c, states[0], n, states[i], PhaseOf(states[i], t))
  {
    hide Continues, Patient, Calm, ValidConfig, Next, After;
    if i == 0 {
      StartsSearch(c, states[0], n);
    } else {
      SoloRun(c, states, actions, t, n, i - 1);
      var s, a := states[i - 1], actions[i - 1];
      assert Next(c, s, a, states[i]) && Patient(c, s, t, a);
      assert a.Run? && a.task == t && t in s.tasks by { PatientRuns(c, s, t, a); }
      StepApplies(c, s, a, states[i]);
      SoloStep(c, states[0], n, s, t, a, states[i]);
    }
  }

  lemma StartsSearch(c: Config, s: State, n: Name)
    ensures Continues(c, s, n, s, Some(Lookup(n, 0)))
  {
    assert Searching(c, s, n, s, Lookup(n, 0));
  }

  lemma PatientRuns(c: Config, s: State, t: TaskId, a: Action)
    requires Patient(c, s, t, a)
    ensures a.Run? && a.task == t && t in s.tasks
  {
  }

  // ---- the operation relation ----

  function LimitsOf(c: Config): Limits {
    Limits(c.maxOpen, c.maxRequests, c.perDatabase, 0)
  }

  /** `m` is the map of `s` with some timestamps. */
  ghost predicate Erases(m: Residents, s: State) {
    && m.Keys == s.links.Keys
    && forall x :: x in m ==>
         var e := At(s, s.links[x]); m[x].leases == e.counter && m[x].free == e.tenantFree && m[x].open == e.pools.Opened?
  }

  /** The map of `s` with `v` used before all others. */
  ghost function WithOldest(s: State, v: Name): Residents {
    map x | x in s.links ::
      var e := At(s, s.links[x]); Slot(e.counter, e.tenantFree, if x == v then 0 else 1, e.pools.Opened?)
  }

  lemma EvictedVictim(c: Config, s0: State, n: Name, v: Name, r: State)
    requires Calm(c, s0) && EvictedIn(c, s0, n, v, r)
    ensures IsVictim(WithOldest(s0, v), v) && Erases(WithOldest(s0, v) - {v}, r)
  {
    forall x | x in r.links
      ensures At(r, r.links[x]) == At(s0, s0.links[x])
    {
      assert s0.entries[s0.links[x]].name == x && s0.entries[s0.links[v]].name == v;
    }
  }

  lemma JoinErases(c: Config, r: State, n: Name, b: State, m: Residents, now: nat)
    requires Erases(m, r) && n !in r.links && (forall x :: x in r.links ==> r.links[x] < |r.entries|)
    requires b.links == r.links[n := |r.entries|] && b.entries == r.entries + [NewEntry(c, n)]
    ensures Erases(m[n := Fresh(LimitsOf(c), now)], b)
  {
  }

  /** Whatever made `n` resident is an admission. */
  lemma BaseIsAdmitted(c: Config, s0: State, n: Name, b: State, id: EntryId)
    returns (m: Residents, base: Residents)
    requires Calm(c, s0) && Base(c, s0, n, b, id)
    ensures Erases(m, s0) && Erases(base, b) && Admitted(LimitsOf(c), m, n, 2, base)
    ensures n in m || |m| < c.maxOpen || !AllLeased(m)
    ensures b.processFree == s0.processFree
  {
    if n in s0.links {
      m := WithOldest(s0, n);
      base := m;
      OldestErases(s0, n, b);
    } else {
      var r: State :| HasRoom(c, s0, n, r) && id == |r.entries| && b.links == r.links[n := id]
                      && b.entries == r.entries + [NewEntry(c, n)] && b.processFree == r.processFree;
      hide Calm, HasRoom, Erases, Admitted, AllLeased;
      m, base := RoomIsAdmitted(c, s0, n, r, b);
    }
  }

  lemma RoomIsAdmitted(c: Config, s0: State, n: Name, r: State, b: State)
    returns (m: Residents, base: Residents)
    requires Calm(c, s0) && HasRoom(c, s0, n, r) && n !in s0.links
    requires b.links == r.links[n := |r.entries|] && b.entries == r.entries + [NewEntry(c, n)]
    ensures Erases(m, s0) && Erases(base, b) && Admitted(LimitsOf(c), m, n, 2, base)
    ensures |m| < c.maxOpen || !AllLeased(m)
    ensures r.processFree == s0.processFree
  {
    hide IsVictim, Erases, NewEntry;
    if Same(s0, r) && |s0.links.Keys| < c.maxOpen {
      m := WithOldest(s0, n);
      OldestErases(s0, n, r);
      JoinErases(c, r, n, b, m, 2);
      base := m[n := Fresh(LimitsOf(c), 2)];
      assert |m| == |m.Keys| && m.Keys == s0.links.Keys;
    } else {
      var v :| EvictedIn(c, s0, n, v, r);
      m := WithOldest(s0, v);
      OldestErases(s0, v, s0);
      EvictedVictim(c, s0, n, v, r);
      base := (m - {v})[n := Fresh(LimitsOf(c), 2)];
      JoinErases(c, r, n, b, m - {v}, 2);
      assert |m| == |m.Keys| && m.Keys == s0.links.Keys && m[v].leases == 0;
    }
  }

  lemma OldestErases(s: State, v: Name, b: State)
    requires Same(s, b)
    ensures Erases(WithOldest(s, v), s) && Erases(WithOldest(s, v), b)
  {
  }

  /** A request served from a resident entry follows the relation, whether it got its lease or not. */
  lemma AnswerFollows(c: Config, s0: State, n: Name, b: State, id: EntryId, s: State, answer: Answer)
    requires ValidName(n) && Calm(c, s0) && Base(c, s0, n, b, id)
    requires if answer == Leased then Served(b, id, n, s, Holding(id)) else Refused(b, id, n, s, answer)
    ensures Follows(c, s0, n, s, answer)
  {
    hide Admitted, Granted, Erases, AllLeased, ValidName, Calm, Base, Served, Refused, Resting;
    BaseNamesEntry(c, s0, n, b, id);
    OnlyItsName(c, s0, n, b, id);
    var m, base := BaseIsAdmitted(c, s0, n, b, id);
    var m', openable := GrantedErases(b, id, n, base, s, answer);
    assert Acquired(LimitsOf(c), m, s0.processFree, n, 2, openable, answer, m', s.processFree);
  }

  lemma OnlyItsName(c: Config, s0: State, n: Name, b: State, id: EntryId)
    requires Calm(c, s0) && Base(c, s0, n, b, id)
    ensures forall x :: x in b.links && x != n ==> b.links[x] != id
  {
  }

  lemma GrantedErases(b: State, id: EntryId, n: Name, base: Residents, s: State, answer: Answer)
    returns (m': Residents, openable: bool)
    requires Erases(base, b) && n in b.links && b.links[n] == id && id < |b.entries| && Resting(b.entries[id], n)
    requires forall x :: x in b.links && x != n ==> b.links[x] != id
    requires if answer == Leased then Served(b, id, n, s, Holding(id)) else Refused(b, id, n, s, answer)
    ensures Granted(base, b.processFree, n, 2, openable, answer, m', s.processFree) && Erases(m', s)
  {
    openable := answer != OpenFailed;
    var x := base[n];
    m' := if answer == Leased then base[n := Slot(x.leases + 1, x.free - 1, 2, true)]
          else if answer == OpenFailed then base - {n} else base[n := x.(lastUsed := 2)];
  }

  /** Some timestamps make the change from `s0` to `s` an `acquire` of `n` with this answer. */
  ghost predicate Follows(c: Config, s0: State, n: Name, s: State, answer: Answer) {
    exists m: Residents, m': Residents, now: nat, openable: bool ::
      Erases(m, s0) && Erases(m', s)
      && Acquired(LimitsOf(c), m, s0.processFree, n, now, openable, answer, m', s.processFree)
  }

  lemma BusyFollows(c: Config, s0: State, n: Name, s: State)
    requires ValidName(n) && Busy(c, s0, n) && Same(s0, s)
    ensures Follows(c, s0, n, s, CapacityBusy)
  {
    hide ValidName;
    var m := WithOldest(s0, n);
    assert |m| == |m.Keys| && m.Keys == s0.links.Keys;
    OldestErases(s0, n, s);
    assert Acquired(LimitsOf(c), m, s0.processFree, n, 2, true, CapacityBusy, m, s.processFree);
  }

  /** A request for a valid name that runs alone from a calm state, until it has its lease or has ended,
      changes the map, the entries and the permits as the relation of `acquire` says. */
  lemma AloneFollowsAcquired(c: Config, states: seq<State>, actions: seq<Action>, t: TaskId, n: Name)
    returns (answer: Answer)
    requires ValidConfig(c) && ValidName(n) && |states| > 0 && Calm(c, states[0]) && Alone(c, states, actions, t)
    requires PhaseOf(states[0], t) == Some(Lookup(n, 0))
    requires var last := PhaseOf(states[|actions|], t); last.Some? ==> last.value.Holding?
    ensures Follows(c, states[0], n, states[|actions|], answer)
    ensures answer == Leased <==> t in states[|actions|].tasks
  {
    hide ValidConfig, ValidName, Calm, Base, Busy, Served, Refused, Follows, Next, Patient;
    var s0, s, q := states[0], states[|actions|], PhaseOf(states[|actions|], t);
    SoloRun(c, states, actions, t, n, |actions|);
    if q.Some? {
      HolderIsServed(c, s0, n, s, q.value);
      var b: State, id: EntryId :| Base(c, s0, n, b, id) && Served(b, id, n, s, q.value);
      assert q.value == Holding(id) by { HoldsBase(b, id, n, s, q.value); }
      answer := Leased;
      AnswerFollows(c, s0, n, b, id, s, answer);
    } else if Busy(c, s0, n) && Same(s0, s) {
      answer := CapacityBusy;
      BusyFollows(c, s0, n, s);
    } else {
      var b: State, id: EntryId, refusal: Answer :| Base(c, s0, n, b, id) && Refused(b, id, n, s, refusal);
      assert refusal != Leased by { RefusedIsNotLeased(b, id, n, s, refusal); }
      answer := refusal;
      AnswerFollows(c, s0, n, b, id, s, answer);
    }
  }

  lemma HolderIsServed(c: Config, s0: State, n: Name, s: State, p: Phase)
    requires p.Holding?
    ensures !Searching(c, s0, n, s, p)
  {
  }

  lemma HoldsBase(b: State, id: EntryId, n: Name, s: State, p: Phase)
    requires p.Holding? && Served(b, id, n, s, p)
    ensures p == Holding(id)
  {
  }

  lemma RefusedIsNotLeased(b: State, id: EntryId, n: Name, s: State, answer: Answer)
    requires Refused(b, id, n, s, answer)
    ensures answer != Leased
  {
  }

  // ---- when a state is calm ----

  /** Whoever closed an entry that is still in the map is about to take its name out. */
  ghost predicate Removing(s: State) {
    forall n :: n in s.links && At(s, s.links[n]).counter == CLOSED ==>
      exists u :: u in s.tasks && s.tasks[u].TakeUnlink? && s.tasks[u].victim == n
  }

  lemma TakerMoves(c: Config, s: State, p: Phase, effect: Effect, q: Option<Phase>)
    requires Moves(c, s, p, effect, q) && (p.TakeClose? || p.TakeUnlink?)
    ensures p.TakeUnlink? ==> effect == Unlink(p.victim)
    ensures p.TakeClose? && effect.CloseCas? ==> q.Some? && q.value.TakeUnlink? && q.value.victim == p.victim
  {
  }

  lemma LinksFrom(c: Config, s: State, t: TaskId, effect: Effect, q: Option<Phase>, s': State, n: Name)
    requires TaskStep(c, s, t, effect, q, s') && n in s'.links
    ensures if n in s.links && !(effect.Link? && effect.name == n) then s'.links[n] == s.links[n]
            else effect.Link? && s'.links[n] == |s.entries|
    ensures effect.Unlink? ==> effect.name != n
  {
    hide Settles, PhaseNamed, Update;
  }

  lemma RemovingAfterRun(c: Config, s: State, t: TaskId, effect: Effect, q: Option<Phase>, s': State, n: Name)
    requires Balanced(c, s) && Named(s) && Removing(s)
    requires TaskStep(c, s, t, effect, q, s') && Moves(c, s, s.tasks[t], effect, q)
    requires n in s'.links && At(s', s'.links[n]).counter == CLOSED
    ensures exists u :: u in s'.tasks && s'.tasks[u].TakeUnlink? && s'.tasks[u].victim == n
  {
    hide Settles, Balanced, Moves, Apply, PhaseNamed;
    LinksFrom(c, s, t, effect, q, s', n);
    NewEntryAfterStep(c, s, t, effect, s');
    var id := s'.links[n];
    assert id < |s.entries| && n in s.links && s.links[n] == id;
    CounterAfterStep(c, s, t, effect, q, s', id);
    if effect == CloseCas(id) {
      TakerMoves(c, s, s.tasks[t], effect, q);
      assert s.tasks[t].victim == n by { TakerNamed(s, t); }
      assert s'.tasks[t].TakeUnlink?;
    } else {
      var u :| u in s.tasks && s.tasks[u].TakeUnlink? && s.tasks[u].victim == n;
      if u == t {
        TakerMoves(c, s, s.tasks[t], effect, q);
      }
      assert s'.tasks[u] == s.tasks[u];
    }
  }

  lemma TakerNamed(s: State, t: TaskId)
    requires Named(s) && t in s.tasks && s.tasks[t].TakeClose?
    ensures s.tasks[t].id < |s.entries| && s.entries[s.tasks[t].id].name == s.tasks[t].victim
  {
    assert PhaseNamed(s, s.tasks[t]);
  }

  lemma RemovingAfterStep(c: Config, s: State, a: Action, s': State)
    requires Balanced(c, s) && Named(s) && Removing(s) && Next(c, s, a, s')
    ensures Removing(s')
  {
    hide Moves, Balanced, Named, TaskStep, Apply;
    match a
    case Run(t, effect, q) =>
      RunIsTaskStep(c, s, t, effect, q, s');
      forall n | n in s'.links && At(s', s'.links[n]).counter == CLOSED
        ensures exists u :: u in s'.tasks && s'.tasks[u].TakeUnlink? && s'.tasks[u].victim == n
      {
        RemovingAfterRun(c, s, t, effect, q, s', n);
      }
    case Spawn(t, _) =>
      assert forall u :: u in s.tasks ==> u in s'.tasks && s'.tasks[u] == s.tasks[u];
    case Background(_) =>
      assert forall n :: n in s.links ==> At(s', s.links[n]).counter == At(s, s.links[n]).counter;
  }

  lemma {:induction false} RunRemoves(c: Config, states: seq<State>, actions: seq<Action>, i: nat)
    requires InRun(c, states, actions, i)
    ensures Removing(states[i])
  {
    hide IsRun, Next, Removing, Balanced, Named, MutexExact, Roomy, PoolsExact;
    if i == 0 {
      RunStarts(c, states, actions);
    } else {
      RunRemoves(c, states, actions, i - 1);
      StateFacts(c, states, actions, i - 1);
      RunGoesOn(c, states, actions, i - 1);
      RemovingAfterStep(c, states[i - 1], actions[i - 1], states[i]);
    }
  }

  lemma RunStarts(c: Config, states: seq<State>, actions: seq<Action>)
    requires IsRun(c, states, actions)
    ensures Removing(states[0])
  {
  }

  lemma RunGoesOn(c: Config, states: seq<State>, actions: seq<Action>, i: nat)
    requires IsRun(c, states, actions) && i + 1 < |states|
    ensures i < |actions| && Next(c, states[i], actions[i], states[i + 1])
  {
    hide Next;
  }

  lemma RestsUnless(c: Config, s: State, n: Name)
    requires Balanced(c, s) && Named(s) && PoolsExact(s) && Removing(s) && n in s.links
    requires forall u :: u in s.tasks ==> !s.tasks[u].Opening? && !s.tasks[u].TakeUnlink?
    ensures s.links[n] < |s.entries| && Resting(s.entries[s.links[n]], n)
  {
    var id := s.links[n];
    assert EntryBalanced(c, s, id) && PoolsSane(s, id);
    assert s.entries[id].opener == None by {
      assert forall u :: u in s.tasks ==> OpenerOf(s.tasks[u]) == None;
    }
  }

  /** In every reachable state in which no task is opening an entry or unlinking one it closed, the map
      is calm; leases may be out, and other requests may wait anywhere. */
  lemma RunIsCalm(c: Config, states: seq<State>, actions: seq<Action>, i: nat)
    requires InRun(c, states, actions, i)
    requires forall u :: u in states[i].tasks ==> !states[i].tasks[u].Opening? && !states[i].tasks[u].TakeUnlink?
    ensures Calm(c, states[i])
  {
    hide IsRun, Removing, Balanced, PoolsExact, MutexExact, Resting, AdmissionFact, Named;
    StateFacts(c, states, actions, i);
    RunRemoves(c, states, actions, i);
    forall n | n in states[i].links
      ensures states[i].links[n] < |states[i].entries| && Resting(states[i].entries[states[i].links[n]], n)
    {
      RestsUnless(c, states[i], n);
    }
  }
}
