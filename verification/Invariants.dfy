/** The inductive invariant of the step system, with failed opens, timeouts and cancellation. */
module Invariants {
  import opened Prelude
  import opened Vocabulary
  import opened Protocol
  import opened Ledger
  import opened Conservation

  // ---- capacity and the admission mutex ----

  ghost function Below(c: Config, names: set<Name>, i: nat): set<Name> {
    set n | n in names && c.shardOf(n) < i
  }

  ghost function From(c: Config, names: set<Name>, i: nat): set<Name> {
    set n | n in names && c.shardOf(n) >= i
  }

  /** What the admitting task knows.  While it holds the mutex names only disappear from the map,
      so a finished `len()` is an upper bound, and after one eviction there is room. */
  ghost predicate AdmissionFact(c: Config, names: set<Name>, p: Phase) {
    && (p.Measure? ==>
          && p.name !in names && p.attempts <= 1 && p.shard <= c.shards
          && |Below(c, names, p.shard)| <= p.total
          && (p.attempts == 1 ==> p.total + |From(c, names, p.shard)| < c.maxOpen))
    && (p.Scan? ==> p.name !in names && p.attempts == 1)
    && (p.Insert? ==> p.name !in names && |names| < c.maxOpen)
    && (p.SpawnClose? ==> p.name !in names && p.attempts == 1 && |names| < c.maxOpen)
    && ((p.TakeGet? || p.TakeClose? || p.TakeUnlink?) && p.take.Eviction? ==>
          p.take.name !in names && p.take.attempts == 1)
    && ((p.TakeClose? || p.TakeUnlink?) && p.take.Eviction? ==> |names - {p.victim}| < c.maxOpen)
  }

  ghost predicate Roomy(c: Config, s: State) {
    && |s.links.Keys| <= c.maxOpen
    && (forall t :: t in s.tasks ==> AdmissionFact(c, s.links.Keys, s.tasks[t]))
  }

  ghost predicate MutexExact(s: State) {
    forall t: TaskId :: s.admission == Some(t) <==> t in s.tasks && HasMutex(s.tasks[t])
  }

  // ---- pools ----

  predicate UsesPools(p: Phase, id: EntryId) {
    (p.Holding? && p.id == id) || (p.CheckpointRun? && p.id == id)
  }

  ghost predicate PoolsSane(s: State, id: EntryId)
    requires id < |s.entries|
  {
    && (forall t: TaskId :: s.entries[id].opener == Some(t) <==> t in s.tasks && OpenerOf(s.tasks[t]) == Some(id))
    && (s.entries[id].opener.Some? ==> s.entries[id].pools.Unopened?)
    && (s.entries[id].pools.Shut? ==> s.entries[id].closeRuns > 0)
    && (forall t :: t in s.tasks && UsesPools(s.tasks[t], id) ==> !s.entries[id].pools.Unopened?)
  }

  ghost predicate PoolsExact(s: State) {
    forall id: EntryId :: id < |s.entries| ==> PoolsSane(s, id)
  }

  ghost predicate Inv(c: Config, s: State) {
    Balanced(c, s) && Named(s) && MutexExact(s) && Roomy(c, s) && PoolsExact(s)
  }

  // ---- names ----

  /** Entries are never renamed or forgotten. */
  ghost predicate Grows(s: State, s': State) {
    && |s.entries| <= |s'.entries|
    && (forall id: EntryId :: id < |s.entries| ==> s'.entries[id].name == s.entries[id].name)
  }

  lemma StepGrows(c: Config, s: State, t: TaskId, effect: Effect, s': State)
    requires s'.entries == Apply(c, s, t, effect).entries
    ensures Grows(s, s')
  {
    hide Apply;
    NewEntryAfterStep(c, s, t, effect, s');
    forall id: EntryId | id < |s.entries|
      ensures s'.entries[id].name == s.entries[id].name
    {
      EntryAfterStep(c, s, t, effect, s', id);
    }
  }

  lemma NamedGrows(s: State, s': State, p: Phase)
    requires Grows(s, s') && PhaseNamed(s, p)
    ensures PhaseNamed(s', p)
  {
  }

  ghost predicate LinksNamed(s: State) {
    forall n :: n in s.links ==> s.links[n] < |s.entries| && s.entries[s.links[n]].name == n
  }

  lemma LinksStayNamed(c: Config, s: State, t: TaskId, effect: Effect, s': State)
    requires LinksNamed(s) && s' == Apply(c, s, t, effect).(tasks := s'.tasks)
    ensures LinksNamed(s')
  {
    StepGrows(c, s, t, effect, s');
    NewEntryAfterStep(c, s, t, effect, s');
    hide Update, NewEntry;
  }

  lemma SlotNamed(c: Config, s: State, p: Phase, effect: Effect, q: Option<Phase>, s': State)
    requires SlotStep(c, s, p, effect, q) && PhaseNamed(s, p) && LinksNamed(s) && Grows(s, s')
    requires effect.Link? ==> |s'.entries| == |s.entries| + 1 && s'.entries[|s.entries|].name == effect.name
    ensures q.Some? ==> PhaseNamed(s', q.value)
  {
  }

  lemma TakeNamed(c: Config, s: State, p: Phase, effect: Effect, q: Option<Phase>, s': State)
    requires TakeStep(c, s, p, effect, q) && PhaseNamed(s, p) && LinksNamed(s) && Grows(s, s')
    ensures q.Some? ==> PhaseNamed(s', q.value)
  {
  }

  lemma LeaseNamed(c: Config, s: State, p: Phase, effect: Effect, q: Option<Phase>, s': State)
    requires LeaseStep(c, s, p, effect, q) && PhaseNamed(s, p) && Grows(s, s')
    ensures q.Some? ==> PhaseNamed(s', q.value)
  {
  }

  lemma AdmitNamed(c: Config, s: State, p: Phase, effect: Effect, q: Option<Phase>, s': State)
    requires AdmitStep(c, s, p, effect, q) || Abandons(p, effect, q)
    requires PhaseNamed(s, p) && Grows(s, s')
    ensures q.Some? ==> PhaseNamed(s', q.value)
  {
  }

  lemma ReturnNamed(c: Config, s: State, p: Phase, effect: Effect, q: Option<Phase>, s': State)
    requires ReturnStep(c, s, p, effect, q) && PhaseNamed(s, p) && Grows(s, s')
    ensures q.Some? ==> PhaseNamed(s', q.value)
  {
  }

  lemma CleanNamed(c: Config, s: State, p: Phase, effect: Effect, q: Option<Phase>, s': State)
    requires CleanStep(c, s, p, effect, q) && PhaseNamed(s, p) && Grows(s, s')
    ensures q.Some? ==> PhaseNamed(s', q.value)
  {
  }

  lemma CheckpointNamed(c: Config, s: State, p: Phase, effect: Effect, q: Option<Phase>, s': State)
    requires CheckpointStep(c, s, p, effect, q) && PhaseNamed(s, p) && LinksNamed(s) && Grows(s, s')
    ensures q.Some? ==> PhaseNamed(s', q.value)
  {
  }

  lemma MovesNamed(c: Config, s: State, t: TaskId, effect: Effect, q: Option<Phase>, s': State)
    requires Named(s) && Next(c, s, Run(t, effect, q), s')
    ensures Named(s')
  {
    hide Apply, Proceeds, SlotStep, TakeStep, LeaseStep, AdmitStep, ReturnStep, CleanStep, CheckpointStep, Abandons,
      PhaseNamed;
    var p := s.tasks[t];
    StepGrows(c, s, t, effect, s');
    LinksStayNamed(c, s, t, effect, s');
    NewEntryAfterStep(c, s, t, effect, s');
    assert q.Some? ==> PhaseNamed(s', q.value) by {
      MovedTaskNamed(c, s, p, effect, q, s');
    }
    forall u | u in s'.tasks
      ensures PhaseNamed(s', s'.tasks[u])
    {
      if u != t {
        NamedGrows(s, s', s.tasks[u]);
      }
    }
  }

  lemma MovedTaskNamed(c: Config, s: State, p: Phase, effect: Effect, q: Option<Phase>, s': State)
    requires Moves(c, s, p, effect, q) && PhaseNamed(s, p) && LinksNamed(s) && Grows(s, s')
    requires effect.Link? ==> |s'.entries| == |s.entries| + 1 && s'.entries[|s.entries|].name == effect.name
    ensures q.Some? ==> PhaseNamed(s', q.value)
  {
    hide SlotStep, TakeStep, LeaseStep, AdmitStep, ReturnStep, CleanStep, CheckpointStep, Abandons, PhaseNamed,
      LinksNamed, Grows;
    if SlotStep(c, s, p, effect, q) {
      SlotNamed(c, s, p, effect, q, s');
    } else if TakeStep(c, s, p, effect, q) {
      TakeNamed(c, s, p, effect, q, s');
    } else if LeaseStep(c, s, p, effect, q) {
      LeaseNamed(c, s, p, effect, q, s');
    } else if ReturnStep(c, s, p, effect, q) {
      ReturnNamed(c, s, p, effect, q, s');
    } else if CleanStep(c, s, p, effect, q) {
      CleanNamed(c, s, p, effect, q, s');
    } else if CheckpointStep(c, s, p, effect, q) {
      CheckpointNamed(c, s, p, effect, q, s');
    } else {
      AdmitNamed(c, s, p, effect, q, s');
    }
  }

  // ---- the mutex and the capacity ----

  lemma MutexAfterStep(c: Config, s: State, t: TaskId, effect: Effect, q: Option<Phase>, s': State)
    requires MutexExact(s) && TaskStep(c, s, t, effect, q, s')
    ensures MutexExact(s')
  {
    hide Apply, HasMutex, SettlesLease, SettlesTenant, SettlesProcess, SettlesClosing, SettlesOpener, PhaseNamed;
    GlobalsAfterStep(c, s, t, effect, s');
    assert s.admission == Some(t) <==> HasMutex(s.tasks[t]);
  }

  /** Only the mutex holder relies on the key set. */
  lemma FactNeedsMutex(c: Config, names: set<Name>, p: Phase)
    requires !HasMutex(p)
    ensures AdmissionFact(c, names, p)
  {
  }

  /** Removals by other tasks never hurt an admission under way. */
  lemma FactSurvivesRemovals(c: Config, names: set<Name>, fewer: set<Name>, p: Phase)
    requires AdmissionFact(c, names, p) && fewer <= names
    ensures AdmissionFact(c, fewer, p)
  {
    SubsetCardinality(fewer, names);
    if p.Measure? {
      SubsetCardinality(Below(c, fewer, p.shard), Below(c, names, p.shard));
      SubsetCardinality(From(c, fewer, p.shard), From(c, names, p.shard));
    }
    if p.TakeClose? || p.TakeUnlink? {
      SubsetCardinality(fewer - {p.victim}, names - {p.victim});
    }
  }

  /** Reading one more shard moves its names from the rest to the part already counted. */
  lemma ShardCounted(c: Config, links: map<Name, EntryId>, i: nat)
    ensures |Below(c, links.Keys, i + 1)| == |Below(c, links.Keys, i)| + ShardLen(c, links, i)
    ensures |From(c, links.Keys, i)| == |From(c, links.Keys, i + 1)| + ShardLen(c, links, i)
  {
    var shard := set n | n in links && c.shardOf(n) == i;
    assert Below(c, links.Keys, i + 1) == Below(c, links.Keys, i) + shard;
    assert From(c, links.Keys, i) == From(c, links.Keys, i + 1) + shard;
  }

  lemma AllShardsCounted(c: Config, names: set<Name>)
    requires ValidConfig(c)
    ensures Below(c, names, c.shards) == names && From(c, names, c.shards) == {}
    ensures Below(c, names, 0) == {} && From(c, names, 0) == names
  {
  }

  lemma MeasureKeepsFact(c: Config, s: State, p: Phase, effect: Effect, q: Option<Phase>)
    requires ValidConfig(c) && p.Measure? && SlotStep(c, s, p, effect, q) && AdmissionFact(c, s.links.Keys, p)
    ensures q.Some? && effect == Local && AdmissionFact(c, s.links.Keys, q.value)
    ensures !q.value.Unlock?
  {
    hide *;
    if p.shard < c.shards {
      ShardFact(c, s, p, effect, q);
    } else {
      AllShardsCounted(c, s.links.Keys);
      AtLastShard(c, s.links.Keys, p);
      MeasuredFact(c, s, p, effect, q);
    }
  }

  lemma AtLastShard(c: Config, names: set<Name>, p: Phase)
    requires p.Measure? && AdmissionFact(c, names, p)
    ensures p.shard <= c.shards
  {
  }

  /** One more shard is read. */
  lemma ShardFact(c: Config, s: State, p: Phase, effect: Effect, q: Option<Phase>)
    requires p.Measure? && SlotStep(c, s, p, effect, q) && AdmissionFact(c, s.links.Keys, p) && p.shard < c.shards
    ensures q.Some? && effect == Local && AdmissionFact(c, s.links.Keys, q.value)
    ensures !q.value.Unlock?
  {
    ShardCounted(c, s.links, p.shard);
    hide Below, From, ShardLen;
    assert q.value == p.(shard := p.shard + 1, total := p.total + ShardLen(c, s.links, p.shard));
  }

  /** The finished sum leaves room, or asks for the only eviction. */
  lemma MeasuredFact(c: Config, s: State, p: Phase, effect: Effect, q: Option<Phase>)
    requires p.Measure? && SlotStep(c, s, p, effect, q) && AdmissionFact(c, s.links.Keys, p) && p.shard >= c.shards
    requires Below(c, s.links.Keys, c.shards) == s.links.Keys && From(c, s.links.Keys, c.shards) == {}
    ensures q.Some? && effect == Local && AdmissionFact(c, s.links.Keys, q.value)
    ensures !q.value.Unlock?
  {
    hide Below, From, ShardLen;
  }

  lemma SlotKeepsFact(c: Config, s: State, p: Phase, effect: Effect, q: Option<Phase>, names: set<Name>)
    requires ValidConfig(c) && SlotStep(c, s, p, effect, q) && AdmissionFact(c, s.links.Keys, p)
    requires effect == Local ==> names == s.links.Keys
    ensures q.Some? ==> AdmissionFact(c, names, q.value)
  {
    if p.Measure? {
      MeasureKeepsFact(c, s, p, effect, q);
    } else {
      AllShardsCounted(c, names);
    }
  }

  lemma TakeKeepsFact(c: Config, s: State, p: Phase, effect: Effect, q: Option<Phase>, names: set<Name>)
    requires ValidConfig(c) && TakeStep(c, s, p, effect, q) && AdmissionFact(c, s.links.Keys, p)
    requires |s.links.Keys| <= c.maxOpen
    requires names == if effect.Unlink? then s.links.Keys - {effect.name} else s.links.Keys
    ensures q.Some? ==> AdmissionFact(c, names, q.value)
  {
    AllShardsCounted(c, names);
    if p.TakeGet? {
      RemoveOne(names, p.victim);
    }
  }

  /** How a step changes the key set. */
  lemma KeysAfterStep(c: Config, s: State, t: TaskId, effect: Effect, s': State)
    requires s' == Apply(c, s, t, effect).(tasks := s'.tasks)
    ensures effect.Link? ==> s'.links.Keys == s.links.Keys + {effect.name}
    ensures effect.Unlink? ==> s'.links.Keys == s.links.Keys - {effect.name}
    ensures !effect.Link? ==> s'.links.Keys <= s.links.Keys
    ensures !effect.Link? && !effect.Unlink? && !effect.UnlinkIf? ==> s'.links == s.links
  {
    hide Update;
  }

  /** The moving task keeps its own knowledge of the key set. */
  lemma MovedTaskKeepsFact(c: Config, s: State, t: TaskId, effect: Effect, q: Option<Phase>, s': State)
    requires ValidConfig(c) && Roomy(c, s)
    requires TaskStep(c, s, t, effect, q, s') && Moves(c, s, s.tasks[t], effect, q)
    ensures q.Some? ==> AdmissionFact(c, s'.links.Keys, q.value)
  {
    hide Apply, AdmissionFact, SettlesLease, SettlesTenant, SettlesProcess, SettlesClosing, SettlesOpener, PhaseNamed,
      SlotStep, TakeStep, LeaseStep, AdmitStep, ReturnStep, CleanStep, CheckpointStep, Abandons;
    KeysAfterStep(c, s, t, effect, s');
    var p := s.tasks[t];
    if SlotStep(c, s, p, effect, q) {
      SlotKeepsFact(c, s, p, effect, q, s'.links.Keys);
    } else if TakeStep(c, s, p, effect, q) {
      assert !effect.UnlinkIf? && !effect.Link? by { TakeEffects(c, s, p, effect, q); }
      TakeKeepsFact(c, s, p, effect, q, s'.links.Keys);
    } else {
      OtherStepsWithoutMutex(c, s, p, effect, q);
      if q.Some? {
        FactNeedsMutex(c, s'.links.Keys, q.value);
      }
    }
  }

  lemma TakeEffects(c: Config, s: State, p: Phase, effect: Effect, q: Option<Phase>)
    requires TakeStep(c, s, p, effect, q)
    ensures !effect.UnlinkIf? && !effect.Link?
  {
  }

  /** Only `slot` and `take` run under the admission mutex. */
  lemma OtherStepsWithoutMutex(c: Config, s: State, p: Phase, effect: Effect, q: Option<Phase>)
    requires Moves(c, s, p, effect, q) && PhaseNamed(s, p)
    requires !SlotStep(c, s, p, effect, q) && !TakeStep(c, s, p, effect, q)
    ensures q.Some? ==> !HasMutex(q.value)
  {
    hide SlotStep, TakeStep, LeaseStep, AdmitStep, ReturnStep, CleanStep, CheckpointStep, Abandons, PhaseNamed,
      Settles, Guarded, HasMutex;
    if LeaseStep(c, s, p, effect, q) {
      LeaseSettles(c, s, p, effect, q);
    } else if AdmitStep(c, s, p, effect, q) {
      AdmitSettles(c, s, p, effect, q);
    } else if ReturnStep(c, s, p, effect, q) {
      ReturnSettles(c, s, p, effect, q);
    } else if CleanStep(c, s, p, effect, q) {
      CleanSettles(c, s, p, effect, q);
    } else if CheckpointStep(c, s, p, effect, q) {
      CheckpointSettles(c, s, p, effect, q);
    } else {
      AbandonSettles(s, p, effect, q);
    }
  }

  /** Whatever the moving task does, the others keep what they know of the key set. */
  lemma OtherTaskKeepsFact(c: Config, names: set<Name>, names': set<Name>, effect: Effect, other: Phase)
    requires AdmissionFact(c, names, other)
    requires effect.Link? ==> !HasMutex(other)
    requires !effect.Link? ==> names' <= names
    ensures AdmissionFact(c, names', other)
  {
    hide AdmissionFact, HasMutex;
    if effect.Link? {
      FactNeedsMutex(c, names', other);
    } else {
      FactSurvivesRemovals(c, names, names', other);
    }
  }

  lemma KeysFit(c: Config, s: State, t: TaskId, effect: Effect, q: Option<Phase>, s': State)
    requires Roomy(c, s) && TaskStep(c, s, t, effect, q, s')
    ensures |s'.links.Keys| <= c.maxOpen
    ensures effect.Link? ==> HasMutex(s.tasks[t])
  {
    hide Apply, HasMutex, Settles, PhaseNamed, AdmissionFact;
    KeysAfterStep(c, s, t, effect, s');
    if effect.Link? {
      InsertHasMutex(c, s.links.Keys, s.tasks[t]);
    } else {
      SubsetCardinality(s'.links.Keys, s.links.Keys);
    }
  }

  lemma RoomAfterStep(c: Config, s: State, t: TaskId, effect: Effect, q: Option<Phase>, s': State)
    requires ValidConfig(c) && Roomy(c, s) && MutexExact(s)
    requires TaskStep(c, s, t, effect, q, s') && Moves(c, s, s.tasks[t], effect, q)
    ensures Roomy(c, s')
  {
    hide Apply, HasMutex, Settles, Guarded, PhaseNamed, Moves, AdmissionFact;
    KeysFit(c, s, t, effect, q, s');
    KeysAfterStep(c, s, t, effect, s');
    MovedTaskKeepsFact(c, s, t, effect, q, s');
    forall u | u in s'.tasks
      ensures AdmissionFact(c, s'.links.Keys, s'.tasks[u])
    {
      if u != t {
        assert s.tasks[u] == s'.tasks[u];
        assert effect.Link? ==> s.admission == Some(t);
        OtherTaskKeepsFact(c, s.links.Keys, s'.links.Keys, effect, s.tasks[u]);
      }
    }
  }

  lemma InsertHasMutex(c: Config, names: set<Name>, p: Phase)
    requires p.Insert? && AdmissionFact(c, names, p)
    ensures HasMutex(p) && |names + {p.name}| <= c.maxOpen
  {
    RemoveOne(names + {p.name}, p.name);
    assert names + {p.name} - {p.name} == names;
  }

  // ---- pools ----

  /** A task starts to use pools only when it publishes them or has seen them initialised. */
  lemma MovesUsePools(c: Config, s: State, p: Phase, effect: Effect, q: Option<Phase>, id: EntryId)
    requires Moves(c, s, p, effect, q) && PhaseNamed(s, p)
    requires q.Some? && UsesPools(q.value, id)
    ensures id < |s.entries|
    ensures effect == PublishPools(id) || (effect == Local && !s.entries[id].pools.Unopened?)
  {
    hide SlotStep, TakeStep, LeaseStep, AdmitStep, ReturnStep, CleanStep, CheckpointStep, Abandons, PhaseNamed,
      Settles, Guarded, HasMutex;
    if SlotStep(c, s, p, effect, q) {
      SlotSettles(c, s, p, effect, q);
    } else if TakeStep(c, s, p, effect, q) {
      TakeSettles(c, s, p, effect, q);
    } else if LeaseStep(c, s, p, effect, q) {
      LeaseSettles(c, s, p, effect, q);
    } else if AdmitStep(c, s, p, effect, q) {
      AdmitSettles(c, s, p, effect, q);
    } else if ReturnStep(c, s, p, effect, q) {
      ReturnSettles(c, s, p, effect, q);
    } else if CleanStep(c, s, p, effect, q) {
      CleanSettles(c, s, p, effect, q);
    } else if CheckpointStep(c, s, p, effect, q) {
      CheckpointSettles(c, s, p, effect, q);
    } else {
      AbandonSettles(s, p, effect, q);
    }
  }

  lemma PoolsAfterStep(c: Config, s: State, t: TaskId, effect: Effect, q: Option<Phase>, s': State, id: EntryId)
    requires PoolsExact(s) && TaskStep(c, s, t, effect, q, s') && Moves(c, s, s.tasks[t], effect, q)
    requires id < |s.entries|
    ensures id < |s'.entries| && PoolsSane(s', id)
  {
    hide Apply, Moves, PhaseNamed, UsesPools, OpenerOf, SettlesLease, SettlesTenant, SettlesProcess, SettlesClosing,
      SettlesMutex;
    assert PoolsSane(s, id);
    EntryAfterStep(c, s, t, effect, s', id);
    if q.Some? && UsesPools(q.value, id) {
      MovesUsePools(c, s, s.tasks[t], effect, q, id);
    }
  }

  lemma NewEntryPools(c: Config, s: State, t: TaskId, effect: Effect, q: Option<Phase>, s': State)
    requires Named(s) && Named(s') && TaskStep(c, s, t, effect, q, s') && effect.Link?
    ensures |s'.entries| == |s.entries| + 1 && PoolsSane(s', |s.entries|)
  {
    NewEntryAfterStep(c, s, t, effect, s');
    var id := |s.entries|;
    forall u | u in s'.tasks
      ensures OpenerOf(s'.tasks[u]) != Some(id) && !UsesPools(s'.tasks[u], id)
    {
      if u != t {
        assert PhaseNamed(s, s.tasks[u]);
      }
    }
  }
}
