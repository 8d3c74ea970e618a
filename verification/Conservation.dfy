/** The counting invariant holds in every step: lease counters, permits and closes are conserved. */
module Conservation {
  import opened Prelude
  import opened Vocabulary
  import opened Protocol
  import opened Ledger

  // ---- what a step leaves behind, part by part ----

  lemma EntryAfterStep(c: Config, s: State, t: TaskId, effect: Effect, s': State, id: EntryId)
    requires s'.entries == Apply(c, s, t, effect).entries && id < |s.entries|
    ensures id < |s'.entries|
    ensures s'.entries[id] == if Subject(effect) == Some(id) then Update(s.entries[id], t, effect) else s.entries[id]
  {
    hide Update;
  }

  lemma NewEntryAfterStep(c: Config, s: State, t: TaskId, effect: Effect, s': State)
    requires s'.entries == Apply(c, s, t, effect).entries
    ensures |s'.entries| == |s.entries| + Bit(effect.Link?)
    ensures effect.Link? ==> s'.entries[|s.entries|] == NewEntry(c, effect.name)
  {
    hide Update;
  }

  lemma GlobalsAfterStep(c: Config, s: State, t: TaskId, effect: Effect, s': State)
    requires s' == Apply(c, s, t, effect).(tasks := s'.tasks)
    ensures s'.closers == if effect.Handoff? then s.closers + multiset{effect.id} else s.closers
    ensures effect.TakeProcess? && s.processFree > 0 ==> s'.processFree == s.processFree - 1
    ensures effect.FreeProcess? ==> s'.processFree == s.processFree + 1
    ensures !effect.TakeProcess? && !effect.FreeProcess? ==> s'.processFree == s.processFree
    ensures s'.admission == if effect.TakeMutex? then Some(t) else if effect.FreeMutex? then None else s.admission
  {
    hide Update;
  }

  // ---- the counting invariant over a task step ----

  /** What the proofs below know of a task step. */
  ghost predicate TaskStep(c: Config, s: State, t: TaskId, effect: Effect, q: Option<Phase>, s': State) {
    && t in s.tasks
    && PhaseNamed(s, s.tasks[t])
    && Settles(s.tasks[t], effect, q)
    && Guarded(s, s.tasks[t], effect)
    && s' == Apply(c, s, t, effect).(tasks := Put(s.tasks, t, q))
  }

  /** A counter stays exact when it changes with its leases. */
  lemma CounterMoves(s: State, t: TaskId, effect: Effect, s': State, id: EntryId)
    requires id < |s.entries| && id < |s'.entries| && CounterExact(s, id)
    requires s'.entries[id] == if Subject(effect) == Some(id) then Update(s.entries[id], t, effect) else s.entries[id]
    requires |Leases(s', id)| == |Leases(s, id)| + LeaseDelta(effect, id)
    requires effect == LeaseInc(id) ==> s.entries[id].counter != CLOSED && |Leases(s, id)| + 1 < CLOSED
    requires effect == LeaseDec(id) ==> |Leases(s, id)| > 0
    requires effect == CloseCas(id) ==> s.entries[id].counter == 0
    ensures CounterExact(s', id)
    ensures s'.entries[id].counter == CLOSED <==> s.entries[id].counter == CLOSED || effect == CloseCas(id)
  {
    hide Leases;
  }

  lemma CounterAfterStep(c: Config, s: State, t: TaskId, effect: Effect, q: Option<Phase>, s': State, id: EntryId)
    requires Balanced(c, s) && TaskStep(c, s, t, effect, q, s') && id < |s.entries|
    ensures id < |s'.entries| && CounterExact(s', id)
    ensures s'.entries[id].counter == CLOSED <==> s.entries[id].counter == CLOSED || effect == CloseCas(id)
  {
    hide Apply, Update, PhaseNamed, LeaseOf, SettlesTenant, SettlesProcess, SettlesClosing, SettlesMutex, SettlesOpener;
    assert EntryBalanced(c, s, id);
    EntryAfterStep(c, s, t, effect, s', id);
    LeasesAfterStep(s, t, effect, q, s', id);
    LeasesBounded(s, id);
    if effect == LeaseDec(id) {
      HolderCounted(s, t, id);
    }
    if effect == LeaseInc(id) {
      SubsetCardinality(Leases(s, id), s.tasks.Keys - {t});
    }
    hide CounterExact, Leases, Settles, LeaseDelta;
    CounterMoves(s, t, effect, s', id);
  }

  lemma TenantAfterTaskStep(c: Config, s: State, t: TaskId, effect: Effect, q: Option<Phase>, s': State, id: EntryId)
    requires Balanced(c, s) && TaskStep(c, s, t, effect, q, s') && id < |s.entries|
    ensures id < |s'.entries| && TenantConserved(c, s', id)
  {
    hide Apply, PhaseNamed, TenantOf, SettlesLease, SettlesProcess, SettlesClosing, SettlesMutex, SettlesOpener;
    assert EntryBalanced(c, s, id);
    EntryAfterStep(c, s, t, effect, s', id);
    TenantAfterStep(s, t, effect, q, s', id);
  }

  lemma ClosedOnceAfterStep(c: Config, s: State, t: TaskId, effect: Effect, q: Option<Phase>, s': State, id: EntryId)
    requires Balanced(c, s) && TaskStep(c, s, t, effect, q, s') && id < |s.entries|
    ensures id < |s'.entries| && ClosedOnce(s', id)
  {
    hide Apply, PhaseNamed, ClosingOf, CounterExact, SettlesLease, SettlesTenant, SettlesProcess, SettlesMutex,
      SettlesOpener;
    assert EntryBalanced(c, s, id);
    CounterAfterStep(c, s, t, effect, q, s', id);
    EntryAfterStep(c, s, t, effect, s', id);
    GlobalsAfterStep(c, s, t, effect, s');
    ClosersAfterStep(s, t, effect, q, s', id);
  }

  /** Nobody holds anything of an entry that does not exist yet. */
  lemma NothingHeldOfNewEntry(s: State, id: EntryId)
    requires Named(s) && id >= |s.entries|
    ensures Leases(s, id) == {} && TenantHolders(s, id) == {} && Closers(s, id) == {}
  {
    forall t | t in s.tasks
      ensures LeaseOf(s.tasks[t]) != Some(id) && TenantOf(s.tasks[t]) != Some(id) && ClosingOf(s.tasks[t]) != Some(id)
    {
      assert PhaseNamed(s, s.tasks[t]);
    }
  }

  lemma NewEntryBalanced(c: Config, s: State, t: TaskId, effect: Effect, q: Option<Phase>, s': State)
    requires Balanced(c, s) && Named(s) && TaskStep(c, s, t, effect, q, s') && effect.Link?
    ensures |s'.entries| == |s.entries| + 1
    ensures CounterExact(s', |s.entries|) && TenantConserved(c, s', |s.entries|) && ClosedOnce(s', |s.entries|)
  {
    hide PhaseNamed, LeaseOf, TenantOf, ClosingOf;
    var id := |s.entries|;
    NewEntryAfterStep(c, s, t, effect, s');
    NothingHeldOfNewEntry(s, id);
    LeasesAfterStep(s, t, effect, q, s', id);
    TenantAfterStep(s, t, effect, q, s', id);
    ClosersAfterStep(s, t, effect, q, s', id);
    assert s'.closers[id] == 0 by { assert s.closers[id] == 0; }
  }

  lemma TasksBounded(s: State, t: TaskId, q: Option<Phase>)
    requires t in s.tasks
    ensures |Put(s.tasks, t, q)| <= |s.tasks|
  {
    SubsetCardinality(Put(s.tasks, t, q).Keys, s.tasks.Keys);
  }

  lemma TaskStepBalanced(c: Config, s: State, t: TaskId, effect: Effect, q: Option<Phase>, s': State)
    requires Balanced(c, s) && Named(s) && TaskStep(c, s, t, effect, q, s')
    ensures Balanced(c, s')
  {
    hide Apply, Settles, CounterExact, TenantConserved, ClosedOnce, Named;
    TasksBounded(s, t, q);
    GlobalsAfterStep(c, s, t, effect, s');
    NewEntryAfterStep(c, s, t, effect, s');
    assert ProcessConserved(c, s') by {
      assert SettlesProcess(s.tasks[t], effect, q) by { SettlesParts(s.tasks[t], effect, q); }
      ProcessAfterStep(s, t, effect, q, s');
    }
    forall id: EntryId | 0 <= id < |s'.entries|
      ensures EntryBalanced(c, s', id)
    {
      if id < |s.entries| {
        CounterAfterStep(c, s, t, effect, q, s', id);
        TenantAfterTaskStep(c, s, t, effect, q, s', id);
        ClosedOnceAfterStep(c, s, t, effect, q, s', id);
      } else {
        NewEntryBalanced(c, s, t, effect, q, s');
      }
    }
  }

  lemma SettlesParts(p: Phase, effect: Effect, q: Option<Phase>)
    requires Settles(p, effect, q)
    ensures SettlesLease(p, effect, q) && SettlesTenant(p, effect, q) && SettlesProcess(p, effect, q)
    ensures SettlesClosing(p, effect, q) && SettlesMutex(p, effect, q) && SettlesOpener(p, effect, q)
  {
    hide SettlesLease, SettlesTenant, SettlesProcess, SettlesClosing, SettlesMutex, SettlesOpener;
  }

  // ---- the other two actions ----

  /** A new task holds nothing. */
  lemma SpawnKeepsCounts(s: State, t: TaskId, p: Phase, s': State, id: EntryId)
    requires t !in s.tasks && Starts(p) && s'.tasks == s.tasks[t := p]
    ensures |Leases(s', id)| == |Leases(s, id)|
    ensures |TenantHolders(s', id)| == |TenantHolders(s, id)|
    ensures |Closers(s', id)| == |Closers(s, id)|
    ensures |ProcessHolders(s')| == |ProcessHolders(s)|
  {
    assert s'.tasks == Put(s.tasks, t, Some(p));
    SelectPut(s.tasks, t, Some(p), OnLease(id));
    SelectPut(s.tasks, t, Some(p), OnTenant(id));
    SelectPut(s.tasks, t, Some(p), OnClosing(id));
    SelectPut(s.tasks, t, Some(p), OnProcess());
  }

  lemma SpawnBalanced(c: Config, s: State, t: TaskId, p: Phase, s': State)
    requires Balanced(c, s) && Next(c, s, Spawn(t, p), s')
    ensures Balanced(c, s')
  {
    hide Moves, Leases, TenantHolders, Closers, ProcessHolders;
    SpawnKeepsCounts(s, t, p, s', 0);
    forall id: EntryId | 0 <= id < |s'.entries|
      ensures EntryBalanced(c, s', id)
    {
      assert EntryBalanced(c, s, id);
      SpawnKeepsCounts(s, t, p, s', id);
    }
  }

  lemma BackgroundBalanced(c: Config, s: State, id: EntryId, s': State)
    requires Balanced(c, s) && Next(c, s, Background(id), s')
    ensures Balanced(c, s')
  {
    hide Moves, LeaseOf, TenantOf, ClosingOf, HasProcess;
    assert id < |s.entries|;
    assert ProcessHolders(s') == ProcessHolders(s);
    forall k: EntryId | 0 <= k < |s'.entries|
      ensures EntryBalanced(c, s', k)
    {
      assert EntryBalanced(c, s, k);
      assert Leases(s', k) == Leases(s, k) && TenantHolders(s', k) == TenantHolders(s, k);
      assert Closers(s', k) == Closers(s, k);
    }
  }
}
