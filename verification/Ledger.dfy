/** What each phase owes and owns, and the counting invariant that ties it to the shared registry. */
module Ledger {
  import opened Prelude
  import opened Vocabulary
  import opened Protocol

  // ---- what a task holds in a phase ----

  /** The entry on whose counter the task holds a lease. */
  function LeaseOf(p: Phase): Option<EntryId> {
    if p.AwaitTenant? || p.GiveBackTenant? || p.CheckpointTest? || p.CheckpointRun? || p.DropDecrement?
       || p.AwaitProcess? || p.AwaitPools? || p.Opening? || p.UnlinkFailed? || p.Holding?
    then Some(p.id) else None
  }

  /** The entry whose tenant permit the task holds. */
  function TenantOf(p: Phase): Option<EntryId> {
    if p.AwaitProcess? || p.AwaitPools? || p.Opening? || p.UnlinkFailed? || p.Holding?
       || p.GiveBackTenant? || (p.DropDecrement? && p.permits) || p.DropTenant?
    then Some(p.id) else None
  }

  predicate HasProcess(p: Phase) {
    || p.AwaitPools? || p.Opening? || p.UnlinkFailed? || p.Holding?
    || (p.DropDecrement? && p.permits) || p.DropTenant? || p.DropProcess?
  }

  /** The entry the task has closed and must still hand to `close_entry`. */
  function ClosingOf(p: Phase): Option<EntryId> {
    if p.TakeUnlink? || p.SpawnClose? || p.CleanClose? then Some(p.id) else None
  }

  predicate HasMutex(p: Phase) {
    || p.Recheck? || p.Measure? || p.Scan? || p.Insert? || p.Unlock? || p.SpawnClose?
    || ((p.TakeGet? || p.TakeClose? || p.TakeUnlink?) && p.take.Eviction?)
  }

  /** The entry whose once-cell initialiser the task runs. */
  function OpenerOf(p: Phase): Option<EntryId> {
    if p.Opening? then Some(p.id) else None
  }

  function OnLease(id: EntryId): Phase -> bool { p => LeaseOf(p) == Some(id) }
  function OnTenant(id: EntryId): Phase -> bool { p => TenantOf(p) == Some(id) }
  function OnProcess(): Phase -> bool { p => HasProcess(p) }
  function OnClosing(id: EntryId): Phase -> bool { p => ClosingOf(p) == Some(id) }

  /** The outstanding leases of an entry, one per task. */
  ghost function Leases(s: State, id: EntryId): set<TaskId> { Select(s.tasks, OnLease(id)) }
  ghost function TenantHolders(s: State, id: EntryId): set<TaskId> { Select(s.tasks, OnTenant(id)) }
  ghost function ProcessHolders(s: State): set<TaskId> { Select(s.tasks, OnProcess()) }
  ghost function Closers(s: State, id: EntryId): set<TaskId> { Select(s.tasks, OnClosing(id)) }

  // ---- the counting invariant ----

  /** The counter of an entry is its number of outstanding leases, or CLOSED with none. */
  ghost predicate CounterExact(s: State, id: EntryId)
    requires id < |s.entries|
  {
    s.entries[id].counter == |Leases(s, id)| < CLOSED
    || (s.entries[id].counter == CLOSED && Leases(s, id) == {})
  }

  ghost predicate TenantConserved(c: Config, s: State, id: EntryId)
    requires id < |s.entries|
  {
    s.entries[id].tenantFree + |TenantHolders(s, id)| == c.perDatabase
  }

  /** A closed entry has exactly one `close_entry`, past or still due; an open one has none. */
  ghost predicate ClosedOnce(s: State, id: EntryId)
    requires id < |s.entries|
  {
    s.entries[id].closeRuns + s.closers[id] + |Closers(s, id)| == Bit(s.entries[id].counter == CLOSED)
  }

  ghost predicate EntryBalanced(c: Config, s: State, id: EntryId)
    requires id < |s.entries|
  {
    CounterExact(s, id) && TenantConserved(c, s, id) && ClosedOnce(s, id)
  }

  ghost predicate ProcessConserved(c: Config, s: State) {
    s.processFree + |ProcessHolders(s)| == c.maxRequests
  }

  ghost predicate Balanced(c: Config, s: State) {
    && |s.tasks| < CLOSED
    && ProcessConserved(c, s)
    && (forall id: EntryId :: id < |s.entries| ==> EntryBalanced(c, s, id))
    && (forall id: EntryId :: s.closers[id] > 0 ==> id < |s.entries|)
  }

  /** The entries a phase names exist and bear the name the task works on. */
  predicate PhaseNamed(s: State, p: Phase) {
    if p.Unlock? then
      p.hit.Some? ==> p.hit.value < |s.entries| && s.entries[p.hit.value].name == p.name
    else if p.TakeClose? || p.TakeUnlink? then
      p.id < |s.entries| && s.entries[p.id].name == p.victim
    else if p.LeaseLoad? || p.LeaseCas? then
      && p.id < |s.entries|
      && (p.lease.Request? ==> s.entries[p.id].name == p.lease.name)
      && (p.lease.Checkpoint? ==> AllKnown(s, p.lease.rest))
    else if p.DropDecrement? then
      && p.id < |s.entries|
      && (p.permits ==> p.resume.None?) && (p.resume.Some? ==> AllKnown(s, p.resume.value))
    else if p.CheckpointCollect? then AllKnown(s, p.found)
    else if p.CheckpointNext? then AllKnown(s, p.todo)
    else if p.CheckpointTest? || p.CheckpointRun? then p.id < |s.entries| && AllKnown(s, p.todo)
    else if p.DropTenant? || p.SpawnClose? || p.CleanClose? then p.id < |s.entries|
    else LeaseOf(p).Some? ==> LeaseOf(p).value < |s.entries|
  }

  predicate AllKnown(s: State, ids: seq<EntryId>) {
    forall i :: 0 <= i < |ids| ==> ids[i] < |s.entries|
  }

  ghost predicate Named(s: State) {
    && (forall n :: n in s.links ==> s.links[n] < |s.entries| && s.entries[s.links[n]].name == n)
    && (forall t :: t in s.tasks ==> PhaseNamed(s, s.tasks[t]))
  }

  // ---- one step, phase by phase ----

  // The change in what a task holds is exactly the effect on the registry, resource by resource.

  predicate SettlesLease(p: Phase, effect: Effect, q: Option<Phase>) {
    if effect.LeaseInc? then LeaseOf(p) == None && q.Some? && LeaseOf(q.value) == Some(effect.id)
    else if effect.LeaseDec? then LeaseOf(p) == Some(effect.id) && (q.Some? ==> LeaseOf(q.value) == None)
    else LeaseOf(p) == (if q.Some? then LeaseOf(q.value) else None)
  }

  predicate SettlesTenant(p: Phase, effect: Effect, q: Option<Phase>) {
    if effect.TakeTenant? then TenantOf(p) == None && q.Some? && TenantOf(q.value) == Some(effect.id)
    else if effect.FreeTenant? then TenantOf(p) == Some(effect.id) && (q.Some? ==> TenantOf(q.value) == None)
    else TenantOf(p) == (if q.Some? then TenantOf(q.value) else None)
  }

  predicate SettlesProcess(p: Phase, effect: Effect, q: Option<Phase>) {
    if effect.TakeProcess? then !HasProcess(p) && q.Some? && HasProcess(q.value)
    else if effect.FreeProcess? then HasProcess(p) && (q.Some? ==> !HasProcess(q.value))
    else HasProcess(p) == (q.Some? && HasProcess(q.value))
  }

  predicate SettlesClosing(p: Phase, effect: Effect, q: Option<Phase>) {
    if effect.CloseCas? then ClosingOf(p) == None && q.Some? && ClosingOf(q.value) == Some(effect.id)
    else if effect.Handoff? || effect.Close? then
      ClosingOf(p) == Some(effect.id) && (q.Some? ==> ClosingOf(q.value) == None)
    else ClosingOf(p) == (if q.Some? then ClosingOf(q.value) else None)
  }

  predicate SettlesMutex(p: Phase, effect: Effect, q: Option<Phase>) {
    if effect.TakeMutex? then !HasMutex(p) && q.Some? && HasMutex(q.value)
    else if effect.FreeMutex? then HasMutex(p) && (q.Some? ==> !HasMutex(q.value))
    else HasMutex(p) == (q.Some? && HasMutex(q.value))
  }

  predicate SettlesOpener(p: Phase, effect: Effect, q: Option<Phase>) {
    if effect.ClaimOpener? then OpenerOf(p) == None && q.Some? && OpenerOf(q.value) == Some(effect.id)
    else if effect.ReleaseOpener? || effect.PublishPools? then
      OpenerOf(p) == Some(effect.id) && (q.Some? ==> OpenerOf(q.value) == None)
    else OpenerOf(p) == (if q.Some? then OpenerOf(q.value) else None)
  }

  predicate Settles(p: Phase, effect: Effect, q: Option<Phase>) {
    && SettlesLease(p, effect, q) && SettlesTenant(p, effect, q) && SettlesProcess(p, effect, q)
    && SettlesClosing(p, effect, q) && SettlesMutex(p, effect, q) && SettlesOpener(p, effect, q)
  }

  /** What the code has checked, or knows from its own phase, when an effect happens. */
  predicate Guarded(s: State, p: Phase, effect: Effect) {
    match effect
    case Local => true
    case TakeMutex => s.admission.None?
    case FreeMutex => true
    case LeaseInc(id) => id < |s.entries| && s.entries[id].counter != CLOSED
    case LeaseDec(id) => id < |s.entries|
    case CloseCas(id) => id < |s.entries| && s.entries[id].counter == 0 && p.TakeClose? && p.id == id
    case TakeTenant(id) => id < |s.entries| && s.entries[id].tenantFree > 0
    case FreeTenant(id) => id < |s.entries|
    case TakeProcess => s.processFree > 0
    case FreeProcess => true
    case ClaimOpener(id) => id < |s.entries| && s.entries[id].pools.Unopened? && s.entries[id].opener.None?
    case ReleaseOpener(id) => id < |s.entries|
    case PublishPools(id) => id < |s.entries|
    case Link(name) => p.Insert? && p.name == name
    case Unlink(name) => p.TakeUnlink? && p.victim == name
    case UnlinkIf(id) => p == UnlinkFailed(id) && id < |s.entries|
    case Handoff(id) => id < |s.entries|
    case Close(id) => id < |s.entries|
  }

  lemma SlotSettlesHoldings(c: Config, s: State, p: Phase, effect: Effect, q: Option<Phase>)
    requires SlotStep(c, s, p, effect, q)
    ensures SettlesLease(p, effect, q) && SettlesTenant(p, effect, q) && SettlesProcess(p, effect, q)
  {
  }

  lemma SlotSettlesDuties(c: Config, s: State, p: Phase, effect: Effect, q: Option<Phase>)
    requires SlotStep(c, s, p, effect, q)
    ensures SettlesClosing(p, effect, q) && SettlesMutex(p, effect, q) && SettlesOpener(p, effect, q)
  {
  }

  lemma SlotSettlesGuard(c: Config, s: State, p: Phase, effect: Effect, q: Option<Phase>)
    requires SlotStep(c, s, p, effect, q) && PhaseNamed(s, p)
    ensures Guarded(s, p, effect)
    ensures q.Some? ==> !q.value.Holding? && !q.value.CheckpointRun?
  {
  }

  lemma SlotSettles(c: Config, s: State, p: Phase, effect: Effect, q: Option<Phase>)
    requires SlotStep(c, s, p, effect, q) && PhaseNamed(s, p)
    ensures Settles(p, effect, q) && Guarded(s, p, effect)
    ensures q.Some? ==> !q.value.Holding? && !q.value.CheckpointRun?
  {
    hide SlotStep, PhaseNamed, Guarded, SettlesLease, SettlesTenant, SettlesProcess, SettlesClosing, SettlesMutex,
      SettlesOpener;
    SlotSettlesHoldings(c, s, p, effect, q);
    SlotSettlesDuties(c, s, p, effect, q);
    SlotSettlesGuard(c, s, p, effect, q);
  }

  lemma TakeSettlesHoldings(c: Config, s: State, p: Phase, effect: Effect, q: Option<Phase>)
    requires TakeStep(c, s, p, effect, q)
    ensures SettlesLease(p, effect, q) && SettlesTenant(p, effect, q) && SettlesProcess(p, effect, q)
  {
  }

  lemma TakeSettlesDuties(c: Config, s: State, p: Phase, effect: Effect, q: Option<Phase>)
    requires TakeStep(c, s, p, effect, q)
    ensures SettlesClosing(p, effect, q) && SettlesMutex(p, effect, q) && SettlesOpener(p, effect, q)
  {
  }

  lemma TakeSettlesGuard(c: Config, s: State, p: Phase, effect: Effect, q: Option<Phase>)
    requires TakeStep(c, s, p, effect, q) && PhaseNamed(s, p)
    ensures Guarded(s, p, effect)
    ensures q.Some? ==> !q.value.Holding? && !q.value.CheckpointRun?
  {
  }

  lemma TakeSettles(c: Config, s: State, p: Phase, effect: Effect, q: Option<Phase>)
    requires TakeStep(c, s, p, effect, q) && PhaseNamed(s, p)
    ensures Settles(p, effect, q) && Guarded(s, p, effect)
    ensures q.Some? ==> !q.value.Holding? && !q.value.CheckpointRun?
  {
    hide TakeStep, PhaseNamed, Guarded, SettlesLease, SettlesTenant, SettlesProcess, SettlesClosing, SettlesMutex,
      SettlesOpener;
    TakeSettlesHoldings(c, s, p, effect, q);
    TakeSettlesDuties(c, s, p, effect, q);
    TakeSettlesGuard(c, s, p, effect, q);
  }

  lemma LeaseSettles(c: Config, s: State, p: Phase, effect: Effect, q: Option<Phase>)
    requires LeaseStep(c, s, p, effect, q) && PhaseNamed(s, p)
    ensures Settles(p, effect, q) && Guarded(s, p, effect)
    ensures q.Some? ==> !HasMutex(q.value)
    ensures q.Some? ==> !q.value.Holding? && !q.value.CheckpointRun?
  {
  }

  lemma AdmitSettles(c: Config, s: State, p: Phase, effect: Effect, q: Option<Phase>)
    requires AdmitStep(c, s, p, effect, q) && PhaseNamed(s, p)
    ensures Settles(p, effect, q) && Guarded(s, p, effect)
    ensures q.Some? ==> !HasMutex(q.value)
    ensures q.Some? && q.value.Holding? ==>
              q.value.id < |s.entries|
              && (effect == PublishPools(q.value.id) || (effect == Local && !s.entries[q.value.id].pools.Unopened?))
    ensures q.Some? ==> !q.value.CheckpointRun?
  {
  }

  lemma ReturnSettles(c: Config, s: State, p: Phase, effect: Effect, q: Option<Phase>)
    requires ReturnStep(c, s, p, effect, q) && PhaseNamed(s, p)
    ensures Settles(p, effect, q) && Guarded(s, p, effect)
    ensures q.Some? ==> !HasMutex(q.value)
    ensures q.Some? ==> !q.value.Holding? && !q.value.CheckpointRun?
  {
  }

  lemma CleanSettles(c: Config, s: State, p: Phase, effect: Effect, q: Option<Phase>)
    requires CleanStep(c, s, p, effect, q) && PhaseNamed(s, p)
    ensures Settles(p, effect, q) && Guarded(s, p, effect)
    ensures q.Some? ==> !HasMutex(q.value)
    ensures q.Some? ==> !q.value.Holding? && !q.value.CheckpointRun?
  {
  }

  lemma CheckpointSettles(c: Config, s: State, p: Phase, effect: Effect, q: Option<Phase>)
    requires CheckpointStep(c, s, p, effect, q) && PhaseNamed(s, p)
    ensures Settles(p, effect, q) && Guarded(s, p, effect)
    ensures q.Some? ==> !HasMutex(q.value)
    ensures q.Some? && q.value.CheckpointRun? ==>
              q.value.id < |s.entries| && effect == Local && !s.entries[q.value.id].pools.Unopened?
    ensures q.Some? ==> !q.value.Holding?
  {
  }

  lemma AbandonSettles(s: State, p: Phase, effect: Effect, q: Option<Phase>)
    requires Abandons(p, effect, q) && PhaseNamed(s, p)
    ensures Settles(p, effect, q) && Guarded(s, p, effect)
    ensures q.Some? ==> !HasMutex(q.value)
    ensures q.Some? ==> !q.value.Holding? && !q.value.CheckpointRun?
  {
  }

  /** Every step of every task settles what it takes and gives back, and has checked its guard. */
  lemma MovesSettle(c: Config, s: State, p: Phase, effect: Effect, q: Option<Phase>)
    requires Moves(c, s, p, effect, q) && PhaseNamed(s, p)
    ensures Settles(p, effect, q) && Guarded(s, p, effect)
  {
    hide SlotStep, TakeStep, LeaseStep, AdmitStep, ReturnStep, CleanStep, CheckpointStep, Abandons,
      Settles, Guarded, PhaseNamed;
    if SlotStep(c, s, p, effect, q) {
      SlotSettles(c, s, p, effect, q);
    } else if TakeStep(c, s, p, effect, q) {
      TakeSettles(c, s, p, effect, q);
    } else if LeaseStep(c, s, p, effect, q) {
      LeaseSettles(c, s, p, effect, q);
    } else if AdmitStep(c, s, p, effect, q) {
      AdmitSettles(c, s, p, effect, q);
    } else if ReturnStep(c, s, p, effect, q) {
      ReturnSettles(c, s, p, effect, q);
    } else if CleanStep(c, s, p, effect, q) {
      CleanSettles(c, s, p, effect, q);
    } else if CheckpointStep(c, s, p, effect, q) {
      CheckpointSettles(c, s, p, effect, q);
    } else {
      AbandonSettles(s, p, effect, q);
    }
  }

  // ---- how a step changes the counts ----

  function LeaseDelta(effect: Effect, id: EntryId): int {
    if effect == LeaseInc(id) then 1 else if effect == LeaseDec(id) then -1 else 0
  }

  function TenantDelta(effect: Effect, id: EntryId): int {
    if effect == TakeTenant(id) then 1 else if effect == FreeTenant(id) then -1 else 0
  }

  function ClosingDelta(effect: Effect, id: EntryId): int {
    if effect == CloseCas(id) then 1 else if effect == Handoff(id) || effect == Close(id) then -1 else 0
  }

  lemma LeasesAfterStep(s: State, t: TaskId, effect: Effect, q: Option<Phase>, s': State, id: EntryId)
    requires t in s.tasks && SettlesLease(s.tasks[t], effect, q) && s'.tasks == Put(s.tasks, t, q)
    ensures |Leases(s', id)| == |Leases(s, id)| + LeaseDelta(effect, id)
  {
    hide LeaseOf, TenantOf, ClosingOf;
    SelectPut(s.tasks, t, q, OnLease(id));
  }

  lemma TenantAfterStep(s: State, t: TaskId, effect: Effect, q: Option<Phase>, s': State, id: EntryId)
    requires t in s.tasks && SettlesTenant(s.tasks[t], effect, q) && s'.tasks == Put(s.tasks, t, q)
    ensures |TenantHolders(s', id)| == |TenantHolders(s, id)| + TenantDelta(effect, id)
  {
    hide LeaseOf, TenantOf, ClosingOf;
    SelectPut(s.tasks, t, q, OnTenant(id));
  }

  lemma ClosersAfterStep(s: State, t: TaskId, effect: Effect, q: Option<Phase>, s': State, id: EntryId)
    requires t in s.tasks && SettlesClosing(s.tasks[t], effect, q) && s'.tasks == Put(s.tasks, t, q)
    ensures |Closers(s', id)| == |Closers(s, id)| + ClosingDelta(effect, id)
  {
    hide LeaseOf, TenantOf, ClosingOf;
    SelectPut(s.tasks, t, q, OnClosing(id));
  }

  lemma ProcessAfterStep(s: State, t: TaskId, effect: Effect, q: Option<Phase>, s': State)
    requires t in s.tasks && SettlesProcess(s.tasks[t], effect, q) && s'.tasks == Put(s.tasks, t, q)
    ensures |ProcessHolders(s')| == |ProcessHolders(s)| + Bit(effect.TakeProcess?) - Bit(effect.FreeProcess?)
  {
    hide HasProcess;
    SelectPut(s.tasks, t, q, OnProcess());
  }

  /** A task that holds a lease is counted. */
  lemma HolderCounted(s: State, t: TaskId, id: EntryId)
    requires t in s.tasks && LeaseOf(s.tasks[t]) == Some(id)
    ensures t in Leases(s, id) && |Leases(s, id)| >= 1
  {
    RemoveOne(Leases(s, id), t);
  }

  /** No more leases are out than there are tasks. */
  lemma LeasesBounded(s: State, id: EntryId)
    ensures |Leases(s, id)| <= |s.tasks|
  {
    assert Leases(s, id) <= s.tasks.Keys;
    SubsetCardinality(Leases(s, id), s.tasks.Keys);
  }
}
