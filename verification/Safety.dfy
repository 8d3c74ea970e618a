/** The guarantees of the registry, stated for every state and every step of every run, with
    failed opens, admission timeouts and cancellation at every await. */
module Safety {
  import opened Prelude
  import opened Vocabulary
  import opened Protocol
  import opened Ledger
  import opened Conservation
  import opened Invariants
  import opened Runs

  ghost predicate InRun(c: Config, states: seq<State>, actions: seq<Action>, i: nat) {
    ValidConfig(c) && IsRun(c, states, actions) && i < |states|
  }

  /** The invariant, part by part, in the `i`-th state. */
  lemma StateFacts(c: Config, states: seq<State>, actions: seq<Action>, i: nat)
    requires InRun(c, states, actions, i)
    ensures Balanced(c, states[i]) && Named(states[i]) && MutexExact(states[i])
    ensures Roomy(c, states[i]) && PoolsExact(states[i])
  {
    hide Next, Balanced, Named, MutexExact, Roomy, PoolsExact;
    ReachableInv(c, states, actions, i);
  }

  /** What the `i`-th step knows, when it is a step of a task. */
  lemma StepFacts(c: Config, states: seq<State>, actions: seq<Action>, i: nat)
    requires InRun(c, states, actions, i) && i < |actions| && actions[i].Run?
    ensures var a := actions[i];
            && TaskStep(c, states[i], a.task, a.effect, a.next, states[i + 1])
            && Moves(c, states[i], states[i].tasks[a.task], a.effect, a.next)
  {
    hide Moves, TaskStep, Named, Balanced, MutexExact, Roomy, PoolsExact;
    StateFacts(c, states, actions, i);
    var a := actions[i];
    assert Next(c, states[i], a, states[i + 1]);
    RunIsTaskStep(c, states[i], a.task, a.effect, a.next, states[i + 1]);
  }

  // ---- lease counters ----

  /** A counter is the number of outstanding leases, or CLOSED with none outstanding. */
  lemma LeaseCounterExact(c: Config, states: seq<State>, actions: seq<Action>, i: nat, id: EntryId)
    requires InRun(c, states, actions, i) && id < |states[i].entries|
    ensures var x := states[i].entries[id];
            if x.counter == CLOSED then Leases(states[i], id) == {} else x.counter == |Leases(states[i], id)|
  {
    hide IsRun;
    StateFacts(c, states, actions, i);
    assert EntryBalanced(c, states[i], id);
  }

  /** A drop finds the lease it gives back: no counter at 0 or CLOSED is ever decremented. */
  lemma DropsOnlyLiveCounters(c: Config, states: seq<State>, actions: seq<Action>, i: nat)
    requires InRun(c, states, actions, i) && i < |actions|
    requires actions[i].Run? && actions[i].effect.LeaseDec?
    ensures var id := actions[i].effect.id;
            id < |states[i].entries| && 0 < states[i].entries[id].counter < CLOSED
  {
    hide IsRun, Moves;
    StateFacts(c, states, actions, i);
    StepFacts(c, states, actions, i);
    var a := actions[i];
    HolderCounted(states[i], a.task, a.effect.id);
    assert EntryBalanced(c, states[i], a.effect.id);
  }

  /** CLOSED is final in one step. */
  lemma ClosedStepStays(c: Config, s: State, a: Action, s': State, id: EntryId)
    requires Balanced(c, s) && Named(s) && Next(c, s, a, s')
    requires id < |s.entries| && s.entries[id].counter == CLOSED
    ensures id < |s'.entries| && s'.entries[id].counter == CLOSED
  {
    hide Moves, Named, Balanced, Apply;
    match a
    case Run(t, effect, q) =>
      RunIsTaskStep(c, s, t, effect, q, s');
      CounterAfterStep(c, s, t, effect, q, s', id);
    case Spawn(_, _) =>
    case Background(_) =>
  }

  /** An entry once CLOSED stays CLOSED and is never leased again, for the rest of the run. */
  lemma {:induction false} ClosedForever(
      c: Config, states: seq<State>, actions: seq<Action>, i: nat, j: nat, id: EntryId)
    requires InRun(c, states, actions, j) && i <= j
    requires id < |states[i].entries| && states[i].entries[id].counter == CLOSED
    ensures id < |states[j].entries| && states[j].entries[id].counter == CLOSED
    ensures Leases(states[j], id) == {}
    decreases j
  {
    hide Next, Balanced, Named, Leases;
    if i < j {
      ClosedForever(c, states, actions, i, j - 1, id);
      StateFacts(c, states, actions, j - 1);
      assert Next(c, states[j - 1], actions[j - 1], states[j]);
      ClosedStepStays(c, states[j - 1], actions[j - 1], states[j], id);
    }
    LeaseCounterExact(c, states, actions, j, id);
  }

  // ---- capacity ----

  /** The map never holds more than `maxOpen` names. */
  lemma CapacityHolds(c: Config, states: seq<State>, actions: seq<Action>, i: nat)
    requires InRun(c, states, actions, i)
    ensures |states[i].links| <= c.maxOpen
  {
    hide IsRun;
    StateFacts(c, states, actions, i);
    assert |states[i].links| == |states[i].links.Keys|;
  }

  /** Every eviction under the mutex is the first of its admission, and afterwards there is room:
      the capacity loop never starts a second scan and never runs out of attempts. */
  lemma OneEvictionSuffices(c: Config, states: seq<State>, actions: seq<Action>, i: nat)
    requires InRun(c, states, actions, i) && i < |actions| && actions[i].Run?
    requires actions[i].task in states[i].tasks
    ensures var p := states[i].tasks[actions[i].task];
            && (p.Measure? ==> actions[i].next.Some? && !actions[i].next.value.Unlock?)
            && (p.Measure? && p.attempts > 0 ==> !actions[i].next.value.Scan?)
            && (p.Scan? ==> p.attempts == 1)
            && (p.TakeUnlink? && p.take.Eviction? ==> p.take.attempts == 1)
  {
    hide IsRun, TaskStep, Named, Balanced, MutexExact, PoolsExact;
    StateFacts(c, states, actions, i);
    StepFacts(c, states, actions, i);
    var a, s := actions[i], states[i];
    var p := s.tasks[a.task];
    assert AdmissionFact(c, s.links.Keys, p);
    if p.Measure? {
      MeasureStepIsSlotStep(c, s, p, a.effect, a.next);
      MeasureKeepsFact(c, s, p, a.effect, a.next);
    }
  }

  lemma MeasureStepIsSlotStep(c: Config, s: State, p: Phase, effect: Effect, q: Option<Phase>)
    requires p.Measure? && Moves(c, s, p, effect, q)
    ensures SlotStep(c, s, p, effect, q)
    ensures q.Some? && q.value.Scan? ==> q.value.attempts == p.attempts + 1
    ensures effect == Local
  {
  }

  /** `slot` answers CapacityBusy only where `evict_oldest_idle` returned false: the scan found no
      idle entry, or the one candidate was gone or leased by the time it was taken. */
  lemma SlotFailsOnlyWithoutVictim(c: Config, states: seq<State>, actions: seq<Action>, i: nat, n: Name, r: nat)
    requires InRun(c, states, actions, i) && i < |actions| && actions[i].Run?
    requires actions[i].task in states[i].tasks && actions[i].next == Some(Unlock(n, r, None))
    ensures var s, p := states[i], states[i].tasks[actions[i].task];
            || (p.Scan? && p.candidate.None?)
            || (p.TakeGet? && p.take.Eviction? && p.victim !in s.links)
            || (p.TakeClose? && p.take.Eviction? && p.id < |s.entries| && s.entries[p.id].counter != 0)
  {
    hide IsRun, TaskStep, Balanced, MutexExact, PoolsExact, Roomy;
    StateFacts(c, states, actions, i);
    StepFacts(c, states, actions, i);
    OneEvictionSuffices(c, states, actions, i);
    var a, s := actions[i], states[i];
    FailedUnlock(c, s, s.tasks[a.task], a.effect, n, r);
  }

  lemma FailedUnlock(c: Config, s: State, p: Phase, effect: Effect, n: Name, r: nat)
    requires Moves(c, s, p, effect, Some(Unlock(n, r, None))) && PhaseNamed(s, p) && !p.Measure?
    ensures || (p.Scan? && p.candidate.None?)
            || (p.TakeGet? && p.take.Eviction? && p.victim !in s.links)
            || (p.TakeClose? && p.take.Eviction? && p.id < |s.entries| && s.entries[p.id].counter != 0)
  {
    hide SlotStep, TakeStep, Moves, PhaseNamed;
    var q := Some(Unlock(n, r, None));
    if SlotStep(c, s, p, effect, q) {
      SlotFindsEntry(c, s, p, effect, n, r);
    } else if TakeStep(c, s, p, effect, q) {
      TakeFindsNone(c, s, p, effect, n, r);
    } else {
      OtherStepsWithoutMutex(c, s, p, effect, q);
    }
  }

  lemma SlotFindsEntry(c: Config, s: State, p: Phase, effect: Effect, n: Name, r: nat)
    requires SlotStep(c, s, p, effect, Some(Unlock(n, r, None)))
    ensures p.Measure?
  {
  }

  lemma TakeFindsNone(c: Config, s: State, p: Phase, effect: Effect, n: Name, r: nat)
    requires TakeStep(c, s, p, effect, Some(Unlock(n, r, None))) && PhaseNamed(s, p)
    ensures || (p.Scan? && p.candidate.None?)
            || (p.TakeGet? && p.take.Eviction? && p.victim !in s.links)
            || (p.TakeClose? && p.take.Eviction? && p.id < |s.entries| && s.entries[p.id].counter != 0)
  {
  }

  // ---- what a failed scan has seen ----

  /** In step `k` the scan of task `t` reads the entry of `v`, finds its counter not zero and skips it. */
  ghost predicate SkipsLeased(states: seq<State>, actions: seq<Action>, k: nat, t: TaskId, v: Name)
    requires |states| == |actions| + 1
  {
    && k < |actions| && actions[k].Run? && actions[k].task == t
    && t in states[k].tasks && states[k].tasks[t].Scan?
    && Visits(states[k], states[k].tasks[t], v, actions[k].next)
    && At(states[k], states[k].links[v]).counter != 0
  }

  /** A scan starts from nothing, and grows by one entry in every step. */
  lemma EntersScan(c: Config, s: State, p: Phase, effect: Effect, q: Option<Phase>)
    requires Moves(c, s, p, effect, q) && PhaseNamed(s, p) && q.Some? && q.value.Scan?
    ensures if p.Scan? then exists v :: Visits(s, p, v, q) else q.value.visited == {}
  {
    hide SlotStep, TakeStep, Moves, PhaseNamed, Visits;
    if SlotStep(c, s, p, effect, q) {
      SlotEntersScan(c, s, p, effect, q);
    } else if TakeStep(c, s, p, effect, q) {
      TakeEntersScan(c, s, p, effect, q);
    } else {
      OtherStepsWithoutMutex(c, s, p, effect, q);
    }
  }

  lemma SlotEntersScan(c: Config, s: State, p: Phase, effect: Effect, q: Option<Phase>)
    requires SlotStep(c, s, p, effect, q) && q.Some? && q.value.Scan?
    ensures !p.Scan? && q.value.visited == {}
  {
  }

  lemma TakeEntersScan(c: Config, s: State, p: Phase, effect: Effect, q: Option<Phase>)
    requires TakeStep(c, s, p, effect, q) && q.Some? && q.value.Scan?
    ensures p.Scan? && exists v :: Visits(s, p, v, q)
  {
  }

  /** While a scan has no candidate, it has found every entry it passed leased or closing. */
  lemma {:induction false} PassedEntriesWereLeased(
      c: Config, states: seq<State>, actions: seq<Action>, i: nat, t: TaskId, v: Name) returns (k: nat)
    requires InRun(c, states, actions, i) && t in states[i].tasks
    requires states[i].tasks[t].Scan? && states[i].tasks[t].candidate.None? && v in states[i].tasks[t].visited
    ensures k < i && SkipsLeased(states, actions, k, t, v)
    ensures forall j :: k <= j <= i ==> t in states[j].tasks && states[j].tasks[t].Scan?
    decreases i
  {
    hide Moves, TaskStep, Named, Balanced, MutexExact, Roomy, PoolsExact, SkipsLeased;
    assert i > 0;
    var s, a := states[i - 1], actions[i - 1];
    assert Next(c, s, a, states[i]);
    if a.Run? && a.task == t {
      StateFacts(c, states, actions, i - 1);
      assert PhaseNamed(s, s.tasks[t]) by { NamedPhase(s, t); }
      EntersScan(c, s, s.tasks[t], a.effect, a.next);
      var w :| Visits(s, s.tasks[t], w, a.next);
      if w == v {
        k := i - 1;
        assert SkipsLeased(states, actions, k, t, v) by { VisitSkips(states, actions, k, t, v); }
        return;
      }
    }
    k := PassedEntriesWereLeased(c, states, actions, i - 1, t, v);
  }

  lemma NamedPhase(s: State, t: TaskId)
    requires Named(s) && t in s.tasks
    ensures PhaseNamed(s, s.tasks[t])
  {
  }

  lemma VisitSkips(states: seq<State>, actions: seq<Action>, k: nat, t: TaskId, v: Name)
    requires |states| == |actions| + 1 && k < |actions| && actions[k].Run? && actions[k].task == t
    requires t in states[k].tasks && states[k].tasks[t].Scan?
    requires Visits(states[k], states[k].tasks[t], v, actions[k].next) && actions[k].next.value.candidate.None?
    ensures SkipsLeased(states, actions, k, t, v)
  {
  }

  /** When a scan ends without a candidate and the request is answered CapacityBusy, every entry still
      in the map was found leased or closing by that very scan. */
  lemma BusyScanSawEachEntryLeased(
      c: Config, states: seq<State>, actions: seq<Action>, i: nat, t: TaskId, n: Name, r: nat, v: Name)
    returns (k: nat)
    requires InRun(c, states, actions, i) && i < |actions|
    requires t in states[i].tasks && states[i].tasks[t].Scan?
    requires actions[i].Run? && actions[i].task == t && actions[i].next == Some(Unlock(n, r, None))
    requires v in states[i].links
    ensures k < i && SkipsLeased(states, actions, k, t, v)
    ensures forall j :: k <= j <= i ==> t in states[j].tasks && states[j].tasks[t].Scan?
  {
    hide IsRun, Named, Balanced, MutexExact, Roomy, PoolsExact, SkipsLeased, TaskStep;
    StateFacts(c, states, actions, i);
    StepFacts(c, states, actions, i);
    NamedPhase(states[i], t);
    ScanGivesUp(c, states[i], states[i].tasks[t], actions[i].effect, n, r);
    k := PassedEntriesWereLeased(c, states, actions, i, t, v);
  }

  lemma ScanGivesUp(c: Config, s: State, p: Phase, effect: Effect, n: Name, r: nat)
    requires Moves(c, s, p, effect, Some(Unlock(n, r, None))) && PhaseNamed(s, p) && p.Scan?
    ensures p.candidate.None? && s.links.Keys <= p.visited
  {
    hide SlotStep, Moves, PhaseNamed;
    var q := Some(Unlock(n, r, None));
    if SlotStep(c, s, p, effect, q) {
      SlotFindsEntry(c, s, p, effect, n, r);
    } else if !TakeStep(c, s, p, effect, q) {
      OtherStepsWithoutMutex(c, s, p, effect, q);
    }
  }

  // ---- pools ----

  /** A lease in use, by a request or by a checkpoint, finds its pools initialised and not closed. */
  lemma NoUseAfterClose(c: Config, states: seq<State>, actions: seq<Action>, i: nat, t: TaskId, id: EntryId)
    requires InRun(c, states, actions, i) && t in states[i].tasks && UsesPools(states[i].tasks[t], id)
    ensures id < |states[i].entries|
    ensures states[i].entries[id].pools == Opened && states[i].entries[id].closeRuns == 0
  {
    hide IsRun, Roomy, MutexExact, Balanced, Named, PoolsExact, UsesPools;
    StateFacts(c, states, actions, i);
    UserFindsPoolsOpen(c, states[i], t, id);
  }

  lemma UserFindsPoolsOpen(c: Config, s: State, t: TaskId, id: EntryId)
    requires Balanced(c, s) && Named(s) && PoolsExact(s)
    requires t in s.tasks && UsesPools(s.tasks[t], id)
    ensures id < |s.entries| && s.entries[id].pools == Opened && s.entries[id].closeRuns == 0
  {
    assert PhaseNamed(s, s.tasks[t]);
    HolderCounted(s, t, id);
    assert EntryBalanced(c, s, id) && PoolsSane(s, id);
  }

  /** `close_entry` runs at most once for an entry, and a CLOSED entry has exactly one run of it,
      past or still due, so no closed entry is forgotten. */
  lemma EveryClosedEntryIsClosedOnce(c: Config, states: seq<State>, actions: seq<Action>, i: nat, id: EntryId)
    requires InRun(c, states, actions, i) && id < |states[i].entries|
    ensures var x := states[i].entries[id];
            && x.closeRuns <= 1
            && (x.counter != CLOSED ==> x.closeRuns == 0)
            && (x.counter == CLOSED && x.closeRuns == 0 ==>
                  states[i].closers[id] + |Closers(states[i], id)| == 1)
  {
    hide IsRun;
    StateFacts(c, states, actions, i);
    assert EntryBalanced(c, states[i], id);
  }

  /** No lease is outstanding when `close_entry` runs, in the background or in the idle cleanup. */
  lemma CloseRunsUnleased(c: Config, states: seq<State>, actions: seq<Action>, i: nat, id: EntryId)
    requires InRun(c, states, actions, i) && i < |actions|
    requires actions[i] == Background(id) || (actions[i].Run? && actions[i].effect == Close(id))
    ensures id < |states[i].entries| && states[i].entries[id].counter == CLOSED
    ensures Leases(states[i], id) == {} && states[i].entries[id].closeRuns == 0
    ensures id < |states[i + 1].entries|
    ensures states[i + 1].entries[id].closeRuns == 1 && !states[i + 1].entries[id].pools.Opened?
  {
    hide Moves, Balanced, Named, Roomy, MutexExact, PoolsExact, PhaseNamed, SettlesLease, SettlesTenant, SettlesProcess,
      SettlesMutex, SettlesOpener;
    StateFacts(c, states, actions, i);
    var a, s := actions[i], states[i];
    if a.Run? {
      StepFacts(c, states, actions, i);
    } else {
      assert Next(c, s, a, states[i + 1]);
    }
    DueCloseFindsNoLease(c, s, if a.Run? then Some(a.task) else None, id);
    assert states[i + 1].entries[id] == Closed(s.entries[id]);
  }

  lemma DueCloseFindsNoLease(c: Config, s: State, closer: Option<TaskId>, id: EntryId)
    requires Balanced(c, s) && (closer.None? ==> s.closers[id] > 0)
    requires closer.Some? ==> closer.value in s.tasks && ClosingOf(s.tasks[closer.value]) == Some(id)
    requires id < |s.entries| || s.closers[id] > 0
    ensures id < |s.entries| && s.entries[id].counter == CLOSED
    ensures Leases(s, id) == {} && s.entries[id].closeRuns == 0
  {
    hide ClosingOf, LeaseOf;
    if closer.Some? {
      RemoveOne(Closers(s, id), closer.value);
    }
    assert EntryBalanced(c, s, id);
  }

  // ---- permits ----

  /** Free and held permits always add up, for the process and for every entry. */
  lemma PermitsConserved(c: Config, states: seq<State>, actions: seq<Action>, i: nat, id: EntryId)
    requires InRun(c, states, actions, i) && id < |states[i].entries|
    ensures states[i].processFree + |ProcessHolders(states[i])| == c.maxRequests
    ensures states[i].entries[id].tenantFree + |TenantHolders(states[i], id)| == c.perDatabase
  {
    hide IsRun;
    StateFacts(c, states, actions, i);
    assert EntryBalanced(c, states[i], id);
  }

  /** Whatever happened on the way, once every task has ended everything has been given back. */
  lemma QuiescenceRestoresEverything(c: Config, states: seq<State>, actions: seq<Action>, i: nat, id: EntryId)
    requires InRun(c, states, actions, i) && states[i].tasks == map[]
    ensures states[i].processFree == c.maxRequests && states[i].admission == None
    ensures id < |states[i].entries| ==>
              var x := states[i].entries[id];
              x.tenantFree == c.perDatabase && x.opener == None && (x.counter == 0 || x.counter == CLOSED)
  {
    hide IsRun;
    StateFacts(c, states, actions, i);
    var s := states[i];
    assert ProcessHolders(s) == {} && Leases(s, id) == {} && TenantHolders(s, id) == {};
    assert forall t: TaskId :: s.admission != Some(t);
    if id < |s.entries| {
      assert EntryBalanced(c, s, id) && PoolsSane(s, id);
      assert forall t: TaskId :: s.entries[id].opener != Some(t);
    }
  }

  /** The leases handed out and not yet dropped. */
  function HandedOut(): Phase -> bool { (p: Phase) => p.Holding? }
  function HandedOutOn(id: EntryId): Phase -> bool { (p: Phase) => p.Holding? && p.id == id }

  /** No more leases are handed out than the process and the entry admit. */
  lemma AdmissionBounds(c: Config, states: seq<State>, actions: seq<Action>, i: nat, id: EntryId)
    requires InRun(c, states, actions, i)
    ensures |Select(states[i].tasks, HandedOut())| <= c.maxRequests
    ensures |Select(states[i].tasks, HandedOutOn(id))| <= c.perDatabase
  {
    hide IsRun;
    StateFacts(c, states, actions, i);
    var s := states[i];
    SubsetCardinality(Select(s.tasks, HandedOut()), ProcessHolders(s));
    assert Select(s.tasks, HandedOutOn(id)) <= TenantHolders(s, id);
    SubsetCardinality(Select(s.tasks, HandedOutOn(id)), TenantHolders(s, id));
    if id < |s.entries| {
      assert EntryBalanced(c, s, id);
    } else {
      NothingHeldOfNewEntry(s, id);
    }
  }
}
