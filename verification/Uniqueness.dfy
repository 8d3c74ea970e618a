/** One leasable entry per name, exactly as far as the code keeps it.

    A failed open unlinks its entry by pointer while others may hold it or have looked it up, and
    `take` unlinks by name.  So the property needs runs in which no open fails, and the main result
    here says that this is the exact condition. */
module Uniqueness {
  import opened Prelude
  import opened Vocabulary
  import opened Protocol
  import opened Ledger
  import opened Conservation
  import opened Invariants
  import opened Runs
  import opened Safety

  /** The step that unlinks an entry after its open failed. */
  predicate FailsOpen(a: Action) {
    a.Run? && a.effect.UnlinkIf?
  }

  predicate Linked(s: State, id: EntryId)
    requires id < |s.entries|
  {
    s.entries[id].name in s.links && s.links[s.entries[id].name] == id
  }

  /** Every entry that can still be leased is the one the map holds under its name. */
  predicate AbsentClosed(s: State) {
    forall id: EntryId :: id < |s.entries| && s.entries[id].counter != CLOSED ==> Linked(s, id)
  }

  /** Between its `begin_close` and its `remove(name)` a taker still finds its own entry there. */
  predicate UnlinksOwn(s: State) {
    forall t :: t in s.tasks && s.tasks[t].TakeUnlink? ==>
      s.tasks[t].victim in s.links && s.links[s.tasks[t].victim] == s.tasks[t].id
  }

  // ---- one step ----

  lemma EntersUnlink(c: Config, s: State, p: Phase, effect: Effect, q: Option<Phase>)
    requires Moves(c, s, p, effect, q) && Settles(p, effect, q) && Guarded(s, p, effect)
    requires q.Some? && q.value.TakeUnlink?
    ensures p.TakeClose? && effect == CloseCas(p.id) && q.value.id == p.id && q.value.victim == p.victim
  {
    hide SettlesLease, SettlesTenant, SettlesProcess, SettlesMutex, SettlesOpener;
    assert p.TakeClose? || p.TakeUnlink? || p.SpawnClose? || p.CleanClose?;
  }

  /** Two tasks never close the same entry. */
  lemma OneCloser(c: Config, s: State, t: TaskId, u: TaskId, id: EntryId)
    requires Balanced(c, s) && id < |s.entries|
    requires t in s.tasks && ClosingOf(s.tasks[t]) == Some(id)
    requires u in s.tasks && ClosingOf(s.tasks[u]) == Some(id)
    ensures t == u && s.entries[id].counter == CLOSED
  {
    hide ClosingOf;
    assert EntryBalanced(c, s, id);
    RemoveOne(Closers(s, id), t);
    if t != u {
      RemoveOne(Closers(s, id) - {t}, u);
    }
  }

  lemma LinksAfterStep(c: Config, s: State, t: TaskId, effect: Effect, q: Option<Phase>, s': State)
    requires TaskStep(c, s, t, effect, q, s') && !effect.UnlinkIf?
    ensures s'.links == if effect.Link? then s.links[effect.name := |s.entries|]
                        else if effect.Unlink? then s.links - {effect.name} else s.links
  {
    hide Settles, Update, PhaseNamed;
  }

  /** `take` unlinks the name of the entry it closed. */
  lemma UnlinkedWasClosed(c: Config, s: State, t: TaskId, effect: Effect, q: Option<Phase>, s': State)
    requires Balanced(c, s) && UnlinksOwn(s) && TaskStep(c, s, t, effect, q, s') && effect.Unlink?
    ensures effect.name in s.links && s.links[effect.name] < |s.entries|
    ensures s.links[effect.name] == s.tasks[t].id && s.entries[s.links[effect.name]].counter == CLOSED
  {
    hide Settles, Balanced, Apply;
    OneCloser(c, s, t, t, s.tasks[t].id);
  }

  lemma LinkedAfterStep(c: Config, s: State, t: TaskId, effect: Effect, q: Option<Phase>, s': State, id: EntryId)
    requires Balanced(c, s) && Roomy(c, s) && AbsentClosed(s) && UnlinksOwn(s)
    requires TaskStep(c, s, t, effect, q, s') && !effect.UnlinkIf?
    requires id < |s'.entries| && s'.entries[id].counter != CLOSED
    ensures Linked(s', id)
  {
    hide TaskStep, Balanced, Roomy, UnlinksOwn;
    EntriesAfterStep(c, s, t, effect, q, s');
    LinksAfterStep(c, s, t, effect, q, s');
    if id < |s.entries| {
      CounterAfterStep(c, s, t, effect, q, s', id);
      assert Linked(s, id);
      if effect.Unlink? {
        UnlinkedWasClosed(c, s, t, effect, q, s');
      } else if effect.Link? {
        LinkFact(c, s, t, effect, q, s');
      }
    }
  }

  lemma EntriesAfterStep(c: Config, s: State, t: TaskId, effect: Effect, q: Option<Phase>, s': State)
    requires TaskStep(c, s, t, effect, q, s')
    ensures Grows(s, s') && |s'.entries| == |s.entries| + Bit(effect.Link?)
    ensures effect.Link? ==> s'.entries[|s.entries|].name == effect.name
  {
    hide Settles, Apply, PhaseNamed, Guarded;
    StepGrows(c, s, t, effect, s');
    NewEntryAfterStep(c, s, t, effect, s');
  }

  /** A new entry is inserted under a name that is not resident. */
  lemma LinkFact(c: Config, s: State, t: TaskId, effect: Effect, q: Option<Phase>, s': State)
    requires Roomy(c, s) && TaskStep(c, s, t, effect, q, s') && effect.Link?
    ensures effect.name !in s.links && |s.links| < c.maxOpen
  {
    hide Settles, Apply, PhaseNamed, AdmissionFact;
    InsertFact(c, s, s.tasks[t]);
  }

  lemma InsertFact(c: Config, s: State, p: Phase)
    requires AdmissionFact(c, s.links.Keys, p) && p.Insert?
    ensures p.name !in s.links && |s.links| < c.maxOpen
  {
    assert |s.links| == |s.links.Keys|;
  }

  lemma UnlinksOwnAfterStep(c: Config, s: State, t: TaskId, effect: Effect, q: Option<Phase>, s': State, u: TaskId)
    requires Balanced(c, s) && Roomy(c, s) && AbsentClosed(s) && UnlinksOwn(s)
    requires TaskStep(c, s, t, effect, q, s') && Moves(c, s, s.tasks[t], effect, q) && !effect.UnlinkIf?
    requires u in s'.tasks && s'.tasks[u].TakeUnlink?
    ensures s'.tasks[u].victim in s'.links && s'.links[s'.tasks[u].victim] == s'.tasks[u].id
  {
    hide Apply, Settles, Balanced, Moves, Roomy;
    LinksAfterStep(c, s, t, effect, q, s');
    if u == t {
      EntersUnlink(c, s, s.tasks[t], effect, q);
      assert Linked(s, s.tasks[t].id);
    } else {
      OtherUnlinkStays(c, s, t, effect, q, s', u);
    }
  }

  lemma OtherUnlinkStays(c: Config, s: State, t: TaskId, effect: Effect, q: Option<Phase>, s': State, u: TaskId)
    requires Balanced(c, s) && Roomy(c, s) && UnlinksOwn(s) && TaskStep(c, s, t, effect, q, s')
    requires u != t && u in s.tasks && s.tasks[u].TakeUnlink? && !effect.UnlinkIf?
    ensures u in s'.tasks && s'.tasks[u] == s.tasks[u]
    ensures s.tasks[u].victim in s'.links && s'.links[s.tasks[u].victim] == s.tasks[u].id
  {
    hide Apply, Settles, Balanced, PhaseNamed, Roomy;
    LinksAfterStep(c, s, t, effect, q, s');
    if effect.Unlink? && effect.name == s.tasks[u].victim {
      UnlinkedWasClosed(c, s, t, effect, q, s');
      OneCloser(c, s, t, u, s.tasks[u].id);
    } else if effect.Link? {
      LinkFact(c, s, t, effect, q, s');
    }
  }

  lemma UniqueAfterStep(c: Config, s: State, a: Action, s': State)
    requires Balanced(c, s) && Named(s) && Roomy(c, s) && AbsentClosed(s) && UnlinksOwn(s)
    requires Next(c, s, a, s') && !FailsOpen(a)
    ensures AbsentClosed(s') && UnlinksOwn(s')
  {
    hide Moves, Balanced, Named, Roomy, Apply, TaskStep, Linked;
    match a
    case Run(t, effect, q) =>
      RunIsTaskStep(c, s, t, effect, q, s');
      forall id: EntryId | id < |s'.entries| && s'.entries[id].counter != CLOSED
        ensures Linked(s', id)
      {
        LinkedAfterStep(c, s, t, effect, q, s', id);
      }
      forall u | u in s'.tasks && s'.tasks[u].TakeUnlink?
        ensures s'.tasks[u].victim in s'.links && s'.links[s'.tasks[u].victim] == s'.tasks[u].id
      {
        UnlinksOwnAfterStep(c, s, t, effect, q, s', u);
      }
    case Spawn(_, _) => SameLinks(s, s');
    case Background(_) => SameLinks(s, s');
  }

  lemma SameLinks(s: State, s': State)
    requires AbsentClosed(s) && s'.links == s.links && |s'.entries| == |s.entries|
    requires forall id: EntryId :: id < |s.entries| ==>
               s'.entries[id].name == s.entries[id].name && s'.entries[id].counter == s.entries[id].counter
    ensures AbsentClosed(s')
  {
    forall id: EntryId | id < |s'.entries| && s'.entries[id].counter != CLOSED
      ensures Linked(s', id)
    {
      assert Linked(s, id);
    }
  }

  // ---- whole runs ----

  lemma {:induction false} UniqueUpTo(c: Config, states: seq<State>, actions: seq<Action>, i: nat)
    requires InRun(c, states, actions, i)
    requires forall k {:trigger actions[k]} :: 0 <= k < i ==> !FailsOpen(actions[k])
    ensures AbsentClosed(states[i]) && UnlinksOwn(states[i])
  {
    hide Next, AbsentClosed, UnlinksOwn;
    if i == 0 {
      assert AbsentClosed(Init(c)) && UnlinksOwn(Init(c)) by { hide *; InitUnique(c); }
    } else {
      UniqueUpTo(c, states, actions, i - 1);
      StateFacts(c, states, actions, i - 1);
      assert Next(c, states[i - 1], actions[i - 1], states[i]);
      UniqueAfterStep(c, states[i - 1], actions[i - 1], states[i]);
    }
  }

  lemma InitUnique(c: Config)
    ensures AbsentClosed(Init(c)) && UnlinksOwn(Init(c))
  {
  }

  /** An unlink after a failed open always leaves its entry unclosed and absent from the map. */
  lemma FailedOpenOrphans(c: Config, states: seq<State>, actions: seq<Action>, i: nat)
    requires InRun(c, states, actions, i) && i < |actions| && FailsOpen(actions[i])
    ensures var s', id := states[i + 1], actions[i].effect.id;
            id < |s'.entries| && s'.entries[id].counter != CLOSED && !Linked(s', id)
  {
    hide Next, Moves, Roomy, MutexExact, PoolsExact, Settles;
    StateFacts(c, states, actions, i);
    StepFacts(c, states, actions, i);
    var s, a, s' := states[i], actions[i], states[i + 1];
    var id := a.effect.id;
    HolderCounted(s, a.task, id);
    assert EntryBalanced(c, s, id);
    EntryAfterStep(c, s, a.task, a.effect, s', id);
  }

  /** In every state of a run each entry missing from the map is CLOSED, if and only if no open of
      the run fails. */
  lemma AbsentEntriesAreClosedIffNoOpenFails(c: Config, states: seq<State>, actions: seq<Action>)
    requires ValidConfig(c) && IsRun(c, states, actions)
    ensures (forall i {:trigger states[i]} :: 0 <= i < |states| ==> AbsentClosed(states[i]))
            <==> (forall k {:trigger actions[k]} :: 0 <= k < |actions| ==> !FailsOpen(actions[k]))
  {
    hide IsRun, AbsentClosed;
    assert |states| == |actions| + 1 by { RunLength(c, states, actions); }
    if forall k {:trigger actions[k]} :: 0 <= k < |actions| ==> !FailsOpen(actions[k]) {
      forall i | 0 <= i < |states|
        ensures AbsentClosed(states[i])
      {
        UniqueUpTo(c, states, actions, i);
      }
    } else {
      var k :| 0 <= k < |actions| && FailsOpen(actions[k]);
      FailedOpenOrphans(c, states, actions, k);
      assert !AbsentClosed(states[k + 1]) by { OrphanIsNotClosed(states[k + 1], actions[k].effect.id); }
    }
  }

  lemma OrphanIsNotClosed(s: State, id: EntryId)
    requires id < |s.entries| && s.entries[id].counter != CLOSED && !Linked(s, id)
    ensures !AbsentClosed(s)
  {
  }

  lemma RunLength(c: Config, states: seq<State>, actions: seq<Action>)
    requires IsRun(c, states, actions)
    ensures |states| == |actions| + 1
  {
  }

  /** Without failed opens each name has at most one leasable entry. */
  lemma OneLeasableEntryPerName(
      c: Config, states: seq<State>, actions: seq<Action>, i: nat, id: EntryId, other: EntryId)
    requires InRun(c, states, actions, i)
    requires forall k {:trigger actions[k]} :: 0 <= k < i ==> !FailsOpen(actions[k])
    requires id < |states[i].entries| && other < |states[i].entries|
    requires states[i].entries[id].counter != CLOSED && states[i].entries[other].counter != CLOSED
    requires states[i].entries[id].name == states[i].entries[other].name
    ensures id == other
  {
    hide IsRun;
    UniqueUpTo(c, states, actions, i);
    assert Linked(states[i], id) && Linked(states[i], other);
  }

  /** Without failed opens, removal by name unlinks exactly the entry that was closed, and no other. */
  lemma TakeUnlinksWhatItClosed(c: Config, states: seq<State>, actions: seq<Action>, i: nat)
    requires InRun(c, states, actions, i) && i < |actions|
    requires forall k {:trigger actions[k]} :: 0 <= k < i ==> !FailsOpen(actions[k])
    requires actions[i].Run? && actions[i].effect.Unlink?
    ensures var s, s', v := states[i], states[i + 1], actions[i].effect.name;
            && actions[i].task in s.tasks && v in s.links && s.links[v] < |s.entries|
            && ClosingOf(s.tasks[actions[i].task]) == Some(s.links[v])
            && s.entries[s.links[v]].counter == CLOSED
            && s'.links == s.links - {v}
  {
    hide IsRun, Moves, MutexExact, PoolsExact, Settles, Roomy, Apply, Balanced, UnlinksOwn;
    RunLength(c, states, actions);
    UniqueUpTo(c, states, actions, i);
    StateFacts(c, states, actions, i);
    StepFacts(c, states, actions, i);
    var s, a, s' := states[i], actions[i], states[i + 1];
    UnlinkedWasClosed(c, s, a.task, a.effect, a.next, s');
    LinksAfterStep(c, s, a.task, a.effect, a.next, s');
  }

  /** The leases handed out on any entry of a name. */
  function HandedOutUnder(entries: seq<Entry>, n: Name): Phase -> bool {
    (p: Phase) => p.Holding? && p.id < |entries| && entries[p.id].name == n
  }

  /** Without failed opens the per-database bound holds per name, across evictions and re-creations. */
  lemma NameBound(c: Config, states: seq<State>, actions: seq<Action>, i: nat, n: Name)
    requires InRun(c, states, actions, i)
    requires forall k {:trigger actions[k]} :: 0 <= k < i ==> !FailsOpen(actions[k])
    ensures |Select(states[i].tasks, HandedOutUnder(states[i].entries, n))| <= c.perDatabase
  {
    hide IsRun;
    UniqueUpTo(c, states, actions, i);
    StateFacts(c, states, actions, i);
    var s := states[i];
    var holders := Select(s.tasks, HandedOutUnder(s.entries, n));
    forall t | t in holders
      ensures n in s.links && s.tasks[t].id == s.links[n]
    {
      HolderCounted(s, t, s.tasks[t].id);
      assert EntryBalanced(c, s, s.tasks[t].id);
      assert Linked(s, s.tasks[t].id);
    }
    if n in s.links {
      assert holders <= Select(s.tasks, HandedOutOn(s.links[n]));
      SubsetCardinality(holders, Select(s.tasks, HandedOutOn(s.links[n])));
      AdmissionBounds(c, states, actions, i, s.links[n]);
    } else {
      assert holders == {};
    }
  }
}
