/** The registry, seen from outside: a bounded cache of names with pin counts. */
module PinnedCache {
  import opened Prelude
  import opened Vocabulary
  import opened Protocol
  import opened Ledger
  import opened Conservation
  import opened Invariants
  import opened Safety
  import opened Uniqueness

  type Cache = map<Name, nat>

  datatype CacheOp =
    | Admit(name: Name)
    | Pin(name: Name)
    | Unpin(name: Name)
    | Evict(name: Name)
    | Stutter

  /** What a bounded pinned cache may do: admit a new name while there is room, pin and unpin a
      resident name, and evict a resident name that nobody pins. */
  ghost predicate CacheStep(max: nat, m: Cache, op: CacheOp, m': Cache) {
    match op
    case Admit(n) => n !in m && |m| < max && m' == m[n := 0]
    case Pin(n) => n in m && m' == m[n := m[n] + 1]
    case Unpin(n) => n in m && m[n] > 0 && m' == m[n := m[n] - 1]
    case Evict(n) => n in m && m[n] == 0 && m' == m - {n}
    case Stutter => m' == m
  }

  /** The cache a state stands for: an entry that is CLOSED but still linked is already gone. */
  function View(s: State): Cache {
    map n | n in s.links && At(s, s.links[n]).counter != CLOSED :: At(s, s.links[n]).counter
  }

  /** The linearisation points are the insert, the lease exchange, the drop decrement and the close
      exchange; every other step stutters. */
  function OpOf(s: State, a: Action): CacheOp {
    if a.Run? then
      match a.effect
      case Link(n) => Admit(n)
      case LeaseInc(id) => Pin(At(s, id).name)
      case LeaseDec(id) => Unpin(At(s, id).name)
      case CloseCas(id) => Evict(At(s, id).name)
      case _ => Stutter
    else Stutter
  }

  /** A leasable entry is visible under its own name. */
  lemma Visible(s: State, id: EntryId)
    requires AbsentClosed(s) && id < |s.entries| && s.entries[id].counter != CLOSED
    ensures s.entries[id].name in View(s) && View(s)[s.entries[id].name] == s.entries[id].counter
  {
    assert Linked(s, id);
  }

  lemma LinksResolve(s: State, n: Name)
    requires Named(s) && n in s.links
    ensures s.links[n] < |s.entries| && s.entries[s.links[n]].name == n
  {
  }

  /** A new counter for the entry of a name shows at that name and nowhere else. */
  lemma ViewAfterUpdate(s: State, s': State, id: EntryId)
    requires Named(s) && id < |s.entries| && Linked(s, id)
    requires s'.links == s.links && |s'.entries| == |s.entries| && s'.entries[id].name == s.entries[id].name
    requires forall k: EntryId :: k < |s.entries| && k != id ==> s'.entries[k] == s.entries[k]
    ensures View(s') == if s'.entries[id].counter == CLOSED then View(s) - {s.entries[id].name}
                        else View(s)[s.entries[id].name := s'.entries[id].counter]
  {
    hide PhaseNamed;
    forall n | n in s.links && n != s.entries[id].name
      ensures At(s', s.links[n]) == At(s, s.links[n])
    {
      LinksResolve(s, n);
    }
  }

  lemma CounterStep(c: Config, s: State, t: TaskId, effect: Effect, q: Option<Phase>, s': State, id: EntryId)
    requires TaskStep(c, s, t, effect, q, s') && id < |s.entries|
    requires effect == LeaseInc(id) || effect == LeaseDec(id) || effect == CloseCas(id)
    ensures s'.links == s.links && |s'.entries| == |s.entries|
    ensures s'.entries == s.entries[id := Update(s.entries[id], t, effect)]
    ensures effect == CloseCas(id) ==> s.entries[id].counter == 0
  {
    hide Settles, PhaseNamed, Update;
  }

  /** An update of one entry's counter is the abstract operation on its name. */
  lemma CounterChangeShows(c: Config, s: State, t: TaskId, effect: Effect, q: Option<Phase>, s': State, id: EntryId)
    requires Balanced(c, s) && Named(s) && AbsentClosed(s)
    requires TaskStep(c, s, t, effect, q, s')
    requires effect == LeaseInc(id) || effect == LeaseDec(id) || effect == CloseCas(id)
    requires id < |s.entries| && s.entries[id].counter != CLOSED
    ensures CacheStep(c.maxOpen, View(s), OpOf(s, Run(t, effect, q)), View(s'))
  {
    hide TaskStep, Balanced, Named, View;
    Visible(s, id);
    CounterStep(c, s, t, effect, q, s', id);
    CounterAfterStep(c, s, t, effect, q, s', id);
    if effect == LeaseDec(id) {
      DecrementFindsLease(c, s, t, effect, q, s', id);
    }
    assert Linked(s, id);
    ViewAfterUpdate(s, s', id);
  }

  lemma DecrementFindsLease(c: Config, s: State, t: TaskId, effect: Effect, q: Option<Phase>, s': State, id: EntryId)
    requires Balanced(c, s) && TaskStep(c, s, t, effect, q, s')
    requires effect == LeaseDec(id) && id < |s.entries|
    ensures 0 < s.entries[id].counter < CLOSED
  {
    hide Apply, PhaseNamed, SettlesTenant, SettlesProcess, SettlesClosing, SettlesMutex, SettlesOpener;
    assert EntryBalanced(c, s, id);
    HolderCounted(s, t, id);
  }

  lemma ViewAfterLink(c: Config, s: State, s': State, name: Name)
    requires Named(s) && name !in s.links
    requires s'.links == s.links[name := |s.entries|] && s'.entries == s.entries + [NewEntry(c, name)]
    ensures View(s') == View(s)[name := 0]
  {
    hide PhaseNamed;
    forall n | n in s.links
      ensures At(s', s.links[n]) == At(s, s.links[n])
    {
      LinksResolve(s, n);
    }
  }

  /** The insert shows as an admission within the capacity. */
  lemma LinkShows(c: Config, s: State, t: TaskId, effect: Effect, q: Option<Phase>, s': State)
    requires Roomy(c, s) && Named(s) && TaskStep(c, s, t, effect, q, s') && effect.Link?
    ensures CacheStep(c.maxOpen, View(s), OpOf(s, Run(t, effect, q)), View(s'))
  {
    hide Settles, PhaseNamed, AdmissionFact, View, Named;
    InsertFact(c, s, s.tasks[t]);
    ViewWithin(s);
    ViewAfterLink(c, s, s', effect.name);
  }

  lemma ViewWithin(s: State)
    ensures View(s).Keys <= s.links.Keys && |View(s)| <= |s.links|
  {
    SubsetCardinality(View(s).Keys, s.links.Keys);
    assert |View(s)| == |View(s).Keys| && |s.links| == |s.links.Keys|;
  }

  /** Unlinking a CLOSED entry is invisible. */
  lemma UnlinkStutters(c: Config, s: State, t: TaskId, effect: Effect, q: Option<Phase>, s': State)
    requires Balanced(c, s) && UnlinksOwn(s) && TaskStep(c, s, t, effect, q, s') && effect.Unlink?
    ensures View(s') == View(s)
  {
    hide Settles, Balanced;
    OneCloser(c, s, t, t, s.tasks[t].id);
    assert At(s, s.links[effect.name]).counter == CLOSED;
  }

  lemma OthersStutter(c: Config, s: State, t: TaskId, effect: Effect, q: Option<Phase>, s': State)
    requires Named(s) && TaskStep(c, s, t, effect, q, s') && OpOf(s, Run(t, effect, q)) == Stutter
    requires !effect.Unlink? && !effect.UnlinkIf?
    ensures View(s') == View(s)
  {
    hide Settles, PhaseNamed, Apply;
    KeysAfterStep(c, s, t, effect, s');
    forall n | n in s.links
      ensures At(s', s.links[n]).counter == At(s, s.links[n]).counter
    {
      LinksResolve(s, n);
      EntryAfterStep(c, s, t, effect, s', s.links[n]);
    }
  }

  lemma TaskStepSimulates(c: Config, s: State, t: TaskId, effect: Effect, q: Option<Phase>, s': State)
    requires Balanced(c, s) && Named(s) && Roomy(c, s) && AbsentClosed(s) && UnlinksOwn(s)
    requires TaskStep(c, s, t, effect, q, s') && !effect.UnlinkIf?
    ensures CacheStep(c.maxOpen, View(s), OpOf(s, Run(t, effect, q)), View(s'))
  {
    hide Balanced, Named, Roomy, AbsentClosed, UnlinksOwn, Apply, Settles, PhaseNamed, View;
    match effect
    case Link(_) => LinkShows(c, s, t, effect, q, s');
    case LeaseInc(id) => CounterChangeShows(c, s, t, effect, q, s', id);
    case LeaseDec(id) =>
      DecrementFindsLease(c, s, t, effect, q, s', id);
      CounterChangeShows(c, s, t, effect, q, s', id);
    case CloseCas(id) => CounterChangeShows(c, s, t, effect, q, s', id);
    case Unlink(_) => UnlinkStutters(c, s, t, effect, q, s');
    case _ => OthersStutter(c, s, t, effect, q, s');
  }

  lemma OtherActionsStutter(c: Config, s: State, a: Action, s': State)
    requires Next(c, s, a, s') && !a.Run?
    ensures View(s') == View(s)
  {
    hide Moves, Starts;
    forall n | n in s.links
      ensures At(s', s.links[n]).counter == At(s, s.links[n]).counter
    {
    }
  }

  /** Forward simulation: every interleaved run without failed opens is a run of the pinned cache,
      from the empty cache, one abstract operation or a stutter for each step. */
  lemma RunsSimulatePinnedCache(c: Config, states: seq<State>, actions: seq<Action>)
    requires ValidConfig(c) && IsRun(c, states, actions)
    requires forall k {:trigger actions[k]} :: 0 <= k < |actions| ==> !FailsOpen(actions[k])
    ensures |states| == |actions| + 1 && View(states[0]) == map[]
    ensures forall i {:trigger actions[i]} :: 0 <= i < |actions| ==>
              CacheStep(c.maxOpen, View(states[i]), OpOf(states[i], actions[i]), View(states[i + 1]))
  {
    forall i {:trigger actions[i]} | 0 <= i < |actions|
      ensures CacheStep(c.maxOpen, View(states[i]), OpOf(states[i], actions[i]), View(states[i + 1]))
    {
      StepSimulates(c, states, actions, i);
    }
  }

  lemma StepSimulates(c: Config, states: seq<State>, actions: seq<Action>, i: nat)
    requires InRun(c, states, actions, i) && i < |actions|
    requires forall k {:trigger actions[k]} :: 0 <= k < |actions| ==> !FailsOpen(actions[k])
    ensures CacheStep(c.maxOpen, View(states[i]), OpOf(states[i], actions[i]), View(states[i + 1]))
  {
    hide Next, Moves, Balanced, Named, Roomy, MutexExact, PoolsExact, AbsentClosed, UnlinksOwn, TaskStep, View;
    StateFacts(c, states, actions, i);
    UniqueUpTo(c, states, actions, i);
    var s, a, s' := states[i], actions[i], states[i + 1];
    if a.Run? {
      StepFacts(c, states, actions, i);
      TaskStepSimulates(c, s, a.task, a.effect, a.next, s');
    } else {
      assert Next(c, s, a, s');
      OtherActionsStutter(c, s, a, s');
    }
  }
}
