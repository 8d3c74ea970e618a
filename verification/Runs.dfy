/** Safety over whole runs: what holds in every state any interleaving can reach. */
module Runs {
  import opened Prelude
  import opened Protocol
  import opened Ledger
  import opened Conservation
  import opened Invariants

  // ---- the invariant is inductive ----

  lemma InitInv(c: Config)
    ensures Inv(c, Init(c))
  {
    assert ProcessHolders(Init(c)) == {};
  }

  lemma RunIsTaskStep(c: Config, s: State, t: TaskId, effect: Effect, q: Option<Phase>, s': State)
    requires Named(s) && Next(c, s, Run(t, effect, q), s')
    ensures TaskStep(c, s, t, effect, q, s') && Moves(c, s, s.tasks[t], effect, q)
  {
    hide Moves, PhaseNamed, Settles, Guarded, Apply;
    MovesSettle(c, s, s.tasks[t], effect, q);
  }

  lemma TaskStepPools(c: Config, s: State, t: TaskId, effect: Effect, q: Option<Phase>, s': State)
    requires PoolsExact(s) && Named(s) && Named(s')
    requires TaskStep(c, s, t, effect, q, s') && Moves(c, s, s.tasks[t], effect, q)
    ensures PoolsExact(s')
  {
    hide Moves, TaskStep, Named, PoolsSane;
    assert |s'.entries| == |s.entries| + Bit(effect.Link?) by {
      TaskStepEntries(c, s, t, effect, q, s');
    }
    forall id: EntryId | id < |s'.entries|
      ensures PoolsSane(s', id)
    {
      if id < |s.entries| {
        PoolsAfterStep(c, s, t, effect, q, s', id);
      } else {
        NewEntryPools(c, s, t, effect, q, s');
      }
    }
  }

  lemma TaskStepEntries(c: Config, s: State, t: TaskId, effect: Effect, q: Option<Phase>, s': State)
    requires TaskStep(c, s, t, effect, q, s')
    ensures |s'.entries| == |s.entries| + Bit(effect.Link?)
  {
    hide Settles, Guarded, PhaseNamed, Apply;
    NewEntryAfterStep(c, s, t, effect, s');
  }

  lemma RunInv(c: Config, s: State, t: TaskId, effect: Effect, q: Option<Phase>, s': State)
    requires ValidConfig(c) && Inv(c, s) && Next(c, s, Run(t, effect, q), s')
    ensures Inv(c, s')
  {
    hide TaskStep, Moves, Balanced, Named, MutexExact, Roomy, PoolsExact;
    RunIsTaskStep(c, s, t, effect, q, s');
    TaskStepBalanced(c, s, t, effect, q, s');
    MovesNamed(c, s, t, effect, q, s');
    MutexAfterStep(c, s, t, effect, q, s');
    RoomAfterStep(c, s, t, effect, q, s');
    TaskStepPools(c, s, t, effect, q, s');
  }

  lemma FreshTask(c: Config, s: State, p: Phase, id: EntryId)
    requires Starts(p)
    ensures PhaseNamed(s, p) && AdmissionFact(c, s.links.Keys, p)
    ensures !HasMutex(p) && OpenerOf(p) == None && !UsesPools(p, id)
  {
  }

  lemma SpawnNamed(c: Config, s: State, t: TaskId, p: Phase, s': State)
    requires Named(s) && Next(c, s, Spawn(t, p), s')
    ensures Named(s')
  {
    hide Moves, PhaseNamed, Starts;
    FreshTask(c, s', p, 0);
    forall u | u in s'.tasks
      ensures PhaseNamed(s', s'.tasks[u])
    {
      if u != t {
        NamedGrows(s, s', s.tasks[u]);
      }
    }
  }

  lemma SpawnRoomy(c: Config, s: State, t: TaskId, p: Phase, s': State)
    requires Roomy(c, s) && Next(c, s, Spawn(t, p), s')
    ensures Roomy(c, s')
  {
    hide Moves, AdmissionFact, Starts;
    FreshTask(c, s', p, 0);
  }

  lemma SpawnMutex(c: Config, s: State, t: TaskId, p: Phase, s': State)
    requires MutexExact(s) && Next(c, s, Spawn(t, p), s')
    ensures MutexExact(s')
  {
    hide Moves, HasMutex, Starts;
    FreshTask(c, s', p, 0);
  }

  lemma SpawnPools(c: Config, s: State, t: TaskId, p: Phase, s': State)
    requires PoolsExact(s) && Next(c, s, Spawn(t, p), s')
    ensures PoolsExact(s')
  {
    hide Moves, UsesPools, OpenerOf, Starts;
    forall id: EntryId | id < |s'.entries|
      ensures PoolsSane(s', id)
    {
      assert PoolsSane(s, id);
      FreshTask(c, s', p, id);
    }
  }

  lemma SpawnInv(c: Config, s: State, t: TaskId, p: Phase, s': State)
    requires Inv(c, s) && Next(c, s, Spawn(t, p), s')
    ensures Inv(c, s')
  {
    hide Balanced, Named, Roomy, MutexExact, PoolsExact, Next;
    SpawnBalanced(c, s, t, p, s');
    SpawnNamed(c, s, t, p, s');
    SpawnRoomy(c, s, t, p, s');
    SpawnMutex(c, s, t, p, s');
    SpawnPools(c, s, t, p, s');
  }

  lemma BackgroundInv(c: Config, s: State, id: EntryId, s': State)
    requires Inv(c, s) && Next(c, s, Background(id), s')
    ensures Inv(c, s')
  {
    hide AdmissionFact, UsesPools, OpenerOf, HasMutex, PhaseNamed;
    BackgroundBalanced(c, s, id, s');
    forall u | u in s'.tasks
      ensures PhaseNamed(s', s'.tasks[u])
    {
      NamedGrows(s, s', s.tasks[u]);
    }
    forall k: EntryId | k < |s'.entries|
      ensures PoolsSane(s', k)
    {
      assert PoolsSane(s, k);
    }
  }

  lemma NextInv(c: Config, s: State, a: Action, s': State)
    requires ValidConfig(c) && Inv(c, s) && Next(c, s, a, s')
    ensures Inv(c, s')
  {
    hide Inv, Moves;
    match a
    case Spawn(t, p) => SpawnInv(c, s, t, p, s');
    case Run(t, effect, q) => RunInv(c, s, t, effect, q, s');
    case Background(id) => BackgroundInv(c, s, id, s');
  }

  lemma {:induction false} ReachableInv(c: Config, states: seq<State>, actions: seq<Action>, i: nat)
    requires ValidConfig(c) && IsRun(c, states, actions) && i < |states|
    ensures Inv(c, states[i])
  {
    hide Inv, Next;
    if i == 0 {
      InitInv(c);
    } else {
      ReachableInv(c, states, actions, i - 1);
      assert Next(c, states[i - 1], actions[i - 1], states[i]);
      NextInv(c, states[i - 1], actions[i - 1], states[i]);
    }
  }
}
