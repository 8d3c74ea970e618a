/** No circular wait: tasks wait in the order admission mutex, tenant permit, process permit, pools. */
module Waits {
  import opened Prelude
  import opened Vocabulary
  import opened Protocol
  import opened Ledger
  import opened Invariants
  import opened Runs
  import opened Safety

  /** The task sits at an await whose resource is not available. */
  predicate Blocked(s: State, t: TaskId)
    requires t in s.tasks
  {
    var p := s.tasks[t];
    || (p.AwaitAdmission? && s.admission.Some?)
    || (p.AwaitTenant? && At(s, p.id).tenantFree == 0)
    || (p.AwaitProcess? && s.processFree == 0)
    || (p.AwaitPools? && At(s, p.id).pools.Unopened? && At(s, p.id).opener.Some?)
  }

  /** `u` holds what the blocked task `t` waits for. */
  predicate WaitsFor(s: State, t: TaskId, u: TaskId)
    requires t in s.tasks && u in s.tasks
  {
    var p := s.tasks[t];
    && Blocked(s, t)
    && (|| (p.AwaitAdmission? && s.admission == Some(u))
        || (p.AwaitTenant? && TenantOf(s.tasks[u]) == Some(p.id))
        || (p.AwaitProcess? && HasProcess(s.tasks[u]))
        || (p.AwaitPools? && At(s, p.id).opener == Some(u)))
  }

  /** The place of a task in the waiting order; a task that never waits comes last. */
  function Rank(p: Phase): nat {
    if p.AwaitAdmission? then 0
    else if p.AwaitTenant? then 1
    else if p.AwaitProcess? then 2
    else if p.AwaitPools? then 3
    else 4
  }

  /** Somebody holds what a blocked task waits for. */
  lemma HolderExists(c: Config, s: State, t: TaskId)
    requires ValidConfig(c) && Inv(c, s) && t in s.tasks && Blocked(s, t)
    ensures exists u: TaskId :: u in s.tasks && WaitsFor(s, t, u)
  {
    hide Roomy, HasProcess;
    var p := s.tasks[t];
    assert PhaseNamed(s, p);
    if p.AwaitAdmission? {
      assert WaitsFor(s, t, s.admission.value);
    } else if p.AwaitTenant? {
      assert EntryBalanced(c, s, p.id);
      var u :| u in TenantHolders(s, p.id);
      assert WaitsFor(s, t, u);
    } else if p.AwaitProcess? {
      var u :| u in ProcessHolders(s);
      assert WaitsFor(s, t, u);
    } else {
      assert PoolsSane(s, p.id);
      var u := s.entries[p.id].opener.value;
      assert u in s.tasks;
      assert WaitsFor(s, t, u);
    }
  }

  /** Whoever holds it waits, if at all, for something later in the order. */
  lemma WaitsClimb(c: Config, s: State, t: TaskId, u: TaskId)
    requires Inv(c, s) && t in s.tasks && u in s.tasks && WaitsFor(s, t, u)
    ensures Rank(s.tasks[u]) > Rank(s.tasks[t])
  {
    hide Balanced, Roomy;
    var p := s.tasks[t];
    assert PhaseNamed(s, p);
    if p.AwaitAdmission? {
      assert HasMutex(s.tasks[u]);
    } else if p.AwaitPools? {
      assert PoolsSane(s, p.id);
    }
  }

  /** The mutex holder never waits, and a task waiting for a tenant permit holds no process permit. */
  lemma WaitingOrder(c: Config, states: seq<State>, actions: seq<Action>, i: nat, t: TaskId)
    requires InRun(c, states, actions, i) && t in states[i].tasks
    ensures states[i].admission == Some(t) ==> !Blocked(states[i], t)
    ensures states[i].tasks[t].AwaitTenant? ==> !HasProcess(states[i].tasks[t])
    ensures forall u :: u in states[i].tasks && WaitsFor(states[i], t, u) ==>
              Rank(states[i].tasks[u]) > Rank(states[i].tasks[t])
  {
    hide IsRun, Balanced, Roomy, PoolsExact, Named, WaitsFor, Rank;
    StateFacts(c, states, actions, i);
    forall u | u in states[i].tasks && WaitsFor(states[i], t, u)
      ensures Rank(states[i].tasks[u]) > Rank(states[i].tasks[t])
    {
      WaitsClimb(c, states[i], t, u);
    }
  }

  /** No set of tasks blocks itself: some member is not blocked, or waits for a task outside the
      set and for none inside it. */
  lemma NoSetBlocksItself(c: Config, states: seq<State>, actions: seq<Action>, i: nat, group: set<TaskId>)
    requires InRun(c, states, actions, i) && group <= states[i].tasks.Keys && group != {}
    ensures exists t :: t in group
              && (!Blocked(states[i], t)
                  || ((exists u :: u in states[i].tasks && u !in group && WaitsFor(states[i], t, u))
                      && (forall u :: u in group ==> !WaitsFor(states[i], t, u))))
  {
    hide IsRun, Inv, Blocked, WaitsFor, Rank;
    ReachableInv(c, states, actions, i);
    var s := states[i];
    var t := Latest(s, group);
    if Blocked(s, t) {
      HolderExists(c, s, t);
      forall u | u in group
        ensures !WaitsFor(s, t, u)
      {
        if WaitsFor(s, t, u) {
          WaitsClimb(c, s, t, u);
        }
      }
    }
  }

  /** A member of the group that comes last in the waiting order. */
  lemma {:induction false} Latest(s: State, group: set<TaskId>) returns (t: TaskId)
    requires group <= s.tasks.Keys && group != {}
    ensures t in group && forall u :: u in group ==> Rank(s.tasks[u]) <= Rank(s.tasks[t])
    decreases |group|
  {
    t :| t in group;
    if group != {t} {
      var rest := Latest(s, group - {t});
      if Rank(s.tasks[t]) < Rank(s.tasks[rest]) {
        t := rest;
      }
    }
  }

  // ---- progress ----

  /** The step an unblocked task can take by itself: no timeout, no cancellation, no lost race. */
  ghost function Effort(s: State, p: Phase): Effect {
    if p.AwaitAdmission? then TakeMutex
    else if p.Insert? then Link(p.name)
    else if p.Unlock? then FreeMutex
    else if p.TakeClose? && At(s, p.id).counter == 0 then CloseCas(p.id)
    else if p.TakeUnlink? then Unlink(p.victim)
    else if p.SpawnClose? then Handoff(p.id)
    else if p.AwaitTenant? then TakeTenant(p.id)
    else if p.AwaitProcess? then TakeProcess
    else if p.AwaitPools? && At(s, p.id).pools.Unopened? then ClaimOpener(p.id)
    else if p.Opening? then PublishPools(p.id)
    else if p.UnlinkFailed? then UnlinkIf(p.id)
    else if p.GiveBackTenant? || p.DropTenant? then FreeTenant(p.id)
    else if p.DropDecrement? then LeaseDec(p.id)
    else if p.DropProcess? then FreeProcess
    else if p.CleanClose? then Close(p.id)
    else if p.LeaseCas? && p.seen != CLOSED && At(s, p.id).counter == p.seen then LeaseInc(p.id)
    else Local
  }

  lemma SlotProceeds(c: Config, s: State, p: Phase)
    requires p.AwaitAdmission? ==> s.admission.None?
    requires p.Lookup? || p.AwaitAdmission? || p.Recheck? || p.Measure? || p.Insert? || p.Unlock? || p.Yielded?
    ensures exists q :: Proceeds(c, s, p, Effort(s, p), q)
  {
    var q :=
      if p.Lookup? then
        Some(if p.name in s.links then LeaseLoad(s.links[p.name], Request(p.name, p.round))
             else AwaitAdmission(p.name, p.round))
      else if p.AwaitAdmission? then Some(Recheck(p.name, p.round))
      else if p.Recheck? then
        Some(if p.name in s.links then Unlock(p.name, p.round, Some(s.links[p.name]))
             else Measure(p.name, p.round, 0, 0, 0))
      else if p.Measure? then
        Some(if p.shard < c.shards then
               p.(shard := p.shard + 1, total := p.total + ShardLen(c, s.links, p.shard))
             else if p.total < c.maxOpen then Insert(p.name, p.round)
             else if p.attempts + 1 > MAX_ATTEMPTS then Unlock(p.name, p.round, None)
             else Scan(p.name, p.round, p.attempts + 1, None, {}))
      else if p.Insert? then Some(Unlock(p.name, p.round, Some(|s.entries|)))
      else if p.Unlock? then
        if p.hit.Some? then Some(LeaseLoad(p.hit.value, Request(p.name, p.round))) else None
      else if p.round + 1 < MAX_ATTEMPTS then Some(Lookup(p.name, p.round + 1))
      else None;
    assert SlotStep(c, s, p, Effort(s, p), q);
    assert Proceeds(c, s, p, Effort(s, p), q);
  }

  lemma ScanProceeds(c: Config, s: State, p: Phase)
    requires p.Scan? && !(s.links.Keys <= p.visited)
    ensures exists q :: Proceeds(c, s, p, Effort(s, p), q)
  {
    var v :| v in s.links && v !in p.visited;
    var candidate := if At(s, s.links[v]).counter != 0 then p.candidate else Some(v);
    var q := Some(p.(candidate := candidate, visited := p.visited + {v}));
    assert Visits(s, p, v, q);
    assert TakeStep(c, s, p, Effort(s, p), q);
    assert Proceeds(c, s, p, Effort(s, p), q);
  }

  lemma TakeProceeds(c: Config, s: State, p: Phase)
    requires p.Scan? || p.TakeGet? || p.TakeClose? || p.TakeUnlink? || p.SpawnClose?
    ensures exists q :: Proceeds(c, s, p, Effort(s, p), q)
  {
    if p.Scan? && !(s.links.Keys <= p.visited) {
      ScanProceeds(c, s, p);
      return;
    }
    var q :=
      if p.Scan? then
        if p.candidate.None? then Unlock(p.name, p.round, None)
        else TakeGet(p.candidate.value, Eviction(p.name, p.round, p.attempts))
      else if p.TakeGet? then
        if p.victim in s.links then TakeClose(p.victim, s.links[p.victim], p.take) else TakeFailed(p.take)
      else if p.TakeClose? then
        if At(s, p.id).counter == 0 then TakeUnlink(p.victim, p.id, p.take) else TakeFailed(p.take)
      else if p.TakeUnlink? then
        match p.take
        case Eviction(n, r, a) => SpawnClose(p.id, n, r, a)
        case Cleanup(rest) => CleanClose(p.id, rest)
      else Measure(p.name, p.round, p.attempts, 0, 0);
    assert TakeStep(c, s, p, Effort(s, p), Some(q));
    assert Proceeds(c, s, p, Effort(s, p), Some(q));
  }

  lemma LeaseProceeds(c: Config, s: State, p: Phase)
    requires p.LeaseLoad? || p.LeaseCas?
    ensures exists q :: Proceeds(c, s, p, Effort(s, p), q)
  {
    var q :=
      if p.LeaseLoad? || (p.seen != CLOSED && At(s, p.id).counter != p.seen) then
        LeaseCas(p.id, At(s, p.id).counter, p.lease)
      else
        match p.lease
        case Request(n, r) => if p.seen == CLOSED then Yielded(n, r) else AwaitTenant(p.id)
        case Checkpoint(rest) => if p.seen == CLOSED then CheckpointNext(rest) else CheckpointTest(p.id, rest);
    assert LeaseStep(c, s, p, Effort(s, p), Some(q));
    assert Proceeds(c, s, p, Effort(s, p), Some(q));
  }

  lemma AdmitProceeds(c: Config, s: State, p: Phase)
    requires p.AwaitTenant? || p.AwaitProcess? || p.AwaitPools? || p.Opening?
    requires p.AwaitTenant? ==> At(s, p.id).tenantFree > 0
    requires p.AwaitProcess? ==> s.processFree > 0
    requires p.AwaitPools? && At(s, p.id).pools.Unopened? ==> At(s, p.id).opener.None?
    ensures exists q :: Proceeds(c, s, p, Effort(s, p), q)
  {
    var q :=
      if p.AwaitTenant? then AwaitProcess(p.id)
      else if p.AwaitProcess? then AwaitPools(p.id)
      else if p.AwaitPools? && At(s, p.id).pools.Unopened? then Opening(p.id)
      else Holding(p.id);
    assert AdmitStep(c, s, p, Effort(s, p), Some(q));
    assert Proceeds(c, s, p, Effort(s, p), Some(q));
  }

  lemma ReturnProceeds(c: Config, s: State, p: Phase)
    requires p.UnlinkFailed? || p.Holding? || p.GiveBackTenant? || p.DropDecrement? || p.DropTenant? || p.DropProcess?
    ensures exists q :: Proceeds(c, s, p, Effort(s, p), q)
  {
    var q :=
      if p.UnlinkFailed? || p.Holding? then Some(DropDecrement(p.id, true, None))
      else if p.GiveBackTenant? then Some(DropDecrement(p.id, false, None))
      else if p.DropTenant? then Some(DropProcess)
      else if p.DropProcess? then None
      else if p.permits then Some(DropTenant(p.id))
      else if p.resume.Some? then Some(CheckpointNext(p.resume.value))
      else None;
    assert ReturnStep(c, s, p, Effort(s, p), q);
    assert Proceeds(c, s, p, Effort(s, p), q);
  }

  lemma CleanProceeds(c: Config, s: State, p: Phase)
    requires p.CleanCollect? || p.CleanNext? || p.CleanClose?
    ensures exists q :: Proceeds(c, s, p, Effort(s, p), q)
  {
    var q :=
      if p.CleanCollect? then Some(CleanNext(p.stale))
      else if p.CleanClose? then Some(CleanNext(p.rest))
      else if p.rest == [] then None
      else Some(TakeGet(p.rest[0], Cleanup(p.rest[1..])));
    assert CleanStep(c, s, p, Effort(s, p), q);
    assert Proceeds(c, s, p, Effort(s, p), q);
  }

  lemma CheckpointProceeds(c: Config, s: State, p: Phase)
    requires p.CheckpointCollect? || p.CheckpointNext? || p.CheckpointTest? || p.CheckpointRun?
    ensures exists q :: Proceeds(c, s, p, Effort(s, p), q)
  {
    var q :=
      if p.CheckpointCollect? then Some(CheckpointNext(p.found))
      else if p.CheckpointNext? then
        if p.todo == [] then None else Some(LeaseLoad(p.todo[0], Checkpoint(p.todo[1..])))
      else if p.CheckpointTest? && !At(s, p.id).pools.Unopened? then Some(CheckpointRun(p.id, p.todo))
      else Some(DropDecrement(p.id, false, Some(p.todo)));
    assert CheckpointStep(c, s, p, Effort(s, p), q);
    assert Proceeds(c, s, p, Effort(s, p), q);
  }

  /** A task that is not blocked can always take a step of its own. */
  lemma UnblockedProceeds(c: Config, s: State, t: TaskId)
    requires t in s.tasks && !Blocked(s, t)
    ensures exists q :: Proceeds(c, s, s.tasks[t], Effort(s, s.tasks[t]), q)
  {
    hide Proceeds, Effort;
    var p := s.tasks[t];
    if p.Lookup? || p.AwaitAdmission? || p.Recheck? || p.Measure? || p.Insert? || p.Unlock? || p.Yielded? {
      SlotProceeds(c, s, p);
    } else if p.Scan? || p.TakeGet? || p.TakeClose? || p.TakeUnlink? || p.SpawnClose? {
      TakeProceeds(c, s, p);
    } else if p.LeaseLoad? || p.LeaseCas? {
      LeaseProceeds(c, s, p);
    } else if p.AwaitTenant? || p.AwaitProcess? || p.AwaitPools? || p.Opening? {
      AdmitProceeds(c, s, p);
    } else if p.CleanCollect? || p.CleanNext? || p.CleanClose? {
      CleanProceeds(c, s, p);
    } else if p.CheckpointCollect? || p.CheckpointNext? || p.CheckpointTest? || p.CheckpointRun? {
      CheckpointProceeds(c, s, p);
    } else {
      ReturnProceeds(c, s, p);
    }
  }

  /** Deadlock freedom: while any task is in flight, some task can proceed, with no admission
      timeout and no cancellation to help it. */
  lemma SomeTaskProceeds(c: Config, states: seq<State>, actions: seq<Action>, i: nat)
    requires InRun(c, states, actions, i) && states[i].tasks != map[]
    ensures exists t, q :: t in states[i].tasks
              && Proceeds(c, states[i], states[i].tasks[t], Effort(states[i], states[i].tasks[t]), q)
  {
    hide IsRun, Blocked, WaitsFor, Proceeds, Effort;
    var s := states[i];
    assert s.tasks.Keys != {};
    NoSetBlocksItself(c, states, actions, i, s.tasks.Keys);
    var t :| t in s.tasks.Keys && !Blocked(s, t);
    UnblockedProceeds(c, s, t);
  }
}
