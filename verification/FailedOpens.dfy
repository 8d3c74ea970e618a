/** How far failed opens can take the registry, shown by runs that exist for every configuration
    and every name.

    Two requests look up a fresh entry.  The first fails to open it and unlinks it by pointer; the
    second leases it all the same and opens it.  Now its pools serve a request but no map entry
    leads to them, and the next request for the name starts over with an entry of its own.  Only
    the process permits bound how often this can be repeated. */
module FailedOpens {
  import opened Prelude
  import opened Vocabulary
  import opened Protocol
  import opened Ledger
  import opened Safety
  import opened Uniqueness

  ghost predicate Reachable(c: Config, s: State) {
    exists states: seq<State>, actions: seq<Action> :: IsRun(c, states, actions) && states[|actions|] == s
  }

  lemma Extend(c: Config, s: State, a: Action, s': State)
    requires Reachable(c, s) && Next(c, s, a, s')
    ensures Reachable(c, s')
  {
    hide Next;
    var states: seq<State>, actions: seq<Action> :| IsRun(c, states, actions) && states[|actions|] == s;
    var states', actions' := states + [s'], actions + [a];
    forall i {:trigger actions'[i]} | 0 <= i < |actions'|
      ensures Next(c, states'[i], actions'[i], states'[i + 1])
    {
      if i < |actions| {
        assert Next(c, states[i], actions[i], states[i + 1]);
      }
    }
    assert IsRun(c, states', actions') && states'[|actions'|] == s';
  }

  function Stepped(c: Config, s: State, t: TaskId, effect: Effect, q: Phase): State {
    Apply(c, s, t, effect).(tasks := s.tasks[t := q])
  }

  lemma Advance(c: Config, s: State, t: TaskId, effect: Effect, q: Phase) returns (s': State)
    requires Reachable(c, s) && t in s.tasks && Moves(c, s, s.tasks[t], effect, Some(q))
    ensures Reachable(c, s') && s' == Stepped(c, s, t, effect, q)
  {
    hide Moves, Apply;
    s' := Stepped(c, s, t, effect, q);
    Extend(c, s, Run(t, effect, Some(q)), s');
  }

  lemma SlotAdvance(c: Config, s: State, t: TaskId, effect: Effect, q: Phase) returns (s': State)
    requires Reachable(c, s) && t in s.tasks && SlotStep(c, s, s.tasks[t], effect, Some(q))
    ensures Reachable(c, s') && s' == Stepped(c, s, t, effect, q)
  {
    hide SlotStep, Stepped, Reachable;
    s' := Advance(c, s, t, effect, q);
  }

  lemma TakeAdvance(c: Config, s: State, t: TaskId, effect: Effect, q: Phase) returns (s': State)
    requires Reachable(c, s) && t in s.tasks && TakeStep(c, s, s.tasks[t], effect, Some(q))
    ensures Reachable(c, s') && s' == Stepped(c, s, t, effect, q)
  {
    hide TakeStep, Stepped, Reachable;
    s' := Advance(c, s, t, effect, q);
  }

  lemma LeaseAdvance(c: Config, s: State, t: TaskId, effect: Effect, q: Phase) returns (s': State)
    requires Reachable(c, s) && t in s.tasks && LeaseStep(c, s, s.tasks[t], effect, Some(q))
    ensures Reachable(c, s') && s' == Stepped(c, s, t, effect, q)
  {
    hide LeaseStep, Stepped, Reachable;
    s' := Advance(c, s, t, effect, q);
  }

  lemma AdmitAdvance(c: Config, s: State, t: TaskId, effect: Effect, q: Phase) returns (s': State)
    requires Reachable(c, s) && t in s.tasks && AdmitStep(c, s, s.tasks[t], effect, Some(q))
    ensures Reachable(c, s') && s' == Stepped(c, s, t, effect, q)
  {
    hide AdmitStep, Stepped, Reachable;
    s' := Advance(c, s, t, effect, q);
  }

  lemma ReturnAdvance(c: Config, s: State, t: TaskId, effect: Effect, q: Phase) returns (s': State)
    requires Reachable(c, s) && t in s.tasks && ReturnStep(c, s, s.tasks[t], effect, Some(q))
    ensures Reachable(c, s') && s' == Stepped(c, s, t, effect, q)
  {
    hide ReturnStep, Stepped, Reachable;
    s' := Advance(c, s, t, effect, q);
  }

  lemma CleanAdvance(c: Config, s: State, t: TaskId, effect: Effect, q: Phase) returns (s': State)
    requires Reachable(c, s) && t in s.tasks && CleanStep(c, s, s.tasks[t], effect, Some(q))
    ensures Reachable(c, s') && s' == Stepped(c, s, t, effect, q)
  {
    hide CleanStep, Stepped, Reachable;
    s' := Advance(c, s, t, effect, q);
  }

  /** With an empty map `len()` reads zero. */
  lemma {:induction false} MeasureEmpty(c: Config, s: State, t: TaskId, n: Name, i: nat) returns (s': State)
    requires Reachable(c, s) && s.links == map[] && i <= c.shards
    requires t in s.tasks && s.tasks[t] == Measure(n, 0, 0, i, 0)
    ensures Reachable(c, s') && s' == s.(tasks := s.tasks[t := Measure(n, 0, 0, c.shards, 0)])
    decreases c.shards - i
  {
    if i == c.shards {
      s' := s;
      assert s.tasks == s.tasks[t := s.tasks[t]];
    } else {
      assert ShardLen(c, s.links, i) == 0 by { assert (set m | m in s.links && c.shardOf(m) == i) == {}; }
      var q := Measure(n, 0, 0, i + 1, 0);
      assert SlotStep(c, s, s.tasks[t], Local, Some(q));
      var s1 := SlotAdvance(c, s, t, Local, q);
      s' := MeasureEmpty(c, s1, t, n, i + 1);
      assert s1.tasks[t := Measure(n, 0, 0, c.shards, 0)] == s.tasks[t := Measure(n, 0, 0, c.shards, 0)];
    }
  }

  /** A new request finds the map empty and gets the mutex. */
  lemma ReachMeasure(c: Config, s: State, t: TaskId, n: Name) returns (s': State)
    requires Reachable(c, s) && s.links == map[] && s.admission == None
    requires t !in s.tasks && |s.tasks| + 1 < CLOSED
    ensures Reachable(c, s')
    ensures s' == s.(admission := Some(t), tasks := s.tasks[t := Measure(n, 0, 0, 0, 0)])
  {
    hide Reachable;
    var s1 := s.(tasks := s.tasks[t := Lookup(n, 0)]);
    Extend(c, s, Spawn(t, Lookup(n, 0)), s1);
    var s2 := SlotAdvance(c, s1, t, Local, AwaitAdmission(n, 0));
    var s3 := SlotAdvance(c, s2, t, TakeMutex, Recheck(n, 0));
    s' := SlotAdvance(c, s3, t, Local, Measure(n, 0, 0, 0, 0));
    assert s'.tasks == s.tasks[t := Measure(n, 0, 0, 0, 0)];
  }

  /** There is room, so the entry is inserted and the mutex released. */
  lemma InsertMeasured(c: Config, s: State, t: TaskId, n: Name) returns (s': State)
    requires ValidConfig(c) && Reachable(c, s) && s.links == map[]
    requires t in s.tasks && s.tasks[t] == Measure(n, 0, 0, c.shards, 0)
    ensures Reachable(c, s')
    ensures s' == s.(entries := s.entries + [NewEntry(c, n)], links := map[n := |s.entries|], admission := None,
                     tasks := s.tasks[t := LeaseLoad(|s.entries|, Request(n, 0))])
  {
    hide Reachable;
    var id := |s.entries|;
    var s1 := SlotAdvance(c, s, t, Local, Insert(n, 0));
    var s2 := SlotAdvance(c, s1, t, Link(n), Unlock(n, 0, Some(id)));
    s' := SlotAdvance(c, s2, t, FreeMutex, LeaseLoad(id, Request(n, 0)));
    assert s'.tasks == s.tasks[t := LeaseLoad(id, Request(n, 0))];
  }

  /** A new request for a name that is not resident admits an entry for it. */
  lemma AdmitNew(c: Config, s: State, t: TaskId, n: Name) returns (s': State)
    requires ValidConfig(c) && Reachable(c, s) && s.links == map[] && s.admission == None
    requires t !in s.tasks && |s.tasks| + 1 < CLOSED
    ensures Reachable(c, s')
    ensures s' == s.(entries := s.entries + [NewEntry(c, n)], links := map[n := |s.entries|],
                     tasks := s.tasks[t := LeaseLoad(|s.entries|, Request(n, 0))])
  {
    hide Reachable, ValidConfig;
    var s1 := ReachMeasure(c, s, t, n);
    var s2 := MeasureEmpty(c, s1, t, n, 0);
    s' := InsertMeasured(c, s2, t, n);
    assert s'.tasks == s.tasks[t := LeaseLoad(|s.entries|, Request(n, 0))];
  }

  /** A request that has found its unused entry leases it. */
  lemma TakeLease(c: Config, s: State, t: TaskId, n: Name, id: EntryId) returns (s': State)
    requires Reachable(c, s) && t in s.tasks && s.tasks[t] == LeaseLoad(id, Request(n, 0))
    requires id < |s.entries| && s.entries[id].counter == 0
    ensures Reachable(c, s')
    ensures s' == s.(entries := s.entries[id := s.entries[id].(counter := 1)], tasks := s.tasks[t := AwaitTenant(id)])
  {
    hide Reachable;
    var s1 := LeaseAdvance(c, s, t, Local, LeaseCas(id, 0, Request(n, 0)));
    s' := LeaseAdvance(c, s1, t, LeaseInc(id), AwaitTenant(id));
    assert s'.tasks == s.tasks[t := AwaitTenant(id)];
  }

  /** It is admitted and starts to open the entry. */
  lemma StartOpening(c: Config, s: State, t: TaskId, id: EntryId) returns (s': State)
    requires Reachable(c, s) && t in s.tasks && s.tasks[t] == AwaitTenant(id) && s.processFree > 0
    requires id < |s.entries| && s.entries[id].tenantFree > 0
    requires s.entries[id].pools.Unopened? && s.entries[id].opener.None?
    ensures Reachable(c, s')
    ensures s' == s.(entries := s.entries[id := s.entries[id].(tenantFree := s.entries[id].tenantFree - 1,
                                                               opener := Some(t))],
                     processFree := s.processFree - 1, tasks := s.tasks[t := Opening(id)])
  {
    hide Reachable;
    var s1 := AdmitAdvance(c, s, t, TakeTenant(id), AwaitProcess(id));
    var s2 := AdmitAdvance(c, s1, t, TakeProcess, AwaitPools(id));
    s' := AdmitAdvance(c, s2, t, ClaimOpener(id), Opening(id));
    assert s'.tasks == s.tasks[t := Opening(id)];
  }

  /** The open fails and the entry is unlinked. */
  lemma FailOpening(c: Config, s: State, t: TaskId, id: EntryId) returns (s': State)
    requires Reachable(c, s) && t in s.tasks && s.tasks[t] == Opening(id)
    requires id < |s.entries| && s.links == map[s.entries[id].name := id]
    ensures Reachable(c, s')
    ensures s' == s.(entries := s.entries[id := s.entries[id].(opener := None)], links := map[],
                     tasks := s.tasks[t := DropDecrement(id, true, None)])
  {
    hide Reachable;
    var s1 := AdmitAdvance(c, s, t, ReleaseOpener(id), UnlinkFailed(id));
    s' := ReturnAdvance(c, s1, t, UnlinkIf(id), DropDecrement(id, true, None));
    assert s'.links == map[];
    assert s'.tasks == s.tasks[t := DropDecrement(id, true, None)];
  }

  /** The request gives everything back and ends. */
  lemma EndRequest(c: Config, s: State, t: TaskId, id: EntryId) returns (s': State)
    requires Reachable(c, s) && t in s.tasks && s.tasks[t] == DropDecrement(id, true, None)
    requires id < |s.entries| && s.entries[id].counter == 1
    ensures Reachable(c, s')
    ensures s' == s.(entries := s.entries[id := s.entries[id].(counter := 0, tenantFree := s.entries[id].tenantFree + 1)],
                     processFree := s.processFree + 1, tasks := s.tasks - {t})
  {
    hide Reachable;
    var s1 := ReturnAdvance(c, s, t, LeaseDec(id), DropTenant(id));
    var s2 := ReturnAdvance(c, s1, t, FreeTenant(id), DropProcess);
    s' := LastStep(c, s2, t);
    assert s2.tasks - {t} == s.tasks - {t};
  }

  lemma LastStep(c: Config, s: State, t: TaskId) returns (s': State)
    requires Reachable(c, s) && t in s.tasks && s.tasks[t] == DropProcess
    ensures Reachable(c, s') && s' == s.(processFree := s.processFree + 1, tasks := s.tasks - {t})
  {
    hide Reachable;
    s' := s.(processFree := s.processFree + 1, tasks := s.tasks - {t});
    assert ReturnStep(c, s, DropProcess, FreeProcess, None);
    Extend(c, s, Run(t, FreeProcess, None), s');
  }

  /** A cleanup arrives and looks up the only, idle, entry. */
  lemma StartScan(c: Config, s: State, t: TaskId, n: Name) returns (s': State)
    requires Reachable(c, s) && t !in s.tasks && |s.tasks| + 1 < CLOSED
    requires n in s.links && At(s, s.links[n]).counter == 0
    ensures Reachable(c, s') && s' == s.(tasks := s.tasks[t := CleanCollect([n])])
  {
    var s1 := s.(tasks := s.tasks[t := CleanCollect([])]);
    Extend(c, s, Spawn(t, CleanCollect([])), s1);
    assert [] + [n] == [n];
    assert CleanStep(c, s1, s1.tasks[t], Local, Some(CleanCollect([n])));
    s' := CleanAdvance(c, s1, t, Local, CleanCollect([n]));
    assert s'.tasks == s.tasks[t := CleanCollect([n])];
  }

  lemma StartCleanup(c: Config, s: State, t: TaskId, n: Name, id: EntryId) returns (s': State)
    requires Reachable(c, s) && t !in s.tasks && |s.tasks| + 1 < CLOSED
    requires s.links == map[n := id] && id < |s.entries| && s.entries[id].counter == 0
    ensures Reachable(c, s') && s' == s.(tasks := s.tasks[t := TakeClose(n, id, Cleanup([]))])
  {
    var s2 := StartScan(c, s, t, n);
    var s3 := CleanAdvance(c, s2, t, Local, CleanNext([n]));
    assert [n][1..] == [];
    var s4 := CleanAdvance(c, s3, t, Local, TakeGet(n, Cleanup([])));
    s' := TakeAdvance(c, s4, t, Local, TakeClose(n, id, Cleanup([])));
    assert s'.tasks == s.tasks[t := TakeClose(n, id, Cleanup([]))];
  }

  /** A first request admits the entry, and a cleanup finds it idle. */
  lemma CleanupFindsEntry(c: Config, n: Name) returns (s: State)
    requires ValidConfig(c)
    ensures Reachable(c, s)
    ensures s == State(map[n := 0], [NewEntry(c, n)],
                       map[1 := LeaseLoad(0, Request(n, 0)), 2 := TakeClose(n, 0, Cleanup([]))],
                       None, c.maxRequests, multiset{})
  {
    assert IsRun(c, [Init(c)], []) && [Init(c)][0] == Init(c);
    assert Reachable(c, Init(c));
    hide Reachable, ValidConfig, IsRun;
    var s1 := AdmitNew(c, Init(c), 1, n);
    s := StartCleanup(c, s1, 2, n, 0);
  }

  /** The first request fails to open the entry and ends. */
  lemma FirstRequestFails(c: Config, n: Name) returns (s: State)
    requires ValidConfig(c)
    ensures Reachable(c, s)
    ensures s == State(map[], [NewEntry(c, n)], map[2 := TakeClose(n, 0, Cleanup([]))],
                       None, c.maxRequests, multiset{})
  {
    hide Reachable;
    var s1 := CleanupFindsEntry(c, n);
    var s2 := TakeLease(c, s1, 1, n, 0);
    var s3 := StartOpening(c, s2, 1, 0);
    var s4 := FailOpening(c, s3, 1, 0);
    s := EndRequest(c, s4, 1, 0);
    assert s.tasks == map[2 := TakeClose(n, 0, Cleanup([]))];
    assert s.entries == [NewEntry(c, n)];
  }

  /** The run up to the point where the second request is about to lease the fresh entry. */
  lemma TwoEntries(c: Config, n: Name) returns (s: State)
    requires ValidConfig(c)
    ensures Reachable(c, s)
    ensures s == State(map[n := 1], [NewEntry(c, n), NewEntry(c, n)],
                       map[2 := TakeClose(n, 0, Cleanup([])), 3 := LeaseLoad(1, Request(n, 0))],
                       None, c.maxRequests, multiset{})
  {
    hide Reachable;
    var s1 := FirstRequestFails(c, n);
    s := AdmitNew(c, s1, 3, n);
    assert s.entries == [NewEntry(c, n), NewEntry(c, n)];
  }

  /** With a failed open, `take` unlinks an entry that it did not close: it has closed the old entry
      of the name, and its `remove` takes out the new one, which is open and leased. */
  lemma TakeUnlinksALiveEntry(c: Config, n: Name)
    requires ValidConfig(c)
    ensures exists s, s' :: Reachable(c, s) && Next(c, s, Run(2, Unlink(n), Some(CleanClose(0, []))), s')
              && ClosingOf(s.tasks[2]) == Some(0) && n in s.links && s.links[n] == 1 && |s.entries| == 2
              && s.entries[1].name == n && s.entries[1].counter == 1 && s.entries[1].pools == Opened
              && 3 in s.tasks && s.tasks[3] == Holding(1)
              && n !in s'.links && s'.entries == s.entries
  {
    hide Reachable;
    var s0 := TwoEntries(c, n);
    var s1 := TakeLease(c, s0, 3, n, 1);
    var s2 := StartOpening(c, s1, 3, 1);
    var s3 := AdmitAdvance(c, s2, 3, PublishPools(1), Holding(1));
    var s4 := TakeAdvance(c, s3, 2, CloseCas(0), TakeUnlink(n, 0, Cleanup([])));
    var s5 := Stepped(c, s4, 2, Unlink(n), CleanClose(0, []));
    assert Next(c, s4, Run(2, Unlink(n), Some(CleanClose(0, []))), s5);
  }

  // ---- live leases on different entries of one name ----

  /** The tasks of `group` hold leases on different entries of `n`, each with open pools of its own. */
  ghost predicate HeldApart(s: State, n: Name, group: set<TaskId>) {
    && (forall t :: t in group ==>
          && t in s.tasks && s.tasks[t].Holding? && s.tasks[t].id < |s.entries|
          && s.entries[s.tasks[t].id].name == n && s.entries[s.tasks[t].id].counter == 1
          && s.entries[s.tasks[t].id].pools == Opened)
    && (forall t, u :: t in group && u in group && t != u ==> s.tasks[t].id != s.tasks[u].id)
  }

  /** Such a state in which nothing else is going on. */
  ghost predicate Orphaned(c: Config, s: State, n: Name, group: set<TaskId>) {
    && s.links == map[] && s.admission == None && s.tasks.Keys == group
    && s.processFree + |group| == c.maxRequests
    && HeldApart(s, n, group)
  }

  lemma {:induction false} Unused(ids: set<TaskId>) returns (t: TaskId)
    ensures forall u :: u in ids ==> u < t
    decreases |ids|
  {
    t := 0;
    if ids != {} {
      var u :| u in ids;
      var above := Unused(ids - {u});
      t := if above <= u then u + 1 else above;
      assert forall v :: v in ids ==> v == u || v in ids - {u};
    }
  }

  /** A request finds the entry of its name in the map. */
  lemma FindResident(c: Config, s: State, t: TaskId, n: Name) returns (s': State)
    requires Reachable(c, s) && n in s.links && t !in s.tasks && |s.tasks| + 1 < CLOSED
    ensures Reachable(c, s') && s' == s.(tasks := s.tasks[t := LeaseLoad(s.links[n], Request(n, 0))])
  {
    hide Reachable;
    var s1 := s.(tasks := s.tasks[t := Lookup(n, 0)]);
    Extend(c, s, Spawn(t, Lookup(n, 0)), s1);
    s' := SlotAdvance(c, s1, t, Local, LeaseLoad(s.links[n], Request(n, 0)));
    assert s'.tasks == s.tasks[t := LeaseLoad(s.links[n], Request(n, 0))];
  }

  /** A request fails to open the entry it is about to lease, unlinks it and ends. */
  lemma OpenFails(c: Config, s: State, t: TaskId, n: Name, id: EntryId) returns (s': State)
    requires Reachable(c, s) && t in s.tasks && s.tasks[t] == LeaseLoad(id, Request(n, 0)) && s.processFree > 0
    requires c.perDatabase > 0 && id < |s.entries| && s.entries[id] == NewEntry(c, n) && s.links == map[n := id]
    ensures Reachable(c, s') && s' == s.(links := map[], tasks := s.tasks - {t})
  {
    hide Reachable;
    var s1 := TakeLease(c, s, t, n, id);
    var s2 := StartOpening(c, s1, t, id);
    var s3 := FailOpening(c, s2, t, id);
    s' := EndRequest(c, s3, t, id);
    assert s'.tasks == s.tasks - {t};
    assert s'.entries == s.entries;
  }

  /** A request leases, opens and holds the entry it has found. */
  lemma OpenSucceeds(c: Config, s: State, t: TaskId, n: Name, id: EntryId) returns (s': State)
    requires Reachable(c, s) && t in s.tasks && s.tasks[t] == LeaseLoad(id, Request(n, 0)) && s.processFree > 0
    requires c.perDatabase > 0 && id < |s.entries| && s.entries[id] == NewEntry(c, n)
    ensures Reachable(c, s')
    ensures s' == s.(entries := s.entries[id := Entry(n, 1, c.perDatabase - 1, Opened, None, 0)],
                     processFree := s.processFree - 1, tasks := s.tasks[t := Holding(id)])
  {
    hide Reachable;
    var s1 := TakeLease(c, s, t, n, id);
    var s2 := StartOpening(c, s1, t, id);
    s' := AdmitAdvance(c, s2, t, PublishPools(id), Holding(id));
    assert s'.tasks == s.tasks[t := Holding(id)];
  }

  /** One failed open leaves one more live lease on an entry that the map does not know. */
  lemma OrphanOne(c: Config, s: State, n: Name, a: TaskId, b: TaskId) returns (s': State)
    requires ValidConfig(c) && Reachable(c, s) && s.links == map[] && s.admission == None && s.processFree > 0
    requires a !in s.tasks && b !in s.tasks && a != b && |s.tasks| + 2 < CLOSED
    ensures Reachable(c, s')
    ensures s' == s.(entries := s.entries + [Entry(n, 1, c.perDatabase - 1, Opened, None, 0)],
                     processFree := s.processFree - 1, tasks := s.tasks[b := Holding(|s.entries|)])
  {
    var id := |s.entries|;
    assert c.perDatabase > 0;
    hide Reachable, ValidConfig;
    var s1 := AdmitNew(c, s, a, n);
    var s2 := FindResident(c, s1, b, n);
    var s3 := OpenFails(c, s2, a, n, id);
    s' := OpenSucceeds(c, s3, b, n, id);
    assert s'.tasks == s.tasks[b := Holding(id)];
    assert s'.entries == s.entries + [Entry(n, 1, c.perDatabase - 1, Opened, None, 0)];
  }

  lemma JoinsApart(s: State, s': State, n: Name, group: set<TaskId>, b: TaskId)
    requires HeldApart(s, n, group) && b !in group && |s'.entries| == |s.entries| + 1
    requires s'.tasks == s.tasks[b := Holding(|s.entries|)] && s'.entries[..|s.entries|] == s.entries
    requires var x := s'.entries[|s.entries|]; x.name == n && x.counter == 1 && x.pools == Opened
    ensures HeldApart(s', n, group + {b})
  {
    assert forall id: EntryId :: id < |s.entries| ==> s'.entries[id] == s'.entries[..|s.entries|][id];
  }

  lemma OrphanMore(c: Config, s: State, n: Name, group: set<TaskId>) returns (s': State, group': set<TaskId>)
    requires ValidConfig(c) && Reachable(c, s) && Orphaned(c, s, n, group) && |group| < c.maxRequests
    ensures Reachable(c, s') && Orphaned(c, s', n, group') && |group'| == |group| + 1
  {
    hide Reachable, HeldApart, ValidConfig;
    var a := Unused(group);
    assert |s.tasks| == |s.tasks.Keys|;
    PermitsBounded(c);
    s' := OrphanOne(c, s, n, a, a + 1);
    group' := group + {a + 1};
    JoinsApart(s, s', n, group, a + 1);
  }

  lemma {:induction false} OrphanMany(c: Config, n: Name, k: nat) returns (s: State, group: set<TaskId>)
    requires ValidConfig(c) && k <= c.maxRequests
    ensures Reachable(c, s) && Orphaned(c, s, n, group) && |group| == k
    decreases k
  {
    if k == 0 {
      s, group := Init(c), {};
      assert IsRun(c, [Init(c)], []) && [Init(c)][0] == Init(c);
    } else {
      hide Reachable, Orphaned, ValidConfig;
      s, group := OrphanMany(c, n, k - 1);
      s, group := OrphanMore(c, s, n, group);
    }
  }

  lemma PermitsBounded(c: Config)
    requires ValidConfig(c)
    ensures c.maxRequests <= MAX_PERMITS
  {
  }

  lemma ReachableHandsOut(c: Config, s: State)
    requires ValidConfig(c) && Reachable(c, s)
    ensures |Select(s.tasks, HandedOut())| <= c.maxRequests
  {
    var states: seq<State>, actions: seq<Action> :| IsRun(c, states, actions) && states[|actions|] == s;
    AdmissionBounds(c, states, actions, |actions|, 0);
  }

  /** Exactly as many live leases can be spread over different entries of one name, each with its own
      open pools on the same file, as the process admits requests. */
  lemma LeasesOfOneNameApart(c: Config, n: Name, k: nat)
    requires ValidConfig(c)
    ensures (exists s, group :: Reachable(c, s) && HeldApart(s, n, group) && |group| == k) <==> k <= c.maxRequests
  {
    hide Reachable, ValidConfig;
    if k <= c.maxRequests {
      var s, group := OrphanMany(c, n, k);
    }
    forall s, group | Reachable(c, s) && HeldApart(s, n, group) && |group| == k
      ensures k <= c.maxRequests
    {
      SubsetCardinality(group, Select(s.tasks, HandedOut()));
      ReachableHandsOut(c, s);
    }
  }

  /** Two requests can use different entries of one name at the same time if and only if the process
      admits two requests. */
  lemma TwoLiveEntriesOfOneName(c: Config, n: Name)
    requires ValidConfig(c)
    ensures (exists s, t, u :: Reachable(c, s) && t != u && HeldApart(s, n, {t, u})) <==> c.maxRequests >= 2
  {
    hide Reachable, ValidConfig, HeldApart;
    LeasesOfOneNameApart(c, n, 2);
    if c.maxRequests >= 2 {
      var s, group :| Reachable(c, s) && HeldApart(s, n, group) && |group| == 2;
      var t, u := Pair(group);
    }
    forall s, t, u | Reachable(c, s) && t != u && HeldApart(s, n, {t, u})
      ensures c.maxRequests >= 2
    {
      assert |{t, u}| == 2;
    }
  }

  lemma Pair(group: set<TaskId>) returns (t: TaskId, u: TaskId)
    requires |group| == 2
    ensures t != u && group == {t, u}
  {
    t :| t in group;
    RemoveOne(group, t);
    u :| u in group - {t};
    RemoveOne(group - {t}, u);
    assert group - {t} - {u} == {};
  }

  /** The per-database bound can be exceeded for a name if and only if the process admits more requests
      than one entry does. */
  lemma NameBoundCanBreak(c: Config, n: Name)
    requires ValidConfig(c)
    ensures (exists s :: Reachable(c, s) && |Select(s.tasks, HandedOutUnder(s.entries, n))| > c.perDatabase)
            <==> c.maxRequests > c.perDatabase
  {
    hide Reachable, ValidConfig;
    if c.maxRequests > c.perDatabase {
      LeasesOfOneNameApart(c, n, c.perDatabase + 1);
      var s, group :| Reachable(c, s) && HeldApart(s, n, group) && |group| == c.perDatabase + 1;
      SubsetCardinality(group, Select(s.tasks, HandedOutUnder(s.entries, n)));
    }
    forall s | Reachable(c, s) && |Select(s.tasks, HandedOutUnder(s.entries, n))| > c.perDatabase
      ensures c.maxRequests > c.perDatabase
    {
      SubsetCardinality(Select(s.tasks, HandedOutUnder(s.entries, n)), Select(s.tasks, HandedOut()));
      ReachableHandsOut(c, s);
    }
  }
}
