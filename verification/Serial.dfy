/** The registry itself, driven by a serial trace, ends up with the most recently used tenants. */
module Serial {
  import opened Vocabulary
  import opened CacheSpec
  import opened Lru
  import opened Registry

  /** Nothing is leased and every tenant has all its slots. */
  predicate AtRest(l: Limits, m: Residents) {
    forall n :: n in m ==> m[n].leases == 0 && m[n].free == l.perDatabase
  }

  /** With nobody else around, an acquire of a valid name whose database opens gets its lease. */
  lemma AloneIsLeased(
      l: Limits, m: Residents, n: Name, now: nat, answer: Answer, m': Residents, free: nat)
    requires ValidLimits(l) && AtRest(l, m) && ValidName(n)
    requires Acquired(l, m, l.maxRequests, n, now, true, answer, m', free)
    ensures answer == Leased && n in m' && m'[n].leases == 1
  {
    hide ValidName;
    if AllLeased(m) {
      assert m.Keys == {};
      assert |m| == |m.Keys|;
    }
  }

  lemma RefinesAtRest(l: Limits, m: Residents, u: map<Name, nat>, cut: int)
    requires Refines(l, m, u, cut)
    ensures AtRest(l, m)
  {
  }

  lemma AllSlotsFree(manager: DatabaseManager)
    requires manager.Valid() && manager.held == multiset{}
    ensures manager.slots == manager.limits.maxRequests && ValidLimits(manager.limits)
  {
  }

  lemma OneLease(name: Name)
    ensures name in multiset{} + multiset{name} && multiset{} + multiset{name} - multiset{name} == multiset{}
  {
  }

  /** A request that acquires its lease and drops it. */
  method ServeUse(manager: DatabaseManager, name: Name, from: nat, at: nat)
    requires manager.Valid() && manager.held == multiset{} && AtRest(manager.limits, manager.residents)
    requires ValidName(name)
    modifies manager, manager.repr
    ensures manager.Valid() && manager.held == multiset{} && fresh(manager.repr - old(manager.repr))
    ensures Served(manager.limits, old(manager.residents), Use(name, from, at), manager.residents)
  {
    hide *;
    AllSlotsFree(manager);
    OneLease(name);
    var answer, lease := manager.Acquire(name, from, true);
    AloneIsLeased(manager.limits, old(manager.residents), name, from, answer, manager.residents, manager.slots);
    ghost var leased, free := manager.residents, manager.slots;
    manager.Release(lease.value, at);
    UseServed(manager.limits, old(manager.residents), name, from, at, leased, free);
  }

  /** One event: a request, or a cleanup. */
  method ServeEvent(manager: DatabaseManager, e: Event)
    requires manager.Valid() && manager.held == multiset{} && AtRest(manager.limits, manager.residents)
    requires e.Use? ==> ValidName(e.name)
    modifies manager, manager.repr
    ensures manager.Valid() && manager.held == multiset{} && fresh(manager.repr - old(manager.repr))
    ensures Served(manager.limits, old(manager.residents), e, manager.residents)
  {
    hide Acquired, AtRest, Ledgered, DatabaseManager.Linked, DatabaseManager.Accounted, ValidName;
    match e
    case Use(name, from, at) => ServeUse(manager, name, from, at);
    case Clean(at) => var closed := manager.CleanupIdle(at);
  }

  lemma UseServed(
      l: Limits, m: Residents, n: Name, from: nat, at: nat, leased: Residents, free: nat)
    requires Acquired(l, m, l.maxRequests, n, from, true, Leased, leased, free)
    requires n in leased && leased[n].leases > 0
    ensures Served(l, m, Use(n, from, at), Released(leased, n, at))
  {
    hide Acquired;
  }

  /** For every serial trace of valid names, a registry that serves it ends with exactly the
      `maxOpen` most recently used of them whose last use is after every cleanup cutoff. */
  method ServeTrace(limits: Limits, trace: seq<Event>) returns (manager: DatabaseManager)
    requires ValidLimits(limits) && Ordered(trace)
    requires forall i :: 0 <= i < |trace| && trace[i].Use? ==> ValidName(trace[i].name)
    ensures fresh(manager) && manager.Valid() && manager.limits == limits
    ensures manager.entries.Keys == MostRecent(limits.maxOpen, LastUse(trace), HighestCutoff(limits, trace))
  {
    hide *;
    manager := new DatabaseManager(limits);
    ghost var ms := [manager.residents];
    StartServed(limits, trace);
    for i := 0 to |trace|
      invariant manager.Valid() && manager.limits == limits && manager.held == multiset{}
      invariant fresh(manager) && fresh(manager.repr)
      invariant |ms| == i + 1 && ms[i] == manager.residents && ServedTrace(limits, trace[..i], ms)
    {
      ServedSoFar(limits, trace, ms, i);
      ServeEvent(manager, trace[i]);
      ServedOneMore(limits, trace, ms, i, manager.residents);
      ms := ms + [manager.residents];
    }
    assert trace[..|trace|] == trace;
    ResidentsAreTheMostRecent(limits, trace, ms);
    RefinesKeys(limits, ms[|trace|], LastUse(trace), HighestCutoff(limits, trace));
    LinkedKeys(manager);
  }

  lemma LinkedKeys(manager: DatabaseManager)
    requires manager.Valid()
    ensures manager.entries.Keys == manager.residents.Keys
  {
  }

  lemma RefinesKeys(l: Limits, m: Residents, u: map<Name, nat>, cut: int)
    requires Refines(l, m, u, cut)
    ensures m.Keys == MostRecent(l.maxOpen, u, cut)
  {
  }

  lemma StartServed(l: Limits, trace: seq<Event>)
    ensures ServedTrace(l, trace[..0], [map[]])
  {
  }

  lemma ServedOneMore(l: Limits, trace: seq<Event>, ms: seq<Residents>, i: nat, m: Residents)
    requires i < |trace| && ServedTrace(l, trace[..i], ms) && |ms| == i + 1 && Served(l, ms[i], trace[i], m)
    ensures ServedTrace(l, trace[..i + 1], ms + [m])
  {
    hide Served;
    var longer := ms + [m];
    forall k | 0 <= k < i + 1
      ensures Served(l, longer[k], trace[..i + 1][k], longer[k + 1])
    {
      if k < i {
        assert Served(l, ms[k], trace[..i][k], ms[k + 1]);
      }
    }
  }

  lemma ServedSoFar(l: Limits, trace: seq<Event>, ms: seq<Residents>, i: nat)
    requires ValidLimits(l) && Ordered(trace) && i < |trace| && ServedTrace(l, trace[..i], ms)
    ensures |ms| == i + 1 && AtRest(l, ms[i])
  {
    hide Served;
    assert Ordered(trace[..i]);
    ResidentsAreTheMostRecent(l, trace[..i], ms);
    RefinesAtRest(l, ms[i], LastUse(trace[..i]), HighestCutoff(l, trace[..i]));
  }
}
