/** Served one request at a time, the registry keeps exactly the most recently used tenants. */
module Lru {
  import opened Prelude
  import opened Vocabulary
  import opened CacheSpec

  /** A request acquires `name` at `from` and drops its lease at `at`, or a cleanup runs. */
  datatype Event =
    | Use(name: Name, from: nat, at: nat)
    | Clean(at: nat)

  function StartOf(e: Event): nat {
    if e.Use? then e.from else e.at
  }

  /** Events do not overlap, and the clock moves on between them. */
  predicate Ordered(trace: seq<Event>) {
    && (forall i :: 0 <= i < |trace| ==> StartOf(trace[i]) <= trace[i].at)
    && (forall i, j :: 0 <= i < j < |trace| ==> trace[i].at < StartOf(trace[j]))
  }

  /** One event of a serial trace in which every open succeeds. */
  ghost predicate Served(l: Limits, m: Residents, e: Event, m': Residents) {
    match e
    case Use(n, from, at) =>
      exists m1: Residents, free: nat :: Acquired(l, m, l.maxRequests, n, from, true, Leased, m1, free)
                         && n in m1 && m1[n].leases > 0 && m' == Released(m1, n, at)
    case Clean(at) => m' == Cleaned(l, m, at)
  }

  ghost predicate ServedTrace(l: Limits, trace: seq<Event>, ms: seq<Residents>) {
    && |ms| == |trace| + 1
    && ms[0] == map[]
    && forall i {:trigger trace[i]} :: 0 <= i < |trace| ==> Served(l, ms[i], trace[i], ms[i + 1])
  }

  // ---- the plain specification ----

  /** When each name was last used. */
  function LastUse(trace: seq<Event>): map<Name, nat> {
    if trace == [] then map[]
    else
      var e, before := trace[|trace| - 1], LastUse(trace[..|trace| - 1]);
      if e.Use? then before[e.name := e.at] else before
  }

  /** The latest cutoff of any cleanup, or -1. */
  function HighestCutoff(l: Limits, trace: seq<Event>): int {
    if trace == [] then -1
    else
      var e, before := trace[|trace| - 1], HighestCutoff(l, trace[..|trace| - 1]);
      if e.Clean? && Cutoff(l, e.at) > before then Cutoff(l, e.at) else before
  }

  /** The names used more recently than `n`. */
  ghost function Newer(u: map<Name, nat>, n: Name): set<Name>
    requires n in u
  {
    set x | x in u && u[x] > u[n]
  }

  /** `n` ranks among the `max` most recently used names and was used after every cutoff. */
  ghost predicate Recent(max: nat, u: map<Name, nat>, cut: int, n: Name) {
    n in u && |Newer(u, n)| < max && u[n] > cut
  }

  ghost function MostRecent(max: nat, u: map<Name, nat>, cut: int): set<Name> {
    set n | n in u && Recent(max, u, cut, n)
  }

  // ---- facts about recency ----

  ghost predicate Distinct(u: map<Name, nat>) {
    forall x, y :: x in u && y in u && x != y ==> u[x] != u[y]
  }

  /** Whatever is newer than a recent name is recent too. */
  lemma RecentIsUpwardClosed(max: nat, u: map<Name, nat>, cut: int, n: Name)
    requires Recent(max, u, cut, n)
    ensures Newer(u, n) <= MostRecent(max, u, cut) - {n}
  {
    forall x | x in Newer(u, n)
      ensures Recent(max, u, cut, x)
    {
      SubsetCardinality(Newer(u, x), Newer(u, n));
    }
  }

  /** A new use adds one newer name to every name that was newer than the used one. */
  lemma NewerAfterUse(u: map<Name, nat>, n: Name, at: nat, x: Name)
    requires x in u && x != n && forall y :: y in u ==> u[y] < at
    ensures Newer(u[n := at], x) == Newer(u, x) + {n}
    ensures |Newer(u[n := at], x)| == |Newer(u, x)| + Bit(n !in Newer(u, x))
  {
    assert Newer(u[n := at], x) == Newer(u, x) + {n};
    if n in Newer(u, x) {
      assert Newer(u, x) + {n} == Newer(u, x);
    }
  }

  lemma UsedNameIsNewest(u: map<Name, nat>, n: Name, at: nat)
    requires forall y :: y in u ==> u[y] < at
    ensures Newer(u[n := at], n) == {}
  {
  }

  /** Using a name that is recent already keeps the same names recent. */
  lemma UseOfRecent(max: nat, u: map<Name, nat>, cut: int, n: Name, at: nat)
    requires Distinct(u) && (forall y :: y in u ==> u[y] < at) && at > cut && Recent(max, u, cut, n)
    ensures MostRecent(max, u[n := at], cut) == MostRecent(max, u, cut)
  {
    UsedNameIsNewest(u, n, at);
    forall x | x in u && x != n
      ensures Recent(max, u[n := at], cut, x) <==> Recent(max, u, cut, x)
    {
      NewerAfterUse(u, n, at, x);
      if n !in Newer(u, x) && Recent(max, u, cut, x) {
        assert Newer(u, x) < Newer(u, n) by { assert x in Newer(u, n); }
        SubsetCardinality(Newer(u, x), Newer(u, n));
      }
    }
  }

  /** A recent name keeps its rank within reach while there is room for one more. */
  lemma StaysWithRoom(max: nat, u: map<Name, nat>, cut: int, x: Name)
    requires Recent(max, u, cut, x) && |MostRecent(max, u, cut)| < max
    ensures |Newer(u, x)| + 1 < max
  {
    var r := MostRecent(max, u, cut);
    RecentIsUpwardClosed(max, u, cut, x);
    SubsetCardinality(Newer(u, x), r - {x});
    RemoveOne(r, x);
  }

  /** With room to spare, a new name joins and nobody leaves. */
  lemma UseOfNewWithRoom(max: nat, u: map<Name, nat>, cut: int, n: Name, at: nat)
    requires (forall y :: y in u ==> u[y] < at) && at > cut && !Recent(max, u, cut, n)
    requires |MostRecent(max, u, cut)| < max
    ensures MostRecent(max, u[n := at], cut) == MostRecent(max, u, cut) + {n}
  {
    hide Newer;
    UsedNameIsNewest(u, n, at);
    forall x | x in u && x != n
      ensures Recent(max, u[n := at], cut, x) <==> Recent(max, u, cut, x)
    {
      NewerAfterUse(u, n, at, x);
      if Recent(max, u, cut, x) {
        StaysWithRoom(max, u, cut, x);
      }
    }
  }

  /** The least recent of the recent names. */
  ghost predicate Oldest(max: nat, u: map<Name, nat>, cut: int, v: Name) {
    v in u && v in MostRecent(max, u, cut) && forall x :: x in MostRecent(max, u, cut) ==> u[v] <= u[x]
  }

  lemma OldestRank(max: nat, u: map<Name, nat>, cut: int, v: Name)
    requires Distinct(u) && Oldest(max, u, cut, v) && |MostRecent(max, u, cut)| >= max
    ensures |Newer(u, v)| == max - 1 && |MostRecent(max, u, cut)| == max
  {
    var r := MostRecent(max, u, cut);
    RecentIsUpwardClosed(max, u, cut, v);
    assert Newer(u, v) == r - {v};
    RemoveOne(r, v);
  }

  lemma OthersOutrankOldest(max: nat, u: map<Name, nat>, cut: int, v: Name, x: Name)
    requires Distinct(u) && Oldest(max, u, cut, v) && |MostRecent(max, u, cut)| == max
    requires Recent(max, u, cut, x) && x != v
    ensures |Newer(u, x)| + 1 < max
  {
    var r := MostRecent(max, u, cut);
    RecentIsUpwardClosed(max, u, cut, x);
    assert Newer(u, x) <= r - {v} - {x};
    SubsetCardinality(Newer(u, x), r - {v} - {x});
    RemoveOne(r, v);
    RemoveOne(r - {v}, x);
  }

  lemma OlderThanOldest(max: nat, u: map<Name, nat>, cut: int, n: Name, v: Name)
    requires Oldest(max, u, cut, v) && !Recent(max, u, cut, n)
    ensures n !in Newer(u, v)
  {
    RecentIsUpwardClosed(max, u, cut, v);
  }

  /** Who is recent after a new name has come in without room. */
  lemma RankAfterNewcomer(max: nat, u: map<Name, nat>, cut: int, n: Name, at: nat, v: Name, x: Name)
    requires Distinct(u) && (forall y :: y in u ==> u[y] < at) && !Recent(max, u, cut, n)
    requires |MostRecent(max, u, cut)| == max && Oldest(max, u, cut, v) && |Newer(u, v)| == max - 1
    requires x in u && x != n && n !in Newer(u, v)
    ensures Recent(max, u[n := at], cut, x) <==> Recent(max, u, cut, x) && x != v
  {
    hide Newer, Distinct, Oldest, MostRecent;
    NewerAfterUse(u, n, at, x);
    if Recent(max, u, cut, x) && x != v {
      OthersOutrankOldest(max, u, cut, v, x);
    }
  }

  /** Without room, the least recent of the recent names makes way. */
  lemma UseOfNewWithoutRoom(max: nat, u: map<Name, nat>, cut: int, n: Name, at: nat, v: Name)
    requires Distinct(u) && (forall y :: y in u ==> u[y] < at) && at > cut && !Recent(max, u, cut, n)
    requires |MostRecent(max, u, cut)| >= max && Oldest(max, u, cut, v)
    ensures MostRecent(max, u[n := at], cut) == MostRecent(max, u, cut) - {v} + {n}
  {
    UsedNameIsNewest(u, n, at);
    OldestRank(max, u, cut, v);
    OlderThanOldest(max, u, cut, n, v);
    hide Newer, Distinct, Oldest;
    forall x | x in u && x != n
      ensures Recent(max, u[n := at], cut, x) <==> Recent(max, u, cut, x) && x != v
    {
      RankAfterNewcomer(max, u, cut, n, at, v, x);
    }
  }

  // ---- the registry refines it ----

  /** Between events nothing is leased and every slot is free. */
  ghost predicate Refines(l: Limits, m: Residents, u: map<Name, nat>, cut: int) {
    && m.Keys == MostRecent(l.maxOpen, u, cut)
    && forall n :: n in m ==> m[n] == Slot(0, l.perDatabase, u[n], true)
  }

  /** A served use admits its name, leases it and gives the lease back. */
  lemma UseAdmits(l: Limits, m: Residents, e: Event, m': Residents) returns (base: Residents)
    requires ValidLimits(l) && e.Use? && Served(l, m, e, m')
    requires forall x :: x in m ==> m[x].leases == 0 && m[x].free == l.perDatabase
    ensures Admitted(l, m, e.name, e.from, base)
    ensures m' == base[e.name := Slot(0, l.perDatabase, e.at, true)]
  {
    hide ValidName, AllLeased, Admitted;
    var n := e.name;
    var m1: Residents, free: nat :| Acquired(l, m, l.maxRequests, n, e.from, true, Leased, m1, free)
                                    && n in m1 && m1[n].leases > 0 && m' == Released(m1, n, e.at);
    base :| Admitted(l, m, n, e.from, base) && Granted(base, l.maxRequests, n, e.from, true, Leased, m1, free);
    AdmittedUnleased(l, m, n, e.from, base);
  }

  lemma AdmittedUnleased(l: Limits, m: Residents, n: Name, now: nat, base: Residents)
    requires Admitted(l, m, n, now, base) && n in base
    requires forall x :: x in m ==> m[x].leases == 0 && m[x].free == l.perDatabase
    ensures base[n].leases == 0 && base[n].free == l.perDatabase
  {
  }

  /** What one served use leaves, from residents that are all unleased. */
  lemma UseLeaves(l: Limits, m: Residents, e: Event, m': Residents) returns (victim: Option<Name>)
    requires ValidLimits(l) && e.Use? && Served(l, m, e, m')
    requires forall x :: x in m ==> m[x].leases == 0 && m[x].free == l.perDatabase
    ensures victim.Some? <==> e.name !in m && |m| >= l.maxOpen
    ensures victim.Some? ==> IsVictim(m, victim.value)
    ensures m' == (if victim.Some? then m - {victim.value} else m)[e.name := Slot(0, l.perDatabase, e.at, true)]
  {
    hide Served;
    var n, used := e.name, Slot(0, l.perDatabase, e.at, true);
    var base := UseAdmits(l, m, e, m');
    victim := None;
    if n !in m && |m| >= l.maxOpen {
      var v :| IsVictim(m, v) && base == (m - {v})[n := Fresh(l, e.from)];
      victim := Some(v);
      assert base[n := used] == (m - {v})[n := used];
    } else {
      assert base[n := used] == m[n := used];
    }
  }

  lemma UseRefines(l: Limits, m: Residents, u: map<Name, nat>, cut: int, e: Event, m': Residents)
    requires ValidLimits(l) && Refines(l, m, u, cut) && Distinct(u)
    requires e.Use? && Served(l, m, e, m') && (forall y :: y in u ==> u[y] < e.from) && e.from <= e.at && e.from > cut
    ensures Refines(l, m', u[e.name := e.at], cut)
  {
    hide Served, Recent, MostRecent, Distinct, IsVictim, Oldest;
    var n, at := e.name, e.at;
    var victim := UseLeaves(l, m, e, m');
    assert |m| == |m.Keys|;
    assert n in m <==> Recent(l.maxOpen, u, cut, n) by { ResidentIffRecent(l, m, u, cut, n); }
    if n in m {
      UseOfRecent(l.maxOpen, u, cut, n, at);
      assert m'.Keys == m.Keys;
    } else if victim.None? {
      UseOfNewWithRoom(l.maxOpen, u, cut, n, at);
      assert m'.Keys == m.Keys + {n};
    } else {
      VictimIsOldest(l, m, u, cut, victim.value);
      UseOfNewWithoutRoom(l.maxOpen, u, cut, n, at, victim.value);
      assert m'.Keys == m.Keys - {victim.value} + {n};
    }
  }

  lemma ResidentIffRecent(l: Limits, m: Residents, u: map<Name, nat>, cut: int, n: Name)
    requires Refines(l, m, u, cut)
    ensures n in m <==> Recent(l.maxOpen, u, cut, n)
    ensures n in m ==> n in u
  {
  }

  lemma VictimIsOldest(l: Limits, m: Residents, u: map<Name, nat>, cut: int, v: Name)
    requires Refines(l, m, u, cut) && IsVictim(m, v)
    ensures Oldest(l.maxOpen, u, cut, v)
  {
    ResidentIffRecent(l, m, u, cut, v);
  }

  lemma CleanRefines(l: Limits, m: Residents, u: map<Name, nat>, cut: int, at: nat)
    requires Refines(l, m, u, cut)
    ensures Refines(l, Cleaned(l, m, at), u, if Cutoff(l, at) > cut then Cutoff(l, at) else cut)
  {
    var cut' := if Cutoff(l, at) > cut then Cutoff(l, at) else cut;
    assert Cleaned(l, m, at).Keys == MostRecent(l.maxOpen, u, cut');
  }

  /** Uses lie before the end of the trace, at distinct times. */
  lemma {:induction false} LastUseBounded(l: Limits, trace: seq<Event>)
    requires Ordered(trace)
    ensures Distinct(LastUse(trace))
    ensures forall y :: y in LastUse(trace) ==> trace != [] && LastUse(trace)[y] <= trace[|trace| - 1].at
    ensures trace != [] ==> HighestCutoff(l, trace) <= trace[|trace| - 1].at
    ensures trace == [] ==> HighestCutoff(l, trace) < 0
  {
    if trace != [] {
      var before := trace[..|trace| - 1];
      LastUseBounded(l, before);
      if before != [] {
        assert before[|before| - 1] == trace[|trace| - 2];
      }
    }
  }

  /** For every serial trace with successful opens, the residents are exactly the `maxOpen` most
      recently used names whose last use is after every cleanup cutoff. */
  lemma {:induction false} ResidentsAreTheMostRecent(l: Limits, trace: seq<Event>, ms: seq<Residents>)
    requires ValidLimits(l) && Ordered(trace) && ServedTrace(l, trace, ms)
    ensures Refines(l, ms[|trace|], LastUse(trace), HighestCutoff(l, trace))
  {
    if trace == [] {
      assert MostRecent(l.maxOpen, LastUse(trace), HighestCutoff(l, trace)) == {};
    } else {
      var k := |trace| - 1;
      var before := trace[..k];
      assert forall i :: 0 <= i < |before| ==> before[i] == trace[i];
      ResidentsAreTheMostRecent(l, before, ms[..k + 1]);
      LastUseBounded(l, before);
      var u, cut, e := LastUse(before), HighestCutoff(l, before), trace[k];
      assert Served(l, ms[k], e, ms[k + 1]);
      if k > 0 {
        assert before[|before| - 1] == trace[k - 1];
      }
      if e.Use? {
        UseRefines(l, ms[k], u, cut, e, ms[k + 1]);
      } else {
        CleanRefines(l, ms[k], u, cut, e.at);
      }
    }
  }

  /** The inclusion property of LRU: on the same trace, more capacity never loses a resident. */
  lemma MoreCapacityKeepsResidents(
      l: Limits, larger: Limits, trace: seq<Event>, ms: seq<Residents>, more: seq<Residents>)
    requires ValidLimits(l) && larger == l.(maxOpen := larger.maxOpen) && l.maxOpen <= larger.maxOpen
    requires Ordered(trace) && ServedTrace(l, trace, ms) && ServedTrace(larger, trace, more)
    ensures ms[|trace|].Keys <= more[|trace|].Keys
  {
    ResidentsAreTheMostRecent(l, trace, ms);
    ResidentsAreTheMostRecent(larger, trace, more);
    SameCutoffs(l, larger, trace);
  }

  lemma {:induction false} SameCutoffs(l: Limits, larger: Limits, trace: seq<Event>)
    requires l.idleSeconds == larger.idleSeconds
    ensures HighestCutoff(l, trace) == HighestCutoff(larger, trace)
  {
    if trace != [] {
      SameCutoffs(l, larger, trace[..|trace| - 1]);
    }
  }
}
