/** Whole runs of the registry: when an idle tenant is closed, and who is evicted first.

    A checkpoint touches every resident like a use.  So the two promises about idle tenants hold
    under exact conditions on the last checkpoint, and break in the histories given here. */
module Recency {
  import opened Vocabulary
  import opened CacheSpec

  /** The operations on the registry, in the order in which they happen. */
  datatype Operation =
    | Request(name: Name, at: nat, openable: bool)
    | Drop(name: Name, at: nat)
    | Checkpoint(at: nat)
    | Clean(at: nat)

  ghost predicate Leads(l: Limits, m: Residents, op: Operation, m': Residents) {
    match op
    case Request(n, at, openable) =>
      exists free: nat, answer: Answer, free': nat :: Acquired(l, m, free, n, at, openable, answer, m', free')
    case Drop(n, at) => n in m && m[n].leases > 0 && m' == Released(m, n, at)
    case Checkpoint(at) => m' == Checkpointed(m, at)
    case Clean(at) => m' == Cleaned(l, m, at)
  }

  /** A run of the registry whose clock never goes back. */
  ghost predicate IsHistory(l: Limits, ops: seq<Operation>, ms: seq<Residents>) {
    && |ms| == |ops| + 1 && ms[0] == map[]
    && (forall i {:trigger ops[i]} :: 0 <= i < |ops| ==> Leads(l, ms[i], ops[i], ms[i + 1]))
    && (forall i, j :: 0 <= i <= j < |ops| ==> ops[i].at <= ops[j].at)
  }

  // ---- what a last use is ----

  predicate Names(op: Operation, n: Name) {
    (op.Request? || op.Drop?) && op.name == n
  }

  /** When a request for `n` last arrived or ended; -1 if none has. */
  function LastAsked(ops: seq<Operation>, n: Name): int {
    if ops == [] then -1
    else if Names(ops[|ops| - 1], n) then ops[|ops| - 1].at
    else LastAsked(ops[..|ops| - 1], n)
  }

  /** When a checkpoint last ran; -1 if none has. */
  function LastCheckpoint(ops: seq<Operation>): int {
    if ops == [] then -1
    else if ops[|ops| - 1].Checkpoint? then ops[|ops| - 1].at
    else LastCheckpoint(ops[..|ops| - 1])
  }

  function Later(a: int, b: int): int {
    if a <= b then b else a
  }

  /** Each resident was last used when it was last asked for, or by a later checkpoint. */
  predicate Tracks(m: Residents, ops: seq<Operation>) {
    forall n :: n in m ==> ValidName(n) && m[n].lastUsed == Later(LastAsked(ops, n), LastCheckpoint(ops))
  }

  lemma OneMore(ops: seq<Operation>, i: nat, n: Name)
    requires i < |ops|
    ensures LastAsked(ops[..i + 1], n) == if Names(ops[i], n) then ops[i].at else LastAsked(ops[..i], n)
    ensures LastCheckpoint(ops[..i + 1]) == if ops[i].Checkpoint? then ops[i].at else LastCheckpoint(ops[..i])
  {
    assert ops[..i + 1][..i] == ops[..i];
  }

  lemma {:induction false} LastsBounded(ops: seq<Operation>, i: nat, n: Name, at: int)
    requires i <= |ops| && at >= -1 && forall k :: 0 <= k < i ==> ops[k].at <= at
    ensures LastAsked(ops[..i], n) <= at && LastCheckpoint(ops[..i]) <= at
  {
    if i > 0 {
      OneMore(ops, i - 1, n);
      LastsBounded(ops, i - 1, n, at);
    }
  }

  /** A request touches its own tenant, if that ends up resident, and no other. */
  lemma RequestTouches(
      l: Limits, m: Residents, free: nat, n: Name, now: nat, openable: bool,
      answer: Answer, m': Residents, free': nat, x: Name)
    requires Acquired(l, m, free, n, now, openable, answer, m', free') && x in m'
    requires forall y :: y in m ==> ValidName(y)
    ensures if x == n then ValidName(n) && m'[n].lastUsed == now else x in m && m'[x] == m[x]
  {
    hide ValidName, AllLeased, IsVictim;
  }

  lemma LeadsTracks(l: Limits, ops: seq<Operation>, ms: seq<Residents>, i: nat, x: Name)
    requires IsHistory(l, ops, ms) && i < |ops| && Tracks(ms[i], ops[..i]) && x in ms[i + 1]
    ensures ValidName(x)
    ensures ms[i + 1][x].lastUsed == Later(LastAsked(ops[..i + 1], x), LastCheckpoint(ops[..i + 1]))
  {
    hide Acquired, ValidName, LastAsked, LastCheckpoint;
    var m, op, m' := ms[i], ops[i], ms[i + 1];
    assert Leads(l, m, op, m');
    OneMore(ops, i, x);
    LastsBounded(ops, i, x, op.at);
    if op.Request? {
      var free: nat, answer: Answer, free': nat :|
        Acquired(l, m, free, op.name, op.at, op.openable, answer, m', free');
      RequestTouches(l, m, free, op.name, op.at, op.openable, answer, m', free', x);
    }
  }

  lemma {:induction false} HistoryTracks(l: Limits, ops: seq<Operation>, ms: seq<Residents>, i: nat)
    requires IsHistory(l, ops, ms) && i <= |ops|
    ensures Tracks(ms[i], ops[..i])
  {
    hide ValidName, Leads;
    if i > 0 {
      HistoryTracks(l, ops, ms, i - 1);
      forall n | n in ms[i]
        ensures ValidName(n) && ms[i][n].lastUsed == Later(LastAsked(ops[..i], n), LastCheckpoint(ops[..i]))
      {
        LeadsTracks(l, ops, ms, i - 1, n);
      }
    }
  }

  // ---- idle tenants ----

  /** In every run a cleanup closes exactly the tenants that are unleased, were last asked for at or
      before the cutoff, and have seen no checkpoint since the cutoff. */
  lemma ClosedIffNoCheckpointSince(l: Limits, ops: seq<Operation>, ms: seq<Residents>, i: nat, n: Name)
    requires IsHistory(l, ops, ms) && i < |ops| && ops[i].Clean? && n in ms[i]
    ensures var cutoff := Cutoff(l, ops[i].at);
            n !in ms[i + 1] <==>
              ms[i][n].leases == 0 && LastAsked(ops[..i], n) <= cutoff && LastCheckpoint(ops[..i]) <= cutoff
  {
    HistoryTracks(l, ops, ms, i);
    assert Leads(l, ms[i], ops[i], ms[i + 1]);
  }

  lemma {:induction false} CheckpointIsLast(ops: seq<Operation>, j: nat, i: nat)
    requires j < i <= |ops| && ops[j].Checkpoint? && forall k :: j <= k < i ==> ops[j].at <= ops[k].at
    ensures LastCheckpoint(ops[..i]) >= ops[j].at
  {
    OneMore(ops, i - 1, "");
    if !ops[i - 1].Checkpoint? {
      CheckpointIsLast(ops, j, i - 1);
    }
  }

  /** So when checkpoints come more often than the idle timeout, a cleanup closes nothing. */
  lemma CleanupClosesNothing(l: Limits, ops: seq<Operation>, ms: seq<Residents>, j: nat, i: nat)
    requires IsHistory(l, ops, ms) && j < i < |ops| && ops[j].Checkpoint? && ops[i].Clean?
    requires ops[j].at > Cutoff(l, ops[i].at)
    ensures ms[i + 1] == ms[i]
  {
    CheckpointIsLast(ops, j, i);
    assert Leads(l, ms[i], ops[i], ms[i + 1]);
    forall n | n in ms[i]
      ensures n in ms[i + 1]
    {
      ClosedIffNoCheckpointSince(l, ops, ms, i, n);
    }
  }

  /** An unleased tenant that nobody has asked for since the cutoff survives the `i`-th operation, a cleanup. */
  ghost predicate StaysIdle(l: Limits, ops: seq<Operation>, ms: seq<Residents>, i: nat, n: Name) {
    && IsHistory(l, ops, ms) && i < |ops| && ops[i].Clean?
    && n in ms[i] && ms[i][n].leases == 0 && LastAsked(ops[..i], n) <= Cutoff(l, ops[i].at)
    && n in ms[i + 1]
  }

  /** A cleanup can leave an idle tenant open if and only if the idle timeout is not zero. */
  lemma IdleTenantCanStay(l: Limits)
    requires ValidLimits(l)
    ensures (exists ops, ms, i, n :: StaysIdle(l, ops, ms, i, n)) <==> IdleMs(l) > 0
  {
    hide StaysIdle;
    if IdleMs(l) > 0 {
      var ops, ms := IdleHistory(l);
    }
    forall ops, ms, i, n | StaysIdle(l, ops, ms, i, n)
      ensures IdleMs(l) > 0
    {
      StaysNeedsTimeout(l, ops, ms, i, n);
    }
  }

  lemma StaysNeedsTimeout(l: Limits, ops: seq<Operation>, ms: seq<Residents>, i: nat, n: Name)
    requires StaysIdle(l, ops, ms, i, n)
    ensures IdleMs(l) > 0
  {
    ClosedIffNoCheckpointSince(l, ops, ms, i, n);
    LastsBounded(ops, i, n, ops[i].at);
  }

  /** One request, long over; then a checkpoint and a cleanup. */
  lemma IdleHistory(l: Limits) returns (ops: seq<Operation>, ms: seq<Residents>)
    requires ValidLimits(l) && IdleMs(l) > 0
    ensures StaysIdle(l, ops, ms, 3, "a")
  {
    var late := IdleMs(l) + 1;
    ops := [Request("a", 0, true), Drop("a", 0), Checkpoint(late), Clean(late)];
    var idle := map["a" := Slot(0, l.perDatabase, late, true)];
    ms := [map[], map["a" := Served(l, 0)], map["a" := Slot(0, l.perDatabase, 0, true)], idle, idle];
    UseShows(l, map[], "a", 0, 0);
    assert Leads(l, ms[2], ops[2], ms[3]) && Leads(l, ms[3], ops[3], ms[4]);
    OneMore(ops, 0, "a");
    OneMore(ops, 1, "a");
    OneMore(ops, 2, "a");
  }

  /** The slot of a tenant with one lease, taken at `at`. */
  function Served(l: Limits, at: nat): Slot
    requires ValidLimits(l)
  {
    Slot(1, l.perDatabase - 1, at, true)
  }

  predicate IsLetter(n: Name) {
    |n| == 1 && 'a' <= n[0] <= 'z'
  }

  /** While there is room, a request for a new name is leased at once. */
  lemma AdmitsAlone(l: Limits, m: Residents, n: Name, at: nat)
    requires ValidLimits(l) && IsLetter(n) && n !in m && |m| < l.maxOpen
    ensures Leads(l, m, Request(n, at, true), m[n := Served(l, at)])
  {
    var base := m[n := Fresh(l, at)];
    assert Admitted(l, m, n, at, base);
    assert Granted(base, 1, n, at, true, Leased, m[n := Served(l, at)], 0);
    assert Acquired(l, m, 1, n, at, true, Leased, m[n := Served(l, at)], 0);
  }

  // ---- victims ----

  /** Nobody unleased was asked for longer ago. */
  predicate LeastRecentlyAsked(m: Residents, ops: seq<Operation>, v: Name) {
    forall x :: x in m && m[x].leases == 0 ==> LastAsked(ops, v) <= LastAsked(ops, x)
  }

  /** The unleased residents that have not been asked for since the last checkpoint. */
  function Levelled(m: Residents, ops: seq<Operation>): set<Name> {
    set x | x in m && m[x].leases == 0 && LastAsked(ops, x) <= LastCheckpoint(ops)
  }

  lemma LevelledAreVictims(m: Residents, ops: seq<Operation>, v: Name)
    requires Tracks(m, ops) && v in Levelled(m, ops)
    ensures IsVictim(m, v)
  {
  }

  /** In every run, every resident that may be evicted next is least recently asked for among the
      unleased, if and only if the unleased residents not asked for since the last checkpoint were all
      last asked for at the same time. */
  lemma VictimsAreLeastRecentIffLevelAlike(l: Limits, ops: seq<Operation>, ms: seq<Residents>, i: nat)
    requires IsHistory(l, ops, ms) && i <= |ops|
    ensures (forall v :: IsVictim(ms[i], v) ==> LeastRecentlyAsked(ms[i], ops[..i], v))
            <==> (forall x, y :: x in Levelled(ms[i], ops[..i]) && y in Levelled(ms[i], ops[..i]) ==>
                    LastAsked(ops[..i], x) == LastAsked(ops[..i], y))
  {
    HistoryTracks(l, ops, ms, i);
    VictimsOfTracked(ms[i], ops[..i]);
  }

  lemma VictimsOfTracked(m: Residents, ops: seq<Operation>)
    requires Tracks(m, ops)
    ensures (forall v :: IsVictim(m, v) ==> LeastRecentlyAsked(m, ops, v))
            <==> (forall x, y :: x in Levelled(m, ops) && y in Levelled(m, ops) ==> LastAsked(ops, x) == LastAsked(ops, y))
  {
    if forall v :: IsVictim(m, v) ==> LeastRecentlyAsked(m, ops, v) {
      forall x, y | x in Levelled(m, ops) && y in Levelled(m, ops)
        ensures LastAsked(ops, x) == LastAsked(ops, y)
      {
        LevelledAreVictims(m, ops, x);
        LevelledAreVictims(m, ops, y);
      }
    }
    if forall x, y :: x in Levelled(m, ops) && y in Levelled(m, ops) ==> LastAsked(ops, x) == LastAsked(ops, y) {
      forall v | IsVictim(m, v)
        ensures LeastRecentlyAsked(m, ops, v)
      {
        forall x | x in m && m[x].leases == 0
          ensures LastAsked(ops, v) <= LastAsked(ops, x)
        {
          assert m[v].lastUsed <= m[x].lastUsed;
          if x in Levelled(m, ops) {
            assert v in Levelled(m, ops);
          }
        }
      }
    }
  }

  /** A run in which the `i`-th operation, a request, evicts a tenant although another idle tenant was
      asked for longer ago. */
  ghost predicate EvictsMoreRecent(l: Limits, ops: seq<Operation>, ms: seq<Residents>, i: nat, v: Name, x: Name) {
    && IsHistory(l, ops, ms) && i < |ops| && ops[i].Request?
    && v in ms[i] && v !in ms[i + 1] && v != ops[i].name
    && x in ms[i] && ms[i][x].leases == 0 && x in ms[i + 1]
    && LastAsked(ops[..i], x) < LastAsked(ops[..i], v)
  }

  lemma HistoryGrows(l: Limits, ops: seq<Operation>, ms: seq<Residents>, op: Operation, m: Residents)
    requires IsHistory(l, ops, ms) && Leads(l, ms[|ops|], op, m)
    requires ops == [] || ops[|ops| - 1].at <= op.at
    ensures IsHistory(l, ops + [op], ms + [m]) && |ms| == |ops| + 1
  {
    hide Leads;
    var ops', ms' := ops + [op], ms + [m];
    forall i {:trigger ops'[i]} | 0 <= i < |ops'|
      ensures Leads(l, ms'[i], ops'[i], ms'[i + 1])
    {
      if i < |ops| {
        assert Leads(l, ms[i], ops[i], ms[i + 1]);
      }
    }
  }

  /** A history goes on with a request for a new name and its end. */
  lemma GoesOnWithUse(l: Limits, ops: seq<Operation>, ms: seq<Residents>, n: Name, from: nat, at: nat)
    returns (ms': seq<Residents>)
    requires ValidLimits(l) && IsHistory(l, ops, ms) && |ms| == |ops| + 1 && from <= at
    requires ops == [] || ops[|ops| - 1].at <= from
    requires IsLetter(n) && n !in ms[|ops|] && |ms[|ops|]| < l.maxOpen
    ensures IsHistory(l, ops + [Request(n, from, true), Drop(n, at)], ms') && |ms'| == |ops| + 3
    ensures ms'[|ops| + 2] == ms[|ops|][n := Slot(0, l.perDatabase, at, true)]
  {
    hide Leads, IsHistory, Served;
    var m := ms[|ops|];
    var m1, m2 := m[n := Served(l, from)], m[n := Slot(0, l.perDatabase, at, true)];
    UseShows(l, m, n, from, at);
    HistoryGrows(l, ops, ms, Request(n, from, true), m1);
    HistoryGrows(l, ops + [Request(n, from, true)], ms + [m1], Drop(n, at), m2);
    ms' := ms + [m1] + [m2];
    assert ops + [Request(n, from, true)] + [Drop(n, at)] == ops + [Request(n, from, true), Drop(n, at)];
  }

  /** "a" is used, then "b", and a checkpoint runs. */
  lemma TwoUsedThenLevelled(l: Limits) returns (ops: seq<Operation>, ms: seq<Residents>)
    requires ValidLimits(l) && l.maxOpen == 2
    ensures IsHistory(l, ops, ms) && |ms| == 6
    ensures ops == [Request("a", 0, true), Drop("a", 1), Request("b", 2, true), Drop("b", 3), Checkpoint(4)]
    ensures ms[5] == map["a" := Slot(0, l.perDatabase, 4, true), "b" := Slot(0, l.perDatabase, 4, true)]
  {
    assert IsHistory(l, [], [map[]]);
    hide IsHistory;
    var ms2 := GoesOnWithUse(l, [], [map[]], "a", 0, 1);
    var ops2 := [] + [Request("a", 0, true), Drop("a", 1)];
    var ms4 := GoesOnWithUse(l, ops2, ms2, "b", 2, 3);
    var ops4 := ops2 + [Request("b", 2, true), Drop("b", 3)];
    ops, ms := ops4 + [Checkpoint(4)], ms4 + [Checkpointed(ms4[4], 4)];
    HistoryGrows(l, ops4, ms4, Checkpoint(4), Checkpointed(ms4[4], 4));
  }

  /** With two places: "a" is used, then "b"; after a checkpoint a request for "c" evicts "b". */
  lemma RecentTenantEvictedFirst(l: Limits)
    requires ValidLimits(l) && l.maxOpen == 2
    ensures exists ops, ms :: EvictsMoreRecent(l, ops, ms, 5, "b", "a")
  {
    hide Leads, IsHistory, Served, ValidLimits;
    var ops, ms := TwoUsedThenLevelled(l);
    var m := (ms[5] - {"b"})["c" := Served(l, 5)];
    AdmitsInPlaceOf(l, ms[5], "c", 5, "b");
    HistoryGrows(l, ops, ms, Request("c", 5, true), m);
    var ops', ms' := ops + [Request("c", 5, true)], ms + [m];
    assert ops'[..5] == ops[..5];
    AskedInOrder(ops');
    assert EvictsMoreRecent(l, ops', ms', 5, "b", "a");
  }

  /** A request for a new name and its end. */
  lemma UseShows(l: Limits, m: Residents, n: Name, from: nat, at: nat)
    requires ValidLimits(l) && IsLetter(n) && n !in m && |m| < l.maxOpen
    ensures Leads(l, m, Request(n, from, true), m[n := Served(l, from)])
    ensures Leads(l, m[n := Served(l, from)], Drop(n, at), m[n := Slot(0, l.perDatabase, at, true)])
  {
    AdmitsAlone(l, m, n, from);
  }

  lemma AskedInOrder(ops: seq<Operation>)
    requires |ops| == 6 && Names(ops[1], "a") && ops[1].at == 1 && Names(ops[3], "b") && ops[3].at == 3
    requires !Names(ops[2], "a") && !Names(ops[3], "a") && ops[4].Checkpoint?
    ensures LastAsked(ops[..5], "a") == 1 && LastAsked(ops[..5], "b") == 3
  {
    OneMore(ops, 1, "a");
    OneMore(ops, 2, "a");
    OneMore(ops, 3, "a");
    OneMore(ops, 4, "a");
    OneMore(ops, 3, "b");
    OneMore(ops, 4, "b");
  }

  /** Without room, a request for a new name may take the place of any victim. */
  lemma AdmitsInPlaceOf(l: Limits, m: Residents, n: Name, at: nat, v: Name)
    requires ValidLimits(l) && IsLetter(n) && n !in m && |m| >= l.maxOpen && IsVictim(m, v)
    ensures Leads(l, m, Request(n, at, true), (m - {v})[n := Served(l, at)])
  {
    var base, m' := (m - {v})[n := Fresh(l, at)], (m - {v})[n := Served(l, at)];
    assert Admitted(l, m, n, at, base);
    assert Granted(base, 1, n, at, true, Leased, m', 0);
    assert !AllLeased(m) by { assert m[v].leases == 0; }
    assert Acquired(l, m, 1, n, at, true, Leased, m', 0);
  }
}
