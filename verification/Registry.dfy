/** The tenant registry with its fields and loops, one operation at a time.

    An operation runs at one instant `now`, and nobody else runs meanwhile: the retries around a
    concurrent close and the compare-and-swap loops belong to the step system. */
module Registry {
  import opened Prelude
  import opened Vocabulary
  import opened CacheSpec

  class DatabaseEntry {
    const name: Name
    var pools: Pools
    var lastUsed: nat
    var activeLeases: nat
    var slots: nat

    constructor (name: Name, slots: nat, now: nat)
      ensures this.name == name && pools == Unopened && activeLeases == 0
      ensures this.slots == slots && lastUsed == now
    {
      this.name, pools, lastUsed, activeLeases, this.slots := name, Unopened, now, 0, slots;
    }

    function View(): Slot
      reads this
    {
      Slot(activeLeases, slots, lastUsed, pools == Opened)
    }

    method Lease() returns (leased: bool)
      requires activeLeases == CLOSED || activeLeases + 1 < CLOSED
      modifies this`activeLeases
      ensures leased == (old(activeLeases) != CLOSED)
      ensures activeLeases == if leased then old(activeLeases) + 1 else old(activeLeases)
    {
      leased := activeLeases != CLOSED;
      if leased {
        activeLeases := activeLeases + 1;
      }
    }

    method BeginClose() returns (closed: bool)
      modifies this`activeLeases
      ensures closed == (old(activeLeases) == 0)
      ensures activeLeases == if closed then CLOSED else old(activeLeases)
    {
      closed := activeLeases == 0;
      if closed {
        activeLeases := CLOSED;
      }
    }

    method Touch(now: nat)
      modifies this`lastUsed
      ensures lastUsed == now
    {
      lastUsed := now;
    }

    /** Opens the pools on first use; `openable` says whether opening would succeed. */
    method EnsureOpen(openable: bool) returns (open: bool)
      modifies this`pools
      ensures open == (old(pools) != Unopened || openable)
      ensures pools == if old(pools) == Unopened && openable then Opened else old(pools)
    {
      if pools == Unopened && openable {
        pools := Opened;
      }
      open := pools != Unopened;
    }

    /** Waits for a tenant slot; with nobody else running, waiting in vain ends in the timeout. */
    method TakeSlot() returns (taken: bool)
      modifies this`slots
      ensures taken == (old(slots) > 0)
      ensures slots == if taken then old(slots) - 1 else 0
    {
      taken := slots > 0;
      if taken {
        slots := slots - 1;
      }
    }

    method ReturnSlot()
      modifies this`slots
      ensures slots == old(slots) + 1
    {
      slots := slots + 1;
    }

    /** `close_entry`. */
    method Close()
      modifies this`pools
      ensures pools == if old(pools) == Unopened then Unopened else Shut
    {
      if pools != Unopened {
        pools := Shut;
      }
    }

    /** The lease part of `Drop for DatabaseLease`. */
    method Unlease(now: nat)
      requires 0 < activeLeases < CLOSED
      modifies this`activeLeases, this`lastUsed
      ensures activeLeases == old(activeLeases) - 1 && lastUsed == now
    {
      Touch(now);
      activeLeases := activeLeases - 1;
    }

    /** A dropped lease: touched, unleased, its tenant permit returned. */
    method Release(now: nat)
      requires 0 < activeLeases < CLOSED
      modifies this`activeLeases, this`lastUsed, this`slots
      ensures activeLeases == old(activeLeases) - 1 && lastUsed == now && slots == old(slots) + 1
    {
      Unlease(now);
      ReturnSlot();
    }

    /** The maintenance lease of the checkpoint sweep, taken and dropped. */
    method Checkpoint(now: nat) returns (open: bool)
      requires activeLeases + 1 < CLOSED
      modifies this`activeLeases, this`lastUsed
      ensures open == (pools != Unopened)
      ensures activeLeases == old(activeLeases) && lastUsed == now
    {
      var leased := Lease();
      open := pools != Unopened;
      Unlease(now);
    }

    /** What a request does to its entry: lease, tenant slot, then with a process slot the open on
        first use; whatever is refused is given back. */
    method Admit(processFree: bool, now: nat, openable: bool) returns (answer: Answer, waits: nat)
      requires activeLeases + 1 < CLOSED && pools != Shut
      modifies this
      ensures pools != Shut && waits == WaitsOn(old(View()))
      ensures answer == if old(slots) == 0 || !processFree then Overloaded
                        else if old(pools) == Unopened && !openable then OpenFailed else Leased
      ensures View() == if answer == Leased then Slot(old(activeLeases) + 1, old(slots) - 1, now, true)
                        else old(View()).(lastUsed := now)
    {
      var leased := Lease();
      var admitted := TakeSlot();
      waits := 1;
      if !admitted {
        answer := Overloaded;
      } else if !processFree {
        waits := 2;
        answer := Overloaded;
        ReturnSlot();
      } else {
        waits := 2;
        var open := EnsureOpen(openable);
        answer := if open then Leased else OpenFailed;
        if !open {
          ReturnSlot();
        }
      }
      if answer == Leased {
        Touch(now);
      } else {
        Unlease(now);
      }
    }
  }

  /** The lifecycle counters of the metrics, and how many admission waits were recorded; unbounded here. */
  datatype Lifecycle = Lifecycle(
    shed: nat, waits: nat, admitted: nat, evicted: nat, closedIdle: nat, checkpoints: nat)

  /** The waits for a slot that a request records: for the tenant's, and having it for the process's. */
  function WaitsOn(x: Slot): nat {
    if x.free == 0 then 1 else 2
  }

  function Waits(m: Residents, name: Name, answer: Answer): nat {
    if answer == InvalidName || answer == CapacityBusy then 0 else if name in m then WaitsOn(m[name]) else 2
  }

  /** A request waits once where the tenant has no slot left, and twice otherwise. */
  lemma WaitsMean(m: Residents, name: Name)
    ensures name in m ==> WaitsOn(m[name]) == if m[name].free == 0 then 1 else 2
  {
  }

  /** A handed-out lease: it holds one tenant permit and one process permit until it is dropped. */
  datatype DatabaseLease = DatabaseLease(entry: DatabaseEntry)

  /** What the resident tenants owe: leases and free slots add up, for each tenant and in all. */
  ghost predicate Ledgered(l: Limits, m: Residents, held: multiset<Name>, free: nat) {
    && ValidLimits(l)
    && |m| <= l.maxOpen
    && free + |held| == l.maxRequests
    && (forall n :: n in held ==> n in m)
    && (forall n :: n in m ==>
          m[n].leases == held[n] && m[n].free + held[n] == l.perDatabase && (held[n] > 0 ==> m[n].open))
  }

  /** Closes the entries at shutdown, one after the other, leased or not. */
  method CloseEach(all: set<DatabaseEntry>)
    modifies all
    ensures forall e :: e in all ==>
              e.pools != Opened && e.activeLeases == if old(e.activeLeases) == 0 then CLOSED else old(e.activeLeases)
  {
    var rest := all;
    while rest != {}
      invariant rest <= all
      invariant forall e :: e in rest ==> e.activeLeases == old(e.activeLeases)
      invariant forall e :: e in all && e !in rest ==>
                  e.pools != Opened && e.activeLeases == if old(e.activeLeases) == 0 then CLOSED else old(e.activeLeases)
      decreases |rest|
    {
      var e :| e in rest;
      rest := rest - {e};
      var closed := e.BeginClose();
      e.Close();
    }
  }

  class DatabaseManager {
    const limits: Limits
    var metrics: Lifecycle
    var entries: map<Name, DatabaseEntry>
    var slots: nat
    /** The resident entries, and their fields as values. */
    ghost var repr: set<DatabaseEntry>
    ghost var residents: Residents
    /** The name of every lease handed out and not yet dropped. */
    ghost var held: multiset<Name>
    /** Entries removed after a failed open, or dropped by `CloseAll`: no metric counts these. */
    ghost var uncounted: nat

    constructor (limits: Limits)
      requires ValidLimits(limits)
      ensures Valid() && this.limits == limits && metrics == Lifecycle(0, 0, 0, 0, 0, 0)
      ensures residents == map[] && repr == {} && slots == limits.maxRequests && held == multiset{}
    {
      this.limits := limits;
      metrics := Lifecycle(0, 0, 0, 0, 0, 0);
      entries, residents, repr := map[], map[], {};
      slots := limits.maxRequests;
      held := multiset{};
      uncounted := 0;
    }

    /** The heap agrees with `residents`. */
    ghost predicate Linked()
      reads this`entries, this`residents, this`repr, repr
    {
      && residents.Keys == entries.Keys
      && (forall n :: n in entries ==> entries[n] in repr && entries[n].name == n)
      && (forall e :: e in repr ==>
            e.name in entries && entries[e.name] == e && e.View() == residents[e.name] && e.pools != Shut)
    }

    /** Every entry ever admitted was evicted, closed idle, removed uncounted, or is resident. */
    ghost predicate Accounted()
      reads this`metrics, this`uncounted, this`residents
    {
      metrics.admitted == metrics.evicted + metrics.closedIdle + uncounted + |residents|
    }

    ghost predicate Valid()
      reads this, repr
    {
      Linked() && Ledgered(limits, residents, held, slots) && Accounted()
    }

    /** A leased entry stays resident. */
    twostate predicate KeepsLeased()
      reads this`repr
    {
      forall e :: e in old(repr) && e.name in old(residents) && old(residents)[e.name].leases > 0 ==> e in repr
    }

    /** Marks an entry closed and unlinks it; fails if it is absent or leased. */
    method Take(name: Name) returns (taken: Option<DatabaseEntry>)
      requires Linked()
      modifies this`entries, this`residents, this`repr, repr`activeLeases
      ensures Linked()
      ensures taken.Some? <==> name in old(residents) && old(residents)[name].leases == 0
      ensures taken.Some? ==> taken.value in old(repr) && taken.value !in repr && taken.value.activeLeases == CLOSED
      ensures residents == if taken.Some? then old(residents) - {name} else old(residents)
      ensures repr == if taken.Some? then old(repr) - {taken.value} else old(repr)
    {
      taken := None;
      if name in entries {
        var entry := entries[name];
        var closed := entry.BeginClose();
        if closed {
          entries, residents, repr := entries - {name}, residents - {name}, repr - {entry};
          taken := Some(entry);
        }
      }
    }

    /** `take` followed by `close_entry`. */
    method TakeAndClose(name: Name) returns (closed: bool)
      requires Linked()
      modifies this`entries, this`residents, this`repr, repr`activeLeases, repr`pools
      ensures Linked() && repr <= old(repr) && KeepsLeased()
      ensures forall e :: e in old(repr) && e !in repr ==> e.name == name
      ensures forall e :: e in old(repr) && e !in repr ==> e.activeLeases == CLOSED && e.pools != Opened
      ensures closed == (name in old(residents) && old(residents)[name].leases == 0)
      ensures residents == if closed then old(residents) - {name} else old(residents)
    {
      var taken := Take(name);
      closed := taken.Some?;
      if closed {
        taken.value.Close();
      }
    }

    /** The scan of `evict_oldest_idle`: the unleased entry with the oldest use, if any. */
    method OldestIdle() returns (candidate: Option<Name>)
      requires Linked()
      ensures candidate.None? <==> AllLeased(residents)
      ensures candidate.Some? ==> IsVictim(residents, candidate.value)
    {
      candidate := None;
      var oldest := 0;
      var rest := entries.Keys;
      while rest != {}
        invariant rest <= entries.Keys
        invariant candidate.None? ==> forall n :: n in residents && n !in rest ==> residents[n].leases > 0
        invariant candidate.Some? ==>
                    && candidate.value in residents && residents[candidate.value].leases == 0
                    && residents[candidate.value].lastUsed == oldest
                    && forall n :: n in residents && n !in rest && residents[n].leases == 0 ==>
                         oldest <= residents[n].lastUsed
        decreases |rest|
      {
        var n :| n in rest;
        rest := rest - {n};
        var entry := entries[n];
        if entry.activeLeases == 0 && (candidate.None? || entry.lastUsed < oldest) {
          candidate, oldest := Some(n), entry.lastUsed;
        }
      }
    }

    /** Closes and unlinks the least recently used entry that nobody holds. */
    method EvictOldestIdle() returns (evicted: bool)
      requires Valid()
      modifies this`entries, this`residents, this`repr, repr`activeLeases, repr`pools, this`metrics
      ensures Valid() && repr <= old(repr) && KeepsLeased()
      ensures forall e :: e in old(repr) && e !in repr ==> e.activeLeases == CLOSED && e.pools != Opened
      ensures evicted <==> !AllLeased(old(residents))
      ensures metrics == old(metrics).(evicted := old(metrics).evicted + Bit(evicted))
      ensures if evicted then exists v :: IsVictim(old(residents), v) && residents == old(residents) - {v}
              else residents == old(residents)
    {
      hide IsVictim, AllLeased, Ledgered, Linked;
      var candidate := OldestIdle();
      evicted := false;
      if candidate.Some? {
        evicted := TakeAndClose(candidate.value);
        assert IsVictim(old(residents), candidate.value);
        VictimIsIdle(old(residents), candidate.value);
        LedgerWithout(limits, old(residents), held, slots, candidate.value);
        assert |residents| == |old(residents)| - 1;
        metrics := metrics.(evicted := metrics.evicted + 1);
      }
    }

    /** Inserts a fresh entry for a name that is not resident. */
    method Insert(name: Name, now: nat) returns (entry: DatabaseEntry)
      requires Linked() && name !in residents
      modifies this`entries, this`residents, this`repr
      ensures Linked() && fresh(entry) && repr == old(repr) + {entry} && entry.name == name
      ensures residents == old(residents)[name := Fresh(limits, now)]
    {
      entry := new DatabaseEntry(name, limits.perDatabase, now);
      entries, repr := entries[name := entry], repr + {entry};
      residents := residents[name := Fresh(limits, now)];
    }

    method Get(name: Name) returns (entry: Option<DatabaseEntry>)
      requires Linked()
      ensures entry.Some? <==> name in residents
      ensures entry.Some? ==> entry.value in repr && entry.value.name == name
    {
      entry := if name in entries then Some(entries[name]) else None;
    }

    method Len() returns (n: nat)
      requires Linked()
      ensures n == |residents|
    {
      n := |entries|;
      assert |entries| == |entries.Keys| && |residents| == |residents.Keys|;
    }

    /** The capacity loop of `slot`. */
    method MakeRoom() returns (room: bool)
      requires Valid()
      modifies this`entries, this`residents, this`repr, this`metrics, repr`activeLeases, repr`pools
      ensures Valid() && repr <= old(repr) && KeepsLeased()
      ensures forall e :: e in old(repr) && e !in repr ==> e.activeLeases == CLOSED && e.pools != Opened
      ensures metrics == old(metrics).(evicted := old(metrics).evicted
                           + Bit(room && |old(residents)| >= limits.maxOpen))
      ensures room <==> |old(residents)| < limits.maxOpen || !AllLeased(old(residents))
      ensures room ==> Roomed(limits, old(residents), residents)
      ensures !room ==> residents == old(residents)
    {
      hide Linked, AllLeased, IsVictim;
      room := true;
      var attempts := 0;
      var size := Len();
      while size >= limits.maxOpen && room
        invariant Valid() && repr <= old(repr) && size == |residents| && KeepsLeased()
        invariant forall e :: e in old(repr) && e !in repr ==> e.activeLeases == CLOSED && e.pools != Opened
        invariant metrics == old(metrics).(evicted := old(metrics).evicted + Bit(attempts > 0 && room))
        invariant attempts == 0 ==> room && residents == old(residents) && repr == old(repr)
        invariant attempts > 0 ==> attempts == 1 && |old(residents)| >= limits.maxOpen
        invariant attempts > 0 ==> room == !AllLeased(old(residents))
        invariant attempts > 0 && room ==>
                    exists v :: IsVictim(old(residents), v) && residents == old(residents) - {v}
        invariant attempts > 0 && room ==> size < limits.maxOpen
        invariant attempts > 0 && !room ==> residents == old(residents)
        decreases room, size
      {
        attempts := attempts + 1;
        room := attempts <= MAX_ATTEMPTS;
        if room {
          room := EvictOldestIdle();
        }
        size := Len();
        if room {
          ghost var v :| IsVictim(old(residents), v) && residents == old(residents) - {v};
          VictimIsIdle(old(residents), v);
          RemoveOne(old(residents).Keys, v);
          assert residents.Keys == old(residents).Keys - {v};
        }
      }
    }

    /** What an admission of `name` counts: a new entry, and its victim at capacity. */
    function Counting(before: Lifecycle, m: Residents, name: Name, admitted: bool): Lifecycle {
      if name in m || !admitted then before
      else before.(admitted := before.admitted + 1, evicted := before.evicted + Bit(|m| >= limits.maxOpen))
    }

    /** The entry of `name`, admitting a new one when it is not resident; None is CapacityBusy. */
    method SlotFor(name: Name, now: nat) returns (entry: Option<DatabaseEntry>)
      requires Valid()
      modifies this`entries, this`residents, this`repr, this`metrics, repr`activeLeases, repr`pools
      ensures Valid() && fresh(repr - old(repr)) && KeepsLeased()
      ensures entry.None? <==> name !in old(residents) && |old(residents)| >= limits.maxOpen && AllLeased(old(residents))
      ensures entry.None? ==> residents == old(residents)
      ensures entry.Some? ==> Admitted(limits, old(residents), name, now, residents)
      ensures entry.Some? ==> entry.value in repr && entry.value.name == name && name in residents
      ensures forall e :: e in old(repr) && e !in repr ==> e.activeLeases == CLOSED && e.pools != Opened
      ensures metrics == Counting(old(metrics), old(residents), name, entry.Some?)
    {
      hide Linked, AllLeased, IsVictim, Admitted, Ledgered, Roomed;
      entry := Get(name);
      ResidentAdmits(limits, residents, name, now);
      if entry.None? {
        var room := MakeRoom();
        if room {
          RoomAdmits(limits, old(residents), residents, name, now);
          LedgerWith(limits, residents, held, slots, name, now);
          var inserted := Insert(name, now);
          metrics := metrics.(admitted := metrics.admitted + 1);
          entry := Some(inserted);
        }
      }
    }

    /** The entry a failed open leaves is unlinked, if the map still holds that very entry. */
    method RemoveIfSame(entry: DatabaseEntry)
      requires Linked() && entry in repr
      modifies this`entries, this`residents, this`repr
      ensures Linked() && residents == old(residents) - {entry.name} && repr == old(repr) - {entry}
    {
      if entry.name in entries && entries[entry.name] == entry {
        entries, residents, repr := entries - {entry.name}, residents - {entry.name}, repr - {entry};
      }
    }

    /** The entry's own part of a request, with the change recorded in `residents`. */
    method AdmitOn(entry: DatabaseEntry, now: nat, openable: bool) returns (answer: Answer, waits: nat)
      requires Linked() && entry in repr && residents[entry.name].leases + 1 < CLOSED
      modifies entry, this`residents
      ensures Linked() && (answer == OpenFailed ==> entry.pools != Opened)
      ensures entry.name in old(residents) && waits == WaitsOn(old(residents)[entry.name])
      ensures var x := old(residents)[entry.name];
              && answer == (if x.free == 0 || slots == 0 then Overloaded
                            else if !x.open && !openable then OpenFailed else Leased)
              && residents == old(residents)[entry.name :=
                   if answer == Leased then Slot(x.leases + 1, x.free - 1, now, true) else x.(lastUsed := now)]
    {
      answer, waits := entry.Admit(slots > 0, now, openable);
      residents := residents[entry.name := entry.View()];
    }

    /** A request on a resident entry; a failed open unlinks it. */
    method Enter(entry: DatabaseEntry, now: nat, openable: bool) returns (answer: Answer)
      requires Linked() && Ledgered(limits, residents, held, slots) && entry in repr && entry.name in residents
      modifies entry, this`entries, this`residents, this`repr, this`slots, this`metrics
      ensures Linked()
      ensures Granted(old(residents), old(slots), entry.name, now, openable, answer, residents, slots)
      ensures repr == if answer == OpenFailed then old(repr) - {entry} else old(repr)
      ensures answer == OpenFailed ==> entry.pools != Opened
      ensures metrics == old(metrics).(shed := old(metrics).shed + Bit(answer == Overloaded),
                                       waits := old(metrics).waits + WaitsOn(old(residents)[entry.name]))
    {
      hide Linked, Granted;
      GrantFollows(residents, slots, entry.name, now, openable);
      var waits;
      answer, waits := AdmitOn(entry, now, openable);
      metrics := metrics.(waits := metrics.waits + waits);
      if answer == OpenFailed {
        RemoveIfSame(entry);
      } else if answer == Leased {
        slots := slots - 1;
      } else {
        metrics := metrics.(shed := metrics.shed + 1);
      }
    }

    /** `acquire` once the entry is resident: the lease, or what refused it. */
    method Admit(entry: DatabaseEntry, now: nat, openable: bool) returns (answer: Answer)
      requires Valid() && entry in repr && entry.name in residents
      modifies entry, this
      ensures Valid()
      ensures Granted(old(residents), old(slots), entry.name, now, openable, answer, residents, slots)
      ensures repr == if answer == OpenFailed then old(repr) - {entry} else old(repr)
      ensures answer == OpenFailed ==> entry.pools != Opened
      ensures held == if answer == Leased then old(held) + multiset{entry.name} else old(held)
      ensures metrics == old(metrics).(shed := old(metrics).shed + Bit(answer == Overloaded),
                                       waits := old(metrics).waits + WaitsOn(old(residents)[entry.name]))
      ensures uncounted == old(uncounted) + Bit(answer == OpenFailed)
    {
      hide Linked, Ledgered, Granted;
      ghost var name := entry.name;
      answer := Enter(entry, now, openable);
      LedgerGranted(limits, old(residents), held, old(slots), name, now, openable, answer, residents, slots);
      if answer == Leased {
        held := held + multiset{name};
      } else if answer == OpenFailed {
        uncounted := uncounted + 1;
      }
    }

    /** `acquire`: a lease on `name`, or the reason there is none. */
    method Acquire(name: Name, now: nat, openable: bool) returns (answer: Answer, lease: Option<DatabaseLease>)
      requires Valid()
      modifies this, repr
      ensures Valid() && fresh(repr - old(repr)) && KeepsLeased()
      ensures Acquired(limits, old(residents), old(slots), name, now, openable, answer, residents, slots)
      ensures answer == Leased <==> lease.Some?
      ensures lease.Some? ==> lease.value.entry in repr && lease.value.entry.name == name
      ensures held == if answer == Leased then old(held) + multiset{name} else old(held)
      ensures forall e :: e in old(repr) && e !in repr ==>
                e.pools != Opened && (e.name != name ==> e.activeLeases == CLOSED)
      ensures metrics == Counting(old(metrics), old(residents), name, answer != InvalidName && answer != CapacityBusy)
                           .(shed := old(metrics).shed + Bit(answer == Overloaded),
                             waits := old(metrics).waits + Waits(old(residents), name, answer))
      ensures uncounted == old(uncounted) + Bit(answer == OpenFailed)
      ensures var done := answer != InvalidName && answer != CapacityBusy;
              && metrics.admitted == old(metrics).admitted + Bit(done && name !in old(residents))
              && metrics.evicted == old(metrics).evicted
                   + Bit(done && name !in old(residents) && |old(residents)| >= limits.maxOpen)
              && metrics.waits == old(metrics).waits
                   + (if !done then 0 else if name in old(residents) && old(residents)[name].free == 0 then 1 else 2)
    {
      hide Linked, AllLeased, IsVictim, Admitted, Ledgered, Accounted, ValidName, WaitsOn;
      WaitsMean(residents, name);
      answer, lease := InvalidName, None;
      if ValidName(name) {
        var entry := SlotFor(name, now);
        answer := CapacityBusy;
        if entry.Some? {
          label admitted:
          AdmittedSlot(limits, old(residents), residents, held, slots, name, now);
          answer := Admit(entry.value, now, openable);
          if answer == Leased {
            lease := Some(DatabaseLease(entry.value));
          }
          if answer == OpenFailed {
            FailedOpenUnleased(limits, old(residents), old@admitted(residents), held, old@admitted(slots), name, now);
          }
        }
      }
    }

    /** The entry's own part of a drop, with the change recorded in `residents`. */
    method ReleaseOn(entry: DatabaseEntry, now: nat)
      requires Linked() && entry in repr && 0 < residents[entry.name].leases < CLOSED
      modifies entry, this`residents
      ensures Linked() && entry.name in old(residents)
      ensures residents == Released(old(residents), entry.name, now)
    {
      entry.Release(now);
      residents := Released(residents, entry.name, now);
    }

    /** The registry's own part of a drop: no entry comes or goes. */
    method Unlease(entry: DatabaseEntry, now: nat)
      requires Linked() && Accounted() && entry in repr && entry.name in residents
      requires 0 < residents[entry.name].leases < CLOSED
      modifies entry, this`residents
      ensures Linked() && Accounted() && entry.name in old(residents)
      ensures residents == Released(old(residents), entry.name, now)
    {
      hide Linked, Released;
      ReleasedSize(residents, entry.name, now);
      ReleaseOn(entry, now);
    }

    /** Dropping a lease. */
    method Release(lease: DatabaseLease, now: nat)
      requires Valid() && lease.entry in repr && lease.entry.name in held
      modifies this`residents, this`slots, this`held, lease.entry
      ensures Valid()
      ensures lease.entry.name in old(residents) && old(residents)[lease.entry.name].leases > 0
      ensures residents == Released(old(residents), lease.entry.name, now)
      ensures slots == old(slots) + 1 && held == old(held) - multiset{lease.entry.name}
    {
      hide Linked, Ledgered, Released, Accounted;
      var name := lease.entry.name;
      LedgerReleased(limits, residents, held, slots, name, now);
      Unlease(lease.entry, now);
      slots, held := slots + 1, held - multiset{name};
    }

    /** The names the cleanup finds stale, each once. */
    method StaleNames(now: nat) returns (stale: seq<Name>)
      requires Linked()
      ensures forall n :: n in stale <==> n in residents && Stale(limits, residents, now, n)
      ensures forall i, j :: 0 <= i < j < |stale| ==> stale[i] != stale[j]
    {
      var cutoff := Cutoff(limits, now);
      stale := [];
      var rest := entries.Keys;
      while rest != {}
        invariant rest <= entries.Keys
        invariant forall n :: n in stale <==> n in residents && n !in rest && Stale(limits, residents, now, n)
        invariant forall i, j :: 0 <= i < j < |stale| ==> stale[i] != stale[j]
        decreases |rest|
      {
        var n :| n in rest;
        rest := rest - {n};
        var entry := entries[n];
        if entry.activeLeases == 0 && entry.lastUsed <= cutoff {
          stale := stale + [n];
        }
      }
    }

    /** Takes and closes one idle entry. */
    method CloseIdle(name: Name) returns (taken: bool)
      requires Linked() && Ledgered(limits, residents, held, slots)
      requires name in residents && residents[name].leases == 0
      modifies this`entries, this`residents, this`repr, repr`activeLeases, repr`pools
      ensures taken && Linked() && Ledgered(limits, residents, held, slots) && repr <= old(repr)
      ensures forall e :: e in old(repr) && e !in repr ==> e.name == name
      ensures forall e :: e in old(repr) && e !in repr ==> e.activeLeases == CLOSED && e.pools != Opened
      ensures residents == old(residents) - {name} && |residents| + 1 == |old(residents)|
    {
      hide Linked, Ledgered;
      LedgerWithout(limits, residents, held, slots, name);
      taken := TakeAndClose(name);
    }

    /** Takes and closes each stale name in turn. */
    method CloseStale(stale: seq<Name>) returns (closed: nat)
      requires Linked() && Ledgered(limits, residents, held, slots) && IdleNames(residents, stale)
      modifies this`entries, this`residents, this`repr, repr`activeLeases, repr`pools
      ensures Linked() && Ledgered(limits, residents, held, slots) && repr <= old(repr)
      ensures forall e :: e in old(repr) && e !in repr ==> e.name in stale
      ensures forall e :: e in old(repr) && e !in repr ==> e.activeLeases == CLOSED && e.pools != Opened
      ensures residents == Without(old(residents), stale)
      ensures closed + |residents| == |old(residents)|
    {
      hide Linked, Ledgered, Without, IdleNames;
      closed := 0;
      assert Without(residents, stale[..0]) == residents by { WithoutNothing(residents); }
      for i := 0 to |stale|
        invariant Linked() && Ledgered(limits, residents, held, slots) && repr <= old(repr)
        invariant closed + |residents| == |old(residents)|
        invariant residents == Without(old(residents), stale[..i])
        invariant forall e :: e in old(repr) && e !in repr ==> e.name in stale
        invariant forall e :: e in old(repr) && e !in repr ==> e.activeLeases == CLOSED && e.pools != Opened
      {
        WithoutOneMore(old(residents), stale, i);
        var taken := CloseIdle(stale[i]);
        closed := closed + Bit(taken);
      }
      assert stale[..|stale|] == stale;
    }

    /** `cleanup_idle`: closes exactly the stale entries and says how many. */
    method CleanupIdle(now: nat) returns (closed: nat)
      requires Valid()
      modifies this`entries, this`residents, this`repr, this`metrics, repr`activeLeases, repr`pools
      ensures Valid() && repr <= old(repr) && KeepsLeased()
      ensures forall e :: e in old(repr) && e !in repr ==> e.activeLeases == CLOSED && e.pools != Opened
      ensures residents == Cleaned(limits, old(residents), now)
      ensures limits.idleSeconds * 1000 < 0x1_0000_0000_0000_0000 ==>
                forall n :: n in old(residents) ==>
                  (n !in residents <==>
                     && old(residents)[n].leases == 0
                     && (now - old(residents)[n].lastUsed >= limits.idleSeconds * 1000 || old(residents)[n].lastUsed == 0))
      ensures closed + |residents| == |old(residents)|
      ensures metrics == old(metrics).(closedIdle := old(metrics).closedIdle + closed)
    {
      hide Linked, Ledgered, Cleaned, Without;
      if limits.idleSeconds * 1000 < 0x1_0000_0000_0000_0000 {
        CleanedByTimeout(limits, residents, now);
      }
      var stale := StaleNames(now);
      WithoutStale(limits, residents, now, stale);
      closed := CloseStale(stale);
      metrics := metrics.(closedIdle := metrics.closedIdle + closed);
    }

    /** One entry's turn in the checkpoint sweep, recorded in `residents`. */
    method CheckpointOne(entry: DatabaseEntry, now: nat) returns (open: bool)
      requires Linked() && entry in repr && residents[entry.name].leases + 1 < CLOSED
      modifies entry`activeLeases, entry`lastUsed, this`residents
      ensures Linked() && entry.name in old(residents)
      ensures open == old(residents)[entry.name].open
      ensures residents == old(residents)[entry.name := old(residents)[entry.name].(lastUsed := now)]
    {
      open := entry.Checkpoint(now);
      residents := residents[entry.name := entry.View()];
    }

    method CheckpointNamed(name: Name, now: nat) returns (open: bool)
      requires Linked() && Ledgered(limits, residents, held, slots) && name in residents
      modifies repr`activeLeases, repr`lastUsed, this`residents
      ensures Linked() && Ledgered(limits, residents, held, slots)
      ensures open == old(residents)[name].open && |residents| == |old(residents)|
      ensures residents == old(residents)[name := old(residents)[name].(lastUsed := now)]
    {
      hide Linked, Ledgered;
      LedgerTouched(limits, residents, held, slots, name, now);
      var entry := Get(name);
      open := CheckpointOne(entry.value, now);
    }

    /** The sweep of `checkpoint_wal`. */
    method Sweep(now: nat, failing: set<Name>) returns (checkpointed: nat)
      requires Linked() && Ledgered(limits, residents, held, slots)
      modifies this`residents, repr`activeLeases, repr`lastUsed
      ensures Linked() && Ledgered(limits, residents, held, slots) && |residents| == |old(residents)|
      ensures residents == Checkpointed(old(residents), now)
      ensures checkpointed == |OpenAmong(old(residents), failing)|
    {
      hide Linked, Ledgered, Swept, OpenAmong;
      var rest := Names();
      SweepEnds(residents, now);
      OpenAmongResident(residents, failing);
      checkpointed := 0;
      while rest != {}
        invariant Linked() && Ledgered(limits, residents, held, slots)
        invariant rest <= old(residents).Keys && |residents| == |old(residents)|
        invariant residents == Swept(old(residents), rest, now)
        invariant checkpointed == |OpenAmong(old(residents), failing) - rest|
        decreases |rest|
      {
        var n :| n in rest;
        SweepOne(old(residents), rest, n, now, failing);
        rest := rest - {n};
        var open := CheckpointNamed(n, now);
        if open && n !in failing {
          checkpointed := checkpointed + 1;
        }
      }
    }

    /** `checkpoint_wal`: checkpoints every resident entry; `failing` names the checkpoints that fail. */
    method CheckpointWal(now: nat, failing: set<Name>) returns (checkpointed: nat)
      requires Valid()
      modifies this`residents, this`metrics, repr`activeLeases, repr`lastUsed
      ensures Valid()
      ensures residents == Checkpointed(old(residents), now)
      ensures checkpointed == |set n | n in old(residents) && old(residents)[n].open && n !in failing|
      ensures metrics == old(metrics).(checkpoints := old(metrics).checkpoints + checkpointed)
    {
      hide Linked, Ledgered;
      checkpointed := Sweep(now, failing);
      metrics := metrics.(checkpoints := metrics.checkpoints + checkpointed);
    }

    /** Empties the map and returns what it held. */
    method Clear() returns (all: set<DatabaseEntry>)
      requires Linked()
      modifies this`entries, this`residents, this`repr
      ensures Linked() && residents == map[] && repr == {} && all == old(repr)
      ensures forall e :: e in all ==> e.name in old(residents) && e.activeLeases == old(residents)[e.name].leases
    {
      all := set n | n in entries :: entries[n];
      assert all == repr;
      entries, residents, repr := map[], map[], {};
    }

    /** `close_all`: the map is emptied and every entry's pools are closed, also under a lease.  The
        registry is valid afterwards exactly when nothing was leased. */
    method CloseAll()
      requires Valid()
      modifies this`entries, this`residents, this`repr, this`uncounted, repr
      ensures residents == map[] && repr == {} && Linked() && Accounted()
      ensures forall e :: e in old(repr) ==> e.name in old(residents) && e.pools != Opened
      ensures forall e :: e in old(repr) ==>
                var leases := old(residents)[e.name].leases;
                e.activeLeases == if leases == 0 then CLOSED else leases
      ensures Valid() <==> held == multiset{}
    {
      hide Linked;
      uncounted := uncounted + |residents|;
      var all := Clear();
      CloseEach(all);
      EmptyLedger(limits, held, slots);
    }

    method ActiveLeases(name: Name) returns (leases: nat)
      requires Linked() && name in residents
      ensures leases == residents[name].leases
    {
      leases := entries[name].activeLeases;
    }

    /** `stats`: how many databases are resident, how many leases and free slots there are. */
    method Stats() returns (open: nat, leases: nat, available: nat)
      requires Valid()
      ensures open == |residents| && leases == |held| && available == limits.maxRequests - |held|
    {
      hide Linked;
      open := Len();
      available := slots;
      leases := 0;
      ghost var counted: multiset<Name> := multiset{};
      var rest := Names();
      while rest != {}
        invariant rest <= residents.Keys
        invariant counted <= held && leases == |counted|
        invariant forall n :: n in residents ==> counted[n] == if n in rest then 0 else held[n]
        decreases |rest|
      {
        var n :| n in rest;
        rest := rest - {n};
        var active := ActiveLeases(n);
        if active != CLOSED {
          leases := leases + active;
        }
        counted := counted[n := held[n]];
      }
      assert counted == held;
    }

    method Names() returns (names: set<Name>)
      requires Linked()
      ensures names == residents.Keys
    {
      names := entries.Keys;
    }
  }

  lemma EmptyLedger(l: Limits, held: multiset<Name>, free: nat)
    requires ValidLimits(l) && free + |held| == l.maxRequests
    ensures Ledgered(l, map[], held, free) <==> held == multiset{}
  {
    if held != multiset{} {
      var n :| n in held;
    }
  }

  /** Idle names, each once. */
  ghost predicate IdleNames(m: Residents, names: seq<Name>) {
    && (forall i :: 0 <= i < |names| ==> names[i] in m && m[names[i]].leases == 0)
    && (forall i, j :: 0 <= i < j < |names| ==> names[i] != names[j])
  }

  ghost function Without(m: Residents, names: seq<Name>): Residents {
    map n | n in m && n !in names :: m[n]
  }

  lemma WithoutNothing(m: Residents)
    ensures Without(m, []) == m
  {
  }

  lemma WithoutOneMore(m: Residents, names: seq<Name>, i: nat)
    requires IdleNames(m, names) && i < |names|
    ensures var now := Without(m, names[..i]);
            && names[i] in now && now[names[i]].leases == 0
            && Without(m, names[..i + 1]) == now - {names[i]}
  {
    assert names[..i + 1] == names[..i] + [names[i]];
  }

  lemma WithoutStale(l: Limits, m: Residents, now: nat, stale: seq<Name>)
    requires forall n :: n in stale <==> n in m && Stale(l, m, now, n)
    requires forall i, j :: 0 <= i < j < |stale| ==> stale[i] != stale[j]
    ensures Without(m, stale) == Cleaned(l, m, now) && IdleNames(m, stale)
  {
    assert forall i :: 0 <= i < |stale| ==> stale[i] in stale;
  }

  /** While the timeout in milliseconds fits 64 bits, a cleanup removes the unleased tenants that were
      last used that long ago. */
  lemma CleanedByTimeout(l: Limits, m: Residents, now: nat)
    requires l.idleSeconds * 1000 < 0x1_0000_0000_0000_0000
    ensures forall n :: n in m ==>
              (n !in Cleaned(l, m, now) <==>
                 m[n].leases == 0 && (now - m[n].lastUsed >= l.idleSeconds * 1000 || m[n].lastUsed == 0))
  {
  }

  /** The open tenants outside `failing`. */
  ghost function OpenAmong(m: Residents, failing: set<Name>): set<Name> {
    set n | n in m && m[n].open && n !in failing
  }

  lemma OpenAmongResident(m: Residents, failing: set<Name>)
    ensures |OpenAmong(m, failing) - m.Keys| == 0
    ensures |OpenAmong(m, failing) - {}| == |OpenAmong(m, failing)|
  {
    assert OpenAmong(m, failing) - m.Keys == {} && OpenAmong(m, failing) - {} == OpenAmong(m, failing);
  }

  /** Half way through the sweep: the names in `rest` are still to be touched. */
  function Swept(m: Residents, rest: set<Name>, now: nat): Residents {
    map n | n in m :: if n in rest then m[n] else m[n].(lastUsed := now)
  }

  lemma SweepEnds(m: Residents, now: nat)
    ensures Swept(m, m.Keys, now) == m && Swept(m, {}, now) == Checkpointed(m, now)
  {
  }

  lemma SweepOne(m: Residents, rest: set<Name>, n: Name, now: nat, failing: set<Name>)
    requires n in rest && rest <= m.Keys
    ensures Swept(m, rest, now).Keys == m.Keys && Swept(m, rest, now)[n] == m[n]
    ensures |OpenAmong(m, failing) - (rest - {n})|
            == |OpenAmong(m, failing) - rest| + Bit(m[n].open && n !in failing)
    ensures Swept(m, rest - {n}, now) == Swept(m, rest, now)[n := Swept(m, rest, now)[n].(lastUsed := now)]
  {
    var all := OpenAmong(m, failing);
    RemoveOne(all - (rest - {n}), n);
    assert all - (rest - {n}) - {n} == all - rest;
  }

  lemma LedgerTouched(l: Limits, m: Residents, held: multiset<Name>, free: nat, n: Name, now: nat)
    requires Ledgered(l, m, held, free) && n in m
    ensures Ledgered(l, m[n := m[n].(lastUsed := now)], held, free)
    ensures |m[n := m[n].(lastUsed := now)]| == |m| && m[n].leases + 1 < CLOSED
  {
    var m' := m[n := m[n].(lastUsed := now)];
    assert m'.Keys == m.Keys;
    assert |m'| == |m'.Keys| == |m|;
  }

  /** The relation between answer and residents, from the entry's own part of a request. */
  lemma GrantFollows(m: Residents, free: nat, n: Name, now: nat, openable: bool)
    requires n in m
    ensures var x := m[n];
            && (x.free == 0 || free == 0 ==>
                  Granted(m, free, n, now, openable, Overloaded, m[n := x.(lastUsed := now)], free))
            && (x.free > 0 && free > 0 && !x.open && !openable ==>
                  Granted(m, free, n, now, openable, OpenFailed, m[n := x.(lastUsed := now)] - {n}, free))
            && (x.free > 0 && free > 0 && (x.open || openable) ==>
                  Granted(m, free, n, now, openable, Leased, m[n := Slot(x.leases + 1, x.free - 1, now, true)], free - 1))
  {
    assert m[n := m[n].(lastUsed := now)] - {n} == m - {n};
  }

  lemma LedgerLeased(l: Limits, m: Residents, held: multiset<Name>, free: nat, n: Name, now: nat)
    requires Ledgered(l, m, held, free) && n in m && m[n].free > 0 && free > 0
    ensures var m' := m[n := Slot(m[n].leases + 1, m[n].free - 1, now, true)];
            Ledgered(l, m', held + multiset{n}, free - 1) && |m'| == |m|
  {
    var m' := m[n := Slot(m[n].leases + 1, m[n].free - 1, now, true)];
    assert m'.Keys == m.Keys;
    assert |m'| == |m'.Keys| == |m|;
  }

  lemma LedgerGranted(
      l: Limits, m: Residents, held: multiset<Name>, free: nat, n: Name, now: nat, openable: bool,
      answer: Answer, m': Residents, free': nat)
    requires Ledgered(l, m, held, free) && Granted(m, free, n, now, openable, answer, m', free')
    ensures Ledgered(l, m', if answer == Leased then held + multiset{n} else held, free')
    ensures |m'| == |m| - Bit(answer == OpenFailed)
  {
    if answer == OpenFailed {
      LedgerWithout(l, m, held, free, n);
    } else if answer == Leased {
      hide Ledgered;
      LedgerLeased(l, m, held, free, n, now);
    } else {
      hide Ledgered;
      LedgerTouched(l, m, held, free, n, now);
    }
  }

  /** An entry that is not open has no leases, so a failed open disturbs nobody. */
  lemma FailedOpenUnleased(
      l: Limits, m: Residents, mid: Residents, held: multiset<Name>, free: nat, n: Name, now: nat)
    requires Admitted(l, m, n, now, mid) && Ledgered(l, mid, held, free) && n in mid && !mid[n].open
    ensures n in m ==> m[n].leases == 0
  {
  }

  /** The slot an admission leaves for its name: the one it had, or a fresh one. */
  lemma AdmittedSlot(
      l: Limits, m: Residents, mid: Residents, held: multiset<Name>, free: nat, n: Name, now: nat)
    requires Admitted(l, m, n, now, mid) && Ledgered(l, mid, held, free) && n in mid
    ensures WaitsOn(mid[n]) == if n in m then WaitsOn(m[n]) else 2
  {
  }

  lemma ReleasedSize(m: Residents, n: Name, now: nat)
    requires n in m && m[n].leases > 0
    ensures |Released(m, n, now)| == |m|
  {
    assert Released(m, n, now).Keys == m.Keys;
    assert |Released(m, n, now)| == |Released(m, n, now).Keys| == |m|;
  }

  lemma LedgerReleased(l: Limits, m: Residents, held: multiset<Name>, free: nat, n: Name, now: nat)
    requires Ledgered(l, m, held, free) && n in held
    ensures n in m && 0 < m[n].leases < CLOSED
    ensures Ledgered(l, Released(m, n, now), held - multiset{n}, free + 1)
  {
    ReleasedSize(m, n, now);
  }

  /** Room was there, or a victim has made it. */
  ghost predicate Roomed(l: Limits, m: Residents, m': Residents) {
    && |m'| < l.maxOpen
    && if |m| < l.maxOpen then m' == m else exists v :: IsVictim(m, v) && m' == m - {v}
  }

  lemma RoomAdmits(l: Limits, m: Residents, mid: Residents, n: Name, now: nat)
    requires Roomed(l, m, mid) && n !in m
    ensures Admitted(l, m, n, now, mid[n := Fresh(l, now)]) && n !in mid && |mid| < l.maxOpen
  {
    hide IsVictim;
  }

  lemma ResidentAdmits(l: Limits, m: Residents, n: Name, now: nat)
    ensures n in m ==> Admitted(l, m, n, now, m)
  {
  }

  lemma LedgerWith(l: Limits, m: Residents, held: multiset<Name>, free: nat, n: Name, now: nat)
    requires Ledgered(l, m, held, free) && n !in m && |m| < l.maxOpen
    ensures Ledgered(l, m[n := Fresh(l, now)], held, free) && |m[n := Fresh(l, now)]| == |m| + 1
  {
    assert held[n] == 0;
  }

  lemma VictimIsIdle(m: Residents, v: Name)
    requires IsVictim(m, v)
    ensures v in m && m[v].leases == 0
  {
  }

  lemma LedgerWithout(l: Limits, m: Residents, held: multiset<Name>, free: nat, n: Name)
    requires Ledgered(l, m, held, free) && n in m && m[n].leases == 0
    ensures Ledgered(l, m - {n}, held, free) && |m - {n}| == |m| - 1
  {
    RemoveOne(m.Keys, n);
    assert (m - {n}).Keys == m.Keys - {n};
  }
}
