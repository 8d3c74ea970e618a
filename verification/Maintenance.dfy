/** What the operation relations say about eviction, and about a cleanup after a checkpoint. */
module Maintenance {
  import opened Vocabulary
  import opened CacheSpec

  /** Acquiring a non-resident name at capacity answers CapacityBusy exactly when every resident is
      leased, and then changes nothing.  Otherwise exactly one resident goes, unleased and of minimal
      last use, even if the request is then shed or its open fails; the request gets its lease when a
      process slot is free and the open succeeds. */
  lemma EvictionAtCapacity(
      l: Limits, m: Residents, free: nat, n: Name, now: nat, openable: bool,
      answer: Answer, m': Residents, free': nat)
    requires ValidLimits(l) && Acquired(l, m, free, n, now, openable, answer, m', free')
    requires ValidName(n) && n !in m && |m| >= l.maxOpen
    ensures answer == CapacityBusy <==> AllLeased(m)
    ensures answer == CapacityBusy ==> m' == m
    ensures answer != CapacityBusy ==>
              exists v :: IsVictim(m, v) && m'.Keys == m.Keys - {v} + if answer == OpenFailed then {} else {n}
    ensures answer != CapacityBusy ==>
              answer == if free == 0 then Overloaded else if openable then Leased else OpenFailed
    ensures forall x :: x in m && x in m' ==> m'[x] == m[x]
    ensures forall x :: x in m && m[x].leases > 0 ==> x in m'
  {
    hide ValidName, AllLeased, IsVictim;
    if answer != CapacityBusy {
      var base: Residents :| Admitted(l, m, n, now, base) && Granted(base, free, n, now, openable, answer, m', free');
      var v :| IsVictim(m, v) && base == (m - {v})[n := Fresh(l, now)];
      assert m'.Keys == m.Keys - {v} + if answer == OpenFailed then {} else {n};
      VictimUnleased(m, v);
    }
  }

  lemma VictimUnleased(m: Residents, v: Name)
    requires IsVictim(m, v)
    ensures m[v].leases == 0 && !AllLeased(m)
  {
    assert m[v].leases == 0;
  }

  /** A request for a resident name is never refused for capacity and evicts nobody, and its answer
      depends on the free slots and on the open alone.  Only a failed open removes its tenant. */
  lemma ResidentNeverBusy(
      l: Limits, m: Residents, free: nat, n: Name, now: nat, openable: bool,
      answer: Answer, m': Residents, free': nat)
    requires Acquired(l, m, free, n, now, openable, answer, m', free') && ValidName(n) && n in m
    ensures answer == if m[n].free == 0 || free == 0 then Overloaded
                      else if m[n].open || openable then Leased else OpenFailed
    ensures m'.Keys == if answer == OpenFailed then m.Keys - {n} else m.Keys
    ensures forall x :: x in m && x != n ==> m'[x] == m[x]
  {
  }

  /** After a checkpoint at `at`, a cleanup removes every unleased tenant if its cutoff has reached
      `at`, and none at all before that, however long they have been idle. */
  lemma CleanupAfterCheckpoint(l: Limits, m: Residents, at: nat, later: nat)
    ensures Cleaned(l, Checkpointed(m, at), later).Keys
            == if Cutoff(l, later) >= at then set n | n in m && m[n].leases > 0 else m.Keys
  {
  }

  // ---- names and times in the caller's terms ----

  /** The code of an ASCII digit or letter. */
  predicate LetterOrDigit(u: int) {
    48 <= u <= 57 || 65 <= u <= 90 || 97 <= u <= 122
  }

  /** A name is refused exactly when it is empty, longer than 64, begins with a hyphen or an underscore,
      or holds any other character than these and ASCII letters and digits. */
  lemma InvalidNames(
      l: Limits, m: Residents, free: nat, n: Name, now: nat, openable: bool,
      answer: Answer, m': Residents, free': nat)
    requires Acquired(l, m, free, n, now, openable, answer, m', free')
    ensures answer == InvalidName <==>
              || n == "" || |n| > 64 || n[0] in "-_"
              || exists ch :: ch in n && !LetterOrDigit(ch as int) && ch !in "-_"
    ensures answer == InvalidName ==> m' == m && free' == free
  {
    hide Admitted, AllLeased;
    NameTable(n);
  }

  lemma NameTable(n: Name)
    ensures !ValidName(n) <==>
              || n == "" || |n| > 64 || n[0] in "-_"
              || exists ch :: ch in n && !LetterOrDigit(ch as int) && ch !in "-_"
  {
    assert forall ch: char :: IsAlphanumeric(ch) <==> LetterOrDigit(ch as int);
    assert forall i :: 0 <= i < |n| ==> n[i] in n;
  }

  /** A cleanup closes an unleased tenant exactly when its last use lies the idle timeout back, in
      milliseconds, or at the beginning of time.  The timeout keeps its low 64 bits. */
  lemma IdleForTheTimeout(l: Limits, m: Residents, now: nat, n: Name)
    requires n in m
    ensures n !in Cleaned(l, m, now) <==>
              && m[n].leases == 0
              && (m[n].lastUsed + l.idleSeconds * 1000 % 0x1_0000_0000_0000_0000 <= now || m[n].lastUsed == 0)
    ensures n in Cleaned(l, m, now) ==> Cleaned(l, m, now)[n] == m[n]
  {
  }
}
