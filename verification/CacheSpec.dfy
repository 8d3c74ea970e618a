/** The resident tenants as plain values, and what each registry operation means for them when no
    other operation runs at the same time.  `DatabaseManager` is proved against these relations. */
module CacheSpec {
  import opened Prelude
  import opened Vocabulary

  datatype Limits = Limits(maxOpen: nat, maxRequests: nat, perDatabase: nat, idleSeconds: nat)

  predicate ValidLimits(l: Limits) {
    && 0 < l.maxOpen && 0 < l.maxRequests <= MAX_PERMITS && 0 < l.perDatabase <= MAX_PERMITS
  }

  /** A resident tenant: its leases, its free request slots, its last use and whether it is open. */
  datatype Slot = Slot(leases: nat, free: nat, lastUsed: nat, open: bool)

  type Residents = map<Name, Slot>

  datatype Answer = Leased | InvalidName | CapacityBusy | Overloaded | OpenFailed

  function Fresh(l: Limits, now: nat): Slot {
    Slot(0, l.perDatabase, now, false)
  }

  /** One to 64 ASCII letters, digits, `-` and `_`, beginning with a letter or a digit. */
  predicate ValidName(name: Name) {
    && 0 < |name| <= 64
    && IsAlphanumeric(name[0])
    && forall i :: 0 <= i < |name| ==> IsAlphanumeric(name[i]) || name[i] == '-' || name[i] == '_'
  }

  predicate IsAlphanumeric(ch: char) {
    'a' <= ch <= 'z' || 'A' <= ch <= 'Z' || '0' <= ch <= '9'
  }

  // ---- eviction ----

  predicate AllLeased(m: Residents) {
    forall n :: n in m ==> m[n].leases > 0
  }

  /** An unleased tenant whose last use is minimal among the unleased. */
  predicate IsVictim(m: Residents, v: Name) {
    && v in m && m[v].leases == 0
    && forall n :: n in m && m[n].leases == 0 ==> m[v].lastUsed <= m[n].lastUsed
  }

  /** `n` becomes resident: nothing changes if it is, else it takes a free place or a victim's. */
  ghost predicate Admitted(l: Limits, m: Residents, n: Name, now: nat, m': Residents) {
    if n in m then m' == m
    else if |m| < l.maxOpen then m' == m[n := Fresh(l, now)]
    else exists v :: IsVictim(m, v) && m' == (m - {v})[n := Fresh(l, now)]
  }

  // ---- acquire and release ----

  /** The rest of `acquire` once `n` is resident in `m`: a tenant slot, a process slot, an open. */
  predicate Granted(
      m: Residents, free: nat, n: Name, now: nat, openable: bool, answer: Answer, m': Residents, free': nat)
  {
    && n in m
    && var x := m[n];
       if x.free == 0 || free == 0 then
         answer == Overloaded && m' == m[n := x.(lastUsed := now)] && free' == free
       else if !x.open && !openable then
         answer == OpenFailed && m' == m - {n} && free' == free
       else
         answer == Leased && free' == free - 1 && m' == m[n := Slot(x.leases + 1, x.free - 1, now, true)]
  }

  /** A whole `acquire` for `n`, from the residents `m` and `free` process slots. */
  ghost predicate Acquired(
      l: Limits, m: Residents, free: nat, n: Name, now: nat, openable: bool,
      answer: Answer, m': Residents, free': nat)
  {
    if !ValidName(n) then
      answer == InvalidName && m' == m && free' == free
    else if n !in m && |m| >= l.maxOpen && AllLeased(m) then
      answer == CapacityBusy && m' == m && free' == free
    else
      exists base: Residents :: Admitted(l, m, n, now, base) && Granted(base, free, n, now, openable, answer, m', free')
  }

  /** The lease on `n` is dropped. */
  function Released(m: Residents, n: Name, now: nat): Residents
    requires n in m && m[n].leases > 0
  {
    m[n := m[n].(leases := m[n].leases - 1, free := m[n].free + 1, lastUsed := now)]
  }

  // ---- maintenance ----

  /** `as_millis() as u64` keeps the low 64 bits. */
  function IdleMs(l: Limits): nat {
    l.idleSeconds * 1000 % U64
  }

  function Cutoff(l: Limits, now: nat): nat {
    if now >= IdleMs(l) then now - IdleMs(l) else 0
  }

  predicate Stale(l: Limits, m: Residents, now: nat, n: Name)
    requires n in m
  {
    m[n].leases == 0 && m[n].lastUsed <= Cutoff(l, now)
  }

  function Cleaned(l: Limits, m: Residents, now: nat): Residents {
    map n | n in m && !Stale(l, m, now, n) :: m[n]
  }

  /** The maintenance lease of the checkpoint sweep is dropped like any other, so every resident
      tenant, open or not, counts as just used. */
  function Checkpointed(m: Residents, now: nat): Residents {
    map n | n in m :: m[n].(lastUsed := now)
  }
}
