/** The tenant registry as an interleaved step system.

    Every in-flight `acquire`, lease drop, `cleanup_idle` and `checkpoint_wal` is a task with a
    program counter (`Phase`).  A step moves one task from a phase to the next one and has one
    `Effect` on the shared registry: one atomic counter operation, one map operation, one permit
    or mutex hand-over, or one change of the pools cell.  Timeouts and cancellations at an await
    are steps of their own.

    Timestamps are left out of this layer, so a scan may propose any name it saw idle, in any order.  That
    allows more behaviour than the code has, so the invariants proved here hold of the code. */
module Protocol {
  import opened Prelude
  import opened Vocabulary

  type EntryId = nat
  type TaskId = nat

  /** `shardOf` is the shard of the concurrent map in which a name lives. */
  datatype Config = Config(
    maxOpen: nat, maxRequests: nat, perDatabase: nat, shards: nat, shardOf: Name -> nat)

  ghost predicate ValidConfig(c: Config) {
    && 0 < c.maxOpen && 0 < c.maxRequests <= MAX_PERMITS && 0 < c.perDatabase <= MAX_PERMITS
    && forall n: Name :: c.shardOf(n) < c.shards
  }

  /** One `DatabaseEntry`.  `opener` is the task running the once-cell initialiser, `closeRuns`
      counts the executions of `close_entry`. */
  datatype Entry = Entry(
    name: Name, counter: nat, tenantFree: nat, pools: Pools, opener: Option<TaskId>, closeRuns: nat)

  /** Entries are never forgotten here: their identity is their index. */
  datatype State = State(
    links: map<Name, EntryId>,
    entries: seq<Entry>,
    tasks: map<TaskId, Phase>,
    admission: Option<TaskId>,
    processFree: nat,
    closers: multiset<EntryId>)

  /** Who called `take`: an admission making room, or the idle cleanup. */
  datatype TakeFor =
    | Eviction(name: Name, round: nat, attempts: nat)
    | Cleanup(rest: seq<Name>)

  /** Who asked for a lease: a request for `name`, or the WAL checkpoint sweep. */
  datatype LeaseFor =
    | Request(name: Name, round: nat)
    | Checkpoint(rest: seq<EntryId>)

  datatype Phase =
    // slot(): find or admit the entry
    | Lookup(name: Name, round: nat)
    | AwaitAdmission(name: Name, round: nat)
    | Recheck(name: Name, round: nat)
    | Measure(name: Name, round: nat, attempts: nat, shard: nat, total: nat)
    | Scan(name: Name, round: nat, attempts: nat, candidate: Option<Name>, visited: set<Name>)
    | Insert(name: Name, round: nat)
    | Unlock(name: Name, round: nat, hit: Option<EntryId>)
    | Yielded(name: Name, round: nat)
    // take(): close and unlink
    | TakeGet(victim: Name, take: TakeFor)
    | TakeClose(victim: Name, id: EntryId, take: TakeFor)
    | TakeUnlink(victim: Name, id: EntryId, take: TakeFor)
    | SpawnClose(id: EntryId, name: Name, round: nat, attempts: nat)
    // lease(): the compare-and-swap loop
    | LeaseLoad(id: EntryId, lease: LeaseFor)
    | LeaseCas(id: EntryId, seen: nat, lease: LeaseFor)
    // admission of a leased request
    | AwaitTenant(id: EntryId)
    | AwaitProcess(id: EntryId)
    | AwaitPools(id: EntryId)
    | Opening(id: EntryId)
    | UnlinkFailed(id: EntryId)
    | Holding(id: EntryId)
    // giving everything back
    | GiveBackTenant(id: EntryId)
    | DropDecrement(id: EntryId, permits: bool, resume: Option<seq<EntryId>>)
    | DropTenant(id: EntryId)
    | DropProcess
    // cleanup_idle()
    | CleanCollect(stale: seq<Name>)
    | CleanNext(rest: seq<Name>)
    | CleanClose(id: EntryId, rest: seq<Name>)
    // checkpoint_wal()
    | CheckpointCollect(found: seq<EntryId>)
    | CheckpointNext(todo: seq<EntryId>)
    | CheckpointTest(id: EntryId, todo: seq<EntryId>)
    | CheckpointRun(id: EntryId, todo: seq<EntryId>)

  datatype Effect =
    | Local
    | TakeMutex
    | FreeMutex
    | LeaseInc(id: EntryId)
    | LeaseDec(id: EntryId)
    | CloseCas(id: EntryId)
    | TakeTenant(id: EntryId)
    | FreeTenant(id: EntryId)
    | TakeProcess
    | FreeProcess
    | ClaimOpener(id: EntryId)
    | ReleaseOpener(id: EntryId)
    | PublishPools(id: EntryId)
    | Link(name: Name)
    | Unlink(name: Name)
    | UnlinkIf(id: EntryId)
    | Handoff(id: EntryId)
    | Close(id: EntryId)

  /** A new request or sweep arrives, a task runs, or a spawned `close_entry` runs. */
  datatype Action =
    | Spawn(task: TaskId, phase: Phase)
    | Run(task: TaskId, effect: Effect, next: Option<Phase>)
    | Background(id: EntryId)

  function Init(c: Config): State {
    State(map[], [], map[], None, c.maxRequests, multiset{})
  }

  // ---- what an effect does to the shared registry ----

  function SetEntry(s: State, id: EntryId, x: Entry): State {
    if id < |s.entries| then s.(entries := s.entries[id := x]) else s
  }

  function At(s: State, id: EntryId): Entry {
    if id < |s.entries| then s.entries[id] else Entry("", CLOSED, 0, Unopened, None, 0)
  }

  /** `close_entry`: the pools are closed if they were ever opened. */
  function Closed(x: Entry): Entry {
    x.(pools := if x.pools.Unopened? then Unopened else Shut, closeRuns := x.closeRuns + 1)
  }

  function RunClose(s: State, id: EntryId): State {
    SetEntry(s, id, Closed(At(s, id)))
  }

  /** The entry whose fields an effect changes. */
  function Subject(effect: Effect): Option<EntryId> {
    match effect
    case LeaseInc(id) => Some(id)
    case LeaseDec(id) => Some(id)
    case CloseCas(id) => Some(id)
    case TakeTenant(id) => Some(id)
    case FreeTenant(id) => Some(id)
    case ClaimOpener(id) => Some(id)
    case ReleaseOpener(id) => Some(id)
    case PublishPools(id) => Some(id)
    case Close(id) => Some(id)
    case _ => None
  }

  /** What task `t` does to the fields of an entry. */
  function Update(x: Entry, t: TaskId, effect: Effect): Entry {
    match effect
    case LeaseInc(_) => x.(counter := x.counter + 1)
    // `fetch_sub` wraps, and CLOSED is the largest value
    case LeaseDec(_) => x.(counter := if x.counter == 0 then CLOSED else x.counter - 1)
    case CloseCas(_) => x.(counter := CLOSED)
    case TakeTenant(_) => x.(tenantFree := if x.tenantFree == 0 then 0 else x.tenantFree - 1)
    case FreeTenant(_) => x.(tenantFree := x.tenantFree + 1)
    case ClaimOpener(_) => x.(opener := Some(t))
    case ReleaseOpener(_) => x.(opener := None)
    case PublishPools(_) => x.(opener := None, pools := Opened)
    case Close(_) => Closed(x)
    case _ => x
  }

  function NewEntry(c: Config, name: Name): Entry {
    Entry(name, 0, c.perDatabase, Unopened, None, 0)
  }

  function Apply(c: Config, s: State, t: TaskId, effect: Effect): State {
    match effect
    case TakeMutex => s.(admission := Some(t))
    case FreeMutex => s.(admission := None)
    case TakeProcess => s.(processFree := if s.processFree == 0 then 0 else s.processFree - 1)
    case FreeProcess => s.(processFree := s.processFree + 1)
    case Link(name) =>
      s.(entries := s.entries + [NewEntry(c, name)], links := s.links[name := |s.entries|])
    case Unlink(name) => s.(links := s.links - {name})
    case UnlinkIf(id) =>
      var name := At(s, id).name;
      if name in s.links && s.links[name] == id then s.(links := s.links - {name}) else s
    case Handoff(id) => s.(closers := s.closers + multiset{id})
    case _ =>
      if Subject(effect).Some? then
        var id := Subject(effect).value;
        SetEntry(s, id, Update(At(s, id), t, effect))
      else s
  }

  // ---- where a task can go ----

  /** After `take` returned None. */
  function TakeFailed(take: TakeFor): Phase {
    match take
    case Eviction(name, round, _) => Unlock(name, round, None)
    case Cleanup(rest) => CleanNext(rest)
  }

  /** How many names of `links` live in shard `i`. */
  ghost function ShardLen(c: Config, links: map<Name, EntryId>, i: nat): nat {
    |set n | n in links && c.shardOf(n) == i|
  }

  /** `slot`, and the retry of `acquire` around a concurrent close. */
  ghost predicate SlotStep(c: Config, s: State, p: Phase, effect: Effect, q: Option<Phase>) {
    if p.Lookup? then
      && effect == Local
      && q == Some(if p.name in s.links then LeaseLoad(s.links[p.name], Request(p.name, p.round))
                   else AwaitAdmission(p.name, p.round))
    else if p.AwaitAdmission? then
      s.admission.None? && effect == TakeMutex && q == Some(Recheck(p.name, p.round))
    else if p.Recheck? then
      && effect == Local
      && q == Some(if p.name in s.links then Unlock(p.name, p.round, Some(s.links[p.name]))
                   else Measure(p.name, p.round, 0, 0, 0))
    else if p.Measure? then
      // `len()` adds up one shard at a time while others remove entries
      && effect == Local
      && q == Some(if p.shard < c.shards then
                     p.(shard := p.shard + 1, total := p.total + ShardLen(c, s.links, p.shard))
                   else if p.total < c.maxOpen then Insert(p.name, p.round)
                   else if p.attempts + 1 > MAX_ATTEMPTS then Unlock(p.name, p.round, None)
                   else Scan(p.name, p.round, p.attempts + 1, None, {}))
    else if p.Insert? then
      effect == Link(p.name) && q == Some(Unlock(p.name, p.round, Some(|s.entries|)))
    else if p.Unlock? then
      && effect == FreeMutex
      && q == (if p.hit.Some? then Some(LeaseLoad(p.hit.value, Request(p.name, p.round))) else None)
    else if p.Yielded? then
      effect == Local && q == (if p.round + 1 < MAX_ATTEMPTS then Some(Lookup(p.name, p.round + 1)) else None)
    else false
  }

  /** The scan reads one more entry.  An entry whose counter is not zero is skipped; an idle one
      becomes the candidate unless an older one has been seen. */
  predicate Visits(s: State, p: Phase, v: Name, q: Option<Phase>)
    requires p.Scan?
  {
    && v in s.links && v !in p.visited
    && q.Some? && q.value.Scan? && q == Some(p.(candidate := q.value.candidate, visited := p.visited + {v}))
    && (if At(s, s.links[v]).counter != 0 then q.value.candidate == p.candidate
        else q.value.candidate == Some(v) || (p.candidate.Some? && q.value.candidate == p.candidate))
  }

  /** `evict_oldest_idle` and `take`. */
  ghost predicate TakeStep(c: Config, s: State, p: Phase, effect: Effect, q: Option<Phase>) {
    if p.Scan? then
      && effect == Local
      && (|| (exists v: Name :: Visits(s, p, v, q))
          // the iterator has passed every entry that is still there: nobody else can insert now
          || (s.links.Keys <= p.visited
              && q == Some(if p.candidate.None? then Unlock(p.name, p.round, None)
                           else TakeGet(p.candidate.value, Eviction(p.name, p.round, p.attempts)))))
    else if p.TakeGet? then
      && effect == Local
      && q == Some(if p.victim in s.links then TakeClose(p.victim, s.links[p.victim], p.take)
                   else TakeFailed(p.take))
    else if p.TakeClose? then
      if At(s, p.id).counter == 0 then effect == CloseCas(p.id) && q == Some(TakeUnlink(p.victim, p.id, p.take))
      else effect == Local && q == Some(TakeFailed(p.take))
    else if p.TakeUnlink? then
      && effect == Unlink(p.victim)
      && q == Some(match p.take
                   case Eviction(n, r, a) => SpawnClose(p.id, n, r, a)
                   case Cleanup(rest) => CleanClose(p.id, rest))
    else if p.SpawnClose? then
      effect == Handoff(p.id) && q == Some(Measure(p.name, p.round, p.attempts, 0, 0))
    else false
  }

  /** `lease`: load, then compare-and-swap until it succeeds or the entry is CLOSED. */
  ghost predicate LeaseStep(c: Config, s: State, p: Phase, effect: Effect, q: Option<Phase>) {
    if p.LeaseLoad? then
      effect == Local && q == Some(LeaseCas(p.id, At(s, p.id).counter, p.lease))
    else if p.LeaseCas? && p.seen == CLOSED then
      && effect == Local
      && q == Some(match p.lease
                   case Request(n, r) => Yielded(n, r)
                   case Checkpoint(rest) => CheckpointNext(rest))
    else if p.LeaseCas? then
      || (At(s, p.id).counter == p.seen && effect == LeaseInc(p.id)
          && q == Some(match p.lease
                       case Request(_, _) => AwaitTenant(p.id)
                       case Checkpoint(rest) => CheckpointTest(p.id, rest)))
      // the weak exchange may also fail spuriously
      || (effect == Local && q == Some(LeaseCas(p.id, At(s, p.id).counter, p.lease)))
    else false
  }

  /** The admission of a leased request, from the tenant permit to the open pools. */
  ghost predicate AdmitStep(c: Config, s: State, p: Phase, effect: Effect, q: Option<Phase>) {
    if p.AwaitTenant? then
      At(s, p.id).tenantFree > 0 && effect == TakeTenant(p.id) && q == Some(AwaitProcess(p.id))
    else if p.AwaitProcess? then
      s.processFree > 0 && effect == TakeProcess && q == Some(AwaitPools(p.id))
    else if p.AwaitPools? then
      if !At(s, p.id).pools.Unopened? then effect == Local && q == Some(Holding(p.id))
      else At(s, p.id).opener.None? && effect == ClaimOpener(p.id) && q == Some(Opening(p.id))
    else if p.Opening? then
      || (effect == PublishPools(p.id) && q == Some(Holding(p.id)))
      || (effect == ReleaseOpener(p.id) && q == Some(UnlinkFailed(p.id)))
    else false
  }

  /** The end of a request: the failed open is unlinked, the lease and the permits are dropped. */
  ghost predicate ReturnStep(c: Config, s: State, p: Phase, effect: Effect, q: Option<Phase>) {
    if p.UnlinkFailed? then
      effect == UnlinkIf(p.id) && q == Some(DropDecrement(p.id, true, None))
    else if p.Holding? then
      effect == Local && q == Some(DropDecrement(p.id, true, None))
    else if p.GiveBackTenant? then
      effect == FreeTenant(p.id) && q == Some(DropDecrement(p.id, false, None))
    else if p.DropDecrement? then
      && effect == LeaseDec(p.id)
      && q == (if p.permits then Some(DropTenant(p.id))
               else if p.resume.Some? then Some(CheckpointNext(p.resume.value)) else None)
    else if p.DropTenant? then
      effect == FreeTenant(p.id) && q == Some(DropProcess)
    else
      p.DropProcess? && effect == FreeProcess && q == None
  }

  /** `cleanup_idle`: collect idle names, then take and close each of them. */
  ghost predicate CleanStep(c: Config, s: State, p: Phase, effect: Effect, q: Option<Phase>) {
    if p.CleanCollect? then
      && effect == Local
      && (|| (exists v: Name ::
                v in s.links && At(s, s.links[v]).counter == 0 && q == Some(CleanCollect(p.stale + [v])))
          || q == Some(CleanNext(p.stale)))
    else if p.CleanNext? then
      effect == Local && q == (if p.rest == [] then None else Some(TakeGet(p.rest[0], Cleanup(p.rest[1..]))))
    else
      p.CleanClose? && effect == Close(p.id) && q == Some(CleanNext(p.rest))
  }

  /** `checkpoint_wal`: collect entries, then lease, checkpoint and drop each open one. */
  ghost predicate CheckpointStep(c: Config, s: State, p: Phase, effect: Effect, q: Option<Phase>) {
    if p.CheckpointCollect? then
      && effect == Local
      && (|| (exists v: Name :: v in s.links && q == Some(CheckpointCollect(p.found + [s.links[v]])))
          || q == Some(CheckpointNext(p.found)))
    else if p.CheckpointNext? then
      && effect == Local
      && q == (if p.todo == [] then None else Some(LeaseLoad(p.todo[0], Checkpoint(p.todo[1..]))))
    else if p.CheckpointTest? then
      && effect == Local
      && q == Some(if At(s, p.id).pools.Unopened? then DropDecrement(p.id, false, Some(p.todo))
                   else CheckpointRun(p.id, p.todo))
    else
      p.CheckpointRun? && effect == Local && q == Some(DropDecrement(p.id, false, Some(p.todo)))
  }

  /** The steps a task takes on its own account, without a timeout and without being cancelled. */
  ghost predicate Proceeds(c: Config, s: State, p: Phase, effect: Effect, q: Option<Phase>) {
    || SlotStep(c, s, p, effect, q)
    || TakeStep(c, s, p, effect, q)
    || LeaseStep(c, s, p, effect, q)
    || AdmitStep(c, s, p, effect, q)
    || ReturnStep(c, s, p, effect, q)
    || CleanStep(c, s, p, effect, q)
    || CheckpointStep(c, s, p, effect, q)
  }

  /** Admission timeouts, and the request future being dropped at an await. */
  predicate Abandons(p: Phase, effect: Effect, q: Option<Phase>) {
    || ((p.AwaitAdmission? || p.Yielded?) && effect == Local && q == None)
    || (p.AwaitTenant? && effect == Local && q == Some(DropDecrement(p.id, false, None)))
    // locals are dropped in reverse order: the tenant permit before the lease
    || (p.AwaitProcess? && effect == Local && q == Some(GiveBackTenant(p.id)))
    || (p.AwaitPools? && effect == Local && q == Some(DropDecrement(p.id, true, None)))
    || (p.Opening? && effect == ReleaseOpener(p.id) && q == Some(DropDecrement(p.id, true, None)))
  }

  predicate Starts(p: Phase) {
    || (p.Lookup? && p.round == 0)
    || p == CleanCollect([])
    || p == CheckpointCollect([])
  }

  ghost predicate Moves(c: Config, s: State, p: Phase, effect: Effect, q: Option<Phase>) {
    Proceeds(c, s, p, effect, q) || Abandons(p, effect, q)
  }

  /** One atomic step.  There are always fewer than `usize::MAX` tasks in flight. */
  ghost predicate Next(c: Config, s: State, a: Action, s': State) {
    match a
    case Spawn(t, p) =>
      t !in s.tasks && |s.tasks| + 1 < CLOSED && Starts(p) && s' == s.(tasks := s.tasks[t := p])
    case Run(t, effect, q) =>
      && t in s.tasks
      && Moves(c, s, s.tasks[t], effect, q)
      && s' == Apply(c, s, t, effect).(tasks := Put(s.tasks, t, q))
    case Background(id) =>
      s.closers[id] > 0 && s' == RunClose(s, id).(closers := s.closers - multiset{id})
  }

  /** A finite run: `states[0]` is initial and every action leads to the next state. */
  ghost predicate IsRun(c: Config, states: seq<State>, actions: seq<Action>) {
    && |states| == |actions| + 1
    && states[0] == Init(c)
    && forall i {:trigger actions[i]} :: 0 <= i < |actions| ==> Next(c, states[i], actions[i], states[i + 1])
  }
}
