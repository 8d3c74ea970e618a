/** How often a request looks again when the entry it found was closing, and what the counter's constants mean. */
module Retries {
  import opened Prelude
  import opened Vocabulary
  import opened Protocol
  import opened Safety

  // ---- constants ----

  /** A decrement is `fetch_sub` on 64 bits; CLOSED is what it leaves of zero, the largest count there is. */
  lemma DecrementWraps(x: Entry, t: TaskId, id: EntryId)
    requires x.counter < U64
    ensures Update(x, t, LeaseDec(id)).counter == (x.counter - 1) % U64
    ensures CLOSED + 1 == U64 && MAX_PERMITS == CLOSED / 8
  {
  }

  // ---- lookups ----

  /** How many lookups of the map task `t` has made in `slot` since it arrived, up to state `i`. */
  ghost function Lookups(states: seq<State>, actions: seq<Action>, t: TaskId, i: nat): nat
    requires i <= |actions| < |states|
  {
    if i == 0 then 0
    else if actions[i - 1].Spawn? && actions[i - 1].task == t then 0
    else
      Lookups(states, actions, t, i - 1)
      + Bit(actions[i - 1].Run? && actions[i - 1].task == t && t in states[i - 1].tasks
            && states[i - 1].tasks[t].Lookup?)
  }

  /** The lookups a request has made by its phase, as long as it has no lease. */
  function Made(p: Phase): Option<nat> {
    if p.Lookup? then Some(p.round)
    else if p.AwaitAdmission? || p.Recheck? || p.Measure? || p.Scan? || p.Insert? || p.Unlock? || p.Yielded?
            || p.SpawnClose?
    then Some(p.round + 1)
    else if (p.TakeGet? || p.TakeClose? || p.TakeUnlink?) && p.take.Eviction? then Some(p.take.round + 1)
    else if (p.LeaseLoad? || p.LeaseCas?) && p.lease.Request? then Some(p.lease.round + 1)
    else None
  }

  /** Made so far, and not too many. */
  ghost predicate MadeExact(p: Phase, lookups: nat) {
    Made(p).Some? ==> Made(p).value == lookups <= MAX_ATTEMPTS && (p.Lookup? ==> lookups < MAX_ATTEMPTS)
  }

  lemma SlotMakes(c: Config, s: State, p: Phase, effect: Effect, q: Option<Phase>)
    requires SlotStep(c, s, p, effect, q) && q.Some? && Made(q.value).Some?
    ensures Made(p).Some? && Made(q.value).value == Made(p).value + Bit(p.Lookup?)
    ensures q.value.Lookup? ==> !p.Lookup? && Made(q.value).value < MAX_ATTEMPTS
  {
  }

  lemma TakeMakes(c: Config, s: State, p: Phase, effect: Effect, q: Option<Phase>)
    requires TakeStep(c, s, p, effect, q) && q.Some? && Made(q.value).Some?
    ensures Made(p) == Made(q.value) && !p.Lookup? && !q.value.Lookup?
  {
  }

  lemma LeaseMakes(c: Config, s: State, p: Phase, effect: Effect, q: Option<Phase>)
    requires LeaseStep(c, s, p, effect, q) && q.Some? && Made(q.value).Some?
    ensures Made(p) == Made(q.value) && !p.Lookup? && !q.value.Lookup?
  {
  }

  lemma AdmitMakes(c: Config, s: State, p: Phase, effect: Effect, q: Option<Phase>)
    requires AdmitStep(c, s, p, effect, q) || ReturnStep(c, s, p, effect, q) || Abandons(p, effect, q)
    ensures q.Some? ==> Made(q.value) == None
  {
  }

  lemma SweepMakes(c: Config, s: State, p: Phase, effect: Effect, q: Option<Phase>)
    requires CleanStep(c, s, p, effect, q) || CheckpointStep(c, s, p, effect, q)
    ensures q.Some? ==> Made(q.value) == None
  {
  }

  lemma StepMakes(c: Config, s: State, p: Phase, effect: Effect, q: Option<Phase>, lookups: nat)
    requires Moves(c, s, p, effect, q) && MadeExact(p, lookups) && q.Some?
    ensures MadeExact(q.value, lookups + Bit(p.Lookup?))
  {
    hide SlotStep, TakeStep, LeaseStep, AdmitStep, ReturnStep, CleanStep, CheckpointStep, Abandons, Made;
    if Made(q.value).Some? {
      if SlotStep(c, s, p, effect, q) {
        SlotMakes(c, s, p, effect, q);
      } else if TakeStep(c, s, p, effect, q) {
        TakeMakes(c, s, p, effect, q);
      } else if LeaseStep(c, s, p, effect, q) {
        LeaseMakes(c, s, p, effect, q);
      } else if CleanStep(c, s, p, effect, q) || CheckpointStep(c, s, p, effect, q) {
        SweepMakes(c, s, p, effect, q);
      } else {
        AdmitMakes(c, s, p, effect, q);
      }
    }
  }

  lemma ArrivesUnmade(p: Phase)
    requires Starts(p)
    ensures MadeExact(p, 0)
  {
  }

  /** One action, seen by task `t`. */
  lemma ActionMakes(c: Config, s: State, a: Action, s': State, t: TaskId, lookups: nat)
    requires Next(c, s, a, s') && t in s'.tasks
    requires t in s.tasks ==> MadeExact(s.tasks[t], lookups)
    ensures t in s.tasks || (a.Spawn? && a.task == t)
    ensures MadeExact(s'.tasks[t], if a.Spawn? && a.task == t then 0
                                   else lookups + Bit(a.Run? && a.task == t && t in s.tasks && s.tasks[t].Lookup?))
  {
    hide Moves, MadeExact, Apply, Starts;
    if a.Spawn? && a.task == t {
      ArrivesUnmade(a.phase);
    } else if a.Run? && a.task == t {
      StepMakes(c, s, s.tasks[t], a.effect, a.next, lookups);
    }
  }

  lemma {:induction false} LookupsMade(c: Config, states: seq<State>, actions: seq<Action>, t: TaskId, i: nat)
    requires InRun(c, states, actions, i) && t in states[i].tasks
    ensures i <= |actions| < |states| && MadeExact(states[i].tasks[t], Lookups(states, actions, t, i))
    decreases i
  {
    assert i > 0 && Next(c, states[i - 1], actions[i - 1], states[i]);
    hide MadeExact, Next;
    var s := states[i - 1];
    if t in s.tasks {
      LookupsMade(c, states, actions, t, i - 1);
    }
    ActionMakes(c, s, actions[i - 1], states[i], t, Lookups(states, actions, t, i - 1));
  }

  /** A request whose entry was closing looks again, and gives up by itself exactly when it has looked
      sixteen times. */
  lemma GivesUpAfterSixteenLookups(c: Config, states: seq<State>, actions: seq<Action>, t: TaskId, i: nat)
    requires InRun(c, states, actions, i) && i < |actions| < |states|
    requires t in states[i].tasks && states[i].tasks[t].Yielded? && actions[i].Run? && actions[i].task == t
    requires Proceeds(c, states[i], states[i].tasks[t], actions[i].effect, actions[i].next)
    ensures actions[i].next == None <==> Lookups(states, actions, t, i) == 16
    ensures actions[i].next != None ==>
              actions[i].next == Some(Lookup(states[i].tasks[t].name, Lookups(states, actions, t, i)))
  {
    hide IsRun;
    LookupsMade(c, states, actions, t, i);
  }
}
