/** The open-loop load generator: it offers work by the clock, whatever the responses do. */
module OpenLoop {
  import opened Prelude

  /** The schedule of a load; rates and times are exact. */
  datatype Plan = Plan(
    databases: nat, readers: nat, writers: nat, rate: real, duration: real, maxOutstanding: nat)

  predicate ValidPlan(p: Plan) {
    && p.databases > 0 && p.readers + p.writers > 0 && p.maxOutstanding > 0
    && p.rate >= 0.0 && p.duration >= 0.0
  }

  // ---- which request an ordinal stands for ----

  function TenantOf(p: Plan, ordinal: nat): (tenant: nat)
    requires ValidPlan(p)
    ensures tenant < p.databases
  {
    ordinal % p.databases
  }

  function RoleOf(p: Plan, ordinal: nat): (role: nat)
    requires ValidPlan(p)
    ensures role < p.readers + p.writers
  {
    ordinal / p.databases % (p.readers + p.writers)
  }

  predicate IsWriter(p: Plan, ordinal: nat)
    requires ValidPlan(p)
  {
    RoleOf(p, ordinal) < p.writers
  }

  // ---- accounting ----

  datatype Kind = Read | Write | Shed | HttpError | TransportError

  /** How an answered request is counted, from its role and the status it got. */
  function KindOf(p: Plan, status: nat -> int, ordinal: nat): Kind
    requires ValidPlan(p)
  {
    if status(ordinal) == 200 then (if IsWriter(p, ordinal) then Write else Read)
    else if status(ordinal) == 429 then Shed
    else if status(ordinal) == 0 then TransportError
    else HttpError
  }

  ghost function Of(p: Plan, status: nat -> int, answered: set<nat>, k: Kind): set<nat>
    requires ValidPlan(p)
  {
    set o | o in answered && KindOf(p, status, o) == k
  }

  lemma OfInsert(p: Plan, status: nat -> int, answered: set<nat>, o: nat, k: Kind)
    requires ValidPlan(p) && o !in answered
    ensures |Of(p, status, answered + {o}, k)| == |Of(p, status, answered, k)| + Bit(KindOf(p, status, o) == k)
  {
    RemoveOne(Of(p, status, answered + {o}, k), o);
    assert Of(p, status, answered + {o}, k) - {o} == Of(p, status, answered, k);
  }

  /** Whole requests due after a time, as `int` truncates it. */
  function Due(p: Plan, elapsed: real): nat
    requires ValidPlan(p) && elapsed >= 0.0
  {
    ScaledOrder(0.0, Capped(p, elapsed), p.rate);
    (Capped(p, elapsed) * p.rate).Floor
  }

  /** The time for which requests are due. */
  function Capped(p: Plan, elapsed: real): real {
    if elapsed <= p.duration then elapsed else p.duration
  }

  lemma DueGrows(p: Plan, early: real, late: real)
    requires ValidPlan(p) && 0.0 <= early <= late
    ensures Due(p, early) <= Due(p, late)
    ensures late >= p.duration ==> Due(p, late) == (p.duration * p.rate).Floor
  {
    var e, l := Capped(p, early), Capped(p, late);
    assert 0.0 <= e <= l && (late >= p.duration ==> l == p.duration);
    hide Capped;
    ScaledOrder(e, l, p.rate);
    FloorOrder(e * p.rate, l * p.rate);
  }

  lemma FloorOrder(a: real, b: real)
    requires a <= b
    ensures a.Floor <= b.Floor
  {
  }

  lemma ScaledOrder(a: real, b: real, rate: real)
    requires a <= b && rate >= 0.0
    ensures a * rate <= b * rate
  {
    assert (b - a) * rate >= 0.0;
  }

  /** The code takes the minimum of two truncations; that is the truncation of the earlier time. */
  lemma DueIsMinimum(p: Plan, elapsed: real)
    requires ValidPlan(p) && elapsed >= 0.0
    ensures var a, b := (elapsed * p.rate).Floor, (p.duration * p.rate).Floor;
            Due(p, elapsed) == Minimum(a, b)
  {
    if elapsed <= p.duration {
      ScaledOrder(elapsed, p.duration, p.rate);
    } else {
      ScaledOrder(p.duration, elapsed, p.rate);
    }
  }

  /** Each offered ordinal is pending, answered or dropped, and only one of these; the backlog is bounded. */
  ghost predicate Parted(offered: nat, pending: set<nat>, answered: set<nat>, dropped: set<nat>, bound: nat) {
    && (forall o :: o in pending ==> o < offered && o !in answered && o !in dropped)
    && (forall o :: o in answered ==> o < offered && o !in dropped)
    && (forall o :: o in dropped ==> o < offered)
    && offered == |pending| + |answered| + |dropped|
    && |pending| <= bound
  }

  lemma PartsAfterDrop(offered: nat, pending: set<nat>, answered: set<nat>, dropped: set<nat>, bound: nat)
    requires Parted(offered, pending, answered, dropped, bound)
    ensures Parted(offered + 1, pending, answered, dropped + {offered}, bound)
    ensures |dropped + {offered}| == |dropped| + 1
  {
    RemoveOne(dropped + {offered}, offered);
    assert dropped + {offered} - {offered} == dropped;
  }

  lemma PartsAfterSubmit(offered: nat, pending: set<nat>, answered: set<nat>, dropped: set<nat>, bound: nat)
    requires Parted(offered, pending, answered, dropped, bound) && |pending| < bound
    ensures Parted(offered + 1, pending + {offered}, answered, dropped, bound)
    ensures |pending + {offered}| == |pending| + 1
  {
    RemoveOne(pending + {offered}, offered);
    assert pending + {offered} - {offered} == pending;
  }

  lemma PartsAfterAnswer(offered: nat, pending: set<nat>, answered: set<nat>, dropped: set<nat>, bound: nat, o: nat)
    requires Parted(offered, pending, answered, dropped, bound) && o in pending
    ensures o !in answered && Parted(offered, pending - {o}, answered + {o}, dropped, bound)
  {
    RemoveOne(pending, o);
    RemoveOne(answered + {o}, o);
    assert answered + {o} - {o} == answered;
  }

  /** A request handed to the executor. */
  datatype Job = Job(ordinal: nat, tenant: nat, write: bool)

  /** `fixed_rate_load`, with the counters its nested `collect` updates. */
  class Load {
    const plan: Plan
    /** The status and the latency the request of an ordinal will get. */
    const status: nat -> int
    const latency: nat -> real
    var readCount: nat
    var writeCount: nat
    var shed: nat
    var httpErrors: nat
    var transportErrors: nat
    var clientDropped: nat
    var offered: nat
    var latencies: seq<real>
    var pending: set<nat>
    /** What was handed to the executor, in order. */
    var submitted: seq<Job>
    ghost var answered: set<nat>
    ghost var dropped: set<nat>

    /** Every counter is exact for the requests answered so far. */
    ghost predicate Counted()
      requires ValidPlan(plan)
      reads this`readCount, this`writeCount, this`shed, this`httpErrors, this`transportErrors, this`latencies, this`answered
    {
      && readCount == |Of(plan, status, answered, Read)|
      && writeCount == |Of(plan, status, answered, Write)|
      && shed == |Of(plan, status, answered, Shed)|
      && httpErrors == |Of(plan, status, answered, HttpError)|
      && transportErrors == |Of(plan, status, answered, TransportError)|
      && |latencies| == |answered| == readCount + writeCount + shed + httpErrors + transportErrors
    }

    ghost predicate Split()
      reads this`pending, this`answered, this`dropped, this`clientDropped, this`offered
    {
      clientDropped == |dropped| && Parted(offered, pending, answered, dropped, plan.maxOutstanding)
    }

    constructor (plan: Plan, status: nat -> int, latency: nat -> real)
      requires ValidPlan(plan)
      ensures ValidPlan(this.plan) && Counted() && Split() && offered == 0 && submitted == []
      ensures this.plan == plan && this.status == status && this.latency == latency
    {
      this.plan, this.status, this.latency := plan, status, latency;
      readCount, writeCount, shed, httpErrors, transportErrors := 0, 0, 0, 0, 0;
      clientDropped, offered, latencies, submitted := 0, 0, [], [];
      pending, answered, dropped := {}, {}, {};
      new;
      assert forall k :: Of(plan, status, {}, k) == {};
    }

    /** One finished request. */
    method Count(o: nat)
      requires ValidPlan(plan) && Counted() && o !in answered
      modifies this`readCount, this`writeCount, this`shed, this`httpErrors, this`transportErrors, this`latencies, this`answered
      ensures Counted() && answered == old(answered) + {o} && latencies == old(latencies) + [latency(o)]
      ensures var role := o / plan.databases % (plan.readers + plan.writers);
              && readCount == old(readCount) + Bit(status(o) == 200 && role >= plan.writers)
              && writeCount == old(writeCount) + Bit(status(o) == 200 && role < plan.writers)
      ensures shed == old(shed) + Bit(status(o) == 429)
      ensures transportErrors == old(transportErrors) + Bit(status(o) == 0)
      ensures httpErrors == old(httpErrors) + Bit(status(o) != 200 && status(o) != 429 && status(o) != 0)
    {
      OfInsert(plan, status, answered, o, Read);
      OfInsert(plan, status, answered, o, Write);
      OfInsert(plan, status, answered, o, Shed);
      OfInsert(plan, status, answered, o, HttpError);
      OfInsert(plan, status, answered, o, TransportError);
      RemoveOne(answered + {o}, o);
      assert answered + {o} - {o} == answered;
      answered := answered + {o};
      latencies := latencies + [latency(o)];
      if status(o) == 200 {
        if IsWriter(plan, o) {
          writeCount := writeCount + 1;
        } else {
          readCount := readCount + 1;
        }
      } else if status(o) == 429 {
        shed := shed + 1;
      } else if status(o) == 0 {
        transportErrors := transportErrors + 1;
      } else {
        httpErrors := httpErrors + 1;
      }
    }

    /** One finished request leaves the backlog and is counted. */
    method Settle(o: nat)
      requires ValidPlan(plan) && Counted() && Split() && o in pending
      modifies this`readCount, this`writeCount, this`shed, this`httpErrors, this`transportErrors, this`latencies,
        this`answered, this`pending
      ensures Counted() && Split() && pending == old(pending) - {o} && answered == old(answered) + {o}
    {
      hide Counted, Parted;
      PartsAfterAnswer(offered, pending, answered, dropped, plan.maxOutstanding, o);
      Count(o);
      pending := pending - {o};
    }

    /** Moves finished requests from `pending` to the counters. */
    method Collect(done: set<nat>)
      requires ValidPlan(plan) && Counted() && Split() && done <= pending
      modifies this`readCount, this`writeCount, this`shed, this`httpErrors, this`transportErrors, this`latencies,
        this`answered, this`pending
      ensures Counted() && Split() && pending == old(pending) - done && answered == old(answered) + done
    {
      hide Counted, Split;
      var rest := done;
      while rest != {}
        invariant Counted() && Split() && rest <= done && rest <= pending
        invariant pending == old(pending) - (done - rest) && answered == old(answered) + (done - rest)
        decreases |rest|
      {
        var o :| o in rest;
        rest := rest - {o};
        Settle(o);
      }
    }

    /** Offers the next ordinal: submits it, or drops it when the backlog is full. */
    method Offer()
      requires ValidPlan(plan) && Counted() && Split()
      modifies this`offered, this`pending, this`clientDropped, this`dropped, this`submitted
      ensures Counted() && Split() && offered == old(offered) + 1
      ensures if |old(pending)| >= plan.maxOutstanding then
                pending == old(pending) && dropped == old(dropped) + {old(offered)}
                && |dropped| == |old(dropped)| + 1 && submitted == old(submitted)
              else
                dropped == old(dropped) && pending == old(pending) + {old(offered)}
                && |pending| == |old(pending)| + 1
                && submitted == old(submitted)
                                + [Job(old(offered), old(offered) % plan.databases,
                                       old(offered) / plan.databases % (plan.readers + plan.writers) < plan.writers)]
    {
      hide Counted, Parted;
      var ordinal := offered;
      offered := offered + 1;
      if |pending| >= plan.maxOutstanding {
        PartsAfterDrop(ordinal, pending, answered, dropped, plan.maxOutstanding);
        clientDropped := clientDropped + 1;
        dropped := dropped + {ordinal};
      } else {
        PartsAfterSubmit(ordinal, pending, answered, dropped, plan.maxOutstanding);
        pending := pending + {ordinal};
        submitted := submitted + [Job(ordinal, TenantOf(plan, ordinal), IsWriter(plan, ordinal))];
      }
    }

    lemma SplitBounds()
      requires Split()
      ensures |pending| <= plan.maxOutstanding && |pending| + |dropped| <= offered && clientDropped == |dropped|
    {
    }

    /** Offers the next `due` ordinals; what does not fit in the backlog is dropped. */
    method OfferDue(due: nat)
      requires ValidPlan(plan) && Counted() && Split()
      modifies this`offered, this`pending, this`clientDropped, this`dropped, this`submitted
      ensures Counted() && Split() && offered == old(offered) + due
      ensures |dropped| == |old(dropped)| + Maximum(0, |old(pending)| + due - plan.maxOutstanding)
    {
      hide Counted, Split;
      SplitBounds();
      for n := 0 to due
        invariant Counted() && Split() && offered == old(offered) + n
        invariant |pending| == Minimum(|old(pending)| + n, plan.maxOutstanding)
        invariant |dropped| == |old(dropped)| + Maximum(0, |old(pending)| + n - plan.maxOutstanding)
      {
        Offer();
      }
    }

    /** One round: collect what has finished, then offer what is due by `now`. */
    method Round(now: real, done: set<nat>)
      requires ValidPlan(plan) && Counted() && Split() && now >= 0.0 && done <= pending
      modifies this`readCount, this`writeCount, this`shed, this`httpErrors, this`transportErrors, this`latencies,
        this`answered, this`pending, this`offered, this`clientDropped, this`dropped, this`submitted
      ensures Counted() && Split() && offered == Maximum(old(offered), Due(plan, now))
      ensures |dropped| == |old(dropped)|
              + Maximum(0, |old(pending) - done| + offered - old(offered) - plan.maxOutstanding)
    {
      hide Counted, Split, Due;
      Collect(done);
      var expected := Minimum((now * plan.rate).Floor, (plan.duration * plan.rate).Floor);
      DueIsMinimum(plan, now);
      OfferDue(Maximum(expected - offered, 0));
    }

    /** A round at or after the one before: everything due by `now` has been offered, and nothing was
        dropped as long as the backlog could hold it all. */
    method NextRound(now: real, finished: set<nat>)
      requires ValidPlan(plan) && Counted() && Split() && now >= 0.0 && offered <= Due(plan, now)
      requires offered <= plan.maxOutstanding ==> clientDropped == 0
      modifies this`readCount, this`writeCount, this`shed, this`httpErrors, this`transportErrors, this`latencies,
        this`answered, this`pending, this`offered, this`clientDropped, this`dropped, this`submitted
      ensures Counted() && Split() && offered == Due(plan, now)
      ensures offered <= plan.maxOutstanding ==> clientDropped == 0
    {
      hide Counted, Split, Due, ValidPlan;
      SplitBounds();
      SubsetCardinality(pending - pending * finished, pending);
      Round(now, pending * finished);
      SplitBounds();
    }

    /** The whole load.  `clock[i]` is the time read in round `i`, from the start, and `finished[i]`
        are the requests that have completed by then; some round reads the deadline. */
    method Drive(clock: seq<real>, finished: seq<set<nat>>)
      requires ValidPlan(plan) && Counted() && Split() && offered == 0
      requires |finished| == |clock| && (forall i :: 0 <= i < |clock| ==> clock[i] >= 0.0)
      requires forall i, j :: 0 <= i < j < |clock| ==> clock[i] <= clock[j]
      requires exists i :: 0 <= i < |clock| && clock[i] >= plan.duration
      modifies this`readCount, this`writeCount, this`shed, this`httpErrors, this`transportErrors, this`latencies,
        this`answered, this`pending, this`offered, this`clientDropped, this`dropped, this`submitted
      ensures Counted() && Split() && pending == {}
      ensures offered == (plan.duration * plan.rate).Floor
      ensures offered == readCount + writeCount + shed + httpErrors + transportErrors + clientDropped
      ensures |latencies| == offered - clientDropped
      ensures offered <= plan.maxOutstanding ==> clientDropped == 0
      ensures offered == Period(plan) && clientDropped == 0 && (forall o: nat :: o < offered ==> status(o) == 200) ==>
                writeCount == plan.databases * plan.writers && readCount == plan.databases * plan.readers
    {
      hide Counted, Split, Due, ValidPlan, Period;
      SplitBounds();
      var i := 0;
      var over := false;
      while !over
        invariant Counted() && Split() && i <= |clock|
        invariant offered <= plan.maxOutstanding ==> clientDropped == 0
        invariant if i > 0 then offered == Due(plan, clock[i - 1]) else offered == 0
        invariant over == (i > 0 && clock[i - 1] >= plan.duration)
        decreases |clock| - i
      {
        if i > 0 {
          DueGrows(plan, clock[i - 1], clock[i]);
        }
        NextRound(clock[i], finished[i]);
        over := clock[i] >= plan.duration;
        i := i + 1;
      }
      DueGrows(plan, clock[i - 1], clock[i - 1]);
      Collect(pending);
      NothingLost(this);
      OnePeriodCounted(this);
    }
  }

  function Maximum(a: int, b: int): int {
    if a <= b then b else a
  }

  function Minimum(a: int, b: int): int {
    if a <= b then a else b
  }

  /** At the end every offered request is accounted for, with one latency for each one submitted. */
  lemma NothingLost(load: Load)
    requires ValidPlan(load.plan) && load.Counted() && load.Split() && load.pending == {}
    ensures load.offered == load.readCount + load.writeCount + load.shed + load.httpErrors + load.transportErrors
                            + load.clientDropped
    ensures |load.latencies| == load.offered - load.clientDropped
  {
  }

  // ---- the mix of a load ----

  /** Ordinal `o` is a request for tenant `t`, a write if `write` and a read otherwise. */
  predicate Asks(p: Plan, t: nat, write: bool, o: nat)
    requires ValidPlan(p)
  {
    TenantOf(p, o) == t && IsWriter(p, o) == write
  }

  /** How many of the `n` ordinals that start at `from` ask for this. */
  function Offers(p: Plan, t: nat, write: bool, from: nat, n: nat): nat
    requires ValidPlan(p)
  {
    if n == 0 then 0 else Offers(p, t, write, from, n - 1) + Bit(Asks(p, t, write, from + n - 1))
  }

  function Period(p: Plan): nat {
    p.databases * (p.readers + p.writers)
  }

  lemma {:induction false} Multiples(d: nat, x: int)
    ensures x > 0 ==> d * x >= d
    ensures x < 0 ==> d * x + d <= 0
    decreases if x < 0 then -x else x
  {
    if x > 1 {
      Multiples(d, x - 1);
    } else if x < -1 {
      Multiples(d, x + 1);
    }
  }

  lemma Quotient(a: nat, d: nat, k: nat, r: nat)
    requires d > 0 && a == d * k + r && r < d
    ensures a / d == k && a % d == r
  {
    var q := a / d;
    assert a == d * q + a % d;
    assert d * (q - k) == d * q - d * k;
    Multiples(d, q - k);
  }

  lemma Shift(a: nat, d: nat, k: nat)
    requires d > 0
    ensures (a + d * k) / d == a / d + k && (a + d * k) % d == a % d
  {
    assert a + d * k == d * (a / d + k) + a % d;
    Quotient(a + d * k, d, a / d + k, a % d);
  }

  lemma MixRepeats(p: Plan, o: nat)
    requires ValidPlan(p)
    ensures TenantOf(p, o + Period(p)) == TenantOf(p, o) && RoleOf(p, o + Period(p)) == RoleOf(p, o)
  {
    var m := p.readers + p.writers;
    Shift(o, p.databases, m);
    Shift(o / p.databases, m, 1);
  }

  lemma {:induction false} OffersFirst(p: Plan, t: nat, write: bool, from: nat, n: nat)
    requires ValidPlan(p)
    ensures Offers(p, t, write, from, n + 1) == Bit(Asks(p, t, write, from)) + Offers(p, t, write, from + 1, n)
  {
    if n > 0 {
      OffersFirst(p, t, write, from, n - 1);
    }
  }

  /** A whole period holds the same mix wherever it starts. */
  lemma {:induction false} MixSlides(p: Plan, t: nat, write: bool, from: nat)
    requires ValidPlan(p)
    ensures Offers(p, t, write, from, Period(p)) == Offers(p, t, write, 0, Period(p))
  {
    if from > 0 {
      OffersFirst(p, t, write, from - 1, Period(p));
      MixRepeats(p, from - 1);
      MixSlides(p, t, write, from - 1);
    }
  }

  lemma AsksAt(p: Plan, t: nat, write: bool, pass: nat, j: nat)
    requires ValidPlan(p) && pass < p.readers + p.writers && j < p.databases
    ensures Asks(p, t, write, p.databases * pass + j) == (t == j && (pass < p.writers) == write)
  {
    var d, m := p.databases, p.readers + p.writers;
    Quotient(d * pass + j, d, pass, j);
    assert m * 0 == 0;
    Quotient(pass, m, 0, pass);
  }

  /** From the start, after `pass` whole passes over the tenants, which cover `start` ordinals, and
      `j` more ordinals. */
  lemma {:induction false} MixFromStart(p: Plan, t: nat, write: bool, pass: nat, start: nat, j: nat)
    requires ValidPlan(p) && t < p.databases && start == p.databases * pass
    requires pass < p.readers + p.writers && j <= p.databases
    ensures Offers(p, t, write, 0, start + j)
         == (if write then Minimum(pass, p.writers) else Maximum(pass - p.writers, 0))
            + Bit(t < j && (pass < p.writers) == write)
    decreases pass, j
  {
    hide Asks;
    if j > 0 {
      MixFromStart(p, t, write, pass, start, j - 1);
      AsksAt(p, t, write, pass, j - 1);
    } else if pass > 0 {
      assert p.databases * (pass - 1) == start - p.databases;
      MixFromStart(p, t, write, pass - 1, start - p.databases, p.databases);
    }
  }

  /** Any window of a whole period, wherever it starts, offers every tenant exactly its mix. */
  lemma ExactMix(p: Plan, t: nat, from: nat)
    requires ValidPlan(p) && t < p.databases
    ensures Offers(p, t, true, from, Period(p)) == p.writers
    ensures Offers(p, t, false, from, Period(p)) == p.readers
  {
    hide Offers;
    var d, m := p.databases, p.readers + p.writers;
    var start := d * (m - 1);
    assert start + d == Period(p) by {
      hide *;
      assert d * (m - 1) + d == d * m;
    }
    MixFromStart(p, t, true, m - 1, start, d);
    MixFromStart(p, t, false, m - 1, start, d);
    MixSlides(p, t, true, from);
    MixSlides(p, t, false, from);
  }

  /** `k` whole periods hold `k` times the mix. */
  lemma {:induction false} MixOfPeriods(p: Plan, t: nat, k: nat)
    requires ValidPlan(p) && t < p.databases
    ensures Offers(p, t, true, 0, k * Period(p)) == k * p.writers
    ensures Offers(p, t, false, 0, k * Period(p)) == k * p.readers
  {
    hide Period;
    if k > 0 {
      MixOfPeriods(p, t, k - 1);
      ExactMix(p, t, (k - 1) * Period(p));
      assert (k - 1) * Period(p) + Period(p) == k * Period(p);
      OffersAppend(p, t, true, 0, (k - 1) * Period(p), Period(p));
      OffersAppend(p, t, false, 0, (k - 1) * Period(p), Period(p));
      assert (k - 1) * p.writers + p.writers == k * p.writers;
      assert (k - 1) * p.readers + p.readers == k * p.readers;
    }
  }

  lemma {:induction false} OffersAppend(p: Plan, t: nat, write: bool, from: nat, m: nat, n: nat)
    requires ValidPlan(p)
    ensures Offers(p, t, write, from, m + n) == Offers(p, t, write, from, m) + Offers(p, t, write, from + m, n)
  {
    if n > 0 {
      OffersAppend(p, t, write, from, m, n - 1);
    }
  }

  // ---- the mix of what is counted ----

  /** How many of the first `n` ordinals are writes, or reads, for the first `tenants` tenants. */
  function OffersToAll(p: Plan, write: bool, n: nat, tenants: nat): nat
    requires ValidPlan(p)
  {
    if tenants == 0 then 0 else OffersToAll(p, write, n, tenants - 1) + Offers(p, tenants - 1, write, 0, n)
  }

  /** The writes, or reads, among the first `n` ordinals. */
  ghost function Roles(p: Plan, write: bool, n: nat): set<nat>
    requires ValidPlan(p)
  {
    set o | 0 <= o < n && IsWriter(p, o) == write
  }

  /** One more ordinal adds to exactly one tenant. */
  lemma {:induction false} OneMoreOrdinal(p: Plan, write: bool, n: nat, tenants: nat)
    requires ValidPlan(p)
    ensures OffersToAll(p, write, n + 1, tenants)
            == OffersToAll(p, write, n, tenants) + Bit(TenantOf(p, n) < tenants && IsWriter(p, n) == write)
  {
    if tenants > 0 {
      OneMoreOrdinal(p, write, n, tenants - 1);
    }
  }

  lemma {:induction false} RolesCounted(p: Plan, write: bool, n: nat)
    requires ValidPlan(p)
    ensures |Roles(p, write, n)| == OffersToAll(p, write, n, p.databases)
  {
    hide IsWriter, OffersToAll;
    if n == 0 {
      assert Roles(p, write, 0) == {};
      NobodyYet(p, write, p.databases);
    } else {
      RolesCounted(p, write, n - 1);
      OneMoreOrdinal(p, write, n - 1, p.databases);
      RemoveOne(Roles(p, write, n), n - 1);
      assert Roles(p, write, n) - {n - 1} == Roles(p, write, n - 1);
    }
  }

  lemma {:induction false} NobodyYet(p: Plan, write: bool, tenants: nat)
    requires ValidPlan(p)
    ensures OffersToAll(p, write, 0, tenants) == 0
  {
    if tenants > 0 {
      NobodyYet(p, write, tenants - 1);
    }
  }

  lemma {:induction false} EqualShares(p: Plan, k: nat, tenants: nat)
    requires ValidPlan(p) && tenants <= p.databases
    ensures OffersToAll(p, true, k * Period(p), tenants) == tenants * (k * p.writers)
    ensures OffersToAll(p, false, k * Period(p), tenants) == tenants * (k * p.readers)
  {
    hide Period;
    if tenants > 0 {
      EqualShares(p, k, tenants - 1);
      MixOfPeriods(p, tenants - 1, k);
      assert (tenants - 1) * (k * p.writers) + k * p.writers == tenants * (k * p.writers);
      assert (tenants - 1) * (k * p.readers) + k * p.readers == tenants * (k * p.readers);
    }
  }

  /** The first `n` ordinals. */
  ghost function UpToOrdinal(n: nat): (all: set<nat>)
    ensures |all| == n && forall o :: o in all <==> 0 <= o < n
  {
    if n == 0 then {} else UpToOrdinal(n - 1) + {n - 1}
  }

  /** When `k` whole periods have been offered, nothing was dropped and every request was answered with
      200, the counters hold exactly the mix: each tenant's writes and reads, `k` times. */
  lemma CountersHoldTheMix(load: Load, k: nat)
    requires ValidPlan(load.plan) && load.Counted() && load.Split() && load.pending == {}
    requires load.clientDropped == 0 && load.offered == k * Period(load.plan)
    requires forall o: nat :: o < load.offered ==> load.status(o) == 200
    ensures load.writeCount == load.plan.databases * (k * load.plan.writers)
    ensures load.readCount == load.plan.databases * (k * load.plan.readers)
  {
    hide Period, OffersToAll, Roles, Of, Parted;
    var p := load.plan;
    AllAnswered(load);
    RolesCounted(p, true, load.offered);
    RolesCounted(p, false, load.offered);
    EqualShares(p, k, p.databases);
    CountedByRole(p, load.status, load.offered);
  }

  /** Answered with 200, a request is counted by its role. */
  lemma CountedByRole(p: Plan, status: nat -> int, n: nat)
    requires ValidPlan(p) && forall o: nat :: o < n ==> status(o) == 200
    ensures Of(p, status, UpToOrdinal(n), Write) == Roles(p, true, n)
    ensures Of(p, status, UpToOrdinal(n), Read) == Roles(p, false, n)
  {
    hide IsWriter;
  }

  lemma OnePeriodCounted(load: Load)
    requires ValidPlan(load.plan) && load.Counted() && load.Split() && load.pending == {}
    ensures load.offered == Period(load.plan) && load.clientDropped == 0
            && (forall o: nat :: o < load.offered ==> load.status(o) == 200) ==>
              load.writeCount == load.plan.databases * load.plan.writers
              && load.readCount == load.plan.databases * load.plan.readers
  {
    hide *;
    if load.offered == Period(load.plan) && load.clientDropped == 0
       && forall o: nat :: o < load.offered ==> load.status(o) == 200 {
      CountersHoldTheMix(load, 1);
    }
  }

  /** One ordinal after the other goes to the next tenant, and to the first again after the last. */
  lemma TenantsTakeTurns(p: Plan, o: nat)
    requires ValidPlan(p)
    ensures TenantOf(p, 0) == 0
    ensures TenantOf(p, o + 1) == if TenantOf(p, o) + 1 == p.databases then 0 else TenantOf(p, o) + 1
  {
    var d, k, r := p.databases, o / p.databases, o % p.databases;
    if r + 1 == d {
      assert d * (k + 1) == d * k + d;
      Quotient(o + 1, d, k + 1, 0);
    } else {
      Quotient(o + 1, d, k, r + 1);
    }
  }

  lemma AllAnswered(load: Load)
    requires load.Split() && load.pending == {} && load.clientDropped == 0
    ensures load.answered == UpToOrdinal(load.offered)
  {
    var all := UpToOrdinal(load.offered);
    assert load.answered <= all;
    if load.answered != all {
      SubsetCardinality(load.answered, all);
    }
  }

  // ---- the latency summary ----

  predicate Ascending(s: seq<real>) {
    forall i, j :: 0 <= i < j < |s| ==> s[i] <= s[j]
  }

  function Place(s: seq<real>, x: real): seq<real> {
    if s == [] || x <= s[0] then [x] + s else [s[0]] + Place(s[1..], x)
  }

  function Sorted(s: seq<real>): seq<real> {
    if s == [] then [] else Place(Sorted(s[1..]), s[0])
  }

  lemma {:induction false} PlaceAdds(s: seq<real>, x: real)
    ensures multiset(Place(s, x)) == multiset(s) + multiset{x}
  {
    if s != [] && x > s[0] {
      PlaceAdds(s[1..], x);
      assert s == [s[0]] + s[1..];
    }
  }

  lemma {:induction false} PlaceKeeps(s: seq<real>, x: real)
    requires Ascending(s)
    ensures Ascending(Place(s, x))
  {
    if s != [] && x > s[0] {
      PlaceKeeps(s[1..], x);
      PlaceAdds(s[1..], x);
      var rest := Place(s[1..], x);
      forall i | 0 <= i < |rest| ensures s[0] <= rest[i] {
        assert rest[i] in multiset(rest);
        assert rest[i] == x || rest[i] in s[1..];
      }
    }
  }

  lemma {:induction false} SortedSorts(s: seq<real>)
    ensures Ascending(Sorted(s)) && multiset(Sorted(s)) == multiset(s) && |Sorted(s)| == |s|
  {
    if s != [] {
      SortedSorts(s[1..]);
      PlaceKeeps(Sorted(s[1..]), s[0]);
      PlaceAdds(Sorted(s[1..]), s[0]);
      assert s == [s[0]] + s[1..];
      assert |multiset(Sorted(s))| == |Sorted(s)| && |multiset(s)| == |s|;
    }
  }

  function Position(n: nat, fraction: real): (k: nat)
    requires n > 0 && fraction >= 0.0
    ensures k < n && k as real <= n as real * fraction
    ensures n as real * fraction < (k + 1) as real || k == n - 1
  {
    var share := n as real * fraction;
    ScaledOrder(0.0, fraction, n as real);
    Minimum(n - 1, share.Floor)
  }

  function Percentile(values: seq<real>, fraction: real): real
    requires fraction >= 0.0
  {
    if values == [] then 0.0 else
    SortedSorts(values);
    Sorted(values)[Position(|values|, fraction)]
  }

  /** How many values satisfy a test. */
  function Held(s: seq<real>, test: real -> bool): nat {
    if s == [] then 0 else Bit(test(s[0])) + Held(s[1..], test)
  }

  lemma {:induction false} HeldOfPlace(s: seq<real>, x: real, test: real -> bool)
    ensures Held(Place(s, x), test) == Held(s, test) + Bit(test(x))
  {
    if s != [] && x > s[0] {
      HeldOfPlace(s[1..], x, test);
    }
  }

  lemma {:induction false} HeldOfSorted(s: seq<real>, test: real -> bool)
    ensures Held(Sorted(s), test) == Held(s, test)
  {
    if s != [] {
      HeldOfSorted(s[1..], test);
      HeldOfPlace(Sorted(s[1..]), s[0], test);
    }
  }

  /** At least the first `k` values satisfy the test, and none after the first `l` do. */
  lemma {:induction false} HeldWithin(s: seq<real>, test: real -> bool, k: nat, l: nat)
    requires k <= |s|
    requires forall i :: 0 <= i < k ==> test(s[i])
    requires forall i :: l <= i < |s| ==> !test(s[i])
    ensures k <= Held(s, test) <= l
  {
    if s != [] {
      assert l == 0 ==> !test(s[0]);
      HeldWithin(s[1..], test, if k == 0 then 0 else k - 1, if l == 0 then 0 else l - 1);
    }
  }

  function Under(v: real): real -> bool {
    y => y < v
  }

  function UpTo(v: real): real -> bool {
    y => y <= v
  }

  /** Not more than the fraction of the values lie below the percentile, and more than the fraction
      lie at or below it (all of them when the fraction is one or more). */
  lemma PercentileSplits(values: seq<real>, fraction: real)
    requires fraction >= 0.0 && values != []
    ensures var v, share := Percentile(values, fraction), |values| as real * fraction;
            && v in values
            && Held(values, Under(v)) as real <= share
            && (Held(values, UpTo(v)) as real > share || Held(values, UpTo(v)) == |values|)
  {
    hide Held, Place, Position;
    var n, s, v := |values|, Sorted(values), Percentile(values, fraction);
    SortedSorts(values);
    var k := Position(n, fraction);
    assert v == s[k] && v in multiset(s);
    HeldOfSorted(values, Under(v));
    HeldOfSorted(values, UpTo(v));
    HeldWithin(s, Under(v), 0, k);
    HeldWithin(s, UpTo(v), k + 1, n);
  }
}
