/** The request metrics: cumulative histograms and outcome counters, when no record is in flight.
    Durations are whole nanoseconds and the bucket bounds exact; counters wrap at 64 bits. */
module Telemetry {
  import opened Prelude

  /** Upper bounds of the buckets in nanoseconds. */
  const BUCKETS: seq<nat> := [
    1_000_000, 2_500_000, 5_000_000, 10_000_000, 25_000_000, 50_000_000,
    100_000_000, 250_000_000, 500_000_000, 1_000_000_000, 2_500_000_000, 5_000_000_000]

  const ROUTES: seq<string> := ["/v1/db/{database}/query", "/v1/db/{database}/execute", "/v1/db/{database}/batch"]

  /** How many samples are at or below `bound`. */
  function CountAtMost(samples: seq<nat>, bound: nat): nat {
    if samples == [] then 0
    else CountAtMost(samples[..|samples| - 1], bound) + Bit(samples[|samples| - 1] <= bound)
  }

  /** The samples in whole microseconds, added up. */
  function TotalMicros(samples: seq<nat>): nat {
    if samples == [] then 0
    else TotalMicros(samples[..|samples| - 1]) + samples[|samples| - 1] / 1000
  }

  /** The low 64 bits. */
  function Wrapped(n: nat): (w: nat)
    ensures w < U64 && (n < U64 ==> w == n)
  {
    n % 0x1_0000_0000_0000_0000
  }

  /** Wrapping can be postponed to the end of a sum. */
  lemma WrapAdd(n: nat, k: nat)
    ensures Wrapped(Wrapped(n) + k) == Wrapped(n + k)
  {
    var q := n / 0x1_0000_0000_0000_0000;
    assert n + k == Wrapped(n) + k + q * 0x1_0000_0000_0000_0000;
  }

  lemma CountAppended(samples: seq<nat>, sample: nat, bound: nat)
    ensures CountAtMost(samples + [sample], bound) == CountAtMost(samples, bound) + Bit(sample <= bound)
  {
    assert (samples + [sample])[..|samples|] == samples;
  }

  lemma SampleAppended(samples: seq<nat>, sample: nat)
    ensures TotalMicros(samples + [sample]) == TotalMicros(samples) + sample / 1000
  {
    assert (samples + [sample])[..|samples|] == samples;
  }

  class Histogram {
    var buckets: array<nat>
    var count: nat
    var totalMicros: nat
    /** Everything recorded so far, in nanoseconds. */
    ghost var samples: seq<nat>

    /** Bucket `i` holds the number of samples at or below bound `i`. */
    ghost predicate Valid()
      reads this, buckets
    {
      && buckets.Length == |BUCKETS|
      && (forall i :: 0 <= i < |BUCKETS| ==> buckets[i] == Wrapped(CountAtMost(samples, BUCKETS[i])))
      && count == Wrapped(|samples|)
      && totalMicros == Wrapped(TotalMicros(samples))
    }

    constructor ()
      ensures Valid() && fresh(buckets) && samples == []
    {
      buckets := new nat[|BUCKETS|](_ => 0);
      count, totalMicros, samples := 0, 0, [];
    }

    method Record(elapsed: nat)
      requires Valid()
      modifies this`count, this`totalMicros, this`samples, buckets
      ensures Valid() && samples == old(samples) + [elapsed]
    {
      hide Wrapped, CountAtMost, TotalMicros;
      ghost var before := samples;
      samples := samples + [elapsed];
      SampleAppended(before, elapsed);
      for i := 0 to |BUCKETS|
        invariant samples == before + [elapsed] && count == old(count) && totalMicros == old(totalMicros)
        invariant forall k :: 0 <= k < |BUCKETS| ==>
                    buckets[k] == Wrapped(CountAtMost(if k < i then samples else before, BUCKETS[k]))
      {
        CountAppended(before, elapsed, BUCKETS[i]);
        if elapsed <= BUCKETS[i] {
          WrapAdd(CountAtMost(before, BUCKETS[i]), 1);
          buckets[i] := Wrapped(buckets[i] + 1);
        }
      }
      WrapAdd(|before|, 1);
      WrapAdd(elapsed / 1000, totalMicros);
      WrapAdd(TotalMicros(before), elapsed / 1000);
      count := Wrapped(count + 1);
      totalMicros := Wrapped(totalMicros + Wrapped(elapsed / 1000));
    }
  }

  // ---- what the counts mean ----

  lemma {:induction false} CountBounds(samples: seq<nat>, low: nat, high: nat)
    requires low <= high
    ensures CountAtMost(samples, low) <= CountAtMost(samples, high) <= |samples|
  {
    if samples != [] {
      CountBounds(samples[..|samples| - 1], low, high);
    }
  }

  /** How many samples lie above `low` and at or below `high`. */
  function CountBetween(samples: seq<nat>, low: nat, high: nat): nat {
    if samples == [] then 0
    else CountBetween(samples[..|samples| - 1], low, high) + Bit(low < samples[|samples| - 1] <= high)
  }

  lemma {:induction false} CountSplits(samples: seq<nat>, low: nat, high: nat)
    requires low <= high
    ensures CountAtMost(samples, high) == CountAtMost(samples, low) + CountBetween(samples, low, high)
  {
    if samples != [] {
      CountSplits(samples[..|samples| - 1], low, high);
    }
  }

  /** While fewer than 2^64 samples have been recorded, the buckets are nondecreasing and bounded by
      `count`, and the difference of two buckets is the number of samples between their bounds. */
  lemma BucketsAreCumulative(h: Histogram, i: nat, j: nat)
    requires h.Valid() && |h.samples| < U64 && i <= j < |BUCKETS|
    ensures h.buckets[i] <= h.buckets[j] <= h.count == |h.samples|
    ensures h.buckets[j] - h.buckets[i] == CountBetween(h.samples, BUCKETS[i], BUCKETS[j])
  {
    BoundsIncrease(i, j);
    CountBounds(h.samples, BUCKETS[i], BUCKETS[j]);
    CountSplits(h.samples, BUCKETS[i], BUCKETS[j]);
  }

  lemma {:induction false} BoundsIncrease(i: nat, j: nat)
    requires i <= j < |BUCKETS|
    ensures BUCKETS[i] <= BUCKETS[j]
  {
    if i < j {
      BoundsIncrease(i, j - 1);
    }
  }

  /** The places of the samples at or below a bound. */
  ghost function Within(samples: seq<nat>, bound: nat): set<nat> {
    set k | 0 <= k < |samples| && samples[k] <= bound
  }

  lemma {:induction false} CountIsWithin(samples: seq<nat>, bound: nat)
    ensures CountAtMost(samples, bound) == |Within(samples, bound)|
  {
    if samples == [] {
      assert Within(samples, bound) == {};
    } else {
      var last := |samples| - 1;
      CountIsWithin(samples[..last], bound);
      RemoveOne(Within(samples, bound), last);
      assert Within(samples, bound) - {last} == Within(samples[..last], bound);
    }
  }

  /** Each bucket is the number of samples within its bound: 1, 2.5 and 5 milliseconds, and then three
      to a decade up to 5 seconds. */
  lemma BucketsHoldTheirSamples(h: Histogram)
    requires h.Valid() && |h.samples| < U64
    ensures h.buckets.Length == 12
    ensures h.buckets[0] == |Within(h.samples, 1_000_000)| && h.buckets[1] == |Within(h.samples, 2_500_000)|
    ensures h.buckets[2] == |Within(h.samples, 5_000_000)| && h.buckets[3] == |Within(h.samples, 10_000_000)|
    ensures h.buckets[4] == |Within(h.samples, 25_000_000)| && h.buckets[5] == |Within(h.samples, 50_000_000)|
    ensures h.buckets[6] == |Within(h.samples, 100_000_000)| && h.buckets[7] == |Within(h.samples, 250_000_000)|
    ensures h.buckets[8] == |Within(h.samples, 500_000_000)| && h.buckets[9] == |Within(h.samples, 1_000_000_000)|
    ensures h.buckets[10] == |Within(h.samples, 2_500_000_000)| && h.buckets[11] == |Within(h.samples, 5_000_000_000)|
  {
    hide CountAtMost, Within;
    forall i | 0 <= i < |BUCKETS|
      ensures h.buckets[i] == |Within(h.samples, BUCKETS[i])|
    {
      CountIsWithin(h.samples, BUCKETS[i]);
      CountBounds(h.samples, BUCKETS[i], BUCKETS[i]);
    }
  }

  function TotalNanos(samples: seq<nat>): nat {
    if samples == [] then 0 else TotalNanos(samples[..|samples| - 1]) + samples[|samples| - 1]
  }

  /** The total in microseconds misses less than one for each sample. */
  lemma {:induction false} MicrosRoundDown(samples: seq<nat>)
    ensures 1000 * TotalMicros(samples) <= TotalNanos(samples) <= 1000 * TotalMicros(samples) + 999 * |samples|
  {
    if samples != [] {
      MicrosRoundDown(samples[..|samples| - 1]);
    }
  }

  // ---- requests ----

  /** One more outcome on one side matches one more sample. */
  lemma OutcomesWrap(a: nat, b: nat, samples: nat)
    requires Wrapped(a + b) == Wrapped(samples)
    ensures Wrapped(Wrapped(a + 1) + b) == Wrapped(samples + 1)
  {
    hide Wrapped;
    WrapAdd(a + 1, b);
    WrapAdd(a + b, 1);
    WrapAdd(samples, 1);
  }

  class RouteMetrics {
    const duration: Histogram
    var succeeded: nat
    var failed: nat

    constructor ()
      ensures fresh(duration) && fresh(duration.buckets) && Valid() && duration.samples == []
      ensures succeeded == 0 && failed == 0
    {
      duration := new Histogram();
      succeeded, failed := 0, 0;
    }

    /** Every request of the route has an outcome, and its latency is in the histogram. */
    ghost predicate Valid()
      reads this, duration, duration.buckets
    {
      duration.Valid() && Wrapped(succeeded + failed) == duration.count && succeeded < U64 && failed < U64
    }

    method Record(elapsed: nat, success: bool)
      requires Valid()
      modifies this, duration`count, duration`totalMicros, duration`samples, duration.buckets
      ensures Valid() && duration.samples == old(duration.samples) + [elapsed]
      ensures succeeded == (if success then Wrapped(old(succeeded) + 1) else old(succeeded))
      ensures failed == (if success then old(failed) else Wrapped(old(failed) + 1))
      ensures duration.buckets == old(duration.buckets)
    {
      hide Wrapped;
      OutcomesWrap(succeeded, failed, |duration.samples|);
      OutcomesWrap(failed, succeeded, |duration.samples|);
      duration.Record(elapsed);
      if success {
        succeeded := Wrapped(succeeded + 1);
      } else {
        failed := Wrapped(failed + 1);
      }
    }
  }

  class Metrics {
    const routes: seq<RouteMetrics>

    /** The routes keep separate histograms. */
    ghost predicate Valid()
      reads this, routes, set r | r in routes :: r.duration, set r | r in routes :: r.duration.buckets
    {
      && |routes| == |ROUTES|
      && (forall i :: 0 <= i < |routes| ==> routes[i].Valid())
      && (forall i, j :: 0 <= i < j < |routes| ==>
            && routes[i] != routes[j] && routes[i].duration != routes[j].duration
            && routes[i].duration.buckets != routes[j].duration.buckets)
    }

    constructor ()
      ensures Valid() && forall r :: r in routes ==> r.duration.samples == []
    {
      hide RouteMetrics.Valid;
      var query := new RouteMetrics();
      var execute := new RouteMetrics();
      var batch := new RouteMetrics();
      routes := [query, execute, batch];
      new;
      assert routes[0] == query && routes[1] == execute && routes[2] == batch;
    }

    /** The position of a known route, or the number of routes. */
    static method Position(route: string) returns (index: nat)
      ensures index == RouteIndex(route)
    {
      index := 0;
      while index < |ROUTES| && ROUTES[index] != route
        invariant index <= |ROUTES| && forall k :: 0 <= k < index ==> ROUTES[k] != route
      {
        index := index + 1;
      }
      RouteIndexUnique(route, index);
    }

    /** `record_request`: an unknown route records nothing; a known one records here and nowhere else. */
    method RecordRequest(route: string, elapsed: nat, success: bool)
      requires Valid()
      modifies routes, set r | r in routes :: r.duration, set r | r in routes :: r.duration.buckets
      ensures Valid()
      ensures forall i :: 0 <= i < |routes| ==>
                var r := routes[i];
                if i == RouteIndex(route) then
                  && r.duration.samples == old(r.duration.samples) + [elapsed]
                  && r.succeeded == (if success then Wrapped(old(r.succeeded) + 1) else old(r.succeeded))
                  && r.failed == (if success then old(r.failed) else Wrapped(old(r.failed) + 1))
                else
                  && r.duration.samples == old(r.duration.samples)
                  && r.succeeded == old(r.succeeded) && r.failed == old(r.failed)
    {
      hide RouteIndex, Wrapped;
      var index := Position(route);
      if index < |routes| {
        routes[index].Record(elapsed, success);
      }
    }
  }

  /** Where a route's metrics are, or the number of routes for a route that has none. */
  function RouteIndex(route: string): (index: nat)
    ensures index <= |ROUTES|
    ensures index < |ROUTES| <==> route in ROUTES
    ensures index < |ROUTES| ==> ROUTES[index] == route
  {
    if route == ROUTES[0] then 0 else if route == ROUTES[1] then 1 else if route == ROUTES[2] then 2 else 3
  }

  lemma RouteIndexUnique(route: string, index: nat)
    requires index <= |ROUTES| && forall k :: 0 <= k < index ==> ROUTES[k] != route
    requires index < |ROUTES| ==> ROUTES[index] == route
    ensures index == RouteIndex(route)
  {
    if index < |ROUTES| {
      assert ROUTES[index] in ROUTES;
    }
  }

  /** The three routes in the order of their metrics; any other path has none. */
  lemma RouteTable(route: string)
    ensures RouteIndex(route) == 0 <==> route == "/v1/db/{database}/query"
    ensures RouteIndex(route) == 1 <==> route == "/v1/db/{database}/execute"
    ensures RouteIndex(route) == 2 <==> route == "/v1/db/{database}/batch"
  {
    assert |ROUTES[0]| != |ROUTES[1]| && |ROUTES[1]| != |ROUTES[2]|;
    assert ROUTES[0][|ROUTES[0]| - 1] == 'y' && ROUTES[2][|ROUTES[2]| - 1] == 'h';
  }
}
