/** Taking samples until a rule on them is met, and how many that can take. */
module Measure {
  import opened Wrappers
  import opened Statistics

  datatype Stop =
    | After(samples: nat)
    | IntervalWidth(target: real, min: nat, max: nat)

  datatype Timing = Timing(warmup: nat, stop: Stop, checkEvery: nat, bootstrap: Bootstrap)

  predicate ShouldStop(stop: Stop, samples: seq<real>, boot: Bootstrap) {
    match stop
    case After(n) => |samples| >= n
    case IntervalWidth(target, min, max) =>
      if |samples| < min then false
      else if |samples| >= max then true
      else match Summarise(samples, boot)
        case None => false
        case Some(s) => RelativeWidth(s).Some? && RelativeWidth(s).value <= target
  }

  /** Every how many samples the rule is asked. */
  function Every(t: Timing): nat {
    if t.checkEvery < 1 then 1 else t.checkEvery
  }

  /** The samples taken once so many calls were spent on warming up. */
  function Taken(stream: nat -> real, skipped: nat, n: nat): (s: seq<real>)
    ensures |s| == n
  {
    seq(n, i requires 0 <= i < n => stream(skipped + i))
  }

  /** The first count, of those at which the rule is asked, at which it says to stop. */
  ghost predicate StopsAt(t: Timing, stream: nat -> real, skipped: nat, n: nat) {
    && n > 0 && n % Every(t) == 0 && ShouldStop(t.stop, Taken(stream, skipped, n), t.bootstrap)
    && forall m: nat | 0 < m < n && m % Every(t) == 0 :: !ShouldStop(t.stop, Taken(stream, skipped, m), t.bootstrap)
  }

  /** A count from which the rule always says to stop. */
  function Ceiling(stop: Stop): nat {
    match stop
    case After(n) => n
    case IntervalWidth(_, min, max) => if min < max then max else min
  }

  /** The least positive multiple of a step at or above a count. */
  function LeastMultiple(step: nat, count: nat): (n: nat)
    requires step > 0
    ensures n > 0 && n % step == 0 && n >= count
    ensures forall m: nat | 0 < m && m % step == 0 && m >= count :: n <= m
  {
    var least := if count == 0 then 1 else count;
    var up := (least + step - 1) / step;
    MultipleFacts(step, least, up);
    up * step
  }

  lemma MultipleFacts(step: nat, least: nat, up: nat)
    requires step > 0 && least > 0 && up == (least + step - 1) / step
    ensures up * step >= least && (up * step) % step == 0
    ensures forall m: nat | m % step == 0 && m >= least :: up * step <= m
  {
    var x := least + step - 1;
    assert x == step * (x / step) + x % step;
    assert x / step == up && up * step == step * up;
    assert up * step >= least;
    IsMultiple(up, step);
    forall m: nat | m % step == 0 && m >= least ensures up * step <= m {
      var k := m / step;
      assert m == step * k + m % step;
      var d := up - 1 - k;
      assert step * up == step * k + step * d + step;
      assert d >= 0 ==> step * d >= 0;
      assert d <= -1 ==> step * d + step <= 0;
    }
  }

  lemma IsMultiple(k: nat, step: nat)
    requires step > 0
    ensures (k * step) % step == 0
  {
    var x := k * step;
    var d := x / step - k;
    assert x == step * (x / step) + x % step;
    assert step * (x / step) == step * k + step * d;
    assert d >= 1 ==> step * d >= step;
    assert d <= -1 ==> step * d + step <= 0;
  }

  lemma CeilingStops(stop: Stop, samples: seq<real>, boot: Bootstrap)
    requires |samples| >= Ceiling(stop)
    ensures ShouldStop(stop, samples, boot)
  {
  }

  /** The samples a run keeps, and how they are to be summarised. */
  class Series {
    var samples: seq<real>
    const bootstrap: Bootstrap

    constructor (bootstrap: Bootstrap)
      ensures samples == [] && this.bootstrap == bootstrap
    {
      this.samples, this.bootstrap := [], bootstrap;
    }

    method Push(nanos: real)
      modifies this
      ensures samples == old(samples) + [nanos]
    {
      samples := samples + [nanos];
    }
  }

  /** A workload that can be called, and returns what each call took. */
  class Body {
    const stream: nat -> real
    var calls: nat

    constructor (stream: nat -> real)
      ensures this.stream == stream && calls == 0
    {
      this.stream, calls := stream, 0;
    }

    method Call() returns (nanos: real)
      modifies this
      ensures calls == old(calls) + 1 && nanos == stream(old(calls))
    {
      nanos := stream(calls);
      calls := calls + 1;
    }
  }

  /** The loop ends, for every warmup, interval and stream of samples, at the first asked count at which
      the rule says to stop, and the body is called that many times after the warmup. */
  method RunTiming(t: Timing, body: Body) returns (series: Series)
    modifies body
    ensures fresh(series) && series.bootstrap == t.bootstrap
    ensures StopsAt(t, body.stream, old(body.calls) + t.warmup, |series.samples|)
    ensures series.samples == Taken(body.stream, old(body.calls) + t.warmup, |series.samples|)
    ensures body.calls == old(body.calls) + t.warmup + |series.samples|
  {
    hide ShouldStop;
    for w := 0 to t.warmup
      invariant body.calls == old(body.calls) + w
    {
      var _ := body.Call();
    }
    var every := Every(t);
    ghost var skipped := body.calls;
    ghost var limit := LeastMultiple(every, Ceiling(t.stop));
    series := new Series(t.bootstrap);
    while true
      invariant fresh(series) && series.bootstrap == t.bootstrap && |series.samples| < limit
      invariant body.calls == skipped + |series.samples|
      invariant series.samples == Taken(body.stream, skipped, |series.samples|)
      invariant forall m: nat | 0 < m <= |series.samples| && m % every == 0 ::
        !ShouldStop(t.stop, Taken(body.stream, skipped, m), t.bootstrap)
      decreases limit - |series.samples|
    {
      var nanos := body.Call();
      series.Push(nanos);
      assert series.samples == Taken(body.stream, skipped, |series.samples|);
      if |series.samples| % every == 0 && ShouldStop(t.stop, series.samples, series.bootstrap) {
        return;
      }
      if |series.samples| == limit {
        CeilingStops(t.stop, series.samples, t.bootstrap);
        assert false;
      }
    }
  }

  /** There is one such count, it is never past the least asked count from which the rule always stops,
      and under an interval rule it is never short of the minimum. */
  lemma StopBounds(t: Timing, stream: nat -> real, skipped: nat, n: nat)
    requires StopsAt(t, stream, skipped, n)
    ensures n <= LeastMultiple(Every(t), Ceiling(t.stop))
    ensures t.stop.After? ==> n == LeastMultiple(Every(t), t.stop.samples)
    ensures t.stop.IntervalWidth? ==> n >= LeastMultiple(Every(t), t.stop.min)
    ensures forall other: nat | StopsAt(t, stream, skipped, other) :: other == n
  {
    var most := LeastMultiple(Every(t), Ceiling(t.stop));
    CeilingStops(t.stop, Taken(stream, skipped, most), t.bootstrap);
    forall other: nat | StopsAt(t, stream, skipped, other) ensures other == n {
      assert !(other < n) && !(n < other);
    }
  }

  /** The rule is asked after every sample, or after every so many. */
  predicate AskedAt(t: Timing, n: nat) {
    t.checkEvery == 0 || n % t.checkEvery == 0
  }

  lemma AskedIsEvery(t: Timing, n: nat)
    ensures AskedAt(t, n) <==> n % Every(t) == 0
  {
    if t.checkEvery == 0 { assert n % 1 == 0; }
  }

  /** An exact count is met exactly when it is a positive count the rule is asked at. */
  lemma AfterIsExactly(t: Timing, stream: nat -> real, skipped: nat, n: nat)
    requires StopsAt(t, stream, skipped, n) && t.stop.After?
    ensures n == t.stop.samples <==> t.stop.samples > 0 && AskedAt(t, t.stop.samples)
  {
    AskedIsEvery(t, t.stop.samples);
    StopBounds(t, stream, skipped, n);
  }

  // When the maximum holds

  /** A clock that always reads nothing: its median is zero, so its interval is never narrow enough. */
  function Nothing(): nat -> real {
    (i: nat) => 0.0
  }

  lemma NothingIsNeverNarrow(stop: Stop, skipped: nat, n: nat, boot: Bootstrap)
    requires stop.IntervalWidth?
    ensures ShouldStop(stop, Taken(Nothing(), skipped, n), boot) <==> n >= Ceiling(stop)
  {
    var samples := Taken(Nothing(), skipped, n);
    if samples != [] {
      MedianBounds(samples, 0.0, 0.0);
    }
  }

  /** The bound on the count is reached: by a stream whose interval never narrows. */
  lemma BoundIsReached(t: Timing, skipped: nat)
    requires t.stop.IntervalWidth?
    ensures StopsAt(t, Nothing(), skipped, LeastMultiple(Every(t), Ceiling(t.stop)))
  {
    hide ShouldStop;
    forall n: nat {
      NothingIsNeverNarrow(t.stop, skipped, n, t.bootstrap);
    }
  }

  /** Every run of an interval rule ends by its maximum exactly when the minimum is no larger and the
      maximum is a positive count the rule is asked at.  Otherwise a stream that never settles passes it. */
  lemma MaximumHoldsExactly(t: Timing)
    requires t.stop.IntervalWidth?
    ensures (forall stream: nat -> real, skipped: nat, n: nat | StopsAt(t, stream, skipped, n) :: n <= t.stop.max)
       <==> t.stop.min <= t.stop.max && t.stop.max > 0 && AskedAt(t, t.stop.max)
  {
    hide ShouldStop, StopsAt;
    AskedIsEvery(t, t.stop.max);
    var most := LeastMultiple(Every(t), Ceiling(t.stop));
    hide AskedAt;
    if t.stop.min <= t.stop.max && t.stop.max > 0 && AskedAt(t, t.stop.max) {
      forall stream: nat -> real, skipped: nat, n: nat | StopsAt(t, stream, skipped, n) ensures n <= t.stop.max {
        StopBounds(t, stream, skipped, n);
      }
    } else {
      BoundIsReached(t, 0);
      assert most > t.stop.max;
    }
  }

  /** With a minimum at or above the maximum the rule is the minimum alone: the loop runs on past the
      maximum, to the first asked count at or above the minimum. */
  lemma MinimumOverridesMaximum(t: Timing, stream: nat -> real, skipped: nat, n: nat)
    requires StopsAt(t, stream, skipped, n) && t.stop.IntervalWidth? && t.stop.min >= t.stop.max
    ensures n == LeastMultiple(Every(t), t.stop.min)
    ensures t.stop.min > t.stop.max ==> n > t.stop.max
  {
    StopBounds(t, stream, skipped, n);
  }

  // When an interval is narrow enough

  /** The interval is no wider than the target allows of the median, multiplied out; a median within a
      rounding of zero allows nothing, and one below it turns the comparison round. */
  predicate Narrow(s: Summary, target: real) {
    if s.median >= EPSILON then s.hi - s.lo <= target * s.median
    else if s.median <= -EPSILON then s.hi - s.lo >= target * s.median
    else false
  }

  lemma Multiplied(x: real, m: real, target: real)
    ensures m > 0.0 ==> (x / m <= target <==> x <= target * m)
    ensures m < 0.0 ==> (x / m <= target <==> x >= target * m)
  {
    if m != 0.0 {
      var q := x / m;
      assert q * m == x;
      var d := target - q;
      assert target * m == x + d * m;
      assert m > 0.0 && d >= 0.0 ==> d * m >= 0.0;
      assert m > 0.0 && d < 0.0 ==> -d * m > 0.0;
      assert m < 0.0 && d >= 0.0 ==> d * -m >= 0.0;
      assert m < 0.0 && d < 0.0 ==> -d * -m > 0.0;
    }
  }

  lemma StopsWhenNarrow(stop: Stop, samples: seq<real>, boot: Bootstrap)
    requires stop.IntervalWidth? && samples != []
    ensures ShouldStop(stop, samples, boot)
       <==> |samples| >= stop.min && (|samples| >= stop.max || Narrow(Summarise(samples, boot).value, stop.target))
  {
    hide BootstrapMedian;
    var s := Summarise(samples, boot).value;
    Multiplied(s.hi - s.lo, s.median, stop.target);
  }

  /** The summary of the first n samples of a stream. */
  function SummaryOf(t: Timing, stream: nat -> real, skipped: nat, n: nat): Summary
    requires n > 0
  {
    Summarise(Taken(stream, skipped, n), t.bootstrap).value
  }

  /** The maximum is not reached and the interval of the first n samples is not narrow enough. */
  predicate Open(t: Timing, stream: nat -> real, skipped: nat, n: nat)
    requires t.stop.IntervalWidth? && n > 0
  {
    n < t.stop.max && !Narrow(SummaryOf(t, stream, skipped, n), t.stop.target)
  }

  lemma OpenIsNotStopped(t: Timing, stream: nat -> real, skipped: nat, n: nat)
    requires t.stop.IntervalWidth? && n > 0
    ensures ShouldStop(t.stop, Taken(stream, skipped, n), t.bootstrap) <==> n >= t.stop.min && !Open(t, stream, skipped, n)
  {
    StopsWhenNarrow(t.stop, Taken(stream, skipped, n), t.bootstrap);
  }

  /** Where an interval rule ends a run, said of the samples: at the first asked count from the minimum on at
      which the maximum is reached or the interval is narrow enough. */
  lemma StopsAtExactly(t: Timing, stream: nat -> real, skipped: nat, n: nat)
    requires t.stop.IntervalWidth?
    ensures StopsAt(t, stream, skipped, n) <==>
      && n > 0 && AskedAt(t, n) && n >= t.stop.min && !Open(t, stream, skipped, n)
      && (forall m: nat | 0 < m < n && AskedAt(t, m) && m >= t.stop.min :: Open(t, stream, skipped, m))
  {
    hide ShouldStop, Open, AskedAt;
    forall m: nat | m > 0
      ensures ShouldStop(t.stop, Taken(stream, skipped, m), t.bootstrap) <==> m >= t.stop.min && !Open(t, stream, skipped, m)
      ensures AskedAt(t, m) <==> m % Every(t) == 0
    {
      OpenIsNotStopped(t, stream, skipped, m);
      AskedIsEvery(t, m);
    }
    forall m: nat | 0 < m < n ensures m >= t.stop.min && !Open(t, stream, skipped, m) ==>
      ShouldStop(t.stop, Taken(stream, skipped, m), t.bootstrap) {}
  }

  /** Of times, which are not negative, the median is then at least a rounding above zero. */
  lemma NarrowTimes(samples: seq<real>, boot: Bootstrap, target: real)
    requires samples != [] && forall x | x in samples :: x >= 0.0
    ensures var s := Summarise(samples, boot).value;
      Narrow(s, target) <==> s.median >= EPSILON && s.hi - s.lo <= target * s.median
  {
    hide BootstrapMedian, Sorted;
    SummaryMedian(samples, boot);
    EndsOfSorted(samples);
    MedianBounds(samples, 0.0, Sorted(samples)[|samples| - 1]);
  }

  lemma SummaryMedian(samples: seq<real>, boot: Bootstrap)
    requires samples != []
    ensures Summarise(samples, boot).Some? && Summarise(samples, boot).value.median == Median(samples)
  {
    hide BootstrapMedian, Sorted;
  }

  /** A smaller target never ends a run of times sooner. */
  lemma SmallerTargetIsLater(t: Timing, target: real, stream: nat -> real, skipped: nat, n: nat, later: nat)
    requires t.stop.IntervalWidth? && target <= t.stop.target && forall i: nat :: stream(i) >= 0.0
    requires StopsAt(t, stream, skipped, n)
    requires StopsAt(t.(stop := t.stop.(target := target)), stream, skipped, later)
    ensures n <= later
  {
    hide StopsAt, Narrow, Summarise;
    var strict := t.(stop := t.stop.(target := target));
    StopsAtExactly(t, stream, skipped, n);
    StopsAtExactly(strict, stream, skipped, later);
    assert AskedAt(t, later) <==> AskedAt(strict, later);
    if later < n {
      NarrowerToo(Taken(stream, skipped, later), t.bootstrap, target, t.stop.target);
    }
  }

  lemma NarrowerToo(samples: seq<real>, boot: Bootstrap, target: real, wider: real)
    requires samples != [] && target <= wider && forall i | 0 <= i < |samples| :: samples[i] >= 0.0
    ensures Narrow(Summarise(samples, boot).value, target) ==> Narrow(Summarise(samples, boot).value, wider)
  {
    hide Narrow, BootstrapMedian, Sorted;
    var s := Summarise(samples, boot).value;
    NarrowTimes(samples, boot, target);
    NarrowTimes(samples, boot, wider);
    WiderAllows(s.median, target, wider);
  }

  lemma WiderAllows(m: real, target: real, wider: real)
    requires target <= wider
    ensures m >= EPSILON ==> target * m <= wider * m
  {
    assert m >= EPSILON ==> (wider - target) * m >= 0.0;
  }

  /** A clock that always reads the same has an interval of no width, so it is settled as soon as it may be. */
  function Always(c: real): nat -> real {
    (i: nat) => c
  }

  lemma ConstantIsNarrow(samples: seq<real>, c: real, boot: Bootstrap, target: real)
    requires samples != [] && c >= EPSILON && target >= 0.0 && forall i | 0 <= i < |samples| :: samples[i] == c
    ensures Narrow(Summarise(samples, boot).value, target)
  {
    hide Sorted, BootstrapOver, Draws;
    var sorted := Sorted(samples);
    MedianBounds(samples, c, c);
    SortedAscends(samples);
    MultisetMembers(samples, sorted);
    BootstrapInside(sorted, boot, c, c);
    SummaryMedian(samples, boot);
    assert target * c >= 0.0;
  }

  lemma ConstantStops(t: Timing, c: real, skipped: nat)
    requires t.stop.IntervalWidth? && t.stop.min < t.stop.max && t.stop.target >= 0.0 && c >= EPSILON
    ensures StopsAt(t, Always(c), skipped, LeastMultiple(Every(t), t.stop.min))
  {
    hide StopsAt, Narrow, Summarise;
    var n := LeastMultiple(Every(t), t.stop.min);
    StopsAtExactly(t, Always(c), skipped, n);
    ConstantIsNarrow(Taken(Always(c), skipped, n), c, t.bootstrap, t.stop.target);
  }
}
