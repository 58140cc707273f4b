/** What the medians, quantiles and intervals are, by counting samples and resamples. */
module Coverage {
  import opened Wrappers
  import opened Sorting
  import opened Reals
  import opened SplitMix
  import opened Statistics

  type Test = real -> bool

  function LessThan(x: real): Test {
    (y: real) => y < x
  }

  function AtMost(x: real): Test {
    (y: real) => y <= x
  }

  /** How many of the numbers pass. */
  function Number(test: Test, xs: seq<real>): nat {
    if xs == [] then 0 else Number(test, xs[..|xs| - 1]) + (if test(xs[|xs| - 1]) then 1 else 0)
  }

  /** The number that comes k-th: no more than k are less, and more than k are no more. */
  predicate Ranked(xs: seq<real>, k: nat, v: real) {
    Number(LessThan(v), xs) <= k < Number(AtMost(v), xs)
  }

  lemma {:induction false} NumberConcat(test: Test, a: seq<real>, b: seq<real>)
    ensures Number(test, a + b) == Number(test, a) + Number(test, b)
  {
    if b == [] {
      assert a + b == a;
    } else {
      NumberConcat(test, a, b[..|b| - 1]);
      assert (a + b)[..|a + b| - 1] == a + b[..|b| - 1];
    }
  }

  lemma {:induction false} NumberPermute(test: Test, a: seq<real>, b: seq<real>)
    requires multiset(a) == multiset(b)
    ensures Number(test, a) == Number(test, b)
  {
    hide Number;
    if a == [] {
      assert |multiset(b)| == 0;
      assert b == [];
    } else {
      var k := PullHead(a, b);
      NumberPermute(test, a[1..], b[..k] + b[k + 1..]);
      NumberConcat(test, [a[0]], a[1..]);
      NumberConcat(test, b[..k] + [a[0]], b[k + 1..]);
      NumberConcat(test, b[..k], [a[0]]);
      NumberConcat(test, b[..k], b[k + 1..]);
      assert a == [a[0]] + a[1..];
    }
  }

  lemma {:induction false} NumberAll(test: Test, xs: seq<real>)
    ensures Number(test, xs) <= |xs|
    ensures (forall i | 0 <= i < |xs| :: test(xs[i])) ==> Number(test, xs) == |xs|
    ensures (forall i | 0 <= i < |xs| :: !test(xs[i])) ==> Number(test, xs) == 0
  {
    if xs != [] {
      NumberAll(test, xs[..|xs| - 1]);
    }
  }

  /** When only the first k can pass, at most k do; and when they all pass, at least k do. */
  lemma NumberSplits(test: Test, xs: seq<real>, k: nat)
    requires k <= |xs|
    ensures (forall i | k <= i < |xs| :: !test(xs[i])) ==> Number(test, xs) <= k
    ensures (forall i | 0 <= i < k :: test(xs[i])) ==> Number(test, xs) >= k
  {
    NumberConcat(test, xs[..k], xs[k..]);
    assert xs == xs[..k] + xs[k..];
    NumberAll(test, xs[..k]);
    NumberAll(test, xs[k..]);
  }

  lemma SortedRanks(s: seq<real>, k: nat, v: real)
    requires Ascending(s)
    ensures Ranked(s, k, v) <==> k < |s| && v == s[k]
  {
    hide Number;
    NumberAll(AtMost(v), s);
    if k < |s| {
      NumberSplits(LessThan(v), s, k);
      NumberSplits(LessThan(v), s, k + 1);
      NumberSplits(AtMost(v), s, k);
      NumberSplits(AtMost(v), s, k + 1);
    }
  }

  /** There is exactly one number that comes k-th, and it is what sorting puts there. */
  lemma RankedIsSorted(xs: seq<real>, k: nat, v: real)
    ensures Ranked(xs, k, v) <==> k < |xs| && v == Sorted(xs)[k]
  {
    hide Sorted;
    NumberPermute(LessThan(v), xs, Sorted(xs));
    NumberPermute(AtMost(v), xs, Sorted(xs));
    SortedAscends(xs);
    SortedRanks(Sorted(xs), k, v);
  }

  /** The median is the number that comes in the middle, and between two the one half way. */
  lemma MedianIsMiddle(xs: seq<real>)
    requires xs != []
    ensures |xs| % 2 == 1 ==> Ranked(xs, |xs| / 2, Median(xs))
    ensures |xs| % 2 == 0 ==> exists lower, upper :: HalfWay(xs, lower, upper, Median(xs))
  {
    hide Sorted, Ranked;
    var n := |xs|;
    RankedIsSorted(xs, n / 2, Sorted(xs)[n / 2]);
    if n % 2 == 0 {
      RankedIsSorted(xs, n / 2 - 1, Sorted(xs)[n / 2 - 1]);
      assert HalfWay(xs, Sorted(xs)[n / 2 - 1], Sorted(xs)[n / 2], Median(xs));
    }
  }

  /** Half way between the two numbers that come in the middle. */
  predicate HalfWay(xs: seq<real>, lower: real, upper: real, m: real)
    requires |xs| >= 2
  {
    Ranked(xs, |xs| / 2 - 1, lower) && Ranked(xs, |xs| / 2, upper) && m == (lower + upper) / 2.0
  }

  // Quantiles

  /** No more than a share of the numbers come before, and more than it, or all of them, come no later. */
  predicate Covers(under: nat, upTo: nat, total: nat, share: real) {
    under as real <= share && (upTo as real > share || upTo == total)
  }

  function Share(q: real, n: nat): real {
    q * n as real
  }

  lemma IndexIsFloor(n: nat, q: real, k: nat)
    requires n > 0 && q >= 0.0 && k == QuantileIndex(n, q)
    ensures k as real <= Share(q, n) && ((k + 1) as real > Share(q, n) || k == n - 1)
  {
    assert q * n as real >= 0.0;
  }

  /** Of the numbers there, the quantile is the one that covers its fraction. */
  lemma QuantileCovers(xs: seq<real>, q: real, v: real)
    requires xs != [] && q >= 0.0 && v in xs
    ensures v == Sorted(xs)[QuantileIndex(|xs|, q)]
       <==> Covers(Number(LessThan(v), xs), Number(AtMost(v), xs), |xs|, Share(q, |xs|))
  {
    hide Sorted, QuantileIndex, Number, LessThan, AtMost, Covers, Share;
    var n, k := |xs|, QuantileIndex(|xs|, q);
    IndexIsFloor(n, q, k);
    RankedIsSorted(xs, k, v);
    NumberAll(AtMost(v), xs);
    NotAllLess(xs, v);
    CoversIsRank(Number(LessThan(v), xs), Number(AtMost(v), xs), n, Share(q, n), k);
  }

  lemma NotAllLess(xs: seq<real>, v: real)
    requires v in xs
    ensures Number(LessThan(v), xs) < |xs|
  {
    hide Number;
    var i :| 0 <= i < |xs| && xs[i] == v;
    assert xs == xs[..i] + [v] + xs[i + 1..];
    NumberConcat(LessThan(v), xs[..i] + [v], xs[i + 1..]);
    NumberConcat(LessThan(v), xs[..i], [v]);
    NumberAll(LessThan(v), xs[..i]);
    NumberAll(LessThan(v), [v]);
    NumberAll(LessThan(v), xs[i + 1..]);
  }

  lemma CoversIsRank(under: nat, upTo: nat, n: nat, share: real, k: nat)
    requires under < n && upTo <= n
    requires k as real <= share && k < n && ((k + 1) as real > share || k == n - 1)
    ensures under <= k < upTo <==> Covers(under, upTo, n, share)
  {
  }

  // Counting resamples

  /** How many of so many resamples have a median that passes. */
  function ResamplesWith(test: Test, xs: seq<real>, draw: Stream, count: nat): nat
    requires xs != []
  {
    if count == 0 then 0
    else ResamplesWith(test, xs, draw, count - 1) + (if test(Median(Resampled(xs, draw, count - 1))) then 1 else 0)
  }

  lemma {:induction false} ResamplesAreMedians(test: Test, xs: seq<real>, draw: Stream, count: nat)
    requires xs != []
    ensures ResamplesWith(test, xs, draw, count) == Number(test, Medians(xs, draw, count))
  {
    hide Median, Resampled;
    if count > 0 {
      ResamplesAreMedians(test, xs, draw, count - 1);
      assert Medians(xs, draw, count)[..count - 1] == Medians(xs, draw, count - 1);
    }
  }

  /** An end of the interval by the fraction of the resamples that lie before it. */
  ghost predicate EndAt(xs: seq<real>, draw: Stream, count: nat, q: real, end: real)
    requires xs != []
  {
    Covers(ResamplesWith(LessThan(end), xs, draw, count), ResamplesWith(AtMost(end), xs, draw, count), count, Share(q, count))
  }

  lemma EndOfMedians(xs: seq<real>, draw: Stream, count: nat, q: real)
    requires xs != [] && count > 0 && q >= 0.0
    ensures var medians := Medians(xs, draw, count);
      EndAt(xs, draw, count, q, Sorted(medians)[QuantileIndex(|medians|, q)])
  {
    hide Sorted, QuantileIndex, Medians, Number, Covers, Share;
    var medians := Medians(xs, draw, count);
    var end := Sorted(medians)[QuantileIndex(|medians|, q)];
    MultisetMembers(medians, Sorted(medians));
    assert end in Sorted(medians);
    QuantileCovers(medians, q, end);
    ResamplesAreMedians(LessThan(end), xs, draw, count);
    ResamplesAreMedians(AtMost(end), xs, draw, count);
  }

  /** The interval covers the confidence: of the resamples' medians no more than the tail lie below its
      lower end and more than the tail, or all, up to it; and so for the upper end with the rest. */
  lemma IntervalCovers(sorted: seq<real>, draw: Stream, resamples: nat, confidence: real)
    requires |sorted| > 1 && resamples > 0 && 0.0 <= confidence <= 1.0
    ensures var (lo, hi) := BootstrapOver(sorted, draw, resamples, confidence);
      var tail := (1.0 - confidence) / 2.0;
      EndAt(sorted, draw, resamples, tail, lo) && EndAt(sorted, draw, resamples, 1.0 - tail, hi)
  {
    hide EndAt, Medians, Sorted, QuantileIndex;
    var tail := (1.0 - confidence) / 2.0;
    EndOfMedians(sorted, draw, resamples, tail);
    EndOfMedians(sorted, draw, resamples, 1.0 - tail);
  }

  // The summary

  /** The deviations from a centre, added up. */
  function Deviations(xs: seq<real>, centre: real): real {
    if xs == [] then 0.0 else Deviations(xs[..|xs| - 1], centre) + (xs[|xs| - 1] - centre)
  }

  lemma {:induction false} DeviationsAre(xs: seq<real>, centre: real)
    ensures Deviations(xs, centre) == Sum(xs) - |xs| as real * centre
  {
    if xs != [] {
      DeviationsAre(xs[..|xs| - 1], centre);
      assert |xs| as real * centre == (|xs| - 1) as real * centre + centre;
    }
  }

  lemma MeanBalances(xs: seq<real>, mean: real)
    requires xs != [] && mean == Sum(xs) / |xs| as real
    ensures Deviations(xs, mean) == 0.0
  {
    DeviationsAre(xs, mean);
    assert |xs| as real * mean == Sum(xs);
  }

  /** Every field of a summary, by counting: the median, the number that comes first and the one that comes
      last, the mean the samples balance about, and an interval of resamples, or of the samples themselves
      when there is nothing to resample. */
  lemma SummaryExactly(samples: seq<real>, boot: Bootstrap)
    requires samples != []
    ensures var s, n := Summarise(samples, boot).value, |samples|;
      && s.n == n && s.confidence == boot.confidence
      && s.median == Median(samples)
      && Ranked(samples, 0, s.min) && Ranked(samples, n - 1, s.max)
      && Deviations(samples, s.mean) == 0.0
      && (n == 1 || boot.resamples == 0 ==> s.lo == s.min && s.hi == s.max)
      && (n > 1 && boot.resamples > 0 && 0.0 <= boot.confidence <= 1.0 ==>
        var tail := (1.0 - boot.confidence) / 2.0;
        && EndAt(Sorted(samples), Draws(boot.seed), boot.resamples, tail, s.lo)
        && EndAt(Sorted(samples), Draws(boot.seed), boot.resamples, 1.0 - tail, s.hi))
  {
    hide Sorted, EndAt, Draws, Ranked, Deviations, BootstrapOver, MedianOfSorted, Sum;
    var sorted, n := Sorted(samples), |samples|;
    RankedIsSorted(samples, 0, sorted[0]);
    RankedIsSorted(samples, n - 1, sorted[n - 1]);
    MeanBalances(samples, Sum(samples) / n as real);
    if n == 1 || boot.resamples == 0 {
      IntervalOfFew(sorted, Draws(boot.seed), boot.resamples, boot.confidence);
    }
    if n > 1 && boot.resamples > 0 && 0.0 <= boot.confidence <= 1.0 {
      IntervalCovers(sorted, Draws(boot.seed), boot.resamples, boot.confidence);
    }
  }

  lemma IntervalOfFew(sorted: seq<real>, draw: Stream, resamples: nat, confidence: real)
    requires sorted != [] && (|sorted| == 1 || resamples == 0)
    ensures BootstrapOver(sorted, draw, resamples, confidence) == (sorted[0], sorted[|sorted| - 1])
  {
  }

  // Paired ratios

  /** How many of so many paired resamples have a ratio that passes. */
  function RatiosWith(test: Test, a: seq<real>, b: seq<real>, draw: Stream, count: nat): nat
    requires |a| == |b| && a != []
  {
    if count == 0 then 0
    else
      var ratio := RatioOf(Resampled(a, draw, count - 1), Resampled(b, draw, count - 1));
      RatiosWith(test, a, b, draw, count - 1) + (if ratio.Some? && test(ratio.value) then 1 else 0)
  }

  function Always(): Test {
    (y: real) => true
  }

  lemma {:induction false} RatiosAreNumbered(test: Test, a: seq<real>, b: seq<real>, draw: Stream, count: nat)
    requires |a| == |b| && a != []
    ensures RatiosWith(test, a, b, draw, count) == Number(test, Ratios(a, b, draw, count))
  {
    hide RatioOf, Resampled;
    if count > 0 {
      RatiosAreNumbered(test, a, b, draw, count - 1);
      var rest, ratio := Ratios(a, b, draw, count - 1), RatioOf(Resampled(a, draw, count - 1), Resampled(b, draw, count - 1));
      if ratio.Some? {
        assert (rest + [ratio.value])[..|rest|] == rest;
      }
    }
  }

  ghost predicate RatioEndAt(a: seq<real>, b: seq<real>, draw: Stream, count: nat, q: real, end: real)
    requires |a| == |b| && a != []
  {
    var total := RatiosWith(Always(), a, b, draw, count);
    Covers(RatiosWith(LessThan(end), a, b, draw, count), RatiosWith(AtMost(end), a, b, draw, count), total, Share(q, total))
  }

  lemma EndOfRatios(a: seq<real>, b: seq<real>, draw: Stream, count: nat, q: real)
    requires |a| == |b| && a != [] && q >= 0.0
    ensures var ratios := Ratios(a, b, draw, count);
      ratios != [] ==> RatioEndAt(a, b, draw, count, q, Sorted(ratios)[QuantileIndex(|ratios|, q)])
  {
    hide Sorted, QuantileIndex, Ratios, Number, Covers, Share;
    var ratios := Ratios(a, b, draw, count);
    if ratios != [] {
      var end := Sorted(ratios)[QuantileIndex(|ratios|, q)];
      MultisetMembers(ratios, Sorted(ratios));
      assert end in Sorted(ratios);
      QuantileCovers(ratios, q, end);
      RatiosAreNumbered(LessThan(end), a, b, draw, count);
      RatiosAreNumbered(AtMost(end), a, b, draw, count);
      RatiosAreNumbered(Always(), a, b, draw, count);
      NumberAll(Always(), ratios);
    }
  }

  /** The interval of a paired comparison covers the confidence among the resamples that have a ratio, which
      is the ratio of the medians of the pairs drawn. */
  lemma PairedCovers(a: seq<real>, b: seq<real>, boot: Bootstrap)
    requires |a| == |b| && |a| > 1 && boot.resamples > 0 && 0.0 <= boot.confidence <= 1.0
    ensures var found, draw := PairedRatio(a, b, boot), Draws(boot.seed);
      var tail := (1.0 - boot.confidence) / 2.0;
      found.Some? ==>
        && found.value.n == |a| && found.value.confidence == boot.confidence
        && RatioOf(a, b) == Some(found.value.ratio)
        && RatioEndAt(a, b, draw, boot.resamples, tail, found.value.lo)
        && RatioEndAt(a, b, draw, boot.resamples, 1.0 - tail, found.value.hi)
  {
    hide RatioOf, Sorted, Ratios, QuantileIndex, Draws, RatioEndAt;
    var tail := (1.0 - boot.confidence) / 2.0;
    EndOfRatios(a, b, Draws(boot.seed), boot.resamples, tail);
    EndOfRatios(a, b, Draws(boot.seed), boot.resamples, 1.0 - tail);
  }

  /** A ratio is there exactly when the denominator's median is not within a rounding of zero, and
      multiplied by it gives the numerator's. */
  lemma RatioExactly(a: seq<real>, b: seq<real>)
    requires a != [] && b != []
    ensures RatioOf(a, b).Some? <==> Abs(Median(b)) * 4_503_599_627_370_496.0 >= 1.0
    ensures RatioOf(a, b).Some? ==> RatioOf(a, b).value * Median(b) == Median(a)
  {
    hide Median;
  }
}
