/** Medians, bootstrap intervals and paired ratios, over the reals. */
module Statistics {
  import opened Wrappers
  import opened Sorting
  import opened Reals
  import opened SplitMix

  datatype Bootstrap = Bootstrap(resamples: nat, confidence: real, seed: U64)

  datatype Summary = Summary(n: nat, median: real, mean: real, min: real, max: real, lo: real, hi: real, confidence: real)

  datatype Ratio = Ratio(n: nat, ratio: real, lo: real, hi: real, confidence: real)

  /** The gap between one and the next double, below which a median counts as zero. */
  const EPSILON: real := 1.0 / 4_503_599_627_370_496.0

  predicate Leq(a: real, b: real) {
    a <= b
  }

  predicate Ascending(s: seq<real>) {
    forall i, j | 0 <= i < j < |s| :: s[i] <= s[j]
  }

  function Sorted(xs: seq<real>): (s: seq<real>)
    ensures |s| == |xs| && multiset(s) == multiset(xs)
  {
    Sort(Leq, xs)
  }

  lemma SortedAscends(xs: seq<real>)
    ensures Ascending(Sorted(xs))
  {
    SortSorts(Leq, xs);
    forall i, j | 0 <= i < j < |xs| ensures Sorted(xs)[i] <= Sorted(xs)[j] {
      assert Leq(Sorted(xs)[i], Sorted(xs)[j]);
    }
  }

  /** There is one ascending arrangement of a collection of samples. */
  lemma AscendingUnique(s: seq<real>, xs: seq<real>)
    requires Ascending(s) && multiset(s) == multiset(xs)
    ensures s == Sorted(xs)
  {
    SortedAscends(xs);
    assert SortedBy(Leq, s) && SortedBy(Leq, Sorted(xs));
    SortedUnique(Leq, s, Sorted(xs));
  }

  lemma SortedSame(a: seq<real>, b: seq<real>)
    requires multiset(a) == multiset(b)
    ensures Sorted(a) == Sorted(b)
  {
    SortedAscends(a);
    AscendingUnique(Sorted(a), b);
  }

  // The median

  function MedianOfSorted(s: seq<real>): real
    requires s != []
  {
    var n := |s|;
    if n % 2 == 0 then (s[n / 2 - 1] + s[n / 2]) / 2.0 else s[n / 2]
  }

  function Median(xs: seq<real>): real
    requires xs != []
  {
    MedianOfSorted(Sorted(xs))
  }

  /** What selecting leaves: a rearrangement with nothing larger before one place and nothing smaller
      after it. */
  ghost predicate Selected(before: seq<real>, after: seq<real>, k: nat) {
    && k < |after| && multiset(after) == multiset(before)
    && (forall i | 0 <= i < k :: after[i] <= after[k])
    && forall j | k < j < |after| :: after[k] <= after[j]
  }

  lemma MultisetMembers(a: seq<real>, b: seq<real>)
    requires multiset(a) == multiset(b)
    ensures forall x :: x in a <==> x in b
  {
    forall x ensures x in a <==> x in b {
      assert x in multiset(a) <==> x in multiset(b);
    }
  }

  predicate NoneAbove(s: seq<real>, top: real) {
    forall i | 0 <= i < |s| :: s[i] <= top
  }

  predicate NoneBelow(s: seq<real>, bottom: real) {
    forall i | 0 <= i < |s| :: bottom <= s[i]
  }

  lemma Around(after: seq<real>, k: nat)
    requires k < |after|
    ensures multiset(after) == multiset(after[..k]) + multiset{after[k]} + multiset(after[k + 1..])
  {
    assert after == after[..k] + [after[k]] + after[k + 1..];
  }

  /** Whatever arrangement selection leaves, the selected place holds what it would hold after sorting,
      and the part before it is the part sorting would put there. */
  lemma SelectedIsSorted(before: seq<real>, after: seq<real>, k: nat)
    requires Selected(before, after, k)
    ensures |before| == |after|
    ensures Sorted(before)[k] == after[k]
    ensures Sorted(before)[..k] == Sorted(after[..k])
  {
    hide Sorted;
    assert |multiset(before)| == |before| && |multiset(after)| == |after|;
    var left, right := Sorted(after[..k]), Sorted(after[k + 1..]);
    var whole := left + [after[k]] + right;
    SortedAscends(after[..k]);
    SortedAscends(after[k + 1..]);
    PartsBounded(after, k);
    AscendingParts(left, after[k], right);
    Around(after, k);
    assert multiset(whole) == multiset(left) + multiset{after[k]} + multiset(right);
    AscendingUnique(whole, before);
    assert whole[..k] == left;
  }

  lemma PartsBounded(after: seq<real>, k: nat)
    requires k < |after| && (forall i | 0 <= i < k :: after[i] <= after[k]) && forall j | k < j < |after| :: after[k] <= after[j]
    ensures NoneAbove(Sorted(after[..k]), after[k]) && NoneBelow(Sorted(after[k + 1..]), after[k])
  {
    hide Sorted;
    var left, right := Sorted(after[..k]), Sorted(after[k + 1..]);
    MultisetMembers(left, after[..k]);
    MultisetMembers(right, after[k + 1..]);
    assert forall i | 0 <= i < |left| :: left[i] in left;
    assert forall i | 0 <= i < |right| :: right[i] in right;
  }

  lemma AscendingParts(left: seq<real>, mid: real, right: seq<real>)
    requires Ascending(left) && Ascending(right)
    requires NoneAbove(left, mid) && NoneBelow(right, mid)
    ensures Ascending(left + [mid] + right)
  {
    var whole := left + [mid] + right;
    forall i, j | 0 <= i < j < |whole| ensures whole[i] <= whole[j] {
      assert i > |left| ==> whole[i] == right[i - |left| - 1];
      assert j > |left| ==> whole[j] == right[j - |left| - 1];
    }
  }

  /** Arranges the samples so that one place is selected.  Callers know no more of the arrangement than
      the contract of the library's selection gives them. */
  method SelectNth(a: array<real>, k: nat)
    requires k < a.Length
    modifies a
    ensures Selected(old(a[..]), a[..], k)
  {
    var sorted := Sorted(a[..]);
    SortedAscends(a[..]);
    for i := 0 to a.Length
      invariant a[..i] == sorted[..i]
    {
      a[i] := sorted[i];
    }
    assert a[..] == sorted;
  }

  /** The largest of the places before one. */
  method LargestBefore(a: array<real>, k: nat) returns (lower: real)
    requires 0 < k <= a.Length
    ensures lower == Sorted(a[..k])[k - 1]
  {
    lower := a[0];
    for i := 1 to k
      invariant lower in a[..i] && forall x | x in a[..i] :: x <= lower
    {
      assert a[..i + 1] == a[..i] + [a[i]];
      if lower < a[i] {
        lower := a[i];
      }
    }
    LastIsLargest(a[..k], lower);
  }

  lemma LastIsLargest(xs: seq<real>, top: real)
    requires top in xs && forall x | x in xs :: x <= top
    ensures Sorted(xs)[|xs| - 1] == top
  {
    SortedAscends(xs);
    MultisetMembers(xs, Sorted(xs));
    var s := Sorted(xs);
    var i :| 0 <= i < |s| && s[i] == top;
    assert s[|s| - 1] in xs;
  }

  /** The median without sorting: select the middle place, and for an even count look below it for the
      other middle.  It is the median of the sorted samples, for any arrangement selection leaves. */
  method MedianBySelection(draw: array<real>) returns (m: real)
    requires draw.Length > 0
    modifies draw
    ensures m == Median(old(draw[..]))
    ensures multiset(draw[..]) == old(multiset(draw[..]))
  {
    var n := draw.Length;
    SelectNth(draw, n / 2);
    SelectedIsSorted(old(draw[..]), draw[..], n / 2);
    if n % 2 == 0 {
      var lower := LargestBefore(draw, n / 2);
      assert draw[..][..n / 2] == draw[..n / 2];
      m := (lower + draw[n / 2]) / 2.0;
    } else {
      m := draw[n / 2];
    }
  }

  lemma MedianBounds(xs: seq<real>, lo: real, hi: real)
    requires xs != [] && forall x | x in xs :: lo <= x <= hi
    ensures lo <= Median(xs) <= hi
  {
    MultisetMembers(xs, Sorted(xs));
    var s := Sorted(xs);
    assert s[|s| / 2] in s;
    if |s| % 2 == 0 { assert s[|s| / 2 - 1] in s; }
  }

  // Resampling

  /** The outputs of the generator from a seed, one after the other. */
  type Stream = nat -> U64

  function Draws(seed: U64): Stream {
    (t: nat) => Output(StateAfter(seed, t + 1))
  }

  /** The t-th draw of a resample of n. */
  function Turn(r: nat, n: nat, i: nat): nat {
    r * n + i
  }

  /** The r-th resample, with replacement: each place takes the sample its draw falls on. */
  function Resampled(xs: seq<real>, draw: Stream, r: nat): (s: seq<real>)
    ensures |s| == |xs|
    ensures forall i | 0 <= i < |s| :: s[i] == xs[Below(draw(Turn(r, |xs|, i)), |xs|)]
  {
    seq(|xs|, i requires 0 <= i < |xs| => xs[Below(draw(Turn(r, |xs|, i)), |xs|)])
  }

  lemma ResampledMembers(xs: seq<real>, draw: Stream, r: nat)
    ensures forall x | x in Resampled(xs, draw, r) :: x in xs
  {
    hide Below, Turn;
  }

  function Medians(xs: seq<real>, draw: Stream, count: nat): (ms: seq<real>)
    requires xs != []
    ensures |ms| == count && forall r | 0 <= r < count :: ms[r] == Median(Resampled(xs, draw, r))
  {
    seq(count, r requires 0 <= r < count => Median(Resampled(xs, draw, r)))
  }

  /** The place of a quantile in a sorted list: scaled, cut off at zero, truncated, and kept inside. */
  function QuantileIndex(len: nat, q: real): (at: nat)
    requires len > 0
    ensures at < len
  {
    var raw := q * len as real;
    if raw < 0.0 then 0 else if raw.Floor < len then raw.Floor else len - 1
  }

  lemma QuantileMonotone(len: nat, p: real, q: real)
    requires len > 0 && p <= q
    ensures QuantileIndex(len, p) <= QuantileIndex(len, q)
  {
    assert p * len as real <= q * len as real;
  }

  function BootstrapMedian(sorted: seq<real>, boot: Bootstrap): (real, real)
    requires sorted != []
  {
    BootstrapOver(sorted, Draws(boot.seed), boot.resamples, boot.confidence)
  }

  /** The ends of the interval, whatever is drawn. */
  function BootstrapOver(sorted: seq<real>, draw: Stream, resamples: nat, confidence: real): (real, real)
    requires sorted != []
  {
    var n := |sorted|;
    if n == 1 || resamples == 0 then (sorted[0], sorted[n - 1])
    else
      var medians := Sorted(Medians(sorted, draw, resamples));
      var tail := (1.0 - confidence) / 2.0;
      (medians[QuantileIndex(|medians|, tail)], medians[QuantileIndex(|medians|, 1.0 - tail)])
  }

  function Summarise(samples: seq<real>, boot: Bootstrap): Option<Summary> {
    if samples == [] then None
    else
      var sorted := Sorted(samples);
      var (lo, hi) := BootstrapMedian(sorted, boot);
      Some(Summary(|sorted|, MedianOfSorted(sorted), Sum(samples) / |samples| as real,
                   sorted[0], sorted[|sorted| - 1], lo, hi, boot.confidence))
  }

  /** The width of the interval over the median, and nothing for a median at zero, where it is taken as
      infinite. */
  function RelativeWidth(s: Summary): Option<real> {
    if -EPSILON < s.median < EPSILON then None else Some((s.hi - s.lo) / s.median)
  }

  // What a summary says

  lemma EndsOfSorted(xs: seq<real>)
    requires xs != []
    ensures var s := Sorted(xs);
      && (forall x | x in xs :: s[0] <= x <= s[|s| - 1]) && s[0] in xs && s[|s| - 1] in xs
  {
    hide Sorted;
    var s := Sorted(xs);
    SortedAscends(xs);
    MultisetMembers(xs, s);
    assert s[0] in s && s[|s| - 1] in s;
    forall x | x in xs ensures s[0] <= x <= s[|s| - 1] {
      var i :| 0 <= i < |s| && s[i] == x;
    }
  }

  lemma MediansInside(xs: seq<real>, draw: Stream, count: nat, lo: real, hi: real)
    requires xs != [] && forall x | x in xs :: lo <= x <= hi
    ensures forall m | m in Medians(xs, draw, count) :: lo <= m <= hi
  {
    hide Median;
    forall m | m in Medians(xs, draw, count) ensures lo <= m <= hi {
      var r :| 0 <= r < count && Medians(xs, draw, count)[r] == m;
      ResampledMembers(xs, draw, r);
      MedianBounds(Resampled(xs, draw, r), lo, hi);
    }
  }

  /** The endpoints of a bootstrap stay in the range of the samples, and for a confidence that is a
      fraction they are the right way round. */
  lemma BootstrapInside(sorted: seq<real>, boot: Bootstrap, min: real, max: real)
    requires sorted != [] && Ascending(sorted) && forall x | x in sorted :: min <= x <= max
    ensures var (lo, hi) := BootstrapMedian(sorted, boot);
      min <= lo <= max && min <= hi <= max && (0.0 <= boot.confidence <= 1.0 ==> lo <= hi)
  {
    hide Sorted, Medians, QuantileIndex, Draws;
    assert sorted[0] in sorted && sorted[|sorted| - 1] in sorted;
    if |sorted| > 1 && boot.resamples > 0 {
      var medians := Medians(sorted, Draws(boot.seed), boot.resamples);
      MediansInside(sorted, Draws(boot.seed), boot.resamples, min, max);
      SortedAscends(medians);
      MultisetMembers(medians, Sorted(medians));
      var tail := (1.0 - boot.confidence) / 2.0;
      if 0.0 <= boot.confidence {
        QuantileMonotone(|medians|, tail, 1.0 - tail);
      }
      var i, j := QuantileIndex(|medians|, tail), QuantileIndex(|medians|, 1.0 - tail);
      assert Sorted(medians)[i] in Sorted(medians) && Sorted(medians)[j] in Sorted(medians);
    }
  }

  // Whether the interval holds the median

  /** A generator that always draws one word. */
  function Stuck(word: U64): Stream {
    (t: nat) => word
  }

  lemma EndWords(n: nat)
    requires 0 < n <= WORD
    ensures Below(0, n) == 0 && Below(WORD - 1, n) == n - 1
  {
    assert (WORD - 1) * n == (n - 1) * WORD + (WORD - n);
    LastBelow((WORD - 1) * n, n - 1, WORD - n);
  }

  lemma LastBelow(x: nat, q: nat, r: nat)
    requires x == q * WORD + r && r < WORD
    ensures x / WORD == q
  {
  }

  lemma StuckResamples(sorted: seq<real>, word: U64, at: nat, resamples: nat)
    requires at < |sorted| && Below(word, |sorted|) == at
    ensures forall m | m in Medians(sorted, Stuck(word), resamples) :: m == sorted[at]
  {
    hide Below, Turn, Median;
    var x := sorted[at];
    forall m | m in Medians(sorted, Stuck(word), resamples) ensures m == x {
      var r :| 0 <= r < resamples && Medians(sorted, Stuck(word), resamples)[r] == m;
      var drawn := Resampled(sorted, Stuck(word), r);
      assert forall i | 0 <= i < |drawn| :: drawn[i] == x;
      MedianBounds(drawn, x, x);
    }
  }

  lemma PickOfSame(xs: seq<real>, x: real, q: real)
    requires xs != [] && forall m | m in xs :: m == x
    ensures Sorted(xs)[QuantileIndex(|xs|, q)] == x
  {
    hide Sorted, QuantileIndex;
    MultisetMembers(xs, Sorted(xs));
    assert Sorted(xs)[QuantileIndex(|xs|, q)] in Sorted(xs);
  }

  lemma StuckInterval(sorted: seq<real>, word: U64, at: nat, resamples: nat, confidence: real)
    requires at < |sorted| && |sorted| > 1 && resamples > 0 && Below(word, |sorted|) == at
    ensures BootstrapOver(sorted, Stuck(word), resamples, confidence) == (sorted[at], sorted[at])
  {
    hide Sorted, Medians, QuantileIndex, Below;
    StuckResamples(sorted, word, at, resamples);
    var medians := Medians(sorted, Stuck(word), resamples);
    var tail := (1.0 - confidence) / 2.0;
    PickOfSame(medians, sorted[at], tail);
    PickOfSame(medians, sorted[at], 1.0 - tail);
  }

  ghost predicate HoldsMedian(sorted: seq<real>, draw: Stream, resamples: nat, confidence: real)
    requires sorted != []
  {
    var (lo, hi) := BootstrapOver(sorted, draw, resamples, confidence);
    lo <= MedianOfSorted(sorted) <= hi
  }

  /** The interval holds the median whatever is drawn exactly when there are no resamples or all samples are
      one value: otherwise draws that keep falling on one end put both its ends there. */
  lemma HoldsMedianExactly(sorted: seq<real>, resamples: nat, confidence: real)
    requires sorted != [] && Ascending(sorted) && |sorted| <= WORD
    ensures (forall draw: Stream :: HoldsMedian(sorted, draw, resamples, confidence))
       <==> resamples == 0 || sorted[0] == sorted[|sorted| - 1]
  {
    var n := |sorted|;
    var low, high := sorted[0], sorted[n - 1];
    hide Ascending;
    if resamples == 0 || low == high {
      forall draw: Stream ensures HoldsMedian(sorted, draw, resamples, confidence) {
        HoldsTrivially(sorted, draw, resamples, confidence);
      }
    } else {
      EndWords(n);
      StuckInterval(sorted, 0, 0, resamples, confidence);
      StuckInterval(sorted, WORD - 1, n - 1, resamples, confidence);
      hide BootstrapOver, MedianOfSorted;
      assert !(HoldsMedian(sorted, Stuck(0), resamples, confidence) && HoldsMedian(sorted, Stuck(WORD - 1), resamples, confidence));
    }
  }

  lemma HoldsTrivially(sorted: seq<real>, draw: Stream, resamples: nat, confidence: real)
    requires sorted != [] && Ascending(sorted) && (resamples == 0 || sorted[0] == sorted[|sorted| - 1])
    ensures HoldsMedian(sorted, draw, resamples, confidence)
  {
    hide Sorted, Medians, QuantileIndex;
    var low, high := sorted[0], sorted[|sorted| - 1];
    assert forall x | x in sorted :: low <= x <= high;
    AscendingUnique(sorted, sorted);
    MedianBounds(sorted, low, high);
    if |sorted| > 1 && resamples > 0 {
      var medians := Medians(sorted, draw, resamples);
      var tail := (1.0 - confidence) / 2.0;
      MediansInside(sorted, draw, resamples, low, high);
      PickOfSame(medians, low, tail);
      PickOfSame(medians, low, 1.0 - tail);
    }
  }

  /** For a confidence that is a fraction, the interval is inside the range of the samples and the right
      way round. */
  lemma IntervalInside(samples: seq<real>, boot: Bootstrap)
    requires samples != [] && 0.0 <= boot.confidence <= 1.0
    ensures var s := Summarise(samples, boot).value;
      && s.min <= s.lo <= s.hi <= s.max && s.min <= s.median <= s.max
      && (forall x | x in samples :: s.min <= x <= s.max) && s.min in samples && s.max in samples
  {
    hide Sorted, BootstrapMedian;
    var sorted := Sorted(samples);
    SortedAscends(samples);
    EndsOfSorted(samples);
    MultisetMembers(samples, sorted);
    MedianBounds(samples, sorted[0], sorted[|sorted| - 1]);
    BootstrapInside(sorted, boot, sorted[0], sorted[|sorted| - 1]);
  }

  /** The samples are sorted before they are resampled, so the summary does not depend on the order they
      were taken in. */
  lemma SummaryIgnoresOrder(a: seq<real>, b: seq<real>, boot: Bootstrap)
    requires multiset(a) == multiset(b)
    ensures Summarise(a, boot) == Summarise(b, boot)
  {
    assert |a| == |multiset(a)| == |multiset(b)| == |b|;
    SortedSame(a, b);
    SumPermute(a, b);
  }

  // Paired ratios

  function RatioOf(a: seq<real>, b: seq<real>): Option<real>
    requires a != [] && b != []
  {
    var bottom := Median(b);
    if -EPSILON < bottom < EPSILON then None else Some(Median(a) / bottom)
  }

  /** The ratios of the resamples whose denominator is not zero; both sides of a resample pick the same
      places. */
  function Ratios(a: seq<real>, b: seq<real>, draw: Stream, count: nat): seq<real>
    requires |a| == |b| && a != []
  {
    if count == 0 then []
    else
      var rest := Ratios(a, b, draw, count - 1);
      match RatioOf(Resampled(a, draw, count - 1), Resampled(b, draw, count - 1))
      case None => rest
      case Some(ratio) => rest + [ratio]
  }

  function PairedRatio(a: seq<real>, b: seq<real>, boot: Bootstrap): Option<Ratio>
    requires |a| == |b|
  {
    if a == [] then None
    else match RatioOf(a, b)
      case None => None
      case Some(observed) =>
        var n := |a|;
        if n == 1 || boot.resamples == 0 then Some(Ratio(n, observed, observed, observed, boot.confidence))
        else
          var ratios := Sorted(Ratios(a, b, Draws(boot.seed), boot.resamples));
          if ratios == [] then None
          else
            var tail := (1.0 - boot.confidence) / 2.0;
            Some(Ratio(n, observed, ratios[QuantileIndex(|ratios|, tail)], ratios[QuantileIndex(|ratios|, 1.0 - tail)],
                       boot.confidence))
  }

  /** Every value on one side is the same multiple of the value paired with it. */
  predicate Proportional(a: seq<real>, b: seq<real>, k: real) {
    |a| == |b| && forall i | 0 <= i < |a| :: a[i] == k * b[i]
  }

  function Scaled(xs: seq<real>, k: real): (ys: seq<real>)
    ensures Proportional(ys, xs, k)
  {
    Map(x => k * x, xs)
  }

  function Reversed(xs: seq<real>): (ys: seq<real>)
    ensures |ys| == |xs| && forall i | 0 <= i < |xs| :: ys[i] == xs[|xs| - 1 - i]
  {
    seq(|xs|, i requires 0 <= i < |xs| => xs[|xs| - 1 - i])
  }

  lemma {:induction false} ReversedPermutes(xs: seq<real>)
    ensures multiset(Reversed(xs)) == multiset(xs)
  {
    if xs != [] {
      ReversedPermutes(xs[1..]);
      assert Reversed(xs) == Reversed(xs[1..]) + [xs[0]];
      assert xs == [xs[0]] + xs[1..];
    }
  }

  /** Scaling by any factor, even a negative one that turns the order round, scales the median. */
  lemma MedianScales(xs: seq<real>, k: real)
    requires xs != []
    ensures Median(Scaled(xs, k)) == k * Median(xs)
  {
    hide Sorted, MedianOfSorted;
    var s := Sorted(xs);
    ScaledSorted(xs, k);
    MiddleScales(s, k);
  }

  lemma ScaledSorted(xs: seq<real>, k: real)
    ensures Sorted(Scaled(xs, k)) == if k >= 0.0 then Scaled(Sorted(xs), k) else Reversed(Scaled(Sorted(xs), k))
  {
    hide Sorted;
    var s := Sorted(xs);
    SortedAscends(xs);
    MapMultiset(x => k * x, xs, s);
    var scaled := Scaled(s, k);
    if k >= 0.0 {
      ScaledAscends(s, k);
      AscendingUnique(scaled, Scaled(xs, k));
    } else {
      ScaledDescends(s, k);
      ReversedPermutes(scaled);
      AscendingUnique(Reversed(scaled), Scaled(xs, k));
    }
  }

  /** The middle of a list is the middle of it turned round. */
  lemma MiddleScales(s: seq<real>, k: real)
    requires s != []
    ensures MedianOfSorted(Scaled(s, k)) == k * MedianOfSorted(s)
    ensures MedianOfSorted(Reversed(Scaled(s, k))) == k * MedianOfSorted(s)
  {
    var n := |s|;
    if n % 2 == 0 {
      assert n - 1 - (n / 2 - 1) == n / 2;
      assert (k * s[n / 2 - 1] + k * s[n / 2]) / 2.0 == k * ((s[n / 2 - 1] + s[n / 2]) / 2.0);
    } else {
      assert n - 1 - n / 2 == n / 2;
    }
  }

  lemma ScaledAscends(s: seq<real>, k: real)
    requires Ascending(s) && k >= 0.0
    ensures Ascending(Scaled(s, k))
  {
    var up := Scaled(s, k);
    forall i, j | 0 <= i < j < |s| ensures up[i] <= up[j] {
      KeepsOrder(k, s[i], s[j]);
    }
  }

  lemma ScaledDescends(s: seq<real>, k: real)
    requires Ascending(s) && k < 0.0
    ensures Ascending(Reversed(Scaled(s, k)))
  {
    var down := Scaled(s, k);
    forall i, j | 0 <= i < j < |s| ensures down[j] <= down[i] {
      TurnsRound(k, s[i], s[j]);
    }
  }

  lemma KeepsOrder(k: real, x: real, y: real)
    requires k >= 0.0 && x <= y
    ensures k * x <= k * y
  {
    assert k * (y - x) >= 0.0;
  }

  lemma TurnsRound(k: real, x: real, y: real)
    requires k < 0.0 && x <= y
    ensures k * y <= k * x
  {
    assert (-k) * (y - x) >= 0.0;
  }

  lemma ProportionalRatio(a: seq<real>, b: seq<real>, k: real)
    requires Proportional(a, b, k) && a != [] && forall x | x in b :: x >= EPSILON
    ensures RatioOf(a, b) == Some(k)
  {
    hide Median;
    assert a == Scaled(b, k);
    MedianScales(b, k);
    MedianAbove(b, EPSILON);
    Cancels(Median(a), k, Median(b));
  }

  lemma Cancels(top: real, k: real, x: real)
    requires x > 0.0 && top == k * x
    ensures top / x == k
  {
  }

  lemma MedianAbove(xs: seq<real>, lo: real)
    requires xs != [] && forall x | x in xs :: lo <= x
    ensures lo <= Median(xs)
  {
    hide Median, Sorted;
    EndsOfSorted(xs);
    MedianBounds(xs, lo, Sorted(xs)[|xs| - 1]);
  }

  /** Both sides of a resample take the same places, so the pairs stay pairs. */
  lemma ProportionalResamples(a: seq<real>, b: seq<real>, k: real, draw: Stream, r: nat)
    requires Proportional(a, b, k)
    ensures Proportional(Resampled(a, draw, r), Resampled(b, draw, r), k)
    ensures forall x | x in Resampled(b, draw, r) :: x in b
  {
    hide Below, Turn;
    ResampledMembers(b, draw, r);
  }

  lemma ResampleRatio(a: seq<real>, b: seq<real>, k: real, draw: Stream, r: nat)
    requires Proportional(a, b, k) && a != [] && forall x | x in b :: x >= EPSILON
    ensures RatioOf(Resampled(a, draw, r), Resampled(b, draw, r)) == Some(k)
  {
    hide RatioOf, Below, Turn;
    ProportionalResamples(a, b, k, draw, r);
    ProportionalRatio(Resampled(a, draw, r), Resampled(b, draw, r), k);
  }

  function Repeated(k: real, count: nat): (s: seq<real>)
    ensures |s| == count
  {
    if count == 0 then [] else Repeated(k, count - 1) + [k]
  }

  lemma {:induction false} RepeatedAt(k: real, count: nat)
    ensures forall x | x in Repeated(k, count) :: x == k
  {
    if count > 0 { RepeatedAt(k, count - 1); }
  }

  lemma {:induction false} ProportionalRatios(a: seq<real>, b: seq<real>, k: real, draw: Stream, count: nat)
    requires Proportional(a, b, k) && a != [] && forall x | x in b :: x >= EPSILON
    ensures Ratios(a, b, draw, count) == Repeated(k, count)
  {
    hide RatioOf, Below, Turn;
    if count > 0 {
      ProportionalRatios(a, b, k, draw, count - 1);
      ResampleRatio(a, b, k, draw, count - 1);
    }
  }

  /** Pairing survives resampling: when one side is a fixed multiple of the other, pair by pair, the
      ratio and both ends of its interval are that multiple, for any length, seed, resample count and
      confidence. */
  lemma PairingSurvives(a: seq<real>, b: seq<real>, k: real, boot: Bootstrap)
    requires Proportional(a, b, k) && a != [] && forall x | x in b :: x >= EPSILON
    ensures PairedRatio(a, b, boot) == Some(Ratio(|a|, k, k, k, boot.confidence))
  {
    hide RatioOf, Sorted, QuantileIndex, Draws;
    ProportionalRatio(a, b, k);
    ProportionalRatios(a, b, k, Draws(boot.seed), boot.resamples);
    var ratios := Ratios(a, b, Draws(boot.seed), boot.resamples);
    RepeatedAt(k, boot.resamples);
    MultisetMembers(ratios, Sorted(ratios));
    forall i | 0 <= i < |ratios| ensures Sorted(ratios)[i] == k {
      assert Sorted(ratios)[i] in Sorted(ratios);
    }
  }

  lemma {:induction false} RatiosAreOfResamples(a: seq<real>, b: seq<real>, draw: Stream, count: nat)
    requires |a| == |b| && a != []
    ensures forall x :: x in Ratios(a, b, draw, count) <==>
      exists r: nat :: r < count && RatioOf(Resampled(a, draw, r), Resampled(b, draw, r)) == Some(x)
  {
    hide RatioOf, Resampled;
    if count > 0 {
      RatiosAreOfResamples(a, b, draw, count - 1);
      var last := RatioOf(Resampled(a, draw, count - 1), Resampled(b, draw, count - 1));
      assert last.Some? ==> last.value in Ratios(a, b, draw, count);
      assert forall x | x in Ratios(a, b, draw, count - 1) :: x in Ratios(a, b, draw, count);
    }
  }

  /** The ratio some resample has. */
  ghost predicate RatioOfResample(a: seq<real>, b: seq<real>, boot: Bootstrap, x: real)
    requires |a| == |b| && a != []
  {
    var draw := Draws(boot.seed);
    exists r: nat :: r < boot.resamples && RatioOf(Resampled(a, draw, r), Resampled(b, draw, r)) == Some(x)
  }

  lemma MiddleOfRatios(a: seq<real>, b: seq<real>, boot: Bootstrap, q: real)
    requires |a| == |b| && a != []
    ensures var sorted := Sorted(Ratios(a, b, Draws(boot.seed), boot.resamples));
      sorted != [] ==> RatioOfResample(a, b, boot, sorted[QuantileIndex(|sorted|, q)])
  {
    hide RatioOf, Sorted, Ratios, QuantileIndex, Draws;
    var ratios := Ratios(a, b, Draws(boot.seed), boot.resamples);
    RatiosAreOfResamples(a, b, Draws(boot.seed), boot.resamples);
    MultisetMembers(ratios, Sorted(ratios));
    if ratios != [] {
      assert Sorted(ratios)[QuantileIndex(|ratios|, q)] in Sorted(ratios);
    }
  }

  /** The ratio is that of the two medians.  With one pair, or no resamples, it is its own interval;
      otherwise each end is the ratio of some resample, and for a confidence that is a fraction they are
      the right way round. */
  lemma PairedInside(a: seq<real>, b: seq<real>, boot: Bootstrap)
    requires |a| == |b|
    ensures var found := PairedRatio(a, b, boot);
      found.Some? ==>
        var p := found.value;
        && p.n == |a| > 0 && Some(p.ratio) == RatioOf(a, b)
        && (0.0 <= boot.confidence <= 1.0 ==> p.lo <= p.hi)
        && (|a| == 1 || boot.resamples == 0 ==> p.lo == p.ratio == p.hi)
        && (|a| > 1 && boot.resamples > 0 ==> RatioOfResample(a, b, boot, p.lo) && RatioOfResample(a, b, boot, p.hi))
  {
    hide RatioOf, Sorted, Ratios, QuantileIndex, Draws, RatioOfResample;
    if |a| > 1 && boot.resamples > 0 {
      var tail := (1.0 - boot.confidence) / 2.0;
      MiddleOfRatios(a, b, boot, tail);
      MiddleOfRatios(a, b, boot, 1.0 - tail);
      var ratios := Ratios(a, b, Draws(boot.seed), boot.resamples);
      SortedAscends(ratios);
      if 0.0 <= boot.confidence && ratios != [] {
        QuantileMonotone(|ratios|, tail, 1.0 - tail);
      }
    }
  }

  /** There is no ratio exactly when there are no pairs, when the denominator observed is zero, or when it is
      in every resample of several pairs; a resample here and there with a zero denominator is dropped. */
  lemma NoRatioExactly(a: seq<real>, b: seq<real>, boot: Bootstrap)
    requires |a| == |b|
    ensures PairedRatio(a, b, boot).None? <==>
      || a == []
      || RatioOf(a, b).None?
      || (|a| > 1 && boot.resamples > 0 && !exists x :: RatioOfResample(a, b, boot, x))
  {
    hide RatioOf, Sorted, QuantileIndex, Ratios, Draws;
    if a != [] {
      var ratios := Ratios(a, b, Draws(boot.seed), boot.resamples);
      RatiosAreOfResamples(a, b, Draws(boot.seed), boot.resamples);
      assert Sorted(ratios) == [] <==> ratios == [];
      forall x ensures x in ratios <==> RatioOfResample(a, b, boot, x) {}
      if ratios == [] {
        assert !exists x :: RatioOfResample(a, b, boot, x);
      } else {
        assert ratios[0] in ratios;
        assert RatioOfResample(a, b, boot, ratios[0]);
      }
    }
  }

  /** Whether the whole interval sits within a fraction of parity. */
  predicate Within(r: Ratio, fraction: real) {
    r.lo >= 1.0 - fraction && r.hi <= 1.0 + fraction
  }

  predicate NearParity(x: real, fraction: real) {
    Abs(x - 1.0) <= fraction
  }

  /** A paired comparison is within a fraction exactly when no value of its interval is further from
      parity than that. */
  lemma WithinExactly(a: seq<real>, b: seq<real>, boot: Bootstrap, fraction: real)
    requires |a| == |b| && 0.0 <= boot.confidence <= 1.0
    ensures var found := PairedRatio(a, b, boot);
      found.Some? ==>
        (Within(found.value, fraction) <==> forall x | found.value.lo <= x <= found.value.hi :: NearParity(x, fraction))
  {
    hide PairedRatio, RatioOfResample;
    PairedInside(a, b, boot);
    var found := PairedRatio(a, b, boot);
    if found.Some? {
      assert NearParity(found.value.lo, fraction) && NearParity(found.value.hi, fraction) ==> Within(found.value, fraction);
    }
  }

  // The operations

  lemma NextTurn(seed: U64, r: nat, n: nat, i: nat)
    ensures StateAfter(seed, Turn(r, n, i + 1)) == NextState(StateAfter(seed, Turn(r, n, i)))
    ensures Output(StateAfter(seed, Turn(r, n, i + 1))) == Draws(seed)(Turn(r, n, i))
    ensures Turn(r, n, n) == Turn(r + 1, n, 0)
  {
    hide Output, NextState;
    assert Turn(r, n, i + 1) == Turn(r, n, i) + 1;
  }

  /** Fills a buffer with one resample, drawing once for each place. */
  method FillResample(rng: SplitMix64, xs: seq<real>, draw: array<real>, ghost seed: U64, ghost r: nat)
    requires draw.Length == |xs| > 0
    requires rng.state == StateAfter(seed, Turn(r, |xs|, 0))
    modifies rng, draw
    ensures draw[..] == Resampled(xs, Draws(seed), r)
    ensures rng.state == StateAfter(seed, Turn(r + 1, |xs|, 0))
  {
    hide Output, NextState, Below, Draws, Turn, StateAfter;
    var slot := 0;
    NextTurn(seed, r, |xs|, slot);
    while slot < |xs|
      invariant slot <= |xs|
      invariant rng.state == StateAfter(seed, Turn(r, |xs|, slot))
      invariant forall i | 0 <= i < slot :: draw[i] == Resampled(xs, Draws(seed), r)[i]
    {
      var drawn := rng.Draw(|xs|);
      NextTurn(seed, r, |xs|, slot);
      draw[slot] := xs[drawn];
      slot := slot + 1;
    }
  }

  method Bootstrapped(sorted: seq<real>, boot: Bootstrap) returns (lo: real, hi: real)
    requires sorted != []
    ensures (lo, hi) == BootstrapMedian(sorted, boot)
  {
    hide Sorted, Median, Draws, QuantileIndex, Resampled, Turn;
    var n := |sorted|;
    if n == 1 || boot.resamples == 0 {
      return sorted[0], sorted[n - 1];
    }
    var rng := new SplitMix64(boot.seed);
    var medians: seq<real> := [];
    var draw := new real[n](_ => 0.0);
    FirstTurn(boot.seed, n);
    for r := 0 to boot.resamples
      invariant fresh(rng) && fresh(draw) && draw.Length == n
      invariant rng.state == StateAfter(boot.seed, Turn(r, n, 0))
      invariant medians == Medians(sorted, Draws(boot.seed), boot.resamples)[..r]
    {
      FillResample(rng, sorted, draw, boot.seed, r);
      var median := MedianBySelection(draw);
      medians := medians + [median];
    }
    assert medians == Medians(sorted, Draws(boot.seed), boot.resamples);
    medians := Sorted(medians);
    var tail := (1.0 - boot.confidence) / 2.0;
    return medians[QuantileIndex(|medians|, tail)], medians[QuantileIndex(|medians|, 1.0 - tail)];
  }

  lemma FirstTurn(seed: U64, n: nat)
    ensures StateAfter(seed, Turn(0, n, 0)) == seed
  {
  }

  /** The summary of a series, resampled from its sorted samples. */
  method SummariseSeries(samples: seq<real>, boot: Bootstrap) returns (summary: Option<Summary>)
    ensures summary == Summarise(samples, boot)
  {
    if samples == [] {
      return None;
    }
    var sorted := Sorted(samples);
    var mean := 0.0;
    for i := 0 to |samples|
      invariant mean == Sum(samples[..i])
    {
      assert samples[..i + 1][..i] == samples[..i];
      mean := mean + samples[i];
    }
    assert samples[..|samples|] == samples;
    mean := mean / |samples| as real;
    var lo, hi := Bootstrapped(sorted, boot);
    summary := Some(Summary(|sorted|, MedianOfSorted(sorted), mean, sorted[0], sorted[|sorted| - 1], lo, hi, boot.confidence));
  }

  method RatioBySelection(a: seq<real>, b: seq<real>) returns (ratio: Option<real>)
    requires a != [] && b != []
    ensures ratio == RatioOf(a, b)
  {
    var left, right := new real[|a|](i requires 0 <= i < |a| => a[i]), new real[|b|](i requires 0 <= i < |b| => b[i]);
    assert left[..] == a && right[..] == b;
    var top := MedianBySelection(left);
    var bottom := MedianBySelection(right);
    if -EPSILON < bottom < EPSILON {
      return None;
    }
    return Some(top / bottom);
  }

  /** Resamples both series by the same draws and reads the interval off the ratios. */
  method PairedRatioOf(a: seq<real>, b: seq<real>, boot: Bootstrap) returns (r: Option<Ratio>)
    requires |a| == |b|
    ensures r == PairedRatio(a, b, boot)
  {
    hide Sorted, RatioOf, Draws, QuantileIndex, Turn;
    if a == [] {
      return None;
    }
    var n := |a|;
    var observed := RatioBySelection(a, b);
    if observed.None? {
      return None;
    }
    if n == 1 || boot.resamples == 0 {
      return Some(Ratio(n, observed.value, observed.value, observed.value, boot.confidence));
    }
    var ratios := ResampledRatios(a, b, boot.seed, boot.resamples);
    if ratios == [] {
      return None;
    }
    ratios := Sorted(ratios);
    var tail := (1.0 - boot.confidence) / 2.0;
    return Some(Ratio(n, observed.value, ratios[QuantileIndex(|ratios|, tail)], ratios[QuantileIndex(|ratios|, 1.0 - tail)],
                      boot.confidence));
  }

  method FillPairs(rng: SplitMix64, a: seq<real>, b: seq<real>, left: array<real>, right: array<real>, ghost seed: U64, ghost r: nat)
    requires left.Length == right.Length == |a| == |b| > 0 && left != right
    requires rng.state == StateAfter(seed, Turn(r, |a|, 0))
    modifies rng, left, right
    ensures left[..] == Resampled(a, Draws(seed), r) && right[..] == Resampled(b, Draws(seed), r)
    ensures rng.state == StateAfter(seed, Turn(r + 1, |a|, 0))
  {
    hide Output, NextState, Below, Draws, Turn, StateAfter;
    var slot := 0;
    NextTurn(seed, r, |a|, slot);
    while slot < |a|
      invariant slot <= |a|
      invariant rng.state == StateAfter(seed, Turn(r, |a|, slot))
      invariant forall i | 0 <= i < slot :: left[i] == Resampled(a, Draws(seed), r)[i]
      invariant forall i | 0 <= i < slot :: right[i] == Resampled(b, Draws(seed), r)[i]
    {
      var drawn := rng.Draw(|a|);
      NextTurn(seed, r, |a|, slot);
      left[slot] := a[drawn];
      right[slot] := b[drawn];
      slot := slot + 1;
    }
  }

  method ResampledRatios(a: seq<real>, b: seq<real>, seed: U64, resamples: nat) returns (ratios: seq<real>)
    requires |a| == |b| && a != []
    ensures ratios == Ratios(a, b, Draws(seed), resamples)
  {
    hide RatioOf, Draws, Resampled, Turn;
    var n := |a|;
    var rng := new SplitMix64(seed);
    ratios := [];
    var left, right := new real[n](_ => 0.0), new real[n](_ => 0.0);
    FirstTurn(seed, n);
    for r := 0 to resamples
      invariant fresh(rng) && fresh(left) && fresh(right) && left != right && left.Length == right.Length == n
      invariant rng.state == StateAfter(seed, Turn(r, n, 0))
      invariant ratios == Ratios(a, b, Draws(seed), r)
    {
      FillPairs(rng, a, b, left, right, seed, r);
      var ratio := RatioBySelection(left[..], right[..]);
      if ratio.Some? {
        ratios := ratios + [ratio.value];
      }
    }
  }
}
