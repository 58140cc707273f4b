/** What the three components of a pilot mean: sample variances at each level, as sums over pairs. */
module Variance {
  import opened Sorting
  import opened Reals
  import opened Repetition

  // Sample variance

  function Gap(x: real, y: real): real {
    (x - y) * (x - y)
  }

  function GapsTo(xs: seq<real>, y: real): real {
    if xs == [] then 0.0 else GapsTo(xs[..|xs| - 1], y) + Gap(xs[|xs| - 1], y)
  }

  /** The squared differences of all pairs, each pair once. */
  function PairGaps(xs: seq<real>): real {
    if xs == [] then 0.0 else PairGaps(xs[..|xs| - 1]) + GapsTo(xs[..|xs| - 1], xs[|xs| - 1])
  }

  /** Half the mean squared difference of two samples, over all pairs. */
  function SampleVariance(xs: seq<real>): real {
    if |xs| < 2 then 0.0 else PairGaps(xs) / (|xs| as real * (|xs| as real - 1.0))
  }

  function Average(xs: seq<real>): real {
    if xs == [] then 0.0 else Sum(xs) / |xs| as real
  }

  lemma {:induction false} GapsAreSquares(xs: seq<real>, y: real)
    ensures GapsTo(xs, y) == Squares(xs, y)
  {
    if xs != [] {
      GapsAreSquares(xs[..|xs| - 1], y);
    }
  }

  /** What pairs come to in terms of one centre. */
  function Centred(n: real, squares: real, offset: real): real {
    n * squares - offset * offset
  }

  function Offset(sum: real, n: real, c: real): real {
    sum - n * c
  }

  lemma CentredStep(n: real, squares: real, sum: real, c: real, x: real)
    ensures Centred(n, squares, Offset(sum, n, c)) + Moved(squares, sum, n, c, x)
         == Centred(n + 1.0, squares + Square(x - c), Offset(sum + x, n + 1.0, c))
  {
    var d, y := sum - n * c, x - c;
    assert (sum + x) - (n + 1.0) * c == d + y;
    assert Moved(squares, sum, n, c, x) == squares - 2.0 * y * d + n * (y * y);
    assert (d + y) * (d + y) == d * d + 2.0 * y * d + y * y;
    assert (n + 1.0) * (squares + y * y) == n * squares + squares + n * (y * y) + y * y;
  }

  lemma CentredNone(c: real)
    ensures PairGaps([]) == Centred(0.0, Squares([], c), Offset(Sum([]), 0.0, c))
  {
  }

  lemma {:induction false} PairsAboutCentre(xs: seq<real>, c: real)
    ensures PairGaps(xs) == Centred(|xs| as real, Squares(xs, c), Offset(Sum(xs), |xs| as real, c))
  {
    hide Square, Centred, Moved, Offset, GapsTo;
    if xs == [] {
      CentredNone(c);
    } else {
      var front, x := xs[..|xs| - 1], xs[|xs| - 1];
      PairsAboutCentre(front, c);
      GapsAreSquares(front, x);
      MoveCentre(front, c, x);
      CentredStep(|front| as real, Squares(front, c), Sum(front), c, x);
      assert |xs| as real == |front| as real + 1.0;
    }
  }

  lemma CentredAtMean(n: real, squares: real, sum: real)
    requires n > 0.0
    ensures Centred(n, squares, Offset(sum, n, sum / n)) == n * squares
  {
    assert n * (sum / n) == sum;
  }

  lemma Shared(n: real, squares: real, pairs: real)
    requires n > 1.0 && pairs == n * squares
    ensures Product(n - 1.0, pairs / (n * (n - 1.0))) == squares
  {
    var m := n * (n - 1.0);
    assert m > 0.0;
    var v := pairs / m;
    assert v * m == pairs;
    assert n * ((n - 1.0) * v - squares) == v * m - n * squares;
    var d := (n - 1.0) * v - squares;
    assert d > 0.0 ==> n * d > 0.0;
    assert d < 0.0 ==> n * -d > 0.0;
  }

  /** The squares about the mean are the variance, once for each sample but one. */
  lemma SquaresAreVariance(xs: seq<real>)
    requires |xs| >= 2
    ensures Squares(xs, Repetition.Mean(xs)) == Product(|xs| as real - 1.0, SampleVariance(xs))
  {
    hide Squares, PairGaps, Centred, Offset, Product, Sum;
    var n, m := |xs| as real, Repetition.Mean(xs);
    PairsAboutCentre(xs, m);
    CentredAtMean(n, Squares(xs, m), Sum(xs));
    Shared(n, Squares(xs, m), PairGaps(xs));
    assert SampleVariance(xs) == PairGaps(xs) / (n * (n - 1.0));
  }

  // The three levels

  function ProcessMeans(build: Group): seq<real> {
    Map(Average, build)
  }

  function BuildMean(build: Group): real {
    Average(ProcessMeans(build))
  }

  /** The average variance within a process. */
  function WithinProcess(samples: Samples): real {
    Average(Map(WithinProcessOf, samples))
  }

  function WithinProcessOf(build: Group): real {
    Average(Map(SampleVariance, build))
  }

  /** The average variance, within a build, of the means of its processes. */
  function OfProcessMeans(samples: Samples): real {
    Average(Map(OfProcessMeansOf, samples))
  }

  function OfProcessMeansOf(build: Group): real {
    SampleVariance(ProcessMeans(build))
  }

  /** The variance of the means of the builds. */
  function OfBuildMeans(samples: Samples): real {
    SampleVariance(Map(BuildMean, samples))
  }

  lemma ProductAdds(n: real, x: real, y: real)
    ensures Product(n, x) + Product(n, y) == Product(n, x + y)
  {
  }

  lemma ProductNothing(n: real)
    ensures Product(n, 0.0) == 0.0
  {
  }

  lemma SumLast(xs: seq<real>, x: real)
    ensures Sum(xs + [x]) == Sum(xs) + x
  {
    assert (xs + [x])[..|xs|] == xs;
  }

  lemma {:induction false} CellsSquared(build: Group, width: nat)
    requires width >= 2 && forall j | 0 <= j < |build| :: |build[j]| == width
    ensures WithinCells(build) == Product(width as real - 1.0, Sum(Map(SampleVariance, build)))
  {
    hide Squares, SampleVariance, Product, Repetition.Mean;
    var n := width as real - 1.0;
    if build == [] {
      ProductNothing(n);
    } else {
      var front, last := build[..|build| - 1], build[|build| - 1];
      assert forall j | 0 <= j < |front| :: front[j] == build[j];
      CellsSquared(front, width);
      SquaresAreVariance(last);
      assert Map(SampleVariance, build) == Map(SampleVariance, front) + [SampleVariance(last)];
      SumLast(Map(SampleVariance, front), SampleVariance(last));
      ProductAdds(n, Sum(Map(SampleVariance, front)), SampleVariance(last));
    }
  }

  lemma {:induction false} CellsSummed(build: Group, width: nat)
    requires width > 0 && forall j | 0 <= j < |build| :: |build[j]| == width
    ensures Sum(Flatten(build)) == Product(width as real, Sum(ProcessMeans(build)))
  {
    hide Average, Product;
    var n := width as real;
    if build == [] {
      ProductNothing(n);
    } else {
      var front, last := build[..|build| - 1], build[|build| - 1];
      assert forall j | 0 <= j < |front| :: front[j] == build[j];
      CellsSummed(front, width);
      SumConcat(Flatten(front), last);
      AverageTimes(last);
      assert ProcessMeans(build) == ProcessMeans(front) + [Average(last)];
      SumLast(ProcessMeans(front), Average(last));
      ProductAdds(n, Sum(ProcessMeans(front)), Average(last));
    }
  }

  lemma AverageTimes(xs: seq<real>)
    requires xs != []
    ensures Product(|xs| as real, Average(xs)) == Sum(xs)
  {
    var n := |xs| as real;
    assert n * (Sum(xs) / n) == Sum(xs);
  }

  lemma ProductNests(a: real, b: real, x: real)
    ensures Product(Product(a, b), x) == Product(a, Product(b, x))
  {
  }

  lemma ProductCancels(n: real, x: real, y: real)
    requires n > 0.0 && Product(n, x) == Product(n, y)
    ensures x == y
  {
    var d := x - y;
    assert n * d == 0.0;
    assert d > 0.0 ==> n * d > 0.0;
    assert d < 0.0 ==> n * -d > 0.0;
  }

  lemma Counted(cells: nat, width: nat)
    ensures (cells * width) as real == Product(width as real, cells as real)
  {
  }

  /** With as many iterations in each process, the mean over a build is the mean of its processes' means. */
  lemma GroupMeanIs(build: Group, width: nat)
    requires build != [] && width > 0 && forall j | 0 <= j < |build| :: |build[j]| == width
    ensures GroupMean(build) == BuildMean(build)
  {
    hide Average, Product, Sum, Flatten;
    FlattenSize(build, width);
    FlattenNonEmpty(build);
    CellsSummed(build, width);
    Counted(|build|, width);
    AverageTimes(ProcessMeans(build));
    MeanTimes(Flatten(build));
    ProductNests(width as real, |build| as real, BuildMean(build));
    Counted(|build|, width);
    assert |Flatten(build)| > 0;
    ProductCancels(|Flatten(build)| as real, GroupMean(build), BuildMean(build));
  }

  lemma MeanTimes(xs: seq<real>)
    requires xs != []
    ensures Product(|xs| as real, Repetition.Mean(xs)) == Sum(xs) && Repetition.Mean(xs) == Average(xs)
  {
    AverageTimes(xs);
  }

  lemma ProcessMeansAre(build: Group)
    requires forall j | 0 <= j < |build| :: build[j] != []
    ensures CellMeans(build) == ProcessMeans(build)
  {
  }

  lemma WithinBuild(build: Group, cells: nat, width: nat)
    requires cells >= 2 && width >= 2 && Rectangular(build, cells, width)
    ensures WithinCells(build) == Product(Product(cells as real, width as real - 1.0), WithinProcessOf(build))
    ensures GroupMean(build) == BuildMean(build)
    ensures Squares(CellMeans(build), GroupMean(build)) == Product(cells as real - 1.0, OfProcessMeansOf(build))
  {
    hide Average, Product, Sum, Flatten, Squares, WithinCells, SampleVariance, GroupMean, CellMeans;
    CellsSquared(build, width);
    AverageTimes(Map(SampleVariance, build));
    ProductNests(width as real - 1.0, cells as real, WithinProcessOf(build));
    ProductTurns(width as real - 1.0, cells as real);
    GroupMeanIs(build, width);
    ProcessMeansAre(build);
    SquaresAreVariance(ProcessMeans(build));
    MeanTimes(ProcessMeans(build));
  }

  lemma ProductTurns(x: real, y: real)
    ensures Product(x, y) == Product(y, x)
  {
  }

  /** What the three sums and the means come to over the builds. */
  ghost predicate SumsTo(samples: Samples, cells: real, width: real)
    requires Full(samples)
  {
    && WithinProcesses(samples) == Product(Product(cells, width - 1.0), Sum(Map(WithinProcessOf, samples)))
    && BetweenProcesses(samples) == Product(cells - 1.0, Sum(Map(OfProcessMeansOf, samples)))
    && GroupMeans(samples) == Map(BuildMean, samples)
    && Sum(All(samples)) == Product(Product(width, cells), Sum(Map(BuildMean, samples)))
  }

  lemma {:induction false} Summed(samples: Samples, cells: nat, width: nat)
    requires cells >= 2 && width >= 2 && forall i | 0 <= i < |samples| :: Rectangular(samples[i], cells, width)
    ensures Full(samples) && SumsTo(samples, cells as real, width as real)
  {
    SizeOfAll(samples, cells, width, cells * width);
    hide SumsTo, Full;
    if samples == [] {
      SummedNone(cells as real, width as real);
    } else {
      var front, last := samples[..|samples| - 1], samples[|samples| - 1];
      assert forall i | 0 <= i < |front| :: front[i] == samples[i];
      assert samples == front + [last];
      Summed(front, cells, width);
      SummedMore(front, last, cells, width);
    }
  }

  lemma SummedNone(cells: real, width: real)
    ensures Full([]) && SumsTo([], cells, width)
  {
    assert Flatten<real>(Flatten<Cell>([])) == [];
    ProductNothing(Product(cells, width - 1.0));
    ProductNothing(cells - 1.0);
    ProductNothing(Product(width, cells));
    hide Product;
  }

  lemma SummedMore(front: Samples, last: Group, cells: nat, width: nat)
    requires cells >= 2 && width >= 2 && Rectangular(last, cells, width)
    requires Full(front) && SumsTo(front, cells as real, width as real) && Full(front + [last])
    ensures SumsTo(front + [last], cells as real, width as real)
  {
    hide Product, Flatten, Squares, WithinCells, WithinProcessOf, OfProcessMeansOf, BuildMean, GroupMean, CellMeans,
         Sum, All, WithinProcesses, BetweenProcesses, Map, GroupMeans;
    WithinBuild(last, cells, width);
    LastSums(front, last);
    LastSum(WithinProcessOf, front, last, Product(cells as real, width as real - 1.0));
    LastSum(OfProcessMeansOf, front, last, cells as real - 1.0);
    LastSum(BuildMean, front, last, Product(width as real, cells as real));
    LastOfAll(front, last, cells, width);
    LastGroupMean(front, last);
    MapOne(BuildMean, front, last);
  }

  lemma LastSums(front: Samples, last: Group)
    requires Full(front + [last]) && Full(front) && forall j | 0 <= j < |last| :: last[j] != []
    requires last != []
    ensures WithinProcesses(front + [last]) == WithinProcesses(front) + WithinCells(last)
    ensures BetweenProcesses(front + [last]) == BetweenProcesses(front) + Squares(CellMeans(last), GroupMean(last))
  {
    hide WithinCells, Squares, CellMeans, GroupMean;
    assert (front + [last])[..|front|] == front;
  }

  lemma LastSum(f: Group -> real, front: Samples, last: Group, n: real)
    ensures Product(n, Sum(Map(f, front + [last]))) == Product(n, Sum(Map(f, front))) + Product(n, f(last))
  {
    hide Product, Sum;
    assert Map(f, front + [last]) == Map(f, front) + [f(last)];
    SumLast(Map(f, front), f(last));
    ProductAdds(n, Sum(Map(f, front)), f(last));
  }

  lemma LastOfAll(front: Samples, last: Group, cells: nat, width: nat)
    requires cells >= 2 && width >= 2 && Rectangular(last, cells, width)
    ensures Sum(All(front + [last])) == Sum(All(front)) + Product(Product(width as real, cells as real), BuildMean(last))
  {
    hide Product, Sum, Average, Flatten, All;
    FlattenTwice(front, last);
    SumConcat(All(front), Flatten(last));
    CellsSummed(last, width);
    AverageTimes(ProcessMeans(last));
    ProductNests(width as real, cells as real, BuildMean(last));
  }

  lemma LastGroupMean(front: Samples, last: Group)
    requires Full(front + [last]) && Full(front) && last != [] && forall j | 0 <= j < |last| :: last[j] != []
    ensures GroupMeans(front + [last]) == GroupMeans(front) + [GroupMean(last)]
  {
    hide GroupMean;
  }

  // Never negative

  lemma {:induction false} GapsNonNegative(xs: seq<real>, y: real)
    ensures GapsTo(xs, y) >= 0.0
  {
    if xs != [] {
      GapsNonNegative(xs[..|xs| - 1], y);
      SquareNonNegative(xs[|xs| - 1] - y);
    }
  }

  lemma {:induction false} PairsNonNegative(xs: seq<real>)
    ensures PairGaps(xs) >= 0.0
  {
    if xs != [] {
      PairsNonNegative(xs[..|xs| - 1]);
      GapsNonNegative(xs[..|xs| - 1], xs[|xs| - 1]);
    }
  }

  lemma VarianceNonNegative(xs: seq<real>)
    ensures SampleVariance(xs) >= 0.0
  {
    PairsNonNegative(xs);
    if |xs| >= 2 {
      ShareNonNegative(PairGaps(xs), |xs| as real * (|xs| as real - 1.0));
    }
  }

  lemma ShareNonNegative(x: real, n: real)
    requires x >= 0.0 && n > 0.0
    ensures x / n >= 0.0
  {
  }

  lemma {:induction false} SumNonNegative(xs: seq<real>)
    requires forall i | 0 <= i < |xs| :: xs[i] >= 0.0
    ensures Sum(xs) >= 0.0
  {
    if xs != [] {
      SumNonNegative(xs[..|xs| - 1]);
    }
  }

  lemma AverageNonNegative(xs: seq<real>)
    requires forall i | 0 <= i < |xs| :: xs[i] >= 0.0
    ensures Average(xs) >= 0.0
  {
    SumNonNegative(xs);
  }

  lemma WithinNonNegative(samples: Samples)
    ensures WithinProcess(samples) >= 0.0
  {
    hide Average, SampleVariance;
    forall i | 0 <= i < |samples| ensures WithinProcessOf(samples[i]) >= 0.0 {
      forall j | 0 <= j < |samples[i]| ensures SampleVariance(samples[i][j]) >= 0.0 {
        VarianceNonNegative(samples[i][j]);
      }
      AverageNonNegative(Map(SampleVariance, samples[i]));
    }
    hide WithinProcessOf;
    AverageNonNegative(Map(WithinProcessOf, samples));
  }

  // The law

  lemma ScaledQuotient(x: real, m: real, v: real)
    requires m > 0.0 && x == Product(m, v)
    ensures x / m == v
  {
    assert m * (x / m) == m * v;
    ProductCancels(m, x / m, v);
  }

  lemma MeanSquares(n1: real, n2: real, n3: real, build: real, process: real, iteration: real, vb: real, vp: real, vi: real)
    requires n1 > 1.0 && n2 > 1.0 && n3 > 1.0
    requires build == Product(Product(n2, n3), Product(n1 - 1.0, vb))
    requires process == Product(n3, Product(n2 - 1.0, Product(n1, vp)))
    requires iteration == Product(Product(n2, n3 - 1.0), Product(n1, vi))
    ensures Product(n1, n2 - 1.0) > 0.0 && Product(Product(n1, n2), n3 - 1.0) > 0.0
    ensures build / (n1 - 1.0) == Product(Product(n2, n3), vb)
    ensures process / Product(n1, n2 - 1.0) == Product(n3, vp)
    ensures iteration / Product(Product(n1, n2), n3 - 1.0) == vi
  {
    Divisors(n1, n2, n3);
    Rearranged(n1, n2, n3, vb, vp, vi);
    hide Product;
    ScaledQuotient(build, n1 - 1.0, Product(Product(n2, n3), vb));
    ScaledQuotient(process, Product(n1, n2 - 1.0), Product(n3, vp));
    ScaledQuotient(iteration, Product(Product(n1, n2), n3 - 1.0), vi);
  }

  lemma Rearranged(n1: real, n2: real, n3: real, vb: real, vp: real, vi: real)
    ensures Product(Product(n2, n3), Product(n1 - 1.0, vb)) == Product(n1 - 1.0, Product(Product(n2, n3), vb))
    ensures Product(n3, Product(n2 - 1.0, Product(n1, vp))) == Product(Product(n1, n2 - 1.0), Product(n3, vp))
    ensures Product(Product(n2, n3 - 1.0), Product(n1, vi)) == Product(Product(Product(n1, n2), n3 - 1.0), vi)
  {
  }

  /** What is above a floor comes to what is left over it, and nothing comes of what is not. */
  predicate Above(component: real, whole: real, below: real) {
    && (whole > below ==> component + below == whole)
    && (whole <= below ==> component == 0.0)
  }

  lemma ComponentIsAbove(n: real, whole: real, lower: real)
    requires n > 0.0
    ensures Above(Component(Product(n, whole), lower, n), whole, lower / n)
  {
    var x, f := (n * whole - lower) / n, lower / n;
    assert n * x == n * whole - lower;
    assert n * f == lower;
    assert n * (x - (whole - f)) == 0.0;
    ProductCancels(n, x, whole - f);
  }

  lemma Halved(n2: real, n3: real, vp: real)
    requires n2 > 0.0 && n3 > 0.0 && Product(n2, n3) > 0.0
    ensures Product(n3, vp) / Product(n2, n3) == vp / n2
  {
    assert n2 * (vp / n2) == vp;
    assert Product(Product(n2, n3), vp / n2) == n3 * (n2 * (vp / n2));
    ScaledQuotient(Product(n3, vp), Product(n2, n3), vp / n2);
  }

  /** The nested variance law.  Within a process the variance is the iteration component.  Between process
      means it is the process component and a share of the iterations', and between build means the build
      component and a share of the variance of process means; a component is zero when the share alone is
      already as much. */
  lemma ComponentsAreVariances(samples: Samples)
    requires Balanced(samples)
    ensures var c, n2, n3 := ComponentsOf(samples), |samples[0]| as real, |samples[0][0]| as real;
      && c.iteration == WithinProcess(samples)
      && Above(c.process, OfProcessMeans(samples), WithinProcess(samples) / n3)
      && Above(c.build, OfBuildMeans(samples), OfProcessMeans(samples) / n2)
      && (c.process > 0.0 && c.build > 0.0 ==>
        OfBuildMeans(samples) == c.build + (c.process + c.iteration / n3) / n2)
  {
    hide Product, Flatten, Squares, WithinProcessOf, OfProcessMeansOf, BuildMean, GroupMeans,
         Sum, All, WithinProcesses, BetweenProcesses, Component, Average, SampleVariance;
    BalancedIsFull(samples);
    var n1, n2, n3 := |samples| as real, |samples[0]| as real, |samples[0][0]| as real;
    Summed(samples, |samples[0]|, |samples[0][0]|);
    var vi, vp, vb := WithinProcess(samples), OfProcessMeans(samples), OfBuildMeans(samples);
    AverageTimes(Map(WithinProcessOf, samples));
    AverageTimes(Map(OfProcessMeansOf, samples));
    GrandIs(samples);
    SquaresAreVariance(Map(BuildMean, samples));
    var (build, process, iteration) := SumsOfSquares(samples);
    MeanSquares(n1, n2, n3, build, process, iteration, vb, vp, vi);
    Divisors(n1, n2, n3);
    ComponentIsAbove(Product(n2, n3), vb, Product(n3, vp));
    Halved(n2, n3, vp);
    ComponentIsAbove(n3, vp, vi);
    WithinNonNegative(samples);
  }

  lemma GrandIs(samples: Samples)
    requires Balanced(samples)
    ensures Full(samples) && Grand(samples) == Repetition.Mean(Map(BuildMean, samples))
  {
    hide Product, BuildMean, Sum, All, WithinProcesses, BetweenProcesses, GroupMeans;
    BalancedIsFull(samples);
    var n1, n2, n3 := |samples|, |samples[0]|, |samples[0][0]|;
    Summed(samples, n2, n3);
    var means := Map(BuildMean, samples);
    MeanTimes(All(samples));
    MeanTimes(means);
    Counted(n1, n2 * n3);
    Counted(n2, n3);
    assert |All(samples)| as real == Product(Product(n3 as real, n2 as real), n1 as real);
    ProductNests(Product(n3 as real, n2 as real), n1 as real, Repetition.Mean(means));
    ProductCancels(|All(samples)| as real, Grand(samples), Repetition.Mean(means));
  }
}
