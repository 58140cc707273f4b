/** Where the variance of a pilot sits, and where the repetition budget goes. */
module Repetition {
  import opened Wrappers
  import opened Reals

  datatype Level = Build | Process | Iteration

  datatype Components = Components(build: real, process: real, iteration: real)

  datatype PilotError = PilotTooSmall(builds: nat, processes: nat, iterations: nat) | Unbalanced

  type Cell = seq<real>
  type Group = seq<Cell>
  type Samples = seq<Group>

  // Sums

  function Square(x: real): real {
    x * x
  }

  /** The sum of squares about a centre. */
  function Squares(xs: seq<real>, centre: real): real {
    if xs == [] then 0.0 else Squares(xs[..|xs| - 1], centre) + Square(xs[|xs| - 1] - centre)
  }

  function Mean(xs: seq<real>): real
    requires xs != []
  {
    Sum(xs) / |xs| as real
  }

  function Flatten<T>(rows: seq<seq<T>>): seq<T> {
    if rows == [] then [] else Flatten(rows[..|rows| - 1]) + rows[|rows| - 1]
  }

  lemma {:induction false} SquaresConcat(a: seq<real>, b: seq<real>, centre: real)
    ensures Squares(a + b, centre) == Squares(a, centre) + Squares(b, centre)
  {
    if b == [] {
      assert a + b == a;
    } else {
      SquaresConcat(a, b[..|b| - 1], centre);
      assert (a + b)[..|a + b| - 1] == a + b[..|b| - 1];
    }
  }

  // Balanced designs

  ghost predicate Rectangular(group: Group, cells: nat, width: nat) {
    |group| == cells && forall j | 0 <= j < cells :: |group[j]| == width
  }

  /** Every build ran the same processes and every process the same iterations, two at least of each. */
  ghost predicate Balanced(samples: Samples) {
    && |samples| >= 2 && |samples[0]| >= 2 && |samples[0][0]| >= 2
    && forall i | 0 <= i < |samples| :: Rectangular(samples[i], |samples[0]|, |samples[0][0]|)
  }

  /** At least two builds, and in the first of them two processes, and in the first of those two iterations. */
  predicate TwoDeep(samples: Samples) {
    |samples| >= 2 && |samples[0]| >= 2 && |samples[0][0]| >= 2
  }

  method NewPilot(samples: Samples) returns (r: Result<Samples, PilotError>)
    ensures r.Ok? <==> Balanced(samples)
    ensures r.Ok? ==> r.value == samples
    ensures r.Err? && r.error.Unbalanced? <==> TwoDeep(samples) && !Balanced(samples)
    ensures r.Err? && r.error.PilotTooSmall? <==> !TwoDeep(samples)
    ensures !TwoDeep(samples) ==>
      && r.error.builds == |samples|
      && r.error.processes == (if samples == [] then 0 else |samples[0]|)
      && r.error.iterations == (if samples == [] || samples[0] == [] then 0 else |samples[0][0]|)
  {
    var builds := |samples|;
    var processes := if samples == [] then 0 else |samples[0]|;
    var iterations := if samples == [] || samples[0] == [] then 0 else |samples[0][0]|;
    if builds < 2 || processes < 2 || iterations < 2 {
      return Err(PilotTooSmall(builds, processes, iterations));
    }
    for i := 0 to |samples|
      invariant forall k | 0 <= k < i :: Rectangular(samples[k], processes, iterations)
    {
      if |samples[i]| != processes {
        assert !Rectangular(samples[i], processes, iterations);
        return Err(Unbalanced);
      }
      for j := 0 to |samples[i]|
        invariant forall k | 0 <= k < j :: |samples[i][k]| == iterations
      {
        if |samples[i][j]| != iterations {
          assert !Rectangular(samples[i], processes, iterations);
          return Err(Unbalanced);
        }
      }
    }
    return Ok(samples);
  }

  // The three sums of squares

  function CellMeans(group: Group): (means: seq<real>)
    requires forall j | 0 <= j < |group| :: group[j] != []
    ensures |means| == |group| && forall j | 0 <= j < |group| :: means[j] == Mean(group[j])
  {
    seq(|group|, j requires 0 <= j < |group| => Mean(group[j]))
  }

  /** The squares of a group's samples about their own cell's mean. */
  function WithinCells(group: Group): real
    requires forall j | 0 <= j < |group| :: group[j] != []
  {
    if group == [] then 0.0
    else
      var front, last := group[..|group| - 1], group[|group| - 1];
      assert forall j | 0 <= j < |front| :: front[j] == group[j];
      WithinCells(front) + Squares(last, Mean(last))
  }

  predicate Full(samples: Samples) {
    forall i | 0 <= i < |samples| :: samples[i] != [] && forall j | 0 <= j < |samples[i]| :: samples[i][j] != []
  }

  lemma {:induction false} FlattenSize(group: Group, width: nat)
    requires forall j | 0 <= j < |group| :: |group[j]| == width
    ensures |Flatten(group)| == |group| * width
  {
    if group != [] {
      var front := group[..|group| - 1];
      assert forall j | 0 <= j < |front| :: front[j] == group[j];
      FlattenSize(front, width);
      assert |group| * width == |front| * width + width;
    }
  }

  function GroupMean(group: Group): real
    requires group != [] && forall j | 0 <= j < |group| :: group[j] != []
  {
    FlattenNonEmpty(group);
    Mean(Flatten(group))
  }

  lemma FlattenNonEmpty(group: Group)
    requires group != [] && forall j | 0 <= j < |group| :: group[j] != []
    ensures Flatten(group) != []
  {
    assert group[|group| - 1] != [];
  }

  function GroupMeans(samples: Samples): (means: seq<real>)
    requires Full(samples)
    ensures |means| == |samples| && forall i | 0 <= i < |samples| :: means[i] == GroupMean(samples[i])
  {
    seq(|samples|, i requires 0 <= i < |samples| => GroupMean(samples[i]))
  }

  /** Squares of the cell means about their build's mean, over all builds. */
  function BetweenProcesses(samples: Samples): real
    requires Full(samples)
  {
    if samples == [] then 0.0
    else
      var front, last := samples[..|samples| - 1], samples[|samples| - 1];
      assert forall i | 0 <= i < |front| :: front[i] == samples[i];
      BetweenProcesses(front) + Squares(CellMeans(last), GroupMean(last))
  }

  function WithinProcesses(samples: Samples): real
    requires Full(samples)
  {
    if samples == [] then 0.0
    else
      var front, last := samples[..|samples| - 1], samples[|samples| - 1];
      assert forall i | 0 <= i < |front| :: front[i] == samples[i];
      WithinProcesses(front) + WithinCells(last)
  }

  function All(samples: Samples): seq<real> {
    Flatten(Flatten(samples))
  }

  /** What a sum of squares about one centre becomes about another. */
  function Moved(squares: real, sum: real, n: real, a: real, b: real): real {
    squares + 2.0 * (a - b) * (sum - n * a) + n * Square(a - b)
  }

  lemma MoveOne(squares: real, sum: real, n: real, a: real, b: real, x: real)
    ensures Moved(squares, sum, n, a, b) + Square(x - b) == Moved(squares + Square(x - a), sum + x, n + 1.0, a, b)
  {
    var u, v := x - a, a - b;
    assert Square(u + v) == Square(u) + 2.0 * u * v + Square(v);
    assert sum + x - (n + 1.0) * a == (sum - n * a) + u;
    assert 2.0 * v * ((sum - n * a) + u) == 2.0 * v * (sum - n * a) + 2.0 * v * u;
    assert (n + 1.0) * Square(v) == n * Square(v) + Square(v);
  }

  /** Moving the centre of a sum of squares. */
  lemma {:induction false} MoveCentre(xs: seq<real>, a: real, b: real)
    ensures Squares(xs, b) == Moved(Squares(xs, a), Sum(xs), |xs| as real, a, b)
  {
    if xs != [] {
      hide Square, Moved;
      var front, x := xs[..|xs| - 1], xs[|xs| - 1];
      MoveCentre(front, a, b);
      MoveOne(Squares(front, a), Sum(front), |front| as real, a, b, x);
      assert |xs| as real == |front| as real + 1.0;
    }
  }

  /** About its mean a sum of squares is least: elsewhere the squared distance comes in once a sample. */
  lemma AboutTheMean(xs: seq<real>, centre: real)
    requires xs != []
    ensures Squares(xs, centre) == Squares(xs, Mean(xs)) + |xs| as real * Square(Mean(xs) - centre)
  {
    hide Square, Squares;
    MoveCentre(xs, Mean(xs), centre);
    assert |xs| as real * Mean(xs) == Sum(xs);
  }

  /** A total of what is inside the parts and, scaled, what is between them. */
  function Nested(inside: real, scale: real, between: real): real {
    inside + scale * between
  }

  lemma NestedAdds(scale: real, w1: real, b1: real, w2: real, b2: real)
    ensures Nested(w1, scale, b1) + Nested(w2, scale, b2) == Nested(w1 + w2, scale, b1 + b2)
  {
    assert scale * (b1 + b2) == scale * b1 + scale * b2;
  }

  lemma LastCell(group: Group, centre: real)
    requires group != [] && forall j | 0 <= j < |group| :: group[j] != []
    ensures var front, last := group[..|group| - 1], group[|group| - 1];
      && (forall j | 0 <= j < |front| :: front[j] == group[j])
      && Squares(Flatten(group), centre) == Squares(Flatten(front), centre) + Squares(last, centre)
      && WithinCells(group) == WithinCells(front) + Squares(last, Mean(last))
      && Squares(CellMeans(group), centre) == Squares(CellMeans(front), centre) + Square(Mean(last) - centre)
  {
    hide Square, Mean;
    var front, last := group[..|group| - 1], group[|group| - 1];
    assert forall j | 0 <= j < |front| :: front[j] == group[j];
    LastFlattened(group, centre);
    assert CellMeans(group)[..|group| - 1] == CellMeans(front);
  }

  lemma LastFlattened(group: Group, centre: real)
    requires group != []
    ensures Squares(Flatten(group), centre)
         == Squares(Flatten(group[..|group| - 1]), centre) + Squares(group[|group| - 1], centre)
  {
    SquaresConcat(Flatten(group[..|group| - 1]), group[|group| - 1], centre);
  }

  /** One level: the squares of a group about any centre are those inside its cells and, once a sample,
      those of the cell means. */
  lemma {:induction false} SplitGroup(group: Group, width: nat, centre: real)
    requires width > 0 && forall j | 0 <= j < |group| :: |group[j]| == width
    ensures Squares(Flatten(group), centre) == Nested(WithinCells(group), width as real, Squares(CellMeans(group), centre))
  {
    if group != [] {
      hide Square, Squares, Mean, WithinCells, Flatten, Nested, CellMeans;
      var front, last := group[..|group| - 1], group[|group| - 1];
      LastCell(group, centre);
      SplitGroup(front, width, centre);
      CellAbout(last, centre);
      NestedAdds(width as real, WithinCells(front), Squares(CellMeans(front), centre),
                 Squares(last, Mean(last)), Square(Mean(last) - centre));
    }
  }

  lemma CellAbout(cell: Cell, centre: real)
    requires cell != []
    ensures Squares(cell, centre) == Nested(Squares(cell, Mean(cell)), |cell| as real, Square(Mean(cell) - centre))
  {
    hide Square, Squares, Mean;
    AboutTheMean(cell, centre);
  }

  lemma LastBuild(samples: Samples, centre: real)
    requires samples != [] && Full(samples)
    ensures var front, last := samples[..|samples| - 1], samples[|samples| - 1];
      && (forall i | 0 <= i < |front| :: front[i] == samples[i]) && Full(front)
      && Squares(All(samples), centre) == Squares(All(front), centre) + Squares(Flatten(last), centre)
      && WithinProcesses(samples) == WithinProcesses(front) + WithinCells(last)
      && BetweenProcesses(samples) == BetweenProcesses(front) + Squares(CellMeans(last), GroupMean(last))
      && Squares(GroupMeans(samples), centre) == Squares(GroupMeans(front), centre) + Square(GroupMean(last) - centre)
  {
    hide Square, Squares, Mean, GroupMean, GroupMeans, CellMeans, WithinCells, Flatten, All;
    var front, last := samples[..|samples| - 1], samples[|samples| - 1];
    assert forall i | 0 <= i < |front| :: front[i] == samples[i];
    assert samples == front + [last];
    LastSquares(front, last, centre);
    LastMeans(front, last, centre);
  }

  lemma LastMeans(front: Samples, last: Group, centre: real)
    requires Full(front + [last]) && Full(front) && last != [] && forall j | 0 <= j < |last| :: last[j] != []
    ensures Squares(GroupMeans(front + [last]), centre)
         == Squares(GroupMeans(front), centre) + Square(GroupMean(last) - centre)
  {
    hide Square, Mean, GroupMean;
    assert GroupMeans(front + [last])[..|front|] == GroupMeans(front);
  }

  lemma LastSquares(front: Samples, last: Group, centre: real)
    ensures Squares(All(front + [last]), centre) == Squares(All(front), centre) + Squares(Flatten(last), centre)
  {
    hide Squares;
    FlattenTwice(front, last);
    SquaresConcat(All(front), Flatten(last), centre);
  }

  lemma FullBuild(last: Group, cells: nat, width: nat, centre: real)
    requires cells > 0 && width > 0 && Rectangular(last, cells, width)
    ensures Squares(Flatten(last), centre)
         == Nested(Nested(WithinCells(last), width as real, Squares(CellMeans(last), GroupMean(last))),
                   (cells * width) as real, Square(GroupMean(last) - centre))
  {
    hide Square, Squares, WithinCells, Mean, Nested;
    FlattenSize(last, width);
    FlattenNonEmpty(last);
    CellAbout(Flatten(last), centre);
    SplitGroup(last, width, GroupMean(last));
  }

  lemma SplitStep(samples: Samples, cells: nat, width: nat, centre: real, n: real)
    requires cells > 0 && width > 0 && n == (cells * width) as real
    requires samples != [] && Full(samples) && Rectangular(samples[|samples| - 1], cells, width)
    ensures var front, last := samples[..|samples| - 1], samples[|samples| - 1];
      && Full(front)
      && Squares(All(samples), centre) == Squares(All(front), centre)
          + Nested(Nested(WithinCells(last), width as real, Squares(CellMeans(last), GroupMean(last))), n, Square(GroupMean(last) - centre))
      && Nested(Nested(WithinProcesses(samples), width as real, BetweenProcesses(samples)), n, Squares(GroupMeans(samples), centre))
      == Nested(Nested(WithinProcesses(front), width as real, BetweenProcesses(front)), n, Squares(GroupMeans(front), centre))
         + Nested(Nested(WithinCells(last), width as real, Squares(CellMeans(last), GroupMean(last))), n, Square(GroupMean(last) - centre))
  {
    hide Square, Squares, GroupMean, WithinProcesses, BetweenProcesses, WithinCells, Flatten, All, Nested, GroupMeans, CellMeans;
    var front, last := samples[..|samples| - 1], samples[|samples| - 1];
    LastBuild(samples, centre);
    FullBuild(last, cells, width, centre);
    NestedAdds(width as real, WithinProcesses(front), BetweenProcesses(front),
               WithinCells(last), Squares(CellMeans(last), GroupMean(last)));
    NestedAdds(n,
               Nested(WithinProcesses(front), width as real, BetweenProcesses(front)), Squares(GroupMeans(front), centre),
               Nested(WithinCells(last), width as real, Squares(CellMeans(last), GroupMean(last))), Square(GroupMean(last) - centre));
  }

  /** Both levels at once, over the builds of a balanced pilot. */
  lemma {:induction false} SplitSamples(samples: Samples, cells: nat, width: nat, centre: real, n: real)
    requires cells > 0 && width > 0 && n == (cells * width) as real
    requires forall i | 0 <= i < |samples| :: Rectangular(samples[i], cells, width)
    ensures Full(samples)
    ensures Squares(All(samples), centre)
         == Nested(Nested(WithinProcesses(samples), width as real, BetweenProcesses(samples)), n, Squares(GroupMeans(samples), centre))
  {
    SizeOfAll(samples, cells, width, cells * width);
    if samples == [] {
      assert All(samples) == [];
      assert GroupMeans(samples) == [];
    } else {
      hide Square, Squares, GroupMean, WithinProcesses, BetweenProcesses, WithinCells, Flatten, All, Nested, GroupMeans, CellMeans;
      var front := samples[..|samples| - 1];
      assert forall i | 0 <= i < |front| :: front[i] == samples[i];
      SplitSamples(front, cells, width, centre, n);
      SplitStep(samples, cells, width, centre, n);
    }
  }

  lemma {:induction false} FlattenConcat<T>(a: seq<seq<T>>, b: seq<seq<T>>)
    ensures Flatten(a + b) == Flatten(a) + Flatten(b)
  {
    if b == [] {
      assert a + b == a;
    } else {
      FlattenConcat(a, b[..|b| - 1]);
      assert (a + b)[..|a + b| - 1] == a + b[..|b| - 1];
    }
  }

  lemma FlattenTwice(front: Samples, last: Group)
    ensures All(front + [last]) == All(front) + Flatten(last)
  {
    assert (front + [last])[..|front|] == front;
    FlattenConcat(Flatten(front), last);
  }

  function Product(x: real, y: real): real {
    x * y
  }

  function SumsOfSquares(samples: Samples): (real, real, real)
    requires Balanced(samples)
  {
    BalancedIsFull(samples);
    var n2, n3 := |samples[0]| as real, |samples[0][0]| as real;
    (Product(Product(n2, n3), Squares(GroupMeans(samples), Grand(samples))),
     Product(n3, BetweenProcesses(samples)), WithinProcesses(samples))
  }

  lemma BalancedIsFull(samples: Samples)
    requires Balanced(samples)
    ensures Full(samples) && All(samples) != []
    ensures |All(samples)| == |samples| * (|samples[0]| * |samples[0][0]|)
  {
    var unit := |samples[0]| * |samples[0][0]|;
    SizeOfAll(samples, |samples[0]|, |samples[0][0]|, unit);
    assert |samples| * unit > 0;
  }

  lemma {:induction false} SizeOfAll(samples: Samples, cells: nat, width: nat, unit: nat)
    requires cells > 0 && width > 0 && unit == cells * width
    requires forall i | 0 <= i < |samples| :: Rectangular(samples[i], cells, width)
    ensures Full(samples) && |All(samples)| == |samples| * unit
  {
    if samples != [] {
      var front, last := samples[..|samples| - 1], samples[|samples| - 1];
      assert forall i | 0 <= i < |front| :: front[i] == samples[i];
      SizeOfAll(front, cells, width, unit);
      assert samples == front + [last];
      FlattenTwice(front, last);
      FlattenSize(last, width);
      assert |samples| * unit == |front| * unit + unit;
    }
  }

  function Grand(samples: Samples): real
    requires Balanced(samples)
  {
    BalancedIsFull(samples);
    Mean(All(samples))
  }

  /** For every balanced pilot the three sums of squares add up to the whole, exactly. */
  lemma SquaresAddUp(samples: Samples)
    requires Balanced(samples)
    ensures var (build, process, iteration) := SumsOfSquares(samples);
            build + process + iteration == Squares(All(samples), Grand(samples))
  {
    hide Squares, BetweenProcesses, WithinProcesses, GroupMeans, All, Grand;
    BalancedIsFull(samples);
    var n := (|samples[0]| * |samples[0][0]|) as real;
    SplitSamples(samples, |samples[0]|, |samples[0][0]|, Grand(samples), n);
    assert n == Product(|samples[0]| as real, |samples[0][0]| as real);
  }

  // The components

  function ComponentsOf(samples: Samples): Components
    requires Balanced(samples)
  {
    var (build, process, iteration) := SumsOfSquares(samples);
    FromSums(build, process, iteration, |samples| as real, |samples[0]| as real, |samples[0][0]| as real)
  }

  function Max(a: real, b: real): real {
    if a < b then b else a
  }

  lemma Divisors(n1: real, n2: real, n3: real)
    requires n1 > 1.0 && n2 > 1.0 && n3 > 1.0
    ensures Product(n1, n2 - 1.0) > 0.0 && Product(Product(n1, n2), n3 - 1.0) > 0.0 && Product(n2, n3) > 0.0
  {
    Positive(n1, n2);
    Positive(n2, n3);
    Positive(n1, n2 - 1.0);
    Positive(Product(n1, n2), n3 - 1.0);
  }

  lemma Positive(x: real, y: real)
    requires x > 0.0 && y > 0.0
    ensures Product(x, y) > 0.0
  {
  }

  /** Mean squares, each less the one below it, per measurement under one unit, and never negative. */
  function FromSums(build: real, process: real, iteration: real, n1: real, n2: real, n3: real): Components
    requires n1 > 1.0 && n2 > 1.0 && n3 > 1.0
  {
    Divisors(n1, n2, n3);
    var msBuild := build / (n1 - 1.0);
    var msProcess := process / Product(n1, n2 - 1.0);
    var msIteration := iteration / Product(Product(n1, n2), n3 - 1.0);
    Components(Component(msBuild, msProcess, Product(n2, n3)), Component(msProcess, msIteration, n3), Max(msIteration, 0.0))
  }

  /** Accumulates the three sums over the pilot and turns them into components. */
  method Decompose(samples: Samples) returns (c: Components)
    requires Balanced(samples)
    ensures c == ComponentsOf(samples)
  {
    hide FromSums, GroupMeans, All, WithinProcesses, BetweenProcesses, Squares, Product;
    BalancedIsFull(samples);
    var n1, n2, n3 := |samples| as real, |samples[0]| as real, |samples[0][0]| as real;
    var grand := Mean(All(samples));
    var ssBuild, ssProcess, ssIteration := AddSquares(samples, GroupMeans(samples), grand);
    ssBuild := Product(Product(n2, n3), ssBuild);
    ssProcess := Product(n3, ssProcess);
    c := FromSums(ssBuild, ssProcess, ssIteration, n1, n2, n3);
  }

  method AddSquares(samples: Samples, buildMeans: seq<real>, grand: real)
    returns (ssBuild: real, ssProcess: real, ssIteration: real)
    requires Full(samples) && buildMeans == GroupMeans(samples)
    ensures ssBuild == Squares(buildMeans, grand)
    ensures ssProcess == BetweenProcesses(samples) && ssIteration == WithinProcesses(samples)
  {
    hide Square, Mean, WithinCells, GroupMean;
    ssBuild, ssProcess, ssIteration := 0.0, 0.0, 0.0;
    for i := 0 to |samples|
      invariant ssBuild == Squares(buildMeans[..i], grand)
      invariant Full(samples[..i]) && ssProcess == BetweenProcesses(samples[..i])
      invariant ssIteration == WithinProcesses(samples[..i])
    {
      ssBuild := ssBuild + Square(buildMeans[i] - grand);
      assert buildMeans[..i + 1][..i] == buildMeans[..i];
      assert samples[..i + 1][..i] == samples[..i];
      ssProcess, ssIteration := AddBuild(samples[i], buildMeans[i], ssProcess, ssIteration);
    }
    assert buildMeans[..|samples|] == buildMeans && samples[..|samples|] == samples;
  }

  method AddBuild(build: Group, buildMean: real, ssProcess: real, ssIteration: real) returns (process: real, iteration: real)
    requires build != [] && forall j | 0 <= j < |build| :: build[j] != []
    ensures process == ssProcess + Squares(CellMeans(build), buildMean)
    ensures iteration == ssIteration + WithinCells(build)
  {
    var means := CellMeans(build);
    process, iteration := ssProcess, ssIteration;
    for j := 0 to |build|
      invariant process == ssProcess + Squares(means[..j], buildMean)
      invariant forall k | 0 <= k < j :: build[..j][k] != []
      invariant iteration == ssIteration + WithinCells(build[..j])
    {
      process := process + Square(means[j] - buildMean);
      assert means[..j + 1][..j] == means[..j];
      assert build[..j + 1][..j] == build[..j];
      iteration := AddCell(build[j], means[j], iteration);
    }
    assert means[..|build|] == means && build[..|build|] == build;
  }

  method AddCell(cell: Cell, mean: real, ss: real) returns (iteration: real)
    ensures iteration == ss + Squares(cell, mean)
  {
    iteration := ss;
    for k := 0 to |cell|
      invariant iteration == ss + Squares(cell[..k], mean)
    {
      iteration := iteration + Square(cell[k] - mean);
      assert cell[..k + 1][..k] == cell[..k];
    }
    assert cell[..|cell|] == cell;
  }

  // Shifting and scaling

  function Moving(x: real, a: real, c: real): real {
    a * x + c
  }

  function Affine(xs: seq<real>, a: real, c: real): (ys: seq<real>)
    ensures |ys| == |xs| && forall i | 0 <= i < |xs| :: ys[i] == Moving(xs[i], a, c)
  {
    seq(|xs|, i requires 0 <= i < |xs| => Moving(xs[i], a, c))
  }

  function AffineGroup(group: Group, a: real, c: real): (r: Group)
    ensures |r| == |group| && forall j | 0 <= j < |group| :: r[j] == Affine(group[j], a, c)
  {
    seq(|group|, j requires 0 <= j < |group| => Affine(group[j], a, c))
  }

  function AffineSamples(samples: Samples, a: real, c: real): (r: Samples)
    ensures |r| == |samples| && forall i | 0 <= i < |samples| :: r[i] == AffineGroup(samples[i], a, c)
  {
    seq(|samples|, i requires 0 <= i < |samples| => AffineGroup(samples[i], a, c))
  }

  lemma AffineLast(xs: seq<real>, a: real, c: real)
    requires xs != []
    ensures Affine(xs, a, c)[..|xs| - 1] == Affine(xs[..|xs| - 1], a, c)
  {
    hide Moving;
    var ys := Affine(xs, a, c)[..|xs| - 1];
    assert forall i | 0 <= i < |xs| - 1 :: ys[i] == Moving(xs[i], a, c);
  }

  lemma {:induction false} AffineSum(xs: seq<real>, a: real, c: real)
    ensures Sum(Affine(xs, a, c)) == a * Sum(xs) + |xs| as real * c
  {
    if xs != [] {
      var front, x := xs[..|xs| - 1], xs[|xs| - 1];
      AffineLast(xs, a, c);
      AffineSum(front, a, c);
      assert |xs| as real == |front| as real + 1.0;
      SumStep(Sum(front), |front| as real, a, c, x);
      assert Affine(xs, a, c)[|xs| - 1] == a * x + c;
    }
  }

  lemma SumStep(sum: real, n: real, a: real, c: real, x: real)
    ensures (a * sum + n * c) + (a * x + c) == a * (sum + x) + (n + 1.0) * c
  {
  }

  lemma AffineMean(xs: seq<real>, a: real, c: real)
    requires xs != []
    ensures Mean(Affine(xs, a, c)) == Moving(Mean(xs), a, c)
  {
    hide Sum;
    AffineSum(xs, a, c);
    var n := |xs| as real;
    assert |Affine(xs, a, c)| as real == n;
    Quotient(Sum(xs), n, a, c);
    assert Mean(Affine(xs, a, c)) == Sum(Affine(xs, a, c)) / n;
  }

  lemma Quotient(sum: real, n: real, a: real, c: real)
    requires n > 0.0
    ensures (a * sum + n * c) / n == a * (sum / n) + c
  {
    assert (a * (sum / n) + c) * n == a * sum + n * c by {
      assert (sum / n) * n == sum;
      assert a * (sum / n) * n == a * ((sum / n) * n);
    }
  }

  lemma {:induction false} AffineSquares(xs: seq<real>, centre: real, a: real, c: real)
    ensures Squares(Affine(xs, a, c), Moving(centre, a, c)) == Scaled(Square(a), Squares(xs, centre))
  {
    if xs != [] {
      hide Moving, Square, Scaled;
      AffineLast(xs, a, c);
      AffineSquares(xs[..|xs| - 1], centre, a, c);
      SquareStep(Squares(xs[..|xs| - 1], centre), xs[|xs| - 1], centre, a, c);
    }
  }

  function Scaled(k: real, x: real): real {
    k * x
  }

  lemma ScaledAdds(k: real, x: real, y: real)
    ensures Scaled(k, x) + Scaled(k, y) == Scaled(k, x + y)
    ensures Scaled(k, 0.0) == 0.0
  {
  }

  lemma SquareStep(squares: real, x: real, centre: real, a: real, c: real)
    ensures Scaled(Square(a), squares) + Square(Moving(x, a, c) - Moving(centre, a, c)) == Scaled(Square(a), squares + Square(x - centre))
  {
    var d := x - centre;
    assert Moving(x, a, c) - Moving(centre, a, c) == a * d;
    assert Square(a * d) == Square(a) * Square(d);
  }

  lemma AffineConcat(xs: seq<real>, ys: seq<real>, a: real, c: real)
    ensures Affine(xs + ys, a, c) == Affine(xs, a, c) + Affine(ys, a, c)
  {
    hide Moving;
  }

  lemma {:induction false} AffineFlatten(group: Group, a: real, c: real)
    ensures Flatten(AffineGroup(group, a, c)) == Affine(Flatten(group), a, c)
  {
    if group != [] {
      hide Moving;
      var front, last := group[..|group| - 1], group[|group| - 1];
      AffineFlatten(front, a, c);
      assert AffineGroup(group, a, c)[..|group| - 1] == AffineGroup(front, a, c);
      AffineConcat(Flatten(front), last, a, c);
    }
  }

  lemma {:induction false} AffineFlattenGroups(samples: Samples, a: real, c: real)
    ensures Flatten(AffineSamples(samples, a, c)) == AffineGroup(Flatten(samples), a, c)
  {
    if samples != [] {
      AffineFlattenGroups(samples[..|samples| - 1], a, c);
      assert AffineSamples(samples, a, c)[..|samples| - 1] == AffineSamples(samples[..|samples| - 1], a, c);
    }
  }

  lemma AffineCellMeans(group: Group, a: real, c: real)
    requires forall j | 0 <= j < |group| :: group[j] != []
    ensures CellMeans(AffineGroup(group, a, c)) == Affine(CellMeans(group), a, c)
  {
    hide Mean, Moving;
    forall j | 0 <= j < |group| ensures Mean(AffineGroup(group, a, c)[j]) == Moving(Mean(group[j]), a, c) {
      AffineMean(group[j], a, c);
    }
  }

  lemma AffineGroupMean(group: Group, a: real, c: real)
    requires group != [] && forall j | 0 <= j < |group| :: group[j] != []
    ensures GroupMean(AffineGroup(group, a, c)) == Moving(GroupMean(group), a, c)
  {
    FlattenNonEmpty(group);
    AffineFlatten(group, a, c);
    AffineMean(Flatten(group), a, c);
  }

  lemma AffineGroupMeans(samples: Samples, a: real, c: real)
    requires Full(samples)
    ensures Full(AffineSamples(samples, a, c))
    ensures GroupMeans(AffineSamples(samples, a, c)) == Affine(GroupMeans(samples), a, c)
  {
    hide GroupMean, Moving;
    forall i | 0 <= i < |samples| ensures GroupMean(AffineSamples(samples, a, c)[i]) == Moving(GroupMean(samples[i]), a, c) {
      AffineGroupMean(samples[i], a, c);
    }
  }

  lemma {:induction false} AffineWithinCells(group: Group, a: real, c: real)
    requires forall j | 0 <= j < |group| :: group[j] != []
    ensures WithinCells(AffineGroup(group, a, c)) == Scaled(Square(a), WithinCells(group))
  {
    ScaledAdds(Square(a), 0.0, 0.0);
    if group != [] {
      hide Square, Squares, Mean, Scaled, Moving;
      var front, last := group[..|group| - 1], group[|group| - 1];
      assert forall j | 0 <= j < |front| :: front[j] == group[j];
      AffineWithinCells(front, a, c);
      assert AffineGroup(group, a, c)[..|group| - 1] == AffineGroup(front, a, c);
      AffineMean(last, a, c);
      AffineSquares(last, Mean(last), a, c);
      ScaledAdds(Square(a), WithinCells(front), Squares(last, Mean(last)));
    }
  }

  lemma AffineBuild(last: Group, a: real, c: real)
    requires last != [] && forall j | 0 <= j < |last| :: last[j] != []
    ensures var moved := AffineGroup(last, a, c);
      && moved != [] && (forall j | 0 <= j < |moved| :: moved[j] != [])
      && Squares(CellMeans(moved), GroupMean(moved)) == Scaled(Square(a), Squares(CellMeans(last), GroupMean(last)))
      && WithinCells(moved) == Scaled(Square(a), WithinCells(last))
  {
    hide Square, Squares, Mean, GroupMean, CellMeans, WithinCells, Scaled, Moving;
    AffineGroupMean(last, a, c);
    AffineCellMeans(last, a, c);
    AffineSquares(CellMeans(last), GroupMean(last), a, c);
    AffineWithinCells(last, a, c);
  }

  lemma LastLevels(samples: Samples)
    requires samples != [] && Full(samples)
    ensures var front, last := samples[..|samples| - 1], samples[|samples| - 1];
      && Full(front)
      && BetweenProcesses(samples) == BetweenProcesses(front) + Squares(CellMeans(last), GroupMean(last))
      && WithinProcesses(samples) == WithinProcesses(front) + WithinCells(last)
  {
    hide Squares, CellMeans, GroupMean, WithinCells;
    var front := samples[..|samples| - 1];
    assert forall i | 0 <= i < |front| :: front[i] == samples[i];
  }

  lemma AffineFull(samples: Samples, a: real, c: real)
    requires Full(samples)
    ensures Full(AffineSamples(samples, a, c))
  {
  }

  lemma NoLevels(k: real)
    ensures BetweenProcesses([]) == Scaled(k, BetweenProcesses([]))
    ensures WithinProcesses([]) == Scaled(k, WithinProcesses([]))
  {
  }

  lemma {:induction false} AffineLevels(samples: Samples, a: real, c: real)
    requires Full(samples)
    ensures Full(AffineSamples(samples, a, c))
    ensures BetweenProcesses(AffineSamples(samples, a, c)) == Scaled(Square(a), BetweenProcesses(samples))
    ensures WithinProcesses(AffineSamples(samples, a, c)) == Scaled(Square(a), WithinProcesses(samples))
  {
    hide Square, Squares, Mean, GroupMean, CellMeans, WithinCells, Scaled, Moving, BetweenProcesses, WithinProcesses;
    AffineFull(samples, a, c);
    if samples == [] {
      NoLevels(Square(a));
      assert AffineSamples(samples, a, c) == [];
    } else {
      var front, last := samples[..|samples| - 1], samples[|samples| - 1];
      var moved := AffineSamples(samples, a, c);
      LastLevels(samples);
      LastLevels(moved);
      assert moved[..|moved| - 1] == AffineSamples(front, a, c);
      AffineLevels(front, a, c);
      AffineBuild(last, a, c);
      ScaledAdds(Square(a), BetweenProcesses(front), Squares(CellMeans(last), GroupMean(last)));
      ScaledAdds(Square(a), WithinProcesses(front), WithinCells(last));
    }
  }

  function Times(k: real, c: Components): Components {
    Components(Scaled(k, c.build), Scaled(k, c.process), Scaled(k, c.iteration))
  }

  lemma DivScales(k: real, x: real, n: real)
    requires n != 0.0
    ensures Scaled(k, x) / n == Scaled(k, x / n)
  {
    assert (x / n) * n == x;
    assert (k * (x / n)) * n == k * ((x / n) * n);
  }

  lemma MaxScales(k: real, x: real)
    requires k >= 0.0
    ensures Max(Scaled(k, x), 0.0) == Scaled(k, Max(x, 0.0))
  {
  }

  /** One component: the difference of two mean squares per unit. */
  function Component(upper: real, lower: real, n: real): real
    requires n > 0.0
  {
    Max((upper - lower) / n, 0.0)
  }

  lemma ComponentScales(k: real, upper: real, lower: real, n: real)
    requires k >= 0.0 && n > 0.0
    ensures Component(Scaled(k, upper), Scaled(k, lower), n) == Scaled(k, Component(upper, lower, n))
  {
    assert Scaled(k, upper) - Scaled(k, lower) == Scaled(k, upper - lower);
    DivScales(k, upper - lower, n);
    MaxScales(k, (upper - lower) / n);
  }

  lemma FromSumsScales(k: real, build: real, process: real, iteration: real, n1: real, n2: real, n3: real)
    requires k >= 0.0 && n1 > 1.0 && n2 > 1.0 && n3 > 1.0
    ensures FromSums(Scaled(k, build), Scaled(k, process), Scaled(k, iteration), n1, n2, n3)
         == Times(k, FromSums(build, process, iteration, n1, n2, n3))
  {
    Divisors(n1, n2, n3);
    hide Scaled, Max, Product;
    var d1, d2, d3 := n1 - 1.0, Product(n1, n2 - 1.0), Product(Product(n1, n2), n3 - 1.0);
    DivScales(k, build, d1);
    DivScales(k, process, d2);
    DivScales(k, iteration, d3);
    ComponentScales(k, build / d1, process / d2, Product(n2, n3));
    ComponentScales(k, process / d2, iteration / d3, n3);
    MaxScales(k, iteration / d3);
  }

  /** Shifting every sample changes no component, and scaling every sample by a factor multiplies each
      by its square. */
  lemma ComponentsAffine(samples: Samples, a: real, c: real)
    requires Balanced(samples)
    ensures Balanced(AffineSamples(samples, a, c))
    ensures ComponentsOf(AffineSamples(samples, a, c)) == Times(Square(a), ComponentsOf(samples))
  {
    hide Square, Squares, BetweenProcesses, WithinProcesses, GroupMeans, FromSums, Mean, All;
    var moved := AffineSamples(samples, a, c);
    assert Balanced(moved) by {
      forall i | 0 <= i < |moved| ensures Rectangular(moved[i], |moved[0]|, |moved[0][0]|) {
        assert Rectangular(samples[i], |samples[0]|, |samples[0][0]|);
      }
    }
    BalancedIsFull(samples);
    BalancedIsFull(moved);
    AffineLevels(samples, a, c);
    AffineGroupMeans(samples, a, c);
    AffineGrand(samples, a, c);
    AffineSquares(GroupMeans(samples), Grand(samples), a, c);
    SquareNonNegative(a);
    ScaledSums(Square(a), samples, moved);
  }

  lemma SquareNonNegative(a: real)
    ensures Square(a) >= 0.0 && (a != 0.0 ==> Square(a) > 0.0)
  {
    if a > 0.0 {
      Positive(a, a);
    } else if a < 0.0 {
      Positive(-a, -a);
      assert Square(a) == Product(-a, -a);
    }
  }

  lemma AffineGrand(samples: Samples, a: real, c: real)
    requires Balanced(samples) && Balanced(AffineSamples(samples, a, c))
    ensures Grand(AffineSamples(samples, a, c)) == Moving(Grand(samples), a, c)
  {
    BalancedIsFull(samples);
    AffineFlattenGroups(samples, a, c);
    AffineFlatten(Flatten(samples), a, c);
    AffineMean(All(samples), a, c);
  }

  lemma ScaledSums(k: real, samples: Samples, moved: Samples)
    requires Balanced(samples) && Balanced(moved) && k >= 0.0
    requires |moved| == |samples| && |moved[0]| == |samples[0]| && |moved[0][0]| == |samples[0][0]|
    requires Full(samples) && Full(moved)
    requires BetweenProcesses(moved) == Scaled(k, BetweenProcesses(samples))
    requires WithinProcesses(moved) == Scaled(k, WithinProcesses(samples))
    requires Squares(GroupMeans(moved), Grand(moved)) == Scaled(k, Squares(GroupMeans(samples), Grand(samples)))
    ensures ComponentsOf(moved) == Times(k, ComponentsOf(samples))
  {
    hide Squares, BetweenProcesses, WithinProcesses, GroupMeans, FromSums, Grand, Scaled, Product, Times;
    var n2, n3 := |samples[0]| as real, |samples[0][0]| as real;
    var (build, process, iteration) := SumsOfSquares(samples);
    ScaledProduct(Product(n2, n3), k, Squares(GroupMeans(samples), Grand(samples)));
    ScaledProduct(n3, k, BetweenProcesses(samples));
    FromSumsScales(k, build, process, iteration, |samples| as real, n2, n3);
  }

  lemma ScaledProduct(n: real, k: real, x: real)
    ensures Product(n, Scaled(k, x)) == Scaled(k, Product(n, x))
  {
  }

  // Which level to repeat, and how often

  function At(c: Components, level: Level): real {
    match level
    case Build => c.build
    case Process => c.process
    case Iteration => c.iteration
  }

  function Cost(level: Level): nat {
    match level
    case Build => 2
    case Process => 1
    case Iteration => 0
  }

  function Dominant(c: Components): Level {
    if c.build > c.process && c.build > c.iteration then Build
    else if c.process > c.iteration then Process
    else Iteration
  }

  /** The dominant level is the one level that no other exceeds and that every cheaper one falls short
      of: the largest, with ties to the cheaper. */
  lemma DominantExact(c: Components, level: Level)
    ensures level == Dominant(c) <==>
      && (forall other :: At(c, other) <= At(c, level))
      && (forall other | Cost(other) < Cost(level) :: At(c, other) < At(c, level))
    ensures (Dominant(c) == Build <==> c.build > c.process && c.build > c.iteration)
      && (Dominant(c) == Iteration <==> c.iteration >= c.build && c.iteration >= c.process)
  {
    var d := Dominant(c);
    assert At(c, Build) <= At(c, d) && At(c, Process) <= At(c, d) && At(c, Iteration) <= At(c, d);
    if level != d {
      assert Cost(d) < Cost(level) || Cost(level) < Cost(d);
    }
  }

  /** So neither a shift nor a change of unit moves the dominant level. */
  lemma DominantAffine(samples: Samples, a: real, c: real)
    requires Balanced(samples) && a != 0.0
    ensures Balanced(AffineSamples(samples, a, c))
    ensures Dominant(ComponentsOf(AffineSamples(samples, a, c))) == Dominant(ComponentsOf(samples))
  {
    hide ComponentsOf;
    ComponentsAffine(samples, a, c);
    var k, x := Square(a), ComponentsOf(samples);
    SquareNonNegative(a);
    KeepsOrder(k, x.build, x.process);
    KeepsOrder(k, x.build, x.iteration);
    KeepsOrder(k, x.process, x.iteration);
  }

  lemma KeepsOrder(k: real, x: real, y: real)
    requires k > 0.0
    ensures Scaled(k, x) > Scaled(k, y) <==> x > y
  {
    if x > y { assert k * (x - y) > 0.0; } else { assert k * (y - x) >= 0.0; }
  }

  datatype Plan = Plan(builds: nat, processes: nat, iterations: nat)

  const SETTLED: nat := 2

  function PlanFor(budget: nat, dominant: Level): Plan {
    var least := if budget < SETTLED * SETTLED * SETTLED then SETTLED * SETTLED * SETTLED else budget;
    var rest := if least / (SETTLED * SETTLED) < SETTLED then SETTLED else least / (SETTLED * SETTLED);
    match dominant
    case Iteration => Plan(SETTLED, SETTLED, rest)
    case Process => Plan(SETTLED, rest, SETTLED)
    case Build => Plan(rest, SETTLED, SETTLED)
  }

  function Repetitions(p: Plan, level: Level): nat {
    match level
    case Build => p.builds
    case Process => p.processes
    case Iteration => p.iterations
  }

  /** The plan spends the budget to within one unit of the dominant level, never more than it, and at
      least the pilot's eight; the other two levels stay settled. */
  lemma PlanSpendsBudget(budget: nat, dominant: Level)
    ensures var p := PlanFor(budget, dominant);
      var total := p.builds * p.processes * p.iterations;
      && 8 <= total && (budget >= 8 ==> budget - 4 < total <= budget)
      && (forall level | level != dominant :: Repetitions(p, level) == SETTLED)
      && (forall level :: Repetitions(p, level) <= Repetitions(p, dominant))
      && (dominant != Build ==> p.builds == 2) && (dominant != Process ==> p.processes == 2)
      && (dominant != Iteration ==> p.iterations == 2)
  {
    var p := PlanFor(budget, dominant);
    var rest := Repetitions(p, dominant);
    assert p.builds * p.processes * p.iterations == 4 * rest;
  }
}
