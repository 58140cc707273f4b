/** One run next to the published numbers, and the machine factor its drivers share. */
module Leaderboard {
  import opened Wrappers
  import opened Reals
  import Session
  import opened Protocol
  import opened Sorting
  import opened Text
  import opened Means

  datatype Reference = DuckDb | DataFusion

  datatype Column = ColdColumn | HotColumn

  /** A published result: each query's runs in seconds, in query order, where upstream has them. */
  datatype Published = Published(system: string, machine: string, result: seq<seq<Option<real>>>)

  /** A number that can be divided by and has a logarithm. */
  type Usable = x: real | x > 0.0 witness 1.0

  /** A comparable query: what it took here and upstream, in seconds. */
  datatype Pair = Pair(id: string, ours: Usable, theirs: Usable)

  datatype Point = Point(id: string, ours: Usable, theirs: Usable, relative: real)

  datatype Standing = Standing(driver: string, reference: Reference, system: string, machine: string, column: Column,
                               points: seq<Point>, skipped: seq<string>, ours: Usable, theirs: Usable, ratio: Usable)

  datatype Calibration = Calibration(column: Column, standings: seq<Standing>, unmatched: seq<string>, machine: Usable)

  const BAND: real := 0.25
  const SECOND: real := 1000000000.0

  // Which published number a query is put next to

  function ReferenceOf(driver: string): Option<Reference> {
    if driver == "duckdb" then Some(DuckDb) else if driver == "datafusion" then Some(DataFusion) else None
  }

  /** The position an id such as q23 names.  One plus sign and leading zeros are accepted, as the
      integer parser takes them; a number too large for a position is refused. */
  function Index(id: string): Option<nat> {
    if id == "" || id[0] != 'q' then None
    else
      var digits := if |id| > 1 && id[1] == '+' then id[2..] else id[1..];
      if digits == "" || !Digits(digits) || ReadNatural(digits) >= 0x1_0000_0000_0000_0000 then None
      else Some(ReadNatural(digits))
  }

  lemma IndexReadsBack(n: nat)
    requires n < 0x1_0000_0000_0000_0000
    ensures Index("q" + Natural(n)) == Some(n)
  {
    NaturalRead(n);
    assert ("q" + Natural(n))[1..] == Natural(n);
  }

  /** One q, perhaps a plus sign, and some digits. */
  predicate Names(id: string, sign: string, digits: string) {
    id == "q" + sign + digits && (sign == "" || sign == "+") && digits != "" && Digits(digits)
  }

  /** An id names the position its digits spell, when that is a position at all. */
  lemma IndexExactly(id: string, n: nat)
    ensures Index(id) == Some(n) <==>
      n < 0x1_0000_0000_0000_0000 && exists sign, digits :: Names(id, sign, digits) && ReadNatural(digits) == n
  {
    hide ReadNatural;
    if Index(id).Some? {
      var sign, digits := if |id| > 1 && id[1] == '+' then "+" else "", if |id| > 1 && id[1] == '+' then id[2..] else id[1..];
      assert id == "q" + sign + digits;
      assert Names(id, sign, digits);
    }
    forall sign, digits | Names(id, sign, digits) && ReadNatural(digits) == n && n < 0x1_0000_0000_0000_0000
      ensures Index(id) == Some(n)
    {
      NamesIndex(id, sign, digits);
    }
  }

  lemma NamesIndex(id: string, sign: string, digits: string)
    requires Names(id, sign, digits) && ReadNatural(digits) < 0x1_0000_0000_0000_0000
    ensures Index(id) == Some(ReadNatural(digits))
  {
    hide ReadNatural;
    if sign == "+" {
      assert id[1] == '+' && id[2..] == digits;
    } else {
      assert id[1] == digits[0] && id[1..] == digits;
    }
  }

  function LeastPresent(times: seq<Option<real>>): Option<real> {
    if times == [] then None
    else
      var rest, last := LeastPresent(times[..|times| - 1]), times[|times| - 1];
      if last.None? then rest
      else if rest.None? || last.value < rest.value then last
      else rest
  }

  function Theirs(p: Published, column: Column, id: string): Option<real> {
    match Index(id)
    case None => None
    case Some(at) =>
      if at >= |p.result| || p.result[at] == [] then None
      else if column == ColdColumn then p.result[at][0]
      else LeastPresent(p.result[at][1..])
  }

  /** The published hot time is a least one of the runs after the first that upstream has. */
  lemma {:induction false} LeastPresentIsLeast(times: seq<Option<real>>)
    ensures LeastPresent(times).None? <==> forall i | 0 <= i < |times| :: times[i].None?
    ensures LeastPresent(times).Some? ==> LeastPresent(times) in times
    ensures forall i | 0 <= i < |times| && times[i].Some? ::
      LeastPresent(times).Some? && LeastPresent(times).value <= times[i].value
  {
    if times != [] {
      LeastPresentIsLeast(times[..|times| - 1]);
    }
  }

  function Ours(m: Measured, column: Column): Option<real> {
    var taken := if column == ColdColumn then ColdTime(m) else HotTime(m);
    match taken
    case None => None
    case Some(nanoseconds) => Some(nanoseconds / SECOND)
  }

  /** The pair a query contributes: both numbers there and both above zero. */
  function PairOf(m: Measured, p: Published, column: Column): Option<Pair> {
    match (Ours(m, column), Theirs(p, column, m.id))
    case (Some(ours), Some(theirs)) =>
      if ours > 0.0 && theirs > 0.0 then Some(Pair(m.id, ours, theirs)) else None
    case _ => None
  }

  /** A time here by its column: the first run's, or the least of the later ones. */
  predicate TimeIs(m: Measured, column: Column, nanoseconds: real) {
    m.outcome.Answered? &&
    var runs := m.outcome.runs;
    match column
    case ColdColumn => runs != [] && runs[0].nanoseconds == nanoseconds
    case HotColumn =>
      && (exists k :: 1 <= k < |runs| && runs[k].nanoseconds == nanoseconds)
      && forall k | 1 <= k < |runs| :: nanoseconds <= runs[k].nanoseconds
  }

  /** And a published one: the first run's, or the least of those of the later ones that are there. */
  predicate UpstreamIs(runs: seq<Option<real>>, column: Column, seconds: real) {
    match column
    case ColdColumn => runs != [] && runs[0] == Some(seconds)
    case HotColumn =>
      && (exists k :: 1 <= k < |runs| && runs[k] == Some(seconds))
      && forall k | 1 <= k < |runs| && runs[k].Some? :: seconds <= runs[k].value
  }

  lemma OursExactly(m: Measured, column: Column, seconds: real)
    ensures Ours(m, column) == Some(seconds) <==> TimeIs(m, column, seconds * 1000000000.0)
  {
    hide Least;
    if m.outcome.Answered? {
      var runs := m.outcome.runs;
      if |runs| > 1 {
        LeastIsLeast(runs[1..]);
        assert forall k | 1 <= k < |runs| :: runs[k] == runs[1..][k - 1];
        assert forall k | 0 <= k < |runs| - 1 :: runs[1..][k] == runs[k + 1];
      }
    }
  }

  lemma TheirsExactly(p: Published, column: Column, id: string, seconds: real)
    ensures Theirs(p, column, id) == Some(seconds) <==>
      Index(id).Some? && Index(id).value < |p.result| && UpstreamIs(p.result[Index(id).value], column, seconds)
  {
    hide Index, LeastPresent;
    if Index(id).Some? && Index(id).value < |p.result| && p.result[Index(id).value] != [] {
      var runs := p.result[Index(id).value];
      LeastPresentIsLeast(runs[1..]);
      assert forall k | 1 <= k < |runs| :: runs[k] == runs[1..][k - 1];
      assert forall k | 0 <= k < |runs| - 1 :: runs[1..][k] == runs[k + 1];
    }
  }

  /** A query is put next to upstream's under its own id with its own column's time, and upstream's at the
      position the id names, exactly when both are above zero. */
  lemma PairExactly(m: Measured, p: Published, column: Column, pair: Pair)
    ensures PairOf(m, p, column) == Some(pair) <==>
      && pair.id == m.id && TimeIs(m, column, pair.ours * 1000000000.0)
      && Index(m.id).Some? && Index(m.id).value < |p.result|
      && UpstreamIs(p.result[Index(m.id).value], column, pair.theirs)
  {
    hide Ours, Theirs, Index, TimeIs, UpstreamIs;
    OursExactly(m, column, pair.ours);
    TheirsExactly(p, column, m.id, pair.theirs);
  }

  lemma {:induction false} PairsAreOfQueries(queries: seq<Measured>, p: Published, column: Column)
    ensures forall pair :: pair in Pairs(queries, p, column) <==>
      exists i :: 0 <= i < |queries| && PairOf(queries[i], p, column) == Some(pair)
  {
    hide PairOf;
    if queries != [] {
      var n := |queries| - 1;
      PairsAreOfQueries(queries[..n], p, column);
      assert forall i | 0 <= i < n :: queries[..n][i] == queries[i];
    }
  }

  function Pairs(queries: seq<Measured>, p: Published, column: Column): seq<Pair> {
    if queries == [] then []
    else
      var front, last := queries[..|queries| - 1], PairOf(queries[|queries| - 1], p, column);
      Pairs(front, p, column) + (if last.Some? then [last.value] else [])
  }

  function Skipped(queries: seq<Measured>, p: Published, column: Column): seq<string> {
    if queries == [] then []
    else
      var m := queries[|queries| - 1];
      Skipped(queries[..|queries| - 1], p, column) + (if PairOf(m, p, column).None? then [m.id] else [])
  }

  // One driver's standing

  function OursOf(pairs: seq<Pair>): (xs: seq<real>)
    ensures AllPositive(xs)
  {
    Map((pair: Pair) => pair.ours, pairs)
  }

  function TheirsOf(pairs: seq<Pair>): (xs: seq<real>)
    ensures AllPositive(xs)
  {
    Map((pair: Pair) => pair.theirs, pairs)
  }

  /** Worst first. */
  predicate Worse(a: Point, b: Point) {
    a.relative >= b.relative
  }

  lemma WorseIsPreorder()
    ensures Preorder(Worse)
  {
  }

  function PointAt(pair: Pair, ratio: Usable): Point {
    Point(pair.id, pair.ours, pair.theirs, (pair.ours / pair.theirs) / ratio)
  }

  function PointsOf(pairs: seq<Pair>, ratio: Usable): seq<Point> {
    Map((pair: Pair) => PointAt(pair, ratio), pairs)
  }

  function Mean(l: Logs, xs: seq<real>): (g: Usable)
    requires Lawful(l) && xs != [] && AllPositive(xs)
    ensures Geomean(l, xs) == Some(g)
  {
    GeomeanIsRoot(l, xs);
    Geomean(l, xs).value
  }

  function Over(x: Usable, y: Usable): (q: Usable) {
    Quotient(x, y);
    Positive(y, x / y);
    x / y
  }

  /** Nothing when no query was comparable. */
  function Stand(l: Logs, report: Report, reference: Reference, p: Published, column: Column): Option<Standing>
    requires Lawful(l)
  {
    var pairs := Pairs(report.queries, p, column);
    if pairs == [] then None
    else
      var ours, theirs := Mean(l, OursOf(pairs)), Mean(l, TheirsOf(pairs));
      var ratio := Over(ours, theirs);
      Some(Standing(report.driver, reference, p.system, p.machine, column, Sort(Worse, PointsOf(pairs, ratio)),
                    Skipped(report.queries, p, column), ours, theirs, ratio))
  }

  method MatchQueries(queries: seq<Measured>, p: Published, column: Column)
    returns (pairs: seq<Pair>, skipped: seq<string>)
    ensures pairs == Pairs(queries, p, column) && skipped == Skipped(queries, p, column)
  {
    hide Ours, Theirs, Index;
    pairs, skipped := [], [];
    var at := 0;
    while at < |queries|
      invariant at <= |queries|
      invariant pairs == Pairs(queries[..at], p, column) && skipped == Skipped(queries[..at], p, column)
    {
      var query := queries[at];
      assert queries[..at + 1][..at] == queries[..at];
      var ours, theirs := Ours(query, column), Theirs(p, column, query.id);
      if ours.Some? && theirs.Some? && ours.value > 0.0 && theirs.value > 0.0 {
        pairs := pairs + [Pair(query.id, ours.value, theirs.value)];
      } else {
        skipped := skipped + [query.id];
      }
      at := at + 1;
    }
    assert queries[..at] == queries;
  }

  method NewStanding(l: Logs, report: Report, reference: Reference, p: Published, column: Column)
    returns (standing: Option<Standing>)
    requires Lawful(l)
    ensures standing == Stand(l, report, reference, p, column)
  {
    hide Lawful, Pairs, Skipped, Sort, PointsOf, LogSum;
    var pairs, skipped := MatchQueries(report.queries, p, column);
    var ours := GeomeanOf(l, OursOf(pairs));
    var theirs := GeomeanOf(l, TheirsOf(pairs));
    if ours.None? || theirs.None? {
      return None;
    }
    assert ours.value == Mean(l, OursOf(pairs)) && theirs.value == Mean(l, TheirsOf(pairs));
    var ratio := Over(ours.value, theirs.value);
    return Some(Standing(report.driver, reference, p.system, p.machine, column, Sort(Worse, PointsOf(pairs, ratio)),
                         skipped, ours.value, theirs.value, ratio));
  }

  /** A standing is there exactly when some query was comparable; it has one point per comparable query,
      worst first, and the geometric mean of how far the queries are from upstream, relative to the
      driver as a whole, is one. */
  lemma StandingBalances(l: Logs, report: Report, reference: Reference, p: Published, column: Column)
    requires Lawful(l)
    ensures var standing := Stand(l, report, reference, p, column);
      var pairs := Pairs(report.queries, p, column);
      && (standing.Some? <==> exists i :: 0 <= i < |report.queries| && PairOf(report.queries[i], p, column).Some?)
      && (standing.Some? ==>
        && SortedBy(Worse, standing.value.points)
        && multiset(standing.value.points) == multiset(PointsOf(pairs, standing.value.ratio))
        && Product(RelativesOf(standing.value.points)) == 1.0)
  {
    hide Lawful, PointsOf, Mean, Over;
    var pairs := Pairs(report.queries, p, column);
    SomePair(report.queries, p, column);
    if pairs != [] {
      var ours, theirs := Mean(l, OursOf(pairs)), Mean(l, TheirsOf(pairs));
      var ratio := Over(ours, theirs);
      WorseIsPreorder();
      SortSorts(Worse, PointsOf(pairs, ratio));
      PointsBalance(l, pairs);
      MapMultiset((point: Point) => point.relative, Sort(Worse, PointsOf(pairs, ratio)), PointsOf(pairs, ratio));
      ProductPermute(RelativesOf(Sort(Worse, PointsOf(pairs, ratio))), RelativesOf(PointsOf(pairs, ratio)));
    }
  }

  /** What a standing says of the driver: whose it is and against what, its two means as roots of the
      products, and their ratio. */
  lemma StandingMeans(l: Logs, report: Report, reference: Reference, p: Published, column: Column)
    requires Lawful(l)
    ensures var found, pairs := Stand(l, report, reference, p, column), Pairs(report.queries, p, column);
      found.Some? ==>
        var s := found.value;
        && s.driver == report.driver && s.reference == reference && s.column == column
        && s.system == p.system && s.machine == p.machine
        && Power(s.ours, |pairs|) == Product(OursOf(pairs)) && Power(s.theirs, |pairs|) == Product(TheirsOf(pairs))
        && s.ratio * s.theirs == s.ours
  {
    hide Lawful, Mean, Over, Power, Product, Sort, PointsOf, OursOf, TheirsOf, Skipped, Pairs, Times;
    var pairs := Pairs(report.queries, p, column);
    SameCount(pairs);
    if pairs != [] {
      assert OursOf(pairs) != [] && TheirsOf(pairs) != [];
      GeomeanIsRoot(l, OursOf(pairs));
      GeomeanIsRoot(l, TheirsOf(pairs));
      OverMultiplies(Mean(l, OursOf(pairs)), Mean(l, TheirsOf(pairs)));
    }
  }

  lemma OverMultiplies(x: Usable, y: Usable)
    ensures Over(x, y) * y == x
  {
    OverTimes(x, y);
  }

  /** And of the queries: a point for each comparable one, its share of the ratio, the largest first. */
  lemma StandingPoints(l: Logs, report: Report, reference: Reference, p: Published, column: Column)
    requires Lawful(l)
    ensures var found, pairs := Stand(l, report, reference, p, column), Pairs(report.queries, p, column);
      found.Some? ==>
        var points, ratio := found.value.points, found.value.ratio;
        && |points| == |pairs|
        && (forall pair :: pair in pairs <==> exists point :: point in points && PointOf(point, pair))
        && (forall point | point in points :: point.relative * ratio * point.theirs == point.ours)
        && (forall i, j | 0 <= i < j < |points| :: points[i].relative >= points[j].relative)
  {
    hide Lawful, Mean, Over, Sort, PointsOf, OursOf, TheirsOf, Skipped, Pairs, PointOf;
    var pairs := Pairs(report.queries, p, column);
    SameCount(pairs);
    if pairs != [] {
      assert OursOf(pairs) != [] && TheirsOf(pairs) != [];
      var ratio := Over(Mean(l, OursOf(pairs)), Mean(l, TheirsOf(pairs)));
      PointsAre(pairs, ratio, Sort(Worse, PointsOf(pairs, ratio)));
      WorseIsPreorder();
      SortSorts(Worse, PointsOf(pairs, ratio));
    }
  }

  predicate PointOf(point: Point, pair: Pair) {
    point.id == pair.id && point.ours == pair.ours && point.theirs == pair.theirs
  }

  lemma SameCount(pairs: seq<Pair>)
    ensures |OursOf(pairs)| == |pairs| == |TheirsOf(pairs)|
  {
  }

  lemma PointsAre(pairs: seq<Pair>, ratio: Usable, points: seq<Point>)
    requires multiset(points) == multiset(PointsOf(pairs, ratio))
    ensures |points| == |pairs|
    ensures forall pair :: pair in pairs <==> exists point :: point in points && PointOf(point, pair)
    ensures forall point | point in points :: point.relative * ratio * point.theirs == point.ours
  {
    hide PointAt;
    var plain := PointsOf(pairs, ratio);
    assert |points| == |multiset(points)| == |multiset(plain)| == |plain|;
    forall point ensures point in points <==> point in plain {
      assert point in points <==> point in multiset(points);
      assert point in plain <==> point in multiset(plain);
    }
    forall i | 0 <= i < |pairs| ensures PointOf(plain[i], pairs[i]) && plain[i].relative * ratio * plain[i].theirs == plain[i].ours {
      PointShares(pairs[i], ratio);
    }
    forall pair | pair in pairs ensures exists point :: point in points && PointOf(point, pair) {
      var i :| 0 <= i < |pairs| && pairs[i] == pair;
      assert plain[i] in plain;
    }
    forall pair, point | point in points && PointOf(point, pair) ensures pair in pairs {
      var i :| 0 <= i < |plain| && plain[i] == point;
      assert pair == pairs[i];
    }
  }

  lemma PointShares(pair: Pair, ratio: Usable)
    ensures var point := PointAt(pair, ratio);
      PointOf(point, pair) && point.relative * ratio * point.theirs == point.ours
  {
    var q := pair.ours / pair.theirs;
    assert (q / ratio) * ratio == q;
    assert q * pair.theirs == pair.ours;
  }

  lemma {:induction false} SomePair(queries: seq<Measured>, p: Published, column: Column)
    ensures Pairs(queries, p, column) != [] <==>
      exists i :: 0 <= i < |queries| && PairOf(queries[i], p, column).Some?
  {
    hide PairOf;
    if queries != [] {
      var n := |queries| - 1;
      SomePair(queries[..n], p, column);
      assert forall i | 0 <= i < n :: queries[..n][i] == queries[i];
      assert Pairs(queries, p, column) != [] <==> Pairs(queries[..n], p, column) != [] || PairOf(queries[n], p, column).Some?;
    }
  }

  function IdsOf(pairs: seq<Pair>): seq<string> {
    Map((pair: Pair) => pair.id, pairs)
  }

  /** Every query is matched or skipped, once. */
  lemma {:induction false} MatchedOrSkipped(queries: seq<Measured>, p: Published, column: Column)
    ensures multiset(IdsOf(Pairs(queries, p, column))) + multiset(Skipped(queries, p, column))
         == multiset(QueryIds(queries))
  {
    hide PairOf, IdsOf, QueryIds;
    if queries == [] {
      NoneMatched(p, column);
    } else {
      var front, last := queries[..|queries| - 1], queries[|queries| - 1];
      MatchedOrSkipped(front, p, column);
      assert queries == front + [last];
      var pair := PairOf(last, p, column);
      MatchedStep(front, last, p, column);
      SplitGrows(IdsOf(Pairs(front, p, column)), Skipped(front, p, column), QueryIds(front),
                 if pair.Some? then [last.id] else [], if pair.Some? then [] else [last.id], last.id);
    }
  }

  function QueryIds(queries: seq<Measured>): seq<string> {
    Map((m: Measured) => m.id, queries)
  }

  lemma NoneMatched(p: Published, column: Column)
    ensures IdsOf(Pairs([], p, column)) == Skipped([], p, column) == QueryIds([]) == []
  {
  }

  lemma MatchedStep(front: seq<Measured>, last: Measured, p: Published, column: Column)
    ensures QueryIds(front + [last]) == QueryIds(front) + [last.id]
    ensures var pair, pairs := PairOf(last, p, column), Pairs(front, p, column);
      IdsOf(pairs + (if pair.Some? then [pair.value] else [])) == IdsOf(pairs) + (if pair.Some? then [last.id] else [])
  {
    hide Map, Ours, Theirs;
    MapOne((m: Measured) => m.id, front, last);
    var pair := PairOf(last, p, column);
    MapOne((pair: Pair) => pair.id, Pairs(front, p, column), if pair.Some? then pair.value else Pair("", 1.0, 1.0));
  }

  function RelativesOf(points: seq<Point>): seq<real> {
    Map((point: Point) => point.relative, points)
  }

  lemma RelativeFactors(o: real, t: real, r: real)
    requires t > 0.0 && r > 0.0
    ensures o == Times(r, Times(t, (o / t) / r))
  {
    hide Times;
    var q := o / t;
    Quotient(o, t);
    Quotient(q, r);
    Commutative(r, q / r);
    Associative(t, q / r, r);
    Commutative(Times(t, q / r), r);
  }

  lemma PointsBalance(l: Logs, pairs: seq<Pair>)
    requires Lawful(l) && pairs != []
    ensures Product(RelativesOf(PointsOf(pairs, Over(Mean(l, OursOf(pairs)), Mean(l, TheirsOf(pairs)))))) == 1.0
  {
    hide Lawful, Times, Product, Power, Mean, Over;
    var ours, theirs := OursOf(pairs), TheirsOf(pairs);
    var g, h, n := Mean(l, ours), Mean(l, theirs), |pairs|;
    var ratio := Over(g, h);
    var relatives := RelativesOf(PointsOf(pairs, ratio));
    var zs := seq(n, i requires 0 <= i < n => Times(theirs[i], relatives[i]));
    forall i | 0 <= i < n ensures ours[i] == Times(ratio, zs[i]) {
      RelativeFactors(ours[i], theirs[i], ratio);
    }
    ProductZips(theirs, relatives, zs);
    ProductScales(zs, ratio, ours);
    GeomeanIsRoot(l, ours);
    GeomeanIsRoot(l, theirs);
    OverTimes(g, h);
    PowerScales(ratio, h, n);
    ProductPositive(theirs);
    PowerPositive(ratio, n);
    Unit(Product(theirs));
    Cancel(Power(ratio, n), Times(Product(theirs), Product(relatives)), Product(theirs));
    Cancel(Product(theirs), Product(relatives), 1.0);
  }

  lemma OverTimes(x: Usable, y: Usable)
    ensures Times(Over(x, y), y) == x
  {
    hide Times;
    Quotient(x, y);
    Commutative(Over(x, y), y);
  }

  // What moves a standing

  function Slower(pair: Pair, c: Usable): Pair {
    pair.(ours := Grown(c, pair.ours))
  }

  function Grown(c: Usable, x: Usable): (y: Usable)
    ensures y == Times(c, x)
  {
    Positive(c, x);
    Times(c, x)
  }

  function SlowerPairs(pairs: seq<Pair>, c: Usable): seq<Pair> {
    Map((pair: Pair) => Slower(pair, c), pairs)
  }

  function SlowerPoints(points: seq<Point>, c: Usable): seq<Point> {
    Map((point: Point) => point.(ours := Grown(c, point.ours)), points)
  }

  /** Two reports that match the same queries in some order, each taking c times as long in the second.
      What they do not match with is free to differ. */
  ghost predicate SameUpToScale(a: Report, b: Report, p: Published, column: Column, c: Usable) {
    && a.driver == b.driver
    && multiset(Pairs(b.queries, p, column)) == multiset(SlowerPairs(Pairs(a.queries, p, column), c))
  }

  lemma MeansScale(l: Logs, a: seq<Pair>, b: seq<Pair>, c: Usable)
    requires Lawful(l) && multiset(b) == multiset(SlowerPairs(a, c)) && a != [] && b != []
    ensures Mean(l, OursOf(b)) == Times(c, Mean(l, OursOf(a)))
    ensures Mean(l, TheirsOf(b)) == Mean(l, TheirsOf(a))
  {
    hide Lawful, Times, Geomean;
    var slower := SlowerPairs(a, c);
    MapMultiset((pair: Pair) => pair.ours, b, slower);
    MapMultiset((pair: Pair) => pair.theirs, b, slower);
    GeomeanPermutes(l, OursOf(b), OursOf(slower));
    GeomeanPermutes(l, TheirsOf(b), TheirsOf(slower));
    assert OursOf(slower) == Scaled(OursOf(a), c);
    assert TheirsOf(slower) == TheirsOf(a);
    GeomeanScales(l, OursOf(a), c);
  }

  lemma OverScales(x: Usable, y: Usable, c: Usable)
    ensures Over(Grown(c, x), y) == Grown(c, Over(x, y))
  {
    hide Times;
    Quotient(x, y);
    Associative(c, y, x / y);
    Associative(y, c, x / y);
    Commutative(y, c);
    QuotientOnly(Times(c, x), y, Times(c, x / y));
  }

  lemma OverCommon(x: Usable, y: Usable, c: Usable)
    ensures Over(Grown(c, x), Grown(c, y)) == Over(x, y)
  {
    hide Times;
    Quotient(x, y);
    Associative(c, y, x / y);
    Positive(c, y);
    QuotientOnly(Times(c, x), Times(c, y), x / y);
  }

  lemma PointKept(pair: Pair, ratio: Usable, c: Usable)
    ensures PointAt(Slower(pair, c), Grown(c, ratio)) == PointAt(pair, ratio).(ours := Grown(c, pair.ours))
  {
    OverScales(pair.ours, pair.theirs, c);
    OverCommon(Over(pair.ours, pair.theirs), ratio, c);
  }

  lemma PointsScale(a: seq<Pair>, b: seq<Pair>, ratio: Usable, c: Usable)
    requires multiset(b) == multiset(SlowerPairs(a, c))
    ensures multiset(PointsOf(b, Grown(c, ratio))) == multiset(SlowerPoints(PointsOf(a, ratio), c))
  {
    hide Grown, PointAt, Slower;
    MapMultiset((pair: Pair) => PointAt(pair, Grown(c, ratio)), b, SlowerPairs(a, c));
    forall i | 0 <= i < |a|
      ensures PointsOf(SlowerPairs(a, c), Grown(c, ratio))[i] == SlowerPoints(PointsOf(a, ratio), c)[i]
    {
      PointKept(a[i], ratio, c);
      assert PointAt(a[i], ratio).ours == a[i].ours by { PointOurs(a[i], ratio); }
    }
    assert PointsOf(SlowerPairs(a, c), Grown(c, ratio)) == SlowerPoints(PointsOf(a, ratio), c);
  }

  lemma PointOurs(pair: Pair, ratio: Usable)
    ensures PointAt(pair, ratio).ours == pair.ours
  {
  }

  /** A standing depends on the matched queries alone and not on their order; on a machine c times
      slower its ratio is c times as large and every query's relative stays what it was. */
  lemma StandingScales(l: Logs, a: Report, b: Report, reference: Reference, p: Published, column: Column, c: Usable)
    requires Lawful(l) && SameUpToScale(a, b, p, column, c)
    ensures var s, t := Stand(l, a, reference, p, column), Stand(l, b, reference, p, column);
      && (s.Some? <==> t.Some?)
      && (s.Some? ==>
        && t.value.driver == s.value.driver
        && t.value.ratio == Grown(c, s.value.ratio)
        && multiset(t.value.points) == multiset(SlowerPoints(s.value.points, c)))
  {
    hide Lawful, Pairs, Skipped, Mean, Over, Grown, PointsOf, Slower;
    var x, y := Pairs(a.queries, p, column), Pairs(b.queries, p, column);
    assert |x| == |SlowerPairs(x, c)| == |multiset(SlowerPairs(x, c))| == |multiset(y)| == |y|;
    if x != [] {
      MeansScale(l, x, y, c);
      var ours, theirs := Mean(l, OursOf(x)), Mean(l, TheirsOf(x));
      OverScales(ours, theirs, c);
      GrownIs(c, ours);
      var ratio := Over(ours, theirs);
      PointsScale(x, y, ratio, c);
      MapMultiset((point: Point) => point.(ours := Grown(c, point.ours)), Sort(Worse, PointsOf(x, ratio)), PointsOf(x, ratio));
    }
  }

  lemma GrownIs(c: Usable, x: Usable)
    ensures Grown(c, x) == Times(c, x)
  {
  }

  // Slower machines and shuffled reports are such changes

  function SlowerRun(run: Run, c: Usable): Run {
    run.(nanoseconds := Times(c, run.nanoseconds))
  }

  function SlowerQuery(m: Measured, c: Usable): Measured {
    match m.outcome
    case Answered(runs) => m.(outcome := Answered(Map((run: Run) => SlowerRun(run, c), runs)))
    case _ => m
  }

  function SlowerReport(report: Report, c: Usable): Report {
    report.(queries := Map((m: Measured) => SlowerQuery(m, c), report.queries))
  }

  lemma OrderKept(c: Usable, x: real, y: real)
    ensures Times(c, x) < Times(c, y) <==> x < y
  {
    if x < y { MoreTimes(c, x, y); }
    if y < x { MoreTimes(c, y, x); }
  }

  lemma {:induction false} LeastScales(runs: seq<Run>, c: Usable)
    requires runs != []
    ensures Least(Map((run: Run) => SlowerRun(run, c), runs)) == Times(c, Least(runs))
  {
    hide Times;
    if |runs| > 1 {
      var n := |runs| - 1;
      LeastScales(runs[..n], c);
      var slower := Map((run: Run) => SlowerRun(run, c), runs);
      assert slower[..n] == Map((run: Run) => SlowerRun(run, c), runs[..n]);
      OrderKept(c, runs[n].nanoseconds, Least(runs[..n]));
    }
  }

  lemma OursScales(m: Measured, column: Column, c: Usable)
    ensures Ours(m, column).Some? <==> Ours(SlowerQuery(m, c), column).Some?
    ensures Ours(m, column).Some? ==> Ours(SlowerQuery(m, c), column).value == Times(c, Ours(m, column).value)
  {
    hide Times, Least;
    if m.outcome.Answered? {
      var runs := m.outcome.runs;
      var slower := Map((run: Run) => SlowerRun(run, c), runs);
      if |runs| > 0 {
        Seconds(runs[0].nanoseconds, c);
      }
      if |runs| > 1 {
        assert slower[1..] == Map((run: Run) => SlowerRun(run, c), runs[1..]);
        LeastScales(runs[1..], c);
        Seconds(Least(runs[1..]), c);
      }
    }
  }

  lemma Seconds(x: real, c: Usable)
    ensures Times(c, x) / SECOND == Times(c, x / SECOND)
  {
  }

  lemma PairScales(m: Measured, p: Published, column: Column, c: Usable)
    ensures PairOf(SlowerQuery(m, c), p, column)
      == match PairOf(m, p, column) case None => None case Some(pair) => Some(Slower(pair, c))
  {
    hide Times, Ours, Theirs;
    OursScales(m, column, c);
    if Ours(m, column).Some? { Positive(c, Ours(m, column).value); }
  }

  lemma {:induction false} PairsScale(queries: seq<Measured>, p: Published, column: Column, c: Usable)
    ensures Pairs(Map((m: Measured) => SlowerQuery(m, c), queries), p, column)
      == SlowerPairs(Pairs(queries, p, column), c)
  {
    hide PairOf, Slower, SlowerQuery;
    if queries != [] {
      var n := |queries| - 1;
      PairsScale(queries[..n], p, column, c);
      PairScales(queries[n], p, column, c);
      assert Map((m: Measured) => SlowerQuery(m, c), queries)[..n] == Map((m: Measured) => SlowerQuery(m, c), queries[..n]);
    }
  }

  lemma {:induction false} PairsConcat(x: seq<Measured>, y: seq<Measured>, p: Published, column: Column)
    ensures Pairs(x + y, p, column) == Pairs(x, p, column) + Pairs(y, p, column)
  {
    hide PairOf;
    if y == [] {
      assert x + y == x;
    } else {
      PairsConcat(x, y[..|y| - 1], p, column);
      assert (x + y)[..|x + y| - 1] == x + y[..|y| - 1];
    }
  }

  lemma {:induction false} PairsPermute(x: seq<Measured>, y: seq<Measured>, p: Published, column: Column)
    requires multiset(x) == multiset(y)
    ensures multiset(Pairs(x, p, column)) == multiset(Pairs(y, p, column))
  {
    hide Pairs;
    if x == [] {
      assert |multiset(y)| == 0;
      assert y == [];
    } else {
      var k := PullHead(x, y);
      PairsPermute(x[1..], y[..k] + y[k + 1..], p, column);
      PairsConcat([x[0]], x[1..], p, column);
      PairsConcat(y[..k] + [x[0]], y[k + 1..], p, column);
      PairsConcat(y[..k], [x[0]], p, column);
      PairsConcat(y[..k], y[k + 1..], p, column);
      assert x == [x[0]] + x[1..];
    }
  }

  /** A report whose queries are in another order and whose runs all took c times as long matches the
      same queries, c times slower. */
  lemma SlowerAndShuffled(a: Report, b: Report, p: Published, column: Column, c: Usable)
    requires a.driver == b.driver && multiset(b.queries) == multiset(SlowerReport(a, c).queries)
    ensures SameUpToScale(a, b, p, column, c)
  {
    PairsPermute(b.queries, SlowerReport(a, c).queries, p, column);
    PairsScale(a.queries, p, column, c);
  }

  // Every driver of a run

  function StandOf(l: Logs, published: Reference -> Published, report: Report, column: Column): Option<Standing>
    requires Lawful(l)
  {
    match ReferenceOf(report.driver)
    case None => None
    case Some(reference) => Stand(l, report, reference, published(reference), column)
  }

  function Standings(l: Logs, published: Reference -> Published, reports: seq<Report>, column: Column): seq<Standing>
    requires Lawful(l)
  {
    if reports == [] then []
    else
      var standing := StandOf(l, published, reports[|reports| - 1], column);
      Standings(l, published, reports[..|reports| - 1], column) + (if standing.Some? then [standing.value] else [])
  }

  function Unmatched(l: Logs, published: Reference -> Published, reports: seq<Report>, column: Column): seq<string>
    requires Lawful(l)
  {
    if reports == [] then []
    else
      var report := reports[|reports| - 1];
      Unmatched(l, published, reports[..|reports| - 1], column)
      + (if StandOf(l, published, report, column).None? then [report.driver] else [])
  }

  /** Every report has a standing or is unmatched, once. */
  lemma {:induction false} ComparedOrUnmatched(l: Logs, published: Reference -> Published, reports: seq<Report>,
                                               column: Column)
    requires Lawful(l)
    ensures multiset(DriversOf(Standings(l, published, reports, column)))
        + multiset(Unmatched(l, published, reports, column))
      == multiset(ReportDrivers(reports))
    decreases |reports|
  {
    hide Lawful, StandOf, DriversOf, ReportDrivers, Standings, Unmatched;
    if reports == [] {
      NoneCompared(l, published, column);
    } else {
      var front, last := reports[..|reports| - 1], reports[|reports| - 1];
      ComparedOrUnmatched(l, published, front, column);
      assert reports == front + [last];
      StandsAsItself(l, published, last, column);
      OneMoreReport(l, published, front, last, column);
      ComparedStep(front, last, Standings(l, published, front, column), Unmatched(l, published, front, column),
                   StandOf(l, published, last, column));
    }
  }

  function ReportDrivers(reports: seq<Report>): seq<string> {
    Map((report: Report) => report.driver, reports)
  }

  lemma NoneCompared(l: Logs, published: Reference -> Published, column: Column)
    requires Lawful(l)
    ensures DriversOf(Standings(l, published, [], column)) == Unmatched(l, published, [], column) == ReportDrivers([]) == []
  {
    hide Lawful;
  }

  lemma OneMoreReport(l: Logs, published: Reference -> Published, front: seq<Report>, last: Report, column: Column)
    requires Lawful(l)
    ensures var standing := StandOf(l, published, last, column);
      && Standings(l, published, front + [last], column)
        == Standings(l, published, front, column) + (if standing.Some? then [standing.value] else [])
      && Unmatched(l, published, front + [last], column)
        == Unmatched(l, published, front, column) + (if standing.None? then [last.driver] else [])
  {
    hide Lawful, StandOf;
    assert (front + [last])[..|front|] == front;
  }

  lemma ComparedStep(front: seq<Report>, last: Report, standings: seq<Standing>, unmatched: seq<string>,
                     standing: Option<Standing>)
    requires standing.Some? ==> standing.value.driver == last.driver
    requires multiset(DriversOf(standings)) + multiset(unmatched) == multiset(ReportDrivers(front))
    ensures multiset(DriversOf(standings + (if standing.Some? then [standing.value] else [])))
        + multiset(unmatched + (if standing.None? then [last.driver] else []))
      == multiset(ReportDrivers(front + [last]))
  {
    hide Map;
    MapOne((report: Report) => report.driver, front, last);
    if standing.Some? {
      MapOne((s: Standing) => s.driver, standings, standing.value);
      SplitGrows(DriversOf(standings), unmatched, ReportDrivers(front), [last.driver], [], last.driver);
    } else {
      assert standings + [] == standings;
      SplitGrows(DriversOf(standings), unmatched, ReportDrivers(front), [], [last.driver], last.driver);
      assert DriversOf(standings) + [] == DriversOf(standings);
    }
  }

  lemma StandsAsItself(l: Logs, published: Reference -> Published, report: Report, column: Column)
    requires Lawful(l)
    ensures var standing := StandOf(l, published, report, column);
      && (standing.Some? ==>
        && standing.value.driver == report.driver
        && (report.driver == "duckdb" || report.driver == "datafusion")
        && standing.value.reference == (if report.driver == "duckdb" then DuckDb else DataFusion)
        && standing.value.system == published(standing.value.reference).system
        && standing.value.column == column)
  {
    hide Lawful, Pairs, Skipped, Mean;
  }

  function DriversOf(standings: seq<Standing>): seq<string> {
    Map((s: Standing) => s.driver, standings)
  }

  function RatiosOf(standings: seq<Standing>): (ratios: seq<real>)
    ensures AllPositive(ratios)
  {
    Map((standing: Standing) => standing.ratio, standings)
  }

  /** Nothing when no driver had a published result to stand next to. */
  function Calibrate(l: Logs, published: Reference -> Published, reports: seq<Report>, column: Column)
    : Option<Calibration>
    requires Lawful(l)
  {
    var standings := Standings(l, published, reports, column);
    if standings == [] then None
    else Some(Calibration(column, standings, Unmatched(l, published, reports, column), Mean(l, RatiosOf(standings))))
  }

  method NewCalibration(l: Logs, published: Reference -> Published, reports: seq<Report>, column: Column)
    returns (calibration: Option<Calibration>)
    requires Lawful(l)
    ensures calibration == Calibrate(l, published, reports, column)
  {
    hide Lawful, Stand, LogSum;
    var standings: seq<Standing>, unmatched := [], [];
    var at := 0;
    while at < |reports|
      invariant at <= |reports|
      invariant standings == Standings(l, published, reports[..at], column)
      invariant unmatched == Unmatched(l, published, reports[..at], column)
    {
      var report := reports[at];
      assert reports[..at + 1][..at] == reports[..at];
      var standing := None;
      var reference := ReferenceOf(report.driver);
      if reference.Some? {
        standing := NewStanding(l, report, reference.value, published(reference.value), column);
      }
      if standing.Some? {
        standings := standings + [standing.value];
      } else {
        unmatched := unmatched + [report.driver];
      }
      at := at + 1;
    }
    assert reports[..at] == reports;
    var machine := GeomeanOf(l, RatiosOf(standings));
    if machine.None? {
      return None;
    }
    assert machine.value == Mean(l, RatiosOf(standings));
    return Some(Calibration(column, standings, unmatched, machine.value));
  }

  function Drift(ratio: Usable, machine: Usable): real {
    Over(ratio, machine) - 1.0
  }

  predicate Inside(ratio: Usable, machine: Usable) {
    Abs(Drift(ratio, machine)) <= BAND
  }

  function Outside(standings: seq<Standing>, machine: Usable): seq<Standing> {
    if standings == [] then []
    else
      var last := standings[|standings| - 1];
      Outside(standings[..|standings| - 1], machine) + (if Inside(last.ratio, machine) then [] else [last])
  }

  predicate Clean(calibration: Calibration) {
    Outside(calibration.standings, calibration.machine) == []
  }

  lemma {:induction false} OutsideExactly(standings: seq<Standing>, machine: Usable)
    ensures forall s :: s in Outside(standings, machine) <==> s in standings && !Inside(s.ratio, machine)
    ensures Outside(standings, machine) == [] <==> forall s | s in standings :: Inside(s.ratio, machine)
  {
    hide Inside;
    if standings != [] {
      var n := |standings| - 1;
      OutsideExactly(standings[..n], machine);
      assert standings == standings[..n] + [standings[n]];
      assert Outside(standings, machine) == [] ==> forall s | s in standings :: s !in Outside(standings, machine);
    }
  }

  function FactorsOf(standings: seq<Standing>, machine: Usable): seq<real> {
    Map((standing: Standing) => 1.0 + Drift(standing.ratio, machine), standings)
  }

  /** The drifts of the compared drivers balance: the factors they stand for multiply to one. */
  lemma DriftsBalance(l: Logs, published: Reference -> Published, reports: seq<Report>, column: Column)
    requires Lawful(l)
    ensures var cal := Calibrate(l, published, reports, column);
      cal.Some? ==> Product(FactorsOf(cal.value.standings, cal.value.machine)) == 1.0
  {
    hide Lawful, Times, Product, Power, Standings, Unmatched, Over;
    if Calibrate(l, published, reports, column).None? { return; }
    var cal := Calibrate(l, published, reports, column).value;
    var ratios, m, n := RatiosOf(cal.standings), cal.machine, |cal.standings|;
    var factors := FactorsOf(cal.standings, m);
    GeomeanIsRoot(l, ratios);
    forall i | 0 <= i < n ensures ratios[i] == Times(m, factors[i]) {
      OverTimes(cal.standings[i].ratio, m);
      Commutative(Over(cal.standings[i].ratio, m), m);
    }
    ProductScales(factors, m, ratios);
    PowerPositive(m, n);
    Unit(Power(m, n));
    Cancel(Power(m, n), Product(factors), 1.0);
  }

  /** A driver's drift is how far its ratio is from the machine factor, as a share of it. */
  lemma DriftExactly(ratio: Usable, machine: Usable)
    ensures (1.0 + Drift(ratio, machine)) * machine == ratio
    ensures Inside(ratio, machine) <==> 0.75 * machine <= ratio <= 1.25 * machine
  {
    var q := Over(ratio, machine);
    assert q * machine == ratio by { OverTimes(ratio, machine); }
    assert q < 0.75 ==> (0.75 - q) * machine > 0.0;
    assert q >= 0.75 ==> (q - 0.75) * machine >= 0.0;
    assert q > 1.25 ==> (q - 1.25) * machine > 0.0;
    assert q <= 1.25 ==> (1.25 - q) * machine >= 0.0;
  }

  /** Reports one by one the same up to the speed of the machine and the order of the queries. */
  ghost predicate Follow(a: seq<Report>, b: seq<Report>, published: Reference -> Published, column: Column, c: Usable) {
    && |a| == |b|
    && forall i | 0 <= i < |a| ::
      && a[i].driver == b[i].driver
      && (ReferenceOf(a[i].driver).Some? ==>
        SameUpToScale(a[i], b[i], published(ReferenceOf(a[i].driver).value), column, c))
  }

  ghost predicate Alike(s: seq<Standing>, t: seq<Standing>, c: Usable) {
    && |s| == |t|
    && forall i | 0 <= i < |s| :: s[i].driver == t[i].driver && t[i].ratio == Grown(c, s[i].ratio)
  }

  lemma StandOfScales(l: Logs, a: Report, b: Report, published: Reference -> Published, column: Column, c: Usable)
    requires Lawful(l) && Follow([a], [b], published, column, c)
    ensures var s, t := StandOf(l, published, a, column), StandOf(l, published, b, column);
      && (s.Some? <==> t.Some?)
      && (s.Some? ==> t.value.driver == s.value.driver && t.value.ratio == Grown(c, s.value.ratio))
  {
    hide Lawful, Stand, SameUpToScale, Grown;
    assert [a][0] == a && [b][0] == b;
    if ReferenceOf(a.driver).Some? {
      var r := ReferenceOf(a.driver).value;
      StandingScales(l, a, b, r, published(r), column, c);
    }
  }

  lemma {:induction false} StandingsScale(l: Logs, a: seq<Report>, b: seq<Report>, published: Reference -> Published,
                                          column: Column, c: Usable)
    requires Lawful(l) && Follow(a, b, published, column, c)
    ensures Alike(Standings(l, published, a, column), Standings(l, published, b, column), c)
    ensures Unmatched(l, published, a, column) == Unmatched(l, published, b, column)
  {
    hide Lawful, StandOf, SameUpToScale, Grown;
    if a != [] {
      var n := |a| - 1;
      StandingsScale(l, a[..n], b[..n], published, column, c);
      StandOfScales(l, a[n], b[n], published, column, c);
    }
  }

  lemma {:induction false} OutsideAlike(s: seq<Standing>, t: seq<Standing>, m: Usable, c: Usable)
    requires Alike(s, t, c)
    ensures |Outside(s, m)| == |Outside(t, Grown(c, m))|
    ensures forall i | 0 <= i < |Outside(s, m)| :: Outside(s, m)[i].driver == Outside(t, Grown(c, m))[i].driver
    ensures forall i | 0 <= i < |s| :: Drift(t[i].ratio, Grown(c, m)) == Drift(s[i].ratio, m)
  {
    hide Over, Grown;
    if s != [] {
      var n := |s| - 1;
      OutsideAlike(s[..n], t[..n], m, c);
      OverCommon(s[n].ratio, m, c);
      forall i | 0 <= i < n ensures Drift(t[i].ratio, Grown(c, m)) == Drift(s[i].ratio, m) {
        assert s[..n][i] == s[i] && t[..n][i] == t[i];
      }
    }
  }

  /** Making every matched run c times as long, or recording the queries of any report in another
      order, moves the machine factor by c and no drift and no verdict at all. */
  lemma DriftsIgnoreTheMachine(l: Logs, published: Reference -> Published, a: seq<Report>, b: seq<Report>,
                               column: Column, c: Usable)
    requires Lawful(l) && Follow(a, b, published, column, c)
    ensures var x, y := Calibrate(l, published, a, column), Calibrate(l, published, b, column);
      && (x.Some? <==> y.Some?)
      && (x.Some? ==>
        var s, t := x.value, y.value;
        && t.machine == Grown(c, s.machine) && t.unmatched == s.unmatched && |t.standings| == |s.standings|
        && (forall i | 0 <= i < |s.standings| ::
          && t.standings[i].driver == s.standings[i].driver
          && Drift(t.standings[i].ratio, t.machine) == Drift(s.standings[i].ratio, s.machine))
        && |Outside(t.standings, t.machine)| == |Outside(s.standings, s.machine)|
        && (forall i | 0 <= i < |Outside(s.standings, s.machine)| ::
          Outside(t.standings, t.machine)[i].driver == Outside(s.standings, s.machine)[i].driver)
        && (Clean(t) <==> Clean(s)))
  {
    hide Lawful, Standings, Unmatched, Grown, Times, Outside, Drift, Geomean;
    StandingsScale(l, a, b, published, column, c);
    var s, t := Standings(l, published, a, column), Standings(l, published, b, column);
    if s != [] {
      GeomeanScales(l, RatiosOf(s), c);
      forall i | 0 <= i < |s| ensures RatiosOf(t)[i] == Scaled(RatiosOf(s), c)[i] {
        GrownIs(c, s[i].ratio);
      }
      assert RatiosOf(t) == Scaled(RatiosOf(s), c);
      GrownIs(c, Mean(l, RatiosOf(s)));
      OutsideAlike(s, t, Mean(l, RatiosOf(s)), c);
    }
  }

  /** A driver on its own is the machine factor, so one driver alone is always clean. */
  lemma OneDriverIsClean(l: Logs, published: Reference -> Published, reports: seq<Report>, column: Column)
    requires Lawful(l)
    ensures var cal := Calibrate(l, published, reports, column);
      cal.Some? && |cal.value.standings| == 1 ==> Clean(cal.value)
  {
    hide Lawful, Standings, Unmatched;
    var found := Calibrate(l, published, reports, column);
    if found.None? || |found.value.standings| != 1 { return; }
    DriftsBalance(l, published, reports, column);
    var cal := Calibrate(l, published, reports, column).value;
    OutsideExactly(cal.standings, cal.machine);
    var fs := FactorsOf(cal.standings, cal.machine);
    assert fs[..0] == [];
    Unit(fs[0]);
  }

  /** With two drivers the fast one is outside the band exactly when the slow one is more than a third
      above the machine factor.  The slow one is outside from a quarter above, so a fast driver outside
      puts the slow one outside with it. */
  lemma TwoDrivers(l: Logs, published: Reference -> Published, reports: seq<Report>, column: Column)
    requires Lawful(l)
    ensures var cal := Calibrate(l, published, reports, column);
      cal.Some? && |cal.value.standings| == 2 ==>
        forall fast, slow | fast != slow && 0 <= fast < 2 && 0 <= slow < 2
          && cal.value.standings[fast].ratio <= cal.value.standings[slow].ratio ::
          var drift := Drift(cal.value.standings[slow].ratio, cal.value.machine);
          && (!Inside(cal.value.standings[fast].ratio, cal.value.machine) <==> drift > 1.0 / 3.0)
          && (!Inside(cal.value.standings[slow].ratio, cal.value.machine) <==> drift > 0.25)
  {
    hide Lawful, Standings, Unmatched, Product, Over;
    var found := Calibrate(l, published, reports, column);
    if found.None? || |found.value.standings| != 2 { return; }
    DriftsBalance(l, published, reports, column);
    var cal := Calibrate(l, published, reports, column).value;
    var fs := FactorsOf(cal.standings, cal.machine);
    ProductOfTwo(fs);
    Commutative(fs[0], fs[1]);
    var x, y := cal.standings[0].ratio, cal.standings[1].ratio;
    OverOrder(x, y, cal.machine);
    OverOrder(y, x, cal.machine);
    if x <= y { Reciprocal(fs[0], fs[1]); }
    if y <= x { Reciprocal(fs[1], fs[0]); }
  }

  lemma ProductOfTwo(xs: seq<real>)
    requires |xs| == 2
    ensures Product(xs) == Times(xs[0], xs[1])
  {
    assert xs[..1][..0] == [];
    assert Product(xs[..1]) == Times(1.0, xs[0]);
    Unit(xs[0]);
  }

  lemma OverOrder(x: Usable, y: Usable, m: Usable)
    ensures x <= y <==> Over(x, m) <= Over(y, m)
  {
    hide Times;
    Quotient(x, m);
    Quotient(y, m);
    OrderKept(m, y / m, x / m);
  }

  lemma Reciprocal(f: real, s: real)
    requires Times(f, s) == 1.0 && 0.0 < f <= s
    ensures f <= 1.0 <= s
    ensures f < 0.75 <==> s > 4.0 / 3.0
  {
    var third := 4.0 / 3.0;
    assert Times(0.75, third) == 1.0 && Times(1.0, 1.0) == 1.0;
    hide Times;
    Commutative(f, s);
    if s < 1.0 { Larger(f, 1.0, s, 1.0); }
    if f > 1.0 { Larger(1.0, s, 1.0, f); }
    if f < 0.75 && s <= third { Larger(s, third, f, 0.75); }
    if f >= 0.75 && s > third { Larger(0.75, f, third, s); }
  }

  /** One second for one query, as upstream's only number. */
  function OneSecond(): Published {
    Published("", "", [[Some(1.0)]])
  }

  /** A report that answered that query in so many seconds. */
  function OneQuery(driver: string, seconds: Usable): Report {
    Report(driver, [OneAnswer(seconds)])
  }

  function OneAnswer(seconds: Usable): Measured {
    Measured("q0", Session.Dropped, Answered([Run.Run(seconds * SECOND, 0, 0)]))
  }

  lemma OnePair(seconds: Usable)
    ensures Pairs([OneAnswer(seconds)], OneSecond(), ColdColumn) == [Pair("q0", seconds, 1.0)]
  {
    var m := OneAnswer(seconds);
    assert Ours(m, ColdColumn) == Some(seconds) by {
      assert (seconds * SECOND) / SECOND == seconds;
    }
    assert Index("q0") == Some(0) by { IndexReadsBack(0); }
    assert Theirs(OneSecond(), ColdColumn, m.id) == Some(1.0);
    hide Ours, Theirs;
    assert PairOf(m, OneSecond(), ColdColumn) == Some(Pair("q0", seconds, 1.0));
    assert [m][..0] == [];
    hide PairOf;
    assert Pairs([m], OneSecond(), ColdColumn) == [] + [Pair("q0", seconds, 1.0)];
  }

  lemma MeanOfOne(l: Logs, x: Usable)
    requires Lawful(l)
    ensures Mean(l, [x]) == x
  {
    hide Lawful, Times, Geomean, LogSum;
    assert [x][..0] == [];
    assert Product([x]) == Times(1.0, x) && Power(x, 1) == Times(Power(x, 0), x);
    GeomeanIsRoot(l, [x]);
  }

  lemma OneQueryStands(l: Logs, reference: Reference, driver: string, seconds: Usable)
    requires Lawful(l)
    ensures var standing := Stand(l, OneQuery(driver, seconds), reference, OneSecond(), ColdColumn);
      standing.Some? && standing.value.ratio == seconds
  {
    hide Lawful, Pairs, Skipped, Mean, PointsOf, OneAnswer, OneSecond, Over, Sort;
    OnePair(seconds);
    var pairs := [Pair("q0", seconds, 1.0)];
    assert OursOf(pairs) == [seconds] && TheirsOf(pairs) == [1.0];
    MeanOfOne(l, seconds);
    MeanOfOne(l, 1.0);
    OverOne(seconds);
  }

  lemma OverOne(x: Usable)
    ensures Over(x, 1.0) == x
  {
  }

  function TwoReports(fast: Usable, slow: Usable): seq<Report> {
    [OneQuery("duckdb", fast), OneQuery("datafusion", slow)]
  }

  function Everywhere(): Reference -> Published {
    (r: Reference) => OneSecond()
  }

  lemma TwoReportsStand(l: Logs, fast: Usable, slow: Usable)
    requires Lawful(l)
    ensures RatiosOf(Standings(l, Everywhere(), TwoReports(fast, slow), ColdColumn)) == [fast, slow]
  {
    hide Lawful, Stand, OneSecond, OneAnswer;
    var reports := TwoReports(fast, slow);
    OneQueryStands(l, DuckDb, "duckdb", fast);
    OneQueryStands(l, DataFusion, "datafusion", slow);
    assert reports[..1] == [reports[0]] && reports[..1][..0] == [];
    var first := StandOf(l, Everywhere(), reports[0], ColdColumn);
    assert Standings(l, Everywhere(), reports[..1], ColdColumn) == [first.value];
  }

  /** But not the other way round: of two drivers at nine and sixteen times upstream only the slow one is
      outside. */
  lemma SlowOneAlone(l: Logs)
    requires Lawful(l)
    ensures var cal := Calibrate(l, Everywhere(), TwoReports(9.0, 16.0), ColdColumn);
      && cal.Some? && |cal.value.standings| == 2
      && Inside(cal.value.standings[0].ratio, cal.value.machine)
      && !Inside(cal.value.standings[1].ratio, cal.value.machine)
  {
    hide Lawful, Product, Times, Geomean, Standings, Unmatched, TwoReports, Everywhere;
    TwoReportsStand(l, 9.0, 16.0);
    ProductOfTwo([9.0, 16.0]);
    SquareOf(12.0);
    TwelveSquared();
    GeomeanIsRoot(l, [9.0, 16.0]);
    var standings := Standings(l, Everywhere(), TwoReports(9.0, 16.0), ColdColumn);
    assert standings[0].ratio == RatiosOf(standings)[0] && standings[1].ratio == RatiosOf(standings)[1];
  }

  lemma TwelveSquared()
    ensures Times(9.0, 16.0) == Times(12.0, 12.0)
  {
  }

  lemma SquareOf(x: real)
    ensures Power(x, 2) == Times(x, x)
  {
    hide Times;
    assert Power(x, 1) == Times(1.0, x);
    Unit(x);
  }
}
