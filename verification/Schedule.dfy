/** One pass over the queries in a shuffled order. */
module Schedule {
  import opened Wrappers
  import opened Session
  import opened Protocol
  import opened Sorting
  import opened Agree
  import Answers = Answer

  datatype Schedule = Schedule(seed: nat, pass: nat, order: seq<nat>)

  function Identity(len: nat): (s: seq<nat>)
    ensures |s| == len && forall i | 0 <= i < len :: s[i] == i
  {
    seq(len, i => i)
  }

  /** An order visits every position once. */
  ghost predicate Permutation(order: seq<nat>) {
    multiset(order) == multiset(Identity(|order|))
  }

  lemma PermutationInRange(order: seq<nat>)
    requires Permutation(order)
    ensures forall i | 0 <= i < |order| :: order[i] < |order|
  {
    forall i | 0 <= i < |order| ensures order[i] < |order| {
      assert order[i] in multiset(order);
      assert order[i] in Identity(|order|);
    }
  }

  function Swapped(order: seq<nat>, i: nat, j: nat): (r: seq<nat>)
    requires i < |order| && j < |order|
    ensures |r| == |order|
  {
    order[i := order[j]][j := order[i]]
  }

  /** The first n places, each swapped, last first, with one drawn at or before it. */
  function Shuffled(order: seq<nat>, n: nat, draw: nat -> nat): (r: seq<nat>)
    requires n <= |order|
    ensures |r| == |order|
    decreases n
  {
    if n <= 1 then order else Shuffled(Swapped(order, n - 1, draw(n - 1) % n), n - 1, draw)
  }

  lemma SwapPermutes(order: seq<nat>, i: nat, j: nat)
    requires i < |order| && j < |order|
    ensures multiset(Swapped(order, i, j)) == multiset(order)
  {
  }

  /** Shuffles in place.  Whatever the generator draws, the result is a permutation. */
  method Shuffle(order: array<nat>, draw: nat -> nat)
    modifies order
    ensures order[..] == Shuffled(old(order[..]), order.Length, draw)
    ensures multiset(order[..]) == old(multiset(order[..]))
  {
    var n := order.Length;
    while n > 1
      invariant 0 <= n <= order.Length
      invariant Shuffled(order[..], n, draw) == Shuffled(old(order[..]), order.Length, draw)
      invariant multiset(order[..]) == old(multiset(order[..]))
    {
      n := n - 1;
      var k := draw(n) % (n + 1);
      ghost var before := order[..];
      SwapPermutes(before, n, k);
      order[n], order[k] := order[k], order[n];
      assert order[..] == Swapped(before, n, k);
    }
  }

  lemma {:induction false} DrawsBelow(order: seq<nat>, n: nat, draw: nat -> nat, other: nat -> nat)
    requires n <= |order| && forall i | 0 <= i < n :: draw(i) == other(i)
    ensures Shuffled(order, n, draw) == Shuffled(order, n, other)
    decreases n
  {
    if n > 1 { DrawsBelow(Swapped(order, n - 1, draw(n - 1) % n), n - 1, draw, other); }
  }

  /** Every permutation is the shuffle of some draws, so none is out of reach. */
  lemma {:induction false} EveryOrderIsReached(order: seq<nat>, n: nat, goal: seq<nat>) returns (draw: nat -> nat)
    requires n <= |order| == |goal| && multiset(order[..n]) == multiset(goal[..n])
    requires order[n..] == goal[n..]
    ensures Shuffled(order, n, draw) == goal
    decreases n
  {
    hide Swapped, Shuffled;
    if n <= 1 {
      draw := i => 0;
      OneLeft(order, n, goal, draw);
    } else {
      var m := n - 1;
      var k := PlaceOf(order, n, goal);
      var next := Swapped(order, m, k);
      SwapStep(order, n, k, goal);
      var rest := EveryOrderIsReached(next, m, goal);
      draw := i => if i == m then k else rest(i);
      DrawsBelow(next, m, draw, rest);
      FirstDraw(order, n, k, draw);
    }
  }

  lemma FirstDraw(order: seq<nat>, n: nat, k: nat, draw: nat -> nat)
    requires 1 < n <= |order| && k < n && draw(n - 1) == k
    ensures Shuffled(order, n, draw) == Shuffled(Swapped(order, n - 1, k), n - 1, draw)
  {
    hide Swapped;
    SmallRemainder(k, n);
    assert draw(n - 1) % n == k;
  }

  lemma SmallRemainder(k: nat, n: nat)
    requires k < n
    ensures k % n == k
  {
  }

  lemma PlaceOf(order: seq<nat>, n: nat, goal: seq<nat>) returns (k: nat)
    requires 1 < n <= |order| == |goal| && multiset(order[..n]) == multiset(goal[..n])
    ensures k < n && order[k] == goal[n - 1]
  {
    assert goal[..n][n - 1] in multiset(order[..n]);
    k :| 0 <= k < n && order[..n][k] == goal[n - 1];
  }

  lemma OneLeft(order: seq<nat>, n: nat, goal: seq<nat>, draw: nat -> nat)
    requires n <= 1 && n <= |order| == |goal| && multiset(order[..n]) == multiset(goal[..n]) && order[n..] == goal[n..]
    ensures order == goal && Shuffled(order, n, draw) == order
  {
    if n == 1 { assert order[..1] == [order[0]] && goal[..1] == [goal[0]] && order[0] in multiset(goal[..1]); }
    assert order == order[..n] + order[n..] && goal == goal[..n] + goal[n..];
  }

  lemma SwapStep(order: seq<nat>, n: nat, k: nat, goal: seq<nat>)
    requires 1 < n <= |order| == |goal| && k < n && order[k] == goal[n - 1]
    requires multiset(order[..n]) == multiset(goal[..n]) && order[n..] == goal[n..]
    ensures var next := Swapped(order, n - 1, k);
      multiset(next[..n - 1]) == multiset(goal[..n - 1]) && next[n - 1..] == goal[n - 1..]
  {
    var m, next := n - 1, Swapped(order, n - 1, k);
    assert next[..n] == Swapped(order[..n], m, k);
    SwapPermutes(order[..n], m, k);
    LastOff(next[..n], goal[..n]);
    assert next[..n][..m] == next[..m] && goal[..n][..m] == goal[..m];
    assert next[n..] == order[n..];
    TailOn(next, goal, m);
  }

  lemma LastOff(x: seq<nat>, y: seq<nat>)
    requires x != [] && y != [] && multiset(x) == multiset(y) && x[|x| - 1] == y[|y| - 1]
    ensures multiset(x[..|x| - 1]) == multiset(y[..|y| - 1])
  {
    assert x == x[..|x| - 1] + [x[|x| - 1]] && y == y[..|y| - 1] + [y[|y| - 1]];
    assert multiset(x[..|x| - 1]) == multiset(x) - multiset{x[|x| - 1]};
  }

  lemma TailOn(x: seq<nat>, y: seq<nat>, m: nat)
    requires m < |x| == |y| && x[m] == y[m] && x[m + 1..] == y[m + 1..]
    ensures x[m..] == y[m..]
  {
    assert x[m..] == [x[m]] + x[m + 1..] && y[m..] == [y[m]] + y[m + 1..];
  }

  /** A new schedule is a permutation of the positions, whatever was drawn. */
  method New(seed: nat, pass: nat, len: nat, draw: nat -> nat) returns (s: Schedule)
    ensures s.seed == seed && s.pass == pass && |s.order| == len && Permutation(s.order)
  {
    var order := new nat[len](i => i);
    assert order[..] == Identity(len);
    Shuffle(order, draw);
    s := Schedule(seed, pass, order[..]);
  }

  /** A workload rearranged by a permutation of its places. */
  function Apply<T>(order: seq<nat>, items: seq<T>): (r: seq<T>)
    requires |order| == |items| && forall i | 0 <= i < |order| :: order[i] < |items|
    ensures |r| == |items| && forall i | 0 <= i < |r| :: r[i] == items[order[i]]
  {
    seq(|order|, i requires 0 <= i < |order| => items[order[i]])
  }

  lemma ApplyIsPick<T>(order: seq<nat>, items: seq<T>, pick: nat -> T)
    requires |order| == |items| && forall i | 0 <= i < |order| :: order[i] < |items|
    requires forall i | 0 <= i < |items| :: pick(i) == items[i]
    ensures Apply(order, items) == Map(pick, order) && items == Map(pick, Identity(|items|))
  {
  }

  /** Applying a schedule drops nothing and repeats nothing. */
  lemma ApplyPermutes<T>(order: seq<nat>, items: seq<T>)
    requires |order| == |items| && Permutation(order)
    ensures forall i | 0 <= i < |order| :: order[i] < |items|
    ensures multiset(Apply(order, items)) == multiset(items)
  {
    PermutationInRange(order);
    if items != [] {
      var pick := (i: nat) => if i < |items| then items[i] else items[0];
      ApplyIsPick(order, items, pick);
      MapMultiset(pick, order, Identity(|items|));
    }
  }

  /** Runs a workload in a shuffled order: the records come back in the order they ran, one for each
      place of the schedule, and the schedule visits each query once. */
  method RunWorkload(session: Session, queries: seq<Query>, hash: Answers.Answer -> Digest, seed: nat, pass: nat, draw: nat -> nat)
    returns (s: Schedule, measured: seq<Measured>, ghost parts: seq<seq<Event>>)
    requires session.Valid()
    modifies session, session.outside
    ensures session.Valid() && session.loaded == old(session.loaded)
    ensures |s.order| == |queries| && Permutation(s.order)
    ensures session.outside.history == old(session.outside.history) + Concat(parts)
    ensures (forall i | 0 <= i < |s.order| :: s.order[i] < |queries|)
            && ExplainsAll(parts, Apply(s.order, queries), hash, session.loaded, measured)
  {
    s := New(seed, pass, |queries|, draw);
    PermutationInRange(s.order);
    measured, parts := Measure(session, Apply(s.order, queries), hash);
  }

  // A report under any schedule

  /** One pass of a driver over a workload: the order it was run in, what happened, and the records. */
  datatype Pass = Pass(
    driver: string, run: (seq<Event>, Query) -> Reply<Answers.Answer>, history: seq<Event>,
    parts: seq<seq<Event>>, order: seq<nat>, measured: seq<Measured>)

  /** The pass ran the workload under a permutation, against a driver whose replies, times aside, depend
      on the query alone. */
  ghost predicate PassOver(p: Pass, queries: seq<Query>, hash: Answers.Answer -> Digest, loaded: bool,
                           replies: Query -> Result<Answers.Answer, DriverError>) {
    && |p.order| == |queries| && Permutation(p.order)
    && (forall i | 0 <= i < |queries| :: p.order[i] < |queries|)
    && Stateless(p.run, replies) && Consistent(p.run, p.history + Concat(p.parts))
    && ExplainsAll(p.parts, Apply(p.order, queries), hash, loaded, p.measured)
  }

  /** The shapes of a report: its records, times and cache aside. */
  function Shapes(measured: seq<Measured>): seq<Shape> {
    Map(ShapeOf, measured)
  }

  /** The report under any schedule has one shape per query, in the order the schedule visits them, and
      it is the shape the driver's reply to that query gives. */
  lemma PassShapes(p: Pass, queries: seq<Query>, hash: Answers.Answer -> Digest, loaded: bool,
                   replies: Query -> Result<Answers.Answer, DriverError>)
    requires PassOver(p, queries, hash, loaded, replies)
    ensures |p.measured| == |queries|
    ensures forall i | 0 <= i < |queries| ::
      ShapeOf(p.measured[i]) == ExpectedShape(queries[p.order[i]], replies, hash, loaded)
    ensures multiset(Shapes(p.measured)) == multiset(Map(q => ExpectedShape(q, replies, hash, loaded), queries))
  {
    hide ShapeOf, ExpectedShape, Stateless, Consistent;
    var visited := Apply(p.order, queries);
    forall i | 0 <= i < |queries| ensures ShapeOf(p.measured[i]) == ExpectedShape(visited[i], replies, hash, loaded) {
      StatelessShapes(p.run, p.history, p.parts, visited, hash, loaded, p.measured, replies, i);
    }
    var expected := q => ExpectedShape(q, replies, hash, loaded);
    assert Shapes(p.measured) == Map(expected, visited);
    ApplyPermutes(p.order, queries);
    MapMultiset(expected, visited, queries);
  }

  /** Any two schedules of one workload give reports that are permutations of each other, and a query
      visited at one place of one and another place of the other left the same shape at both. */
  lemma SchedulesAgree(a: Pass, b: Pass, queries: seq<Query>, hash: Answers.Answer -> Digest, loaded: bool,
                       replies: Query -> Result<Answers.Answer, DriverError>)
    requires PassOver(a, queries, hash, loaded, replies) && PassOver(b, queries, hash, loaded, replies)
    ensures |a.measured| == |queries| == |b.measured|
    ensures multiset(Shapes(a.measured)) == multiset(Shapes(b.measured))
    ensures forall i, j | 0 <= i < |queries| && 0 <= j < |queries| && a.order[i] == b.order[j] ::
      ShapeOf(a.measured[i]) == ShapeOf(b.measured[j])
  {
    PassShapes(a, queries, hash, loaded, replies);
    PassShapes(b, queries, hash, loaded, replies);
  }

  // The comparison sees only shapes

  /** The records a pass leaves: when answered, at least one run and all of one answer. */
  ghost predicate Plain(m: Measured) {
    m.outcome.Answered? ==> ShapeOf(m).answer.Some?
  }

  lemma {:induction false} FindExact(queries: seq<Measured>, id: string)
    ensures Find(queries, id).None? ==> forall i | 0 <= i < |queries| :: queries[i].id != id
    ensures Find(queries, id).Some? ==> exists i :: 0 <= i < |queries| && queries[i] == Find(queries, id).value && queries[i].id == id
  {
    if queries != [] && queries[0].id != id {
      FindExact(queries[1..], id);
      if Find(queries[1..], id).Some? {
        var i :| 0 <= i < |queries[1..]| && queries[1..][i] == Find(queries[1..], id).value && queries[1..][i].id == id;
        assert queries[i + 1] == queries[1..][i];
      } else {
        forall i | 0 <= i < |queries| ensures queries[i].id != id {
          if i > 0 { assert queries[i] == queries[1..][i - 1]; }
        }
      }
    }
  }

  predicate DistinctIds(queries: seq<Measured>) {
    forall i, j | 0 <= i < j < |queries| :: queries[i].id != queries[j].id
  }

  lemma MatchingShape(a: seq<Measured>, b: seq<Measured>, id: string)
    requires multiset(Shapes(a)) == multiset(Shapes(b)) && DistinctIds(b)
    requires Find(a, id).Some?
    ensures Find(b, id).Some? && ShapeOf(Find(b, id).value) == ShapeOf(Find(a, id).value)
    ensures Find(a, id).value in a && Find(b, id).value in b
  {
    FindExact(a, id);
    FindExact(b, id);
    var i :| 0 <= i < |a| && a[i] == Find(a, id).value && a[i].id == id;
    assert Shapes(a)[i] in multiset(Shapes(b));
    var j :| 0 <= j < |b| && Shapes(b)[j] == Shapes(a)[i];
    assert ShapeOf(b[j]) == ShapeOf(a[i]) && b[j].id == id;
    var k :| 0 <= k < |b| && b[k] == Find(b, id).value && b[k].id == id;
    assert j == k;
  }

  /** Reports with the same shapes in another order give every query the same reading. */
  lemma SameShapesSameReading(a: Report, b: Report, id: string)
    requires a.driver == b.driver && multiset(Shapes(a.queries)) == multiset(Shapes(b.queries))
    requires DistinctIds(a.queries) && DistinctIds(b.queries)
    requires (forall m | m in a.queries :: Plain(m)) && forall m | m in b.queries :: Plain(m)
    ensures ReadingOf(a, id) == ReadingOf(b, id)
  {
    if Find(a.queries, id).Some? { MatchingShape(a.queries, b.queries, id); }
    if Find(b.queries, id).Some? { MatchingShape(b.queries, a.queries, id); }
  }

  predicate DistinctQueries(queries: seq<Query>) {
    forall i, j | 0 <= i < j < |queries| :: queries[i].id != queries[j].id
  }

  lemma RepeatCounts(order: seq<nat>, i: nat, j: nat)
    requires i < j < |order| && order[i] == order[j]
    ensures multiset(order)[order[i]] >= 2
  {
    assert order == order[..i] + [order[i]] + order[i + 1..j] + [order[j]] + order[j + 1..];
  }

  lemma {:induction false} IdentityCounts(len: nat, x: nat)
    ensures multiset(Identity(len))[x] <= 1 && (x >= len ==> x !in multiset(Identity(len)))
  {
    if len > 0 {
      IdentityCounts(len - 1, x);
      assert Identity(len) == Identity(len - 1) + [len - 1];
    }
  }

  lemma PassRecords(p: Pass, queries: seq<Query>, hash: Answers.Answer -> Digest, loaded: bool,
                    replies: Query -> Result<Answers.Answer, DriverError>)
    requires PassOver(p, queries, hash, loaded, replies) && DistinctQueries(queries)
    ensures DistinctIds(p.measured) && forall m | m in p.measured :: Plain(m)
  {
    PassShapes(p, queries, hash, loaded, replies);
    forall i, j | 0 <= i < j < |p.measured| ensures p.measured[i].id != p.measured[j].id {
      if p.order[i] == p.order[j] {
        RepeatCounts(p.order, i, j);
        IdentityCounts(|queries|, p.order[i]);
        assert false;
      }
      assert ShapeOf(p.measured[i]).id == queries[p.order[i]].id;
      assert ShapeOf(p.measured[j]).id == queries[p.order[j]].id;
    }
    forall m | m in p.measured ensures Plain(m) {
      var i :| 0 <= i < |p.measured| && p.measured[i] == m;
      assert ShapeOf(m) == ExpectedShape(queries[p.order[i]], replies, hash, loaded);
    }
  }

  function Reports(passes: seq<Pass>): seq<Report> {
    Map((p: Pass) => Report(p.driver, p.measured), passes)
  }

  lemma PassesRead(a: Pass, b: Pass, queries: seq<Query>, hash: Answers.Answer -> Digest, loaded: bool,
                   replies: Query -> Result<Answers.Answer, DriverError>, id: string)
    requires PassOver(a, queries, hash, loaded, replies) && PassOver(b, queries, hash, loaded, replies)
    requires a.driver == b.driver && DistinctQueries(queries)
    ensures ReadingOf(Report(a.driver, a.measured), id) == ReadingOf(Report(b.driver, b.measured), id)
  {
    hide PassOver, ReadingOf, Plain;
    PassRecords(a, queries, hash, loaded, replies);
    PassRecords(b, queries, hash, loaded, replies);
    SchedulesAgree(a, b, queries, hash, loaded, replies);
    SameShapesSameReading(Report(a.driver, a.measured), Report(b.driver, b.measured), id);
  }

  lemma ReadingsOfLast(passes: seq<Pass>, id: string)
    requires passes != []
    ensures var last := passes[|passes| - 1];
      Readings(Reports(passes), id)
      == Readings(Reports(passes[..|passes| - 1]), id) + ReadingOf(Report(last.driver, last.measured), id)
  {
    hide ReadingOf;
    assert Reports(passes)[..|passes| - 1] == Reports(passes[..|passes| - 1]);
  }

  /** Whatever schedules the systems ran under, every query lands in the class it would have landed in
      under any others. */
  lemma {:induction false} SchedulesKeepClasses(a: seq<Pass>, b: seq<Pass>, queries: seq<Query>, hash: Answers.Answer -> Digest,
                               loaded: bool, replies: seq<Query -> Result<Answers.Answer, DriverError>>, id: string)
    requires |a| == |b| == |replies| && DistinctQueries(queries)
    requires forall i | 0 <= i < |a| ::
      && a[i].driver == b[i].driver
      && PassOver(a[i], queries, hash, loaded, replies[i]) && PassOver(b[i], queries, hash, loaded, replies[i])
    ensures Readings(Reports(a), id) == Readings(Reports(b), id)
    ensures ClassOf(Readings(Reports(a), id)) == ClassOf(Readings(Reports(b), id))
  {
    if a != [] {
      hide PassOver, ReadingOf, Readings, Reports;
      var last := |a| - 1;
      SchedulesKeepClasses(a[..last], b[..last], queries, hash, loaded, replies[..last], id);
      PassesRead(a[last], b[last], queries, hash, loaded, replies[last], id);
      ReadingsOfLast(a, id);
      ReadingsOfLast(b, id);
    } else {
      assert Reports(a) == Reports(b);
    }
  }
}
