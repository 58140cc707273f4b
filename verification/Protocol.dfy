/** Three runs per query, the page cache dropped before the three, and what is recorded. */
module Protocol {
  import opened Wrappers
  import opened Session
  import Answers = Answer

  /** What an answer hashes to; only equality of digests is ever asked for. */
  type Digest = nat

  const RUNS: nat := 3

  datatype Run = Run(nanoseconds: real, rows: nat, digest: Digest)

  datatype Outcome =
    | Answered(runs: seq<Run>)
    | NotSupported(why: string)
    | Failed(why: string)

  datatype Measured = Measured(id: string, cache: Cold, outcome: Outcome)

  datatype Report = Report(driver: string, queries: seq<Measured>)

  // What is read off a measured query

  function Runs(m: Measured): seq<Run> {
    match m.outcome
    case Answered(runs) => runs
    case _ => []
  }

  function ColdTime(m: Measured): Option<real> {
    if Runs(m) == [] then None else Some(Runs(m)[0].nanoseconds)
  }

  function Least(runs: seq<Run>): real
    requires runs != []
  {
    if |runs| == 1 then runs[0].nanoseconds
    else
      var rest := Least(runs[..|runs| - 1]);
      var last := runs[|runs| - 1].nanoseconds;
      if last < rest then last else rest
  }

  /** The best of the runs after the first. */
  function HotTime(m: Measured): Option<real> {
    if |Runs(m)| < 2 then None else Some(Least(Runs(m)[1..]))
  }

  function DigestOf(m: Measured): Option<Digest> {
    if Runs(m) == [] then None else Some(Runs(m)[0].digest)
  }

  function RowsOf(m: Measured): Option<nat> {
    if Runs(m) == [] then None else Some(Runs(m)[0].rows)
  }

  predicate Steady(m: Measured) {
    forall i | 0 <= i < |Runs(m)| :: Runs(m)[i].digest == Runs(m)[0].digest
  }

  lemma {:induction false} LeastIsLeast(runs: seq<Run>)
    requires runs != []
    ensures exists i :: 0 <= i < |runs| && runs[i].nanoseconds == Least(runs)
    ensures forall i | 0 <= i < |runs| :: Least(runs) <= runs[i].nanoseconds
  {
    if |runs| > 1 {
      LeastIsLeast(runs[..|runs| - 1]);
      var i :| 0 <= i < |runs| - 1 && runs[..|runs| - 1][i].nanoseconds == Least(runs[..|runs| - 1]);
      assert runs[i] == runs[..|runs| - 1][i];
      forall k | 0 <= k < |runs| - 1 ensures Least(runs[..|runs| - 1]) <= runs[k].nanoseconds {
        assert runs[k] == runs[..|runs| - 1][k];
      }
    } else {
      assert runs[0].nanoseconds == Least(runs);
    }
  }

  // What the trace of one query says about its record

  function RunOf(reply: Reply<Answers.Answer>, hash: Answers.Answer -> Digest): Run
    requires reply.result.Ok?
  {
    Run.Run(reply.elapsed, reply.result.value.rows, hash(reply.result.value))
  }

  function FailureOf(e: DriverError): Outcome {
    match e
    case Unsupported(_, why) => NotSupported(why)
    case _ => Failed(Describe(e))
  }

  /** The query was put to the driver after the first event, and answered each time. */
  ghost predicate AllSucceeded(events: seq<Event>, query: Query) {
    forall k | 1 <= k < |events| :: events[k].Ran? && events[k].query == query && events[k].ran.result.Ok?
  }

  /** The runs are what those answers came to, in order. */
  ghost predicate Records(events: seq<Event>, query: Query, hash: Answers.Answer -> Digest, runs: seq<Run>) {
    && AllSucceeded(events, query) && |events| == 1 + |runs|
    && forall k | 0 <= k < |runs| :: runs[k] == RunOf(events[k + 1].ran, hash)
  }

  /** The query was put to the driver until it failed. */
  ghost predicate EndsInFailure(events: seq<Event>, query: Query, outcome: Outcome) {
    && |events| >= 2 && AllSucceeded(events[..|events| - 1], query)
    && var last := events[|events| - 1];
       last.Ran? && last.query == query && last.ran.result.Err? && outcome == FailureOf(last.ran.result.error)
  }

  /** One query's part of a trace and the record it leaves: the cache asked once, then the query put to
      the driver until it fails or has answered three times.  A session with nothing loaded never puts
      it to the driver. */
  ghost predicate Explains(events: seq<Event>, query: Query, hash: Answers.Answer -> Digest, loaded: bool, m: Measured) {
    && m.id == query.id
    && events != [] && events[0] == Evicted(m.cache)
    && if !loaded then
         |events| == 1 && m.outcome == FailureOf(OutOfOrder(Phase.Run, Phase.Load))
       else if m.outcome.Answered? then
         |m.outcome.runs| == RUNS && Records(events, query, hash, m.outcome.runs)
       else
         |events| <= 1 + RUNS && EndsInFailure(events, query, m.outcome)
  }

  /** A query is recorded as answered exactly when it was put to the driver three times and all three
      succeeded; then it has three runs, and otherwise it has no timing at all, though the calls that
      did succeed are still in the trace. */
  lemma AnsweredExactly(events: seq<Event>, query: Query, hash: Answers.Answer -> Digest, loaded: bool, m: Measured)
    requires Explains(events, query, hash, loaded, m)
    ensures m.outcome.Answered? <==> |events| == 1 + RUNS && AllSucceeded(events, query)
    ensures m.outcome.Answered? ==> |Runs(m)| == RUNS && Steady(m) == (Runs(m)[0].digest == Runs(m)[1].digest == Runs(m)[2].digest)
    ensures !m.outcome.Answered? ==> ColdTime(m) == HotTime(m) == None && DigestOf(m) == None
    ensures !m.outcome.Answered? && loaded ==> |Times(events, Phase.Run)| == |events| - 2
  {
    if !m.outcome.Answered? && loaded {
      var last := |events| - 1;
      assert !events[last].ran.result.Ok?;
      RunTimes(events[1..last], query);
      TimesGrow(events[1..last], events[last], Phase.Run);
      assert events[1..] == events[1..last] + [events[last]];
      assert [events[last]][1..] == [];
      assert Times([events[last]], Phase.Run) == [];
    }
  }

  /** What a record holds, read straight off the replies in its part of the trace: each run its time, its
      row count and its answer's digest; the cold time that of the first and the hot time the least of the
      later two; and for a failure its kind and its words. */
  lemma RecordedFromReplies(events: seq<Event>, query: Query, hash: Answers.Answer -> Digest, loaded: bool, m: Measured)
    requires Explains(events, query, hash, loaded, m)
    ensures m.outcome.Answered? ==>
      && |events| == 4 && |m.outcome.runs| == 3
      && (forall k | 0 <= k < 3 ::
        var ran := events[k + 1].ran;
        && m.outcome.runs[k].nanoseconds == ran.elapsed
        && m.outcome.runs[k].rows == ran.result.value.rows
        && m.outcome.runs[k].digest == hash(ran.result.value))
      && seq(3, k requires 0 <= k < 3 => m.outcome.runs[k].nanoseconds) == Times(events, Phase.Run)
      && ColdTime(m) == Some(events[1].ran.elapsed)
      && (HotTime(m) == Some(events[2].ran.elapsed) || HotTime(m) == Some(events[3].ran.elapsed))
      && HotTime(m).value <= events[2].ran.elapsed && HotTime(m).value <= events[3].ran.elapsed
      && RowsOf(m) == Some(events[1].ran.result.value.rows)
      && DigestOf(m) == Some(hash(events[1].ran.result.value))
    ensures !m.outcome.Answered? && loaded ==>
      var error := events[|events| - 1].ran.result.error;
      if error.Unsupported? then m.outcome == NotSupported(error.why) else m.outcome == Failed(Describe(error))
    ensures !loaded ==> m.outcome == Failed("run was asked for before load")
  {
    hide Times, Least, Describe;
    if m.outcome.Answered? {
      BetterOfTwo(m.outcome.runs);
      FourEvents(events);
    }
    if !loaded {
      NotLoadedSays();
    }
  }

  lemma NotLoadedSays()
    ensures Describe(OutOfOrder(Phase.Run, Phase.Load)) == "run was asked for before load"
  {
  }

  lemma BetterOfTwo(runs: seq<Run>)
    requires |runs| == 3
    ensures Least(runs[1..]) == runs[1].nanoseconds || Least(runs[1..]) == runs[2].nanoseconds
    ensures Least(runs[1..]) <= runs[1].nanoseconds && Least(runs[1..]) <= runs[2].nanoseconds
  {
    LeastIsLeast(runs[1..]);
    assert runs[1..][0] == runs[1] && runs[1..][1] == runs[2];
  }

  lemma TimesHead(events: seq<Event>, rest: seq<Event>)
    requires events != [] && rest == events[1..]
    ensures events[0].Evicted? ==> Times(events, Phase.Run) == Times(rest, Phase.Run)
    ensures events[0].Ran? && events[0].ran.result.Ok? ==> Times(events, Phase.Run) == [events[0].ran.elapsed] + Times(rest, Phase.Run)
  {
  }

  lemma FourEvents(events: seq<Event>)
    requires |events| == 4 && events[0].Evicted?
    requires forall k | 1 <= k < 4 :: events[k].Ran? && events[k].ran.result.Ok?
    ensures Times(events, Phase.Run) == [events[1].ran.elapsed, events[2].ran.elapsed, events[3].ran.elapsed]
  {
    var a, b, c := events[1], events[2], events[3];
    TimesHead(events, [a, b, c]);
    TimesHead([a, b, c], [b, c]);
    TimesHead([b, c], [c]);
    TimesHead([c], []);
    assert Times([], Phase.Run) == [];
    hide Times;
  }

  lemma {:induction false} RunTimes(events: seq<Event>, query: Query)
    requires forall k | 0 <= k < |events| :: events[k].Ran? && events[k].ran.result.Ok?
    ensures |Times(events, Phase.Run)| == |events|
  {
    if events != [] { RunTimes(events[1..], query); }
  }

  // The protocol over a whole workload

  function Concat(parts: seq<seq<Event>>): seq<Event> {
    if parts == [] then [] else Concat(parts[..|parts| - 1]) + parts[|parts| - 1]
  }

  /** One part of the trace for each query, in workload order, each explaining the record at its place. */
  ghost predicate ExplainsAll(parts: seq<seq<Event>>, queries: seq<Query>,
                              hash: Answers.Answer -> Digest, loaded: bool, measured: seq<Measured>) {
    && |parts| == |queries| == |measured|
    && forall i | 0 <= i < |queries| :: Explains(parts[i], queries[i], hash, loaded, measured[i])
  }

  /** One run of a query: what it is recorded as, and the event it leaves if it reached the driver. */
  method RunOnce(session: Session, query: Query, hash: Answers.Answer -> Digest) returns (r: Result<Run, Outcome>)
    requires session.Valid()
    modifies session, session.outside
    ensures session.Valid() && session.loaded == old(session.loaded) && session.prepared == old(session.prepared)
    ensures !session.loaded ==> session.outside.history == old(session.outside.history)
                                && r == Err(FailureOf(OutOfOrder(Phase.Run, Phase.Load)))
    ensures session.loaded ==>
      var reply := session.outside.run(old(session.outside.history), query);
      && session.outside.history == old(session.outside.history) + [Ran(query, reply)]
      && r == (if reply.result.Ok? then Ok(RunOf(reply, hash)) else Err(FailureOf(reply.result.error)))
  {
    var asked := session.Ask(query);
    match asked {
      case Ok((answer, nanoseconds)) =>
        r := Ok(Run.Run(nanoseconds, answer.rows, hash(answer)));
      case Err(Unsupported(_, why)) =>
        r := Err(NotSupported(why));
      case Err(error) =>
        r := Err(Failed(Describe(error)));
    }
  }

  lemma RecordsGrow(events: seq<Event>, query: Query, hash: Answers.Answer -> Digest, runs: seq<Run>, reply: Reply<Answers.Answer>)
    requires Records(events, query, hash, runs) && reply.result.Ok?
    ensures Records(events + [Ran(query, reply)], query, hash, runs + [RunOf(reply, hash)])
  {
  }

  lemma FailureExplains(events: seq<Event>, query: Query, hash: Answers.Answer -> Digest, runs: seq<Run>, reply: Reply<Answers.Answer>, cold: Cold)
    requires events != [] && events[0] == Evicted(cold)
    requires Records(events, query, hash, runs) && |runs| < RUNS && reply.result.Err?
    ensures Explains(events + [Ran(query, reply)], query, hash, true, Measured(query.id, cold, FailureOf(reply.result.error)))
  {
    assert (events + [Ran(query, reply)])[..|events|] == events;
  }

  method MeasureOne(session: Session, query: Query, hash: Answers.Answer -> Digest)
    returns (m: Measured, ghost events: seq<Event>)
    requires session.Valid()
    modifies session, session.outside
    ensures session.Valid() && session.loaded == old(session.loaded)
    ensures session.outside.history == old(session.outside.history) + events
    ensures m.id == query.id && Explains(events, query, hash, session.loaded, m)
  {
    hide Session.Valid, RunOf, FailureOf;
    var cold := session.Evict();
    var runs: seq<Run> := [];
    events := [Evicted(cold)];
    for run := 0 to RUNS
      invariant session.Valid() && session.loaded == old(session.loaded)
      invariant session.outside.history == old(session.outside.history) + events
      invariant events != [] && events[0] == Evicted(cold)
      invariant |runs| == run && Records(events, query, hash, runs) && (run > 0 ==> session.loaded)
    {
      ghost var history := session.outside.history;
      var r := RunOnce(session, query, hash);
      if session.loaded {
        ghost var reply := session.outside.run(history, query);
        if reply.result.Ok? {
          RecordsGrow(events, query, hash, runs, reply);
        } else {
          FailureExplains(events, query, hash, runs, reply, cold);
        }
        events := events + [Ran(query, reply)];
      }
      if r.Err? {
        m := Measured(query.id, cold, r.error);
        return;
      }
      runs := runs + [r.value];
    }
    m := Measured(query.id, cold, Answered(runs));
  }

  /** Measuring gives one record per workload query in order, each explained by its own part of the
      trace, and nothing else happens outside. */
  method Measure(session: Session, queries: seq<Query>, hash: Answers.Answer -> Digest)
    returns (measured: seq<Measured>, ghost parts: seq<seq<Event>>)
    requires session.Valid()
    modifies session, session.outside
    ensures session.Valid() && session.loaded == old(session.loaded)
    ensures |measured| == |queries| && forall i | 0 <= i < |queries| :: measured[i].id == queries[i].id
    ensures session.outside.history == old(session.outside.history) + Concat(parts)
    ensures ExplainsAll(parts, queries, hash, session.loaded, measured)
  {
    hide Session.Valid, Explains;
    measured, parts := [], [];
    for i := 0 to |queries|
      invariant session.Valid() && session.loaded == old(session.loaded)
      invariant session.outside.history == old(session.outside.history) + Concat(parts)
      invariant |measured| == i && forall j | 0 <= j < i :: measured[j].id == queries[j].id
      invariant ExplainsAll(parts, queries[..i], hash, session.loaded, measured)
    {
      var one, events := MeasureOne(session, queries[i], hash);
      assert (parts + [events])[..i] == parts;
      measured, parts := measured + [one], parts + [events];
    }
    assert queries[..|queries|] == queries;
  }

  // A driver whose reply depends on nothing but the query

  ghost predicate Stateless(run: (seq<Event>, Query) -> Reply<Answers.Answer>, replies: Query -> Result<Answers.Answer, DriverError>) {
    forall history, query :: run(history, query).result == replies(query)
  }

  /** A record without its times and without what the page cache said. */
  datatype Shape = Shape(id: string, answer: Option<(nat, Digest)>, why: Option<Outcome>)

  function ShapeOf(m: Measured): Shape {
    match m.outcome
    case Answered(runs) =>
      if runs != [] && forall i | 0 <= i < |runs| :: (runs[i].rows, runs[i].digest) == (runs[0].rows, runs[0].digest)
      then Shape(m.id, Some((runs[0].rows, runs[0].digest)), None)
      else Shape(m.id, None, None)
    case other => Shape(m.id, None, Some(other))
  }

  function ExpectedShape(query: Query, replies: Query -> Result<Answers.Answer, DriverError>,
                         hash: Answers.Answer -> Digest, loaded: bool): Shape {
    if !loaded then Shape(query.id, None, Some(FailureOf(OutOfOrder(Phase.Run, Phase.Load))))
    else match replies(query)
      case Ok(answer) => Shape(query.id, Some((answer.rows, hash(answer))), None)
      case Err(e) => Shape(query.id, None, Some(FailureOf(e)))
  }

  lemma {:induction false} ConsistentAt(run: (seq<Event>, Query) -> Reply<Answers.Answer>, history: seq<Event>, i: nat)
    requires Consistent(run, history) && i < |history| && history[i].Ran?
    ensures history[i].ran == run(history[..i], history[i].query)
  {
    var front := history[..|history| - 1];
    if i < |front| {
      ConsistentAt(run, front, i);
      assert front[..i] == history[..i];
    } else {
      assert front == history[..i];
    }
  }

  lemma {:induction false} PartInside(parts: seq<seq<Event>>, i: nat, e: Event)
    requires i < |parts| && e in parts[i]
    ensures e in Concat(parts)
  {
    if i < |parts| - 1 { PartInside(parts[..|parts| - 1], i, e); }
  }

  /** Against such a driver every record is, but for its times, a function of the query alone. */
  lemma StatelessShapes(run: (seq<Event>, Query) -> Reply<Answers.Answer>, history: seq<Event>, parts: seq<seq<Event>>,
                        queries: seq<Query>, hash: Answers.Answer -> Digest, loaded: bool, measured: seq<Measured>,
                        replies: Query -> Result<Answers.Answer, DriverError>, i: nat)
    requires Stateless(run, replies) && Consistent(run, history + Concat(parts))
    requires ExplainsAll(parts, queries, hash, loaded, measured) && i < |queries|
    ensures ShapeOf(measured[i]) == ExpectedShape(queries[i], replies, hash, loaded)
  {
    hide Explains, ShapeOf, ExpectedShape, Consistent;
    var whole := history + Concat(parts);
    assert Explains(parts[i], queries[i], hash, loaded, measured[i]);
    forall k | 0 <= k < |parts[i]| && parts[i][k].Ran? ensures parts[i][k].ran.result == replies(parts[i][k].query) {
      PartInside(parts, i, parts[i][k]);
      assert parts[i][k] in whole;
      var at :| 0 <= at < |whole| && whole[at] == parts[i][k];
      ConsistentAt(run, whole, at);
    }
    ShapeFromPart(parts[i], queries[i], hash, loaded, measured[i], replies);
  }

  lemma ShapeFromPart(events: seq<Event>, query: Query, hash: Answers.Answer -> Digest, loaded: bool, m: Measured,
                      replies: Query -> Result<Answers.Answer, DriverError>)
    requires Explains(events, query, hash, loaded, m)
    requires forall k | 0 <= k < |events| && events[k].Ran? :: events[k].ran.result == replies(events[k].query)
    ensures ShapeOf(m) == ExpectedShape(query, replies, hash, loaded)
  {
    if loaded {
      assert events[1].Ran? && events[1].query == query;
    }
  }
}
