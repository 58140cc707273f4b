/** The three phases of a run and the bookkeeping around a driver that may do anything. */
module Session {
  import opened Wrappers
  import opened Reals
  import Answers = Answer

  datatype Phase = Prepare | Load | Run

  datatype Setup = Setup(directory: string, threads: nat, memory: nat)
  datatype Table = Table(name: string, files: seq<string>)
  datatype Query = Query(id: string, sql: string, ordered: bool)

  datatype DriverError =
    | OutOfOrder(phase: Phase, wanted: Phase)
    | Repeated(phase: Phase)
    | Unsupported(what: string, why: string)
    | NotATable
    | System(context: string, source: string)

  function PhaseName(phase: Phase): string {
    match phase
    case Prepare => "prepare"
    case Load => "load"
    case Run => "run"
  }

  /** What an error says. */
  function Describe(e: DriverError): string {
    match e
    case OutOfOrder(phase, wanted) => PhaseName(phase) + " was asked for before " + PhaseName(wanted)
    case Repeated(phase) => PhaseName(phase) + " happens once and was asked for again"
    case Unsupported(what, why) => what + " is not supported: " + why
    case NotATable => "the result is not a table"
    case System(context, source) => context + ": " + source
  }

  /** The words for a phase asked for too early. */
  lemma TooEarlyWords()
    ensures Describe(OutOfOrder(Phase.Load, Phase.Prepare)) == "load was asked for before prepare"
  {
  }

  /** And for one asked for again. */
  lemma AgainWords()
    ensures Describe(Repeated(Phase.Prepare)) == "prepare" + " happens once and was asked for again"
  {
  }

  /** The words of the other errors hold what the driver said. */
  lemma OtherWords(what: string, why: string)
    ensures Describe(Unsupported(what, why)) == what + " is not supported: " + why
    ensures Describe(NotATable) == "the result is not a table"
    ensures Describe(System(what, why)) == what + ": " + why
  {
  }

  /** What the page cache did when it was asked to forget. */
  datatype Cold = Dropped | Kept(why: string)

  /** What a call came to, and how long it took as timed from outside. */
  datatype Reply<+T> = Reply(result: Result<T, DriverError>, elapsed: real)

  /** One thing the harness did to the world outside it. */
  datatype Event =
    | Prepared(setup: Setup, prepared: Reply<()>)
    | Loaded(table: Table, loaded: Reply<()>)
    | Ran(query: Query, ran: Reply<Answers.Answer>)
    | Evicted(cold: Cold)

  /** Every run in a history is what the driver replied at that point. */
  predicate Consistent(run: (seq<Event>, Query) -> Reply<Answers.Answer>, history: seq<Event>) {
    history == [] ||
    var front, e := history[..|history| - 1], history[|history| - 1];
    Consistent(run, front) && (e.Ran? ==> e.ran == run(front, e.query))
  }

  // What a trace adds up to

  datatype Phases = Phases(prepare: real, load: real, run: real, tables: nat, queries: nat)

  datatype Ledger = Ledger(prepared: bool, loaded: bool, phases: Phases)

  const OPENED := Ledger(false, false, Phases(0.0, 0.0, 0.0, 0, 0))

  /** A successful call is counted and its time added; a failed one leaves nothing. */
  function Enter(l: Ledger, e: Event): Ledger {
    match e
    case Prepared(_, Reply(Ok(_), t)) => l.(prepared := true, phases := l.phases.(prepare := l.phases.prepare + t))
    case Loaded(_, Reply(Ok(_), t)) =>
      l.(loaded := true, phases := l.phases.(load := l.phases.load + t, tables := l.phases.tables + 1))
    case Ran(_, Reply(Ok(_), t)) => l.(phases := l.phases.(run := l.phases.run + t, queries := l.phases.queries + 1))
    case _ => l
  }

  function Tally(trace: seq<Event>): Ledger {
    if trace == [] then OPENED else Enter(Tally(trace[..|trace| - 1]), trace[|trace| - 1])
  }

  /** The call was allowed by what had succeeded before it. */
  predicate Allowed(l: Ledger, e: Event) {
    match e
    case Prepared(_, _) => !l.prepared
    case Loaded(_, _) => l.prepared
    case Ran(_, _) => l.loaded
    case Evicted(_) => true
  }

  predicate InOrder(trace: seq<Event>) {
    trace == [] ||
    var front := trace[..|trace| - 1];
    InOrder(front) && Allowed(Tally(front), trace[|trace| - 1])
  }

  lemma TraceGrows(trace: seq<Event>, e: Event)
    ensures Tally(trace + [e]) == Enter(Tally(trace), e)
    ensures InOrder(trace + [e]) <==> InOrder(trace) && Allowed(Tally(trace), e)
  {
    assert (trace + [e])[..|trace + [e]| - 1] == trace;
  }

  /** What was prepared or loaded in a prefix stays so. */
  lemma {:induction false} TallyKeeps(trace: seq<Event>, i: nat)
    requires i <= |trace|
    ensures Tally(trace[..i]).prepared ==> Tally(trace).prepared
    ensures Tally(trace[..i]).loaded ==> Tally(trace).loaded
  {
    if i < |trace| {
      var front := trace[..|trace| - 1];
      assert front[..i] == trace[..i];
      TallyKeeps(front, i);
    } else {
      assert trace[..i] == trace;
    }
  }

  /** Being loaded means an earlier load that succeeded, and being prepared an earlier prepare. */
  lemma {:induction false} TallyWitness(trace: seq<Event>)
    ensures Tally(trace).prepared <==> exists i :: 0 <= i < |trace| && trace[i].Prepared? && trace[i].prepared.result.Ok?
    ensures Tally(trace).loaded <==> exists i :: 0 <= i < |trace| && trace[i].Loaded? && trace[i].loaded.result.Ok?
  {
    if trace != [] {
      var front := trace[..|trace| - 1];
      TallyWitness(front);
      assert forall i | 0 <= i < |front| :: front[i] == trace[i];
      var last := |trace| - 1;
      assert Tally(trace) == Enter(Tally(front), trace[last]);
    }
  }

  lemma {:induction false} InOrderAt(trace: seq<Event>, i: nat)
    requires InOrder(trace) && i < |trace|
    ensures Allowed(Tally(trace[..i]), trace[i])
  {
    var front := trace[..|trace| - 1];
    if i < |front| {
      InOrderAt(front, i);
      assert front[..i] == trace[..i];
    } else {
      assert front == trace[..i];
    }
  }

  /** Over any trace in order: every load that reached the driver has a successful prepare before it,
      every run a successful load, and a successful prepare has no prepare after it. */
  lemma PhaseSafety(trace: seq<Event>, i: nat)
    requires InOrder(trace) && i < |trace|
    ensures trace[i].Loaded? ==> exists j :: 0 <= j < i && trace[j].Prepared? && trace[j].prepared.result.Ok?
    ensures trace[i].Ran? ==> exists j :: 0 <= j < i && trace[j].Loaded? && trace[j].loaded.result.Ok?
    ensures trace[i].Prepared? ==> forall j | 0 <= j < i && trace[j].Prepared? :: trace[j].prepared.result.Err?
  {
    InOrderAt(trace, i);
    TallyWitness(trace[..i]);
    assert forall j | 0 <= j < i :: trace[..i][j] == trace[j];
    if trace[i].Prepared? {
      forall j | 0 <= j < i && trace[j].Prepared? ensures trace[j].prepared.result.Err? {
        assert trace[..i][j] == trace[j];
      }
    }
  }

  /** The times of the successful calls of one phase, in the order they were made. */
  function Times(trace: seq<Event>, phase: Phase): seq<real> {
    if trace == [] then []
    else TimeOf(trace[0], phase) + Times(trace[1..], phase)
  }

  lemma {:induction false} TimesGrow(trace: seq<Event>, e: Event, phase: Phase)
    ensures Times(trace + [e], phase) == Times(trace, phase) + Times([e], phase)
  {
    if trace == [] {
      assert trace + [e] == [e];
    } else {
      TimesGrow(trace[1..], e, phase);
      assert (trace + [e])[1..] == trace[1..] + [e];
    }
  }

  lemma SumGrows(times: seq<real>, more: seq<real>)
    requires |more| <= 1
    ensures Sum(times + more) == Sum(times) + (if more == [] then 0.0 else more[0])
  {
    if more == [] {
      assert times + more == times;
    } else {
      assert (times + more)[..|times|] == times;
    }
  }

  function TimeOf(e: Event, phase: Phase): seq<real> {
    match e
    case Prepared(_, Reply(Ok(_), t)) => if phase == Phase.Prepare then [t] else []
    case Loaded(_, Reply(Ok(_), t)) => if phase == Phase.Load then [t] else []
    case Ran(_, Reply(Ok(_), t)) => if phase == Phase.Run then [t] else []
    case _ => []
  }

  lemma TimesStep(front: seq<Event>, e: Event, phase: Phase)
    ensures |Times(front + [e], phase)| == |Times(front, phase)| + |TimeOf(e, phase)|
    ensures Sum(Times(front + [e], phase))
         == Sum(Times(front, phase)) + (if TimeOf(e, phase) == [] then 0.0 else TimeOf(e, phase)[0])
  {
    TimesGrow(front, e, phase);
    assert [e][1..] == [];
    assert Times([e], phase) == TimeOf(e, phase) + [];
    SumGrows(Times(front, phase), TimeOf(e, phase));
  }

  function Totals(trace: seq<Event>): Phases {
    Phases(Sum(Times(trace, Phase.Prepare)), Sum(Times(trace, Phase.Load)), Sum(Times(trace, Phase.Run)),
           |Times(trace, Phase.Load)|, |Times(trace, Phase.Run)|)
  }

  lemma TotalsStep(front: seq<Event>, e: Event, l: Ledger)
    requires l.phases == Totals(front)
    ensures Totals(front + [e]) == Enter(l, e).phases
  {
    hide Times, Sum;
    TimesStep(front, e, Phase.Prepare);
    TimesStep(front, e, Phase.Load);
    TimesStep(front, e, Phase.Run);
  }

  /** The totals and counts are the sums over the successful calls, whatever was later done with what
      they returned. */
  lemma {:induction false} TallySums(trace: seq<Event>)
    ensures Tally(trace).phases == Totals(trace)
  {
    if trace != [] {
      hide Totals, Enter;
      var front, e := trace[..|trace| - 1], trace[|trace| - 1];
      TallySums(front);
      TotalsStep(front, e, Tally(front));
      assert trace == front + [e];
    }
  }

  /** A driver and a page cache.  Each reply may depend on everything that happened before, so this is
      any driver, and the history is the trace of what reached it. */
  class Outside {
    const prepare: (seq<Event>, Setup) -> Reply<()>
    const load: (seq<Event>, Table) -> Reply<()>
    const run: (seq<Event>, Query) -> Reply<Answers.Answer>
    const evict: seq<Event> -> Cold
    var history: seq<Event>

    constructor (prepare: (seq<Event>, Setup) -> Reply<()>, load: (seq<Event>, Table) -> Reply<()>,
                 run: (seq<Event>, Query) -> Reply<Answers.Answer>, evict: seq<Event> -> Cold)
      ensures history == [] && Valid()
      ensures this.prepare == prepare && this.load == load && this.run == run && this.evict == evict
    {
      this.prepare, this.load, this.run, this.evict := prepare, load, run, evict;
      history := [];
    }

    ghost predicate Valid()
      reads this
    {
      Consistent(run, history)
    }

    method Record(e: Event)
      requires Valid() && (e.Ran? ==> e.ran == run(history, e.query))
      modifies this
      ensures Valid() && history == old(history) + [e]
    {
      assert (history + [e])[..|history + [e]| - 1] == history;
      history := history + [e];
    }
  }

  /** What stands between a driver and its callers: the order of the phases and what they cost. */
  class Session {
    const outside: Outside
    var phases: Phases
    var prepared: bool
    var loaded: bool
    /** Where in the history this session began. */
    ghost const start: nat

    /** What has happened since the session began. */
    ghost function Trace(): seq<Event>
      reads outside
    {
      if start <= |outside.history| then outside.history[start..] else []
    }

    /** The flags and totals are those of the session's trace, and the trace is in phase order. */
    ghost predicate Valid()
      reads this, outside
    {
      && start <= |outside.history| && outside.Valid()
      && Tally(Trace()) == Ledger(prepared, loaded, phases)
      && InOrder(Trace())
    }

    constructor (outside: Outside)
      requires outside.Valid()
      ensures Valid() && this.outside == outside && Trace() == []
    {
      this.outside := outside;
      phases := Phases(0.0, 0.0, 0.0, 0, 0);
      prepared, loaded := false, false;
      start := |outside.history|;
    }

    /** Adds an allowed event; the session is valid again once its flags and totals are entered. */
    method Note(e: Event)
      requires Valid() && Allowed(Ledger(prepared, loaded, phases), e)
      requires e.Ran? ==> e.ran == outside.run(outside.history, e.query)
      modifies outside
      ensures start <= |outside.history| && outside.Valid()
      ensures outside.history == old(outside.history) + [e]
      ensures Trace() == old(Trace()) + [e]
      ensures Tally(Trace()) == Enter(Ledger(prepared, loaded, phases), e) && InOrder(Trace())
    {
      TraceGrows(Trace(), e);
      outside.Record(e);
      assert Trace() == old(Trace()) + [e];
    }

    /** The page cache is asked between the driver's calls. */
    method Evict() returns (cold: Cold)
      requires Valid()
      modifies outside
      ensures Valid() && outside.history == old(outside.history) + [Evicted(cold)]
    {
      cold := outside.evict(outside.history);
      Note(Evicted(cold));
    }

    method Prepare(setup: Setup) returns (r: Result<real, DriverError>)
      requires Valid()
      modifies this, outside
      ensures Valid() && loaded == old(loaded)
      ensures old(prepared) ==>
        r == Err(Repeated(Phase.Prepare)) && outside.history == old(outside.history) && prepared && phases == old(phases)
      ensures !old(prepared) ==>
        var reply := outside.prepare(old(outside.history), setup);
        && outside.history == old(outside.history) + [Prepared(setup, reply)]
        && r == (if reply.result.Ok? then Ok(reply.elapsed) else Err(reply.result.error))
        && prepared == reply.result.Ok?
        && phases == (if r.Ok? then old(phases).(prepare := old(phases).prepare + reply.elapsed) else old(phases))
    {
      hide Tally, InOrder, Consistent;
      if prepared {
        return Err(Repeated(Phase.Prepare));
      }
      var reply := outside.prepare(outside.history, setup);
      Note(Prepared(setup, reply));
      if reply.result.Ok? {
        prepared := true;
        phases := phases.(prepare := phases.prepare + reply.elapsed);
      }
      return Timed(reply);
    }

    method Load(table: Table) returns (r: Result<real, DriverError>)
      requires Valid()
      modifies this, outside
      ensures Valid() && prepared == old(prepared)
      ensures !old(prepared) ==>
        && r == Err(OutOfOrder(Phase.Load, Phase.Prepare)) && outside.history == old(outside.history)
        && loaded == old(loaded) && phases == old(phases)
      ensures old(prepared) ==>
        var reply := outside.load(old(outside.history), table);
        && outside.history == old(outside.history) + [Loaded(table, reply)]
        && r == (if reply.result.Ok? then Ok(reply.elapsed) else Err(reply.result.error))
        && loaded == (old(loaded) || reply.result.Ok?)
        && phases == (if r.Ok? then old(phases).(load := old(phases).load + reply.elapsed, tables := old(phases).tables + 1)
                      else old(phases))
    {
      hide Tally, InOrder, Consistent;
      if !prepared {
        return Err(OutOfOrder(Phase.Load, Phase.Prepare));
      }
      var reply := outside.load(outside.history, table);
      Note(Loaded(table, reply));
      if reply.result.Ok? {
        loaded := true;
        phases := phases.(load := phases.load + reply.elapsed, tables := phases.tables + 1);
      }
      return Timed(reply);
    }

    method Ask(query: Query) returns (r: Result<(Answers.Answer, real), DriverError>)
      requires Valid()
      modifies this, outside
      ensures Valid() && prepared == old(prepared) && loaded == old(loaded)
      ensures !old(loaded) ==>
        r == Err(OutOfOrder(Phase.Run, Phase.Load)) && outside.history == old(outside.history) && phases == old(phases)
      ensures old(loaded) ==>
        var reply := outside.run(old(outside.history), query);
        && outside.history == old(outside.history) + [Ran(query, reply)]
        && r == (if reply.result.Ok? then Ok((reply.result.value, reply.elapsed)) else Err(reply.result.error))
        && phases == (if r.Ok? then old(phases).(run := old(phases).run + reply.elapsed, queries := old(phases).queries + 1)
                      else old(phases))
    {
      hide Tally, InOrder, Consistent;
      if !loaded {
        return Err(OutOfOrder(Phase.Run, Phase.Load));
      }
      var reply := outside.run(outside.history, query);
      Note(Ran(query, reply));
      if reply.result.Err? {
        return Err(reply.result.error);
      }
      phases := phases.(run := phases.run + reply.elapsed, queries := phases.queries + 1);
      return Ok((reply.result.value, reply.elapsed));
    }
  }

  function Timed(reply: Reply<()>): Result<real, DriverError> {
    match reply.result
    case Ok(_) => Ok(reply.elapsed)
    case Err(e) => Err(e)
  }
}
