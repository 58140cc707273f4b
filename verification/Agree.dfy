/** Sorts queries by how many systems answered them, and whether alike. */
module Agree {
  import opened Wrappers
  import opened Protocol
  import opened Sorting

  datatype Reading = Reading(driver: string, digest: Digest, rows: nat)

  datatype Disagreement = Disagreement(query: string, readings: seq<Reading>)

  datatype Unstable = Unstable(driver: string, query: string)

  datatype Comparison = Comparison(
    agreed: seq<string>, disagreed: seq<Disagreement>, alone: seq<string>, unanswered: seq<string>,
    unstable: seq<Unstable>)

  // What one id comes to

  /** The first record of a query in a report. */
  function Find(queries: seq<Measured>, id: string): Option<Measured> {
    if queries == [] then None
    else if queries[0].id == id then Some(queries[0])
    else Find(queries[1..], id)
  }

  /** What one report says about a query: a reading if it answered, and nothing otherwise. */
  function ReadingOf(report: Report, id: string): seq<Reading> {
    match Find(report.queries, id)
    case None => []
    case Some(m) => if Runs(m) == [] then [] else [Reading(report.driver, Runs(m)[0].digest, Runs(m)[0].rows)]
  }

  function Readings(reports: seq<Report>, id: string): seq<Reading> {
    if reports == [] then []
    else Readings(reports[..|reports| - 1], id) + ReadingOf(reports[|reports| - 1], id)
  }

  datatype Class = Unanswered | Alone | Agreed | Disagreed

  function ClassOf(readings: seq<Reading>): Class {
    if |readings| == 0 then Unanswered
    else if |readings| == 1 then Alone
    else if forall r | r in readings :: r.digest == readings[0].digest then Agreed
    else Disagreed
  }

  // Every id, in the order first mentioned

  function Mentions(reports: seq<Report>): seq<string> {
    if reports == [] then [] else Mentions(reports[..|reports| - 1]) + Ids(reports[|reports| - 1].queries)
  }

  function Ids(queries: seq<Measured>): (ids: seq<string>)
    ensures |ids| == |queries| && forall i | 0 <= i < |ids| :: ids[i] == queries[i].id
  {
    seq(|queries|, i requires 0 <= i < |queries| => queries[i].id)
  }

  function FirstMentions(mentions: seq<string>): seq<string> {
    if mentions == [] then []
    else
      var before, id := FirstMentions(mentions[..|mentions| - 1]), mentions[|mentions| - 1];
      if id in before then before else before + [id]
  }

  /** The first mentions are the mentioned ids, each once, and one comes before another exactly as it
      does where they are first mentioned. */
  lemma {:induction false} FirstMentionsExact(mentions: seq<string>)
    ensures forall id :: id in FirstMentions(mentions) <==> id in mentions
    ensures forall i, j | 0 <= i < j < |FirstMentions(mentions)| :: FirstMentions(mentions)[i] != FirstMentions(mentions)[j]
    ensures forall i, k | 0 <= i < |FirstMentions(mentions)| && 0 <= k < |mentions| && mentions[k] == FirstMentions(mentions)[i] ::
      forall j | 0 <= j < i :: FirstMentions(mentions)[j] in mentions[..k]
  {
    if mentions != [] {
      var front, id := mentions[..|mentions| - 1], mentions[|mentions| - 1];
      FirstMentionsExact(front);
      assert mentions == front + [id];
      var ids := FirstMentions(mentions);
      forall i, k, j | 0 <= i < |ids| && 0 <= k < |mentions| && mentions[k] == ids[i] && 0 <= j < i
        ensures ids[j] in mentions[..k]
      {
        if k < |front| {
          assert front[k] in front;
          assert front[..k] == mentions[..k];
        } else {
          assert mentions[..k] == front;
        }
      }
    }
  }

  /** The ids of one class, in order. */
  function OfClass(reports: seq<Report>, ids: seq<string>, class_: Class): seq<string> {
    if ids == [] then []
    else OfClass(reports, ids[..|ids| - 1], class_)
         + if ClassOf(Readings(reports, ids[|ids| - 1])) == class_ then [ids[|ids| - 1]] else []
  }

  function Disputes(reports: seq<Report>, ids: seq<string>): seq<Disagreement> {
    seq(|ids|, i requires 0 <= i < |ids| => Disagreement(ids[i], Readings(reports, ids[i])))
  }

  /** What a system that disagreed with itself on one query leaves. */
  function UnstableOf(report: Report, id: string): seq<Unstable> {
    match Find(report.queries, id)
    case None => []
    case Some(m) => if Steady(m) then [] else [Unstable(report.driver, id)]
  }

  function UnstablesOf(reports: seq<Report>, id: string): seq<Unstable> {
    if reports == [] then [] else UnstablesOf(reports[..|reports| - 1], id) + UnstableOf(reports[|reports| - 1], id)
  }

  function Unstables(reports: seq<Report>, ids: seq<string>): seq<Unstable> {
    if ids == [] then [] else Unstables(reports, ids[..|ids| - 1]) + UnstablesOf(reports, ids[|ids| - 1])
  }

  // The operations

  method AddIds(queries: seq<Measured>, seen: seq<string>, ghost before: seq<string>) returns (ids: seq<string>)
    requires seen == FirstMentions(before)
    ensures ids == FirstMentions(before + Ids(queries))
  {
    ids := seen;
    assert before + Ids(queries[..0]) == before;
    for q := 0 to |queries|
      invariant ids == FirstMentions(before + Ids(queries[..q]))
    {
      ghost var now := before + Ids(queries[..q + 1]);
      assert now[..|now| - 1] == before + Ids(queries[..q]) && now[|now| - 1] == queries[q].id;
      if queries[q].id !in ids {
        ids := ids + [queries[q].id];
      }
    }
    assert queries[..|queries|] == queries;
  }

  method CollectIds(reports: seq<Report>) returns (ids: seq<string>)
    ensures ids == FirstMentions(Mentions(reports))
  {
    ids := [];
    for r := 0 to |reports|
      invariant ids == FirstMentions(Mentions(reports[..r]))
    {
      assert reports[..r + 1][..r] == reports[..r];
      ids := AddIds(reports[r].queries, ids, Mentions(reports[..r]));
    }
    assert reports[..|reports|] == reports;
  }

  method Lookup(queries: seq<Measured>, id: string) returns (found: Option<Measured>)
    ensures found == Find(queries, id)
  {
    for at := 0 to |queries|
      invariant Find(queries, id) == Find(queries[at..], id)
    {
      assert queries[at..][1..] == queries[at + 1..];
      if queries[at].id == id {
        return Some(queries[at]);
      }
    }
    return None;
  }

  method Gather(reports: seq<Report>, id: string) returns (readings: seq<Reading>, unstable: seq<Unstable>)
    ensures readings == Readings(reports, id) && unstable == UnstablesOf(reports, id)
  {
    readings, unstable := [], [];
    for r := 0 to |reports|
      invariant readings == Readings(reports[..r], id) && unstable == UnstablesOf(reports[..r], id)
    {
      assert reports[..r + 1][..r] == reports[..r];
      var found := Lookup(reports[r].queries, id);
      if found.Some? {
        if !Steady(found.value) {
          unstable := unstable + [Unstable(reports[r].driver, id)];
        }
        var digest, rows := DigestOf(found.value), RowsOf(found.value);
        if digest.Some? && rows.Some? {
          readings := readings + [Reading(reports[r].driver, digest.value, rows.value)];
        }
      }
    }
    assert reports[..|reports|] == reports;
  }

  /** A query placed in the list of its class. */
  function Place(c: Comparison, id: string, readings: seq<Reading>): Comparison {
    match ClassOf(readings)
    case Unanswered => c.(unanswered := c.unanswered + [id])
    case Alone => c.(alone := c.alone + [id])
    case Agreed => c.(agreed := c.agreed + [id])
    case Disagreed => c.(disagreed := c.disagreed + [Disagreement(id, readings)])
  }

  /** The comparison over some of the ids. */
  function Compared(reports: seq<Report>, ids: seq<string>): Comparison {
    Comparison(
      OfClass(reports, ids, Agreed), Disputes(reports, OfClass(reports, ids, Disagreed)),
      OfClass(reports, ids, Alone), OfClass(reports, ids, Unanswered), Unstables(reports, ids))
  }

  lemma ComparedGrows(reports: seq<Report>, ids: seq<string>, id: string)
    ensures Compared(reports, ids + [id])
         == Place(Compared(reports, ids), id, Readings(reports, id))
              .(unstable := Compared(reports, ids).unstable + UnstablesOf(reports, id))
  {
    hide ClassOf, Readings, UnstablesOf;
    var longer := ids + [id];
    assert longer[..|longer| - 1] == ids;
    var disputed := OfClass(reports, ids, Disagreed);
    assert Disputes(reports, disputed + [id]) == Disputes(reports, disputed) + [Disagreement(id, Readings(reports, id))];
    assert forall c :: OfClass(reports, ids, c) + [] == OfClass(reports, ids, c);
  }

  /** Each list holds the ids of its class in first-mention order, with what the systems said wherever
      they differ. */
  method Compare(reports: seq<Report>) returns (c: Comparison)
    ensures c == Compared(reports, FirstMentions(Mentions(reports)))
  {
    hide Readings, UnstablesOf, OfClass, Disputes;
    c := Comparison([], [], [], [], []);
    var ids := CollectIds(reports);
    ComparedNone(reports);
    assert ids[..0] == [];
    for i := 0 to |ids|
      invariant c == Compared(reports, ids[..i])
    {
      ComparedGrows(reports, ids[..i], ids[i]);
      assert ids[..i] + [ids[i]] == ids[..i + 1];
      var readings, unstable := Gather(reports, ids[i]);
      c := c.(unstable := c.unstable + unstable);
      match |readings| {
        case 0 => c := c.(unanswered := c.unanswered + [ids[i]]);
        case 1 => c := c.(alone := c.alone + [ids[i]]);
        case _ =>
          if forall r | r in readings :: r.digest == readings[0].digest {
            c := c.(agreed := c.agreed + [ids[i]]);
          } else {
            c := c.(disagreed := c.disagreed + [Disagreement(ids[i], readings)]);
          }
      }
    }
    assert ids[..|ids|] == ids;
  }

  lemma ComparedNone(reports: seq<Report>)
    ensures Compared(reports, []) == Comparison([], [], [], [], [])
  {
  }

  // What the comparison means

  lemma {:induction false} OfClassExact(reports: seq<Report>, ids: seq<string>, class_: Class)
    ensures forall id :: id in OfClass(reports, ids, class_) <==> id in ids && ClassOf(Readings(reports, id)) == class_
    ensures |OfClass(reports, ids, class_)| <= |ids|
  {
    if ids != [] {
      OfClassExact(reports, ids[..|ids| - 1], class_);
      assert ids == ids[..|ids| - 1] + [ids[|ids| - 1]];
    }
  }

  /** Within a list the ids stand in the order they were first mentioned in. */
  lemma {:induction false} OfClassInOrder(reports: seq<Report>, ids: seq<string>, class_: Class)
    ensures var list := OfClass(reports, ids, class_);
      forall i, j | 0 <= i < j < |list| :: exists k, l :: 0 <= k < l < |ids| && ids[k] == list[i] && ids[l] == list[j]
  {
    hide ClassOf, Readings;
    if ids != [] {
      var n := |ids| - 1;
      OfClassInOrder(reports, ids[..n], class_);
      OfClassExact(reports, ids[..n], class_);
      var list, front := OfClass(reports, ids, class_), OfClass(reports, ids[..n], class_);
      forall i, j | 0 <= i < j < |list| ensures exists k, l :: 0 <= k < l < |ids| && ids[k] == list[i] && ids[l] == list[j] {
        assert list[i] == front[i] && front[i] in front;
        if j < |front| {
          var k, l :| 0 <= k < l < n && ids[..n][k] == front[i] && ids[..n][l] == front[j];
          assert ids[k] == list[i] && ids[l] == list[j];
        } else {
          var k :| 0 <= k < n && ids[..n][k] == front[i];
          assert ids[k] == list[i] && ids[n] == list[j];
        }
      }
    }
  }

  // Who disagreed with itself

  /** The first record of a query in some report of this driver is not steady. */
  ghost predicate Unsteady(reports: seq<Report>, driver: string, id: string) {
    exists r :: 0 <= r < |reports| && reports[r].driver == driver && UnsteadyIn(reports[r], id)
  }

  predicate UnsteadyIn(report: Report, id: string) {
    Find(report.queries, id).Some? && !Steady(Find(report.queries, id).value)
  }

  lemma {:induction false} UnstablesOfExactly(reports: seq<Report>, id: string)
    ensures forall u :: u in UnstablesOf(reports, id) <==> u.query == id && Unsteady(reports, u.driver, id)
  {
    hide Steady, Find;
    if reports != [] {
      var n := |reports| - 1;
      UnstablesOfExactly(reports[..n], id);
      forall u ensures u in UnstablesOf(reports, id) <==> u.query == id && Unsteady(reports, u.driver, id) {
        UnsteadyLast(reports, u.driver, id);
      }
    }
  }

  lemma UnsteadyLast(reports: seq<Report>, driver: string, id: string)
    requires reports != []
    ensures var last := reports[|reports| - 1];
      Unsteady(reports, driver, id) <==>
        Unsteady(reports[..|reports| - 1], driver, id) || (last.driver == driver && UnsteadyIn(last, id))
  {
    hide UnsteadyIn;
    var n := |reports| - 1;
    assert forall r | 0 <= r < n :: reports[..n][r] == reports[r];
  }

  /** The unstable list names a driver and a query exactly when the query is mentioned and some report of
      that driver recorded it first with answers that differ between runs. */
  lemma {:induction false} UnstablesExactly(reports: seq<Report>, ids: seq<string>)
    ensures forall u :: u in Unstables(reports, ids) <==> u.query in ids && Unsteady(reports, u.driver, u.query)
  {
    hide Unsteady, UnstablesOf;
    if ids != [] {
      var n := |ids| - 1;
      UnstablesExactly(reports, ids[..n]);
      UnstablesOfExactly(reports, ids[n]);
      assert ids == ids[..n] + [ids[n]];
    }
  }

  function Occurs(c: bool): nat {
    if c then 1 else 0
  }

  lemma OfClassGrows(reports: seq<Report>, ids: seq<string>, class_: Class, x: string)
    requires ids != []
    ensures multiset(OfClass(reports, ids, class_))[x]
         == multiset(OfClass(reports, ids[..|ids| - 1], class_))[x]
          + Occurs(ClassOf(Readings(reports, ids[|ids| - 1])) == class_ && x == ids[|ids| - 1])
  {
    hide ClassOf, Readings;
  }

  lemma LastCounts(ids: seq<string>, x: string)
    requires ids != []
    ensures multiset(ids)[x] == multiset(ids[..|ids| - 1])[x] + Occurs(x == ids[|ids| - 1])
  {
    assert ids == ids[..|ids| - 1] + [ids[|ids| - 1]];
  }

  lemma {:induction false} ClassesCount(reports: seq<Report>, ids: seq<string>, x: string)
    ensures multiset(OfClass(reports, ids, Agreed))[x] + multiset(OfClass(reports, ids, Disagreed))[x]
          + multiset(OfClass(reports, ids, Alone))[x] + multiset(OfClass(reports, ids, Unanswered))[x] == multiset(ids)[x]
  {
    if ids != [] {
      hide ClassOf, Readings, OfClass;
      ClassesCount(reports, ids[..|ids| - 1], x);
      LastCounts(ids, x);
      OfClassGrows(reports, ids, Agreed, x);
      OfClassGrows(reports, ids, Disagreed, x);
      OfClassGrows(reports, ids, Alone, x);
      OfClassGrows(reports, ids, Unanswered, x);
    }
  }

  lemma ClassesAddUp(reports: seq<Report>, ids: seq<string>)
    ensures multiset(OfClass(reports, ids, Agreed)) + multiset(OfClass(reports, ids, Disagreed))
          + multiset(OfClass(reports, ids, Alone)) + multiset(OfClass(reports, ids, Unanswered)) == multiset(ids)
  {
    hide OfClass;
    var a, d := multiset(OfClass(reports, ids, Agreed)), multiset(OfClass(reports, ids, Disagreed));
    var l, u := multiset(OfClass(reports, ids, Alone)), multiset(OfClass(reports, ids, Unanswered));
    forall x: string ensures (a + d + l + u)[x] == multiset(ids)[x] {
      ClassesCount(reports, ids, x);
    }
  }

  /** The four lists partition the queries any report mentions: together they are the first mentions
      themselves, each of which occurs once. */
  lemma EveryIdOnce(reports: seq<Report>)
    ensures var ids := FirstMentions(Mentions(reports));
      && (forall id :: id in ids <==> exists r, q :: 0 <= r < |reports| && 0 <= q < |reports[r].queries| && reports[r].queries[q].id == id)
      && (forall i, j | 0 <= i < j < |ids| :: ids[i] != ids[j])
      && multiset(OfClass(reports, ids, Agreed)) + multiset(OfClass(reports, ids, Disagreed))
       + multiset(OfClass(reports, ids, Alone)) + multiset(OfClass(reports, ids, Unanswered)) == multiset(ids)
  {
    var ids := FirstMentions(Mentions(reports));
    FirstMentionsExact(Mentions(reports));
    forall id {
      MentionsExact(reports, id);
    }
    ClassesAddUp(reports, ids);
  }

  lemma {:induction false} MentionsExact(reports: seq<Report>, id: string)
    ensures id in Mentions(reports) <==>
      exists r, q :: 0 <= r < |reports| && 0 <= q < |reports[r].queries| && reports[r].queries[q].id == id
  {
    if reports != [] {
      var last := |reports| - 1;
      var front := reports[..last];
      MentionsExact(front, id);
      if id in Ids(reports[last].queries) {
        var q :| 0 <= q < |reports[last].queries| && Ids(reports[last].queries)[q] == id;
        assert reports[last].queries[q].id == id;
      } else if id in Mentions(front) {
        var r, q :| 0 <= r < |front| && 0 <= q < |front[r].queries| && front[r].queries[q].id == id;
        assert reports[r].queries[q].id == id;
      } else {
        forall r, q | 0 <= r < |reports| && 0 <= q < |reports[r].queries| ensures reports[r].queries[q].id != id {
          if r < last {
            assert front[r].queries[q].id != id;
          } else {
            assert Ids(reports[last].queries)[q] != id;
          }
        }
      }
    }
  }

  // Order of the reports, and one more of them

  /** The class depends on the readings as a collection. */
  lemma ClassOfMultiset(a: seq<Reading>, b: seq<Reading>)
    requires multiset(a) == multiset(b)
    ensures ClassOf(a) == ClassOf(b)
  {
    assert |a| == |multiset(a)| == |multiset(b)| == |b|;
    if |a| >= 2 {
      assert a[0] in multiset(b) && b[0] in multiset(a);
      forall r ensures r in a <==> r in b {
        assert r in multiset(a) <==> r in multiset(b);
      }
    }
  }

  lemma {:induction false} ReadingsConcat(a: seq<Report>, b: seq<Report>, id: string)
    ensures Readings(a + b, id) == Readings(a, id) + Readings(b, id)
  {
    hide ReadingOf;
    if b == [] {
      assert a + b == a;
    } else {
      ReadingsConcat(a, b[..|b| - 1], id);
      assert (a + b)[..|a + b| - 1] == a + b[..|b| - 1];
      var x, y, last := Readings(a, id), Readings(b[..|b| - 1], id), ReadingOf(b[|b| - 1], id);
      assert (x + y) + last == x + (y + last);
    }
  }

  lemma ReadingsSplit(left: seq<Report>, report: Report, right: seq<Report>, id: string)
    ensures multiset(Readings(left + [report] + right, id))
         == multiset(Readings(left + right, id)) + multiset(ReadingOf(report, id))
  {
    hide ReadingOf;
    ReadingsConcat(left, right, id);
    ReadingsConcat(left + [report], right, id);
    ReadingsConcat(left, [report], id);
    assert [report][..0] == [];
    assert Readings([report], id) == [] + ReadingOf(report, id) == ReadingOf(report, id);
  }

  lemma {:induction false} ReadingsPermute(a: seq<Report>, b: seq<Report>, id: string)
    requires multiset(a) == multiset(b)
    ensures multiset(Readings(a, id)) == multiset(Readings(b, id))
  {
    hide Readings;
    if a == [] {
      assert |multiset(b)| == 0;
    } else {
      var k := PullHead(a, b);
      ReadingsPermute(a[1..], b[..k] + b[k + 1..], id);
      ReadingsSplit([], a[0], a[1..], id);
      ReadingsSplit(b[..k], a[0], b[k + 1..], id);
      assert [] + [a[0]] + a[1..] == a && [] + a[1..] == a[1..];
    }
  }

  /** Giving the reports in another order changes no query's class. */
  lemma OrderOfReports(a: seq<Report>, b: seq<Report>, id: string)
    requires multiset(a) == multiset(b)
    ensures ClassOf(Readings(a, id)) == ClassOf(Readings(b, id))
  {
    ReadingsPermute(a, b, id);
    ClassOfMultiset(Readings(a, id), Readings(b, id));
  }

  /** One more report, at any place, only ever adds to what is known of a query: a disagreement stays
      one, an agreement becomes at worst a disagreement, and a query answered once is not forgotten. */
  lemma OneMoreReport(before: seq<Report>, report: Report, after: seq<Report>, id: string)
    ensures var old_, new_ := ClassOf(Readings(before + after, id)), ClassOf(Readings(before + [report] + after, id));
      && (old_ == Disagreed ==> new_ == Disagreed)
      && (old_ == Agreed ==> new_ == Agreed || new_ == Disagreed)
      && (old_ == Alone ==> new_ != Unanswered)
      && (old_ == Unanswered ==> new_ == Unanswered || new_ == Alone)
  {
    ReadingsConcat(before, after, id);
    ReadingsConcat(before + [report], after, id);
    ReadingsConcat(before, [report], id);
    var more := ReadingOf(report, id);
    assert Readings([report], id) == more by {
      assert [report][..0] == [];
      assert Readings([], id) + more == more;
    }
    ReadingsGrow(Readings(before, id), more, Readings(after, id));
  }

  lemma ReadingsGrow(a: seq<Reading>, more: seq<Reading>, b: seq<Reading>)
    requires |more| <= 1
    ensures var old_, new_ := ClassOf(a + b), ClassOf(a + more + b);
      && (old_ == Disagreed ==> new_ == Disagreed)
      && (old_ == Agreed ==> new_ == Agreed || new_ == Disagreed)
      && (old_ == Alone ==> new_ != Unanswered)
      && (old_ == Unanswered ==> new_ == Unanswered || new_ == Alone)
  {
    var s, t := a + b, a + more + b;
    assert forall r | r in s :: r in t;
    if ClassOf(s) == Disagreed {
      assert s[0] in t;
      var r :| r in s && r.digest != s[0].digest;
      assert r in t;
    }
  }

  // What the lists say of the reports themselves

  /** The record at a place is the report's first of the query. */
  predicate FirstAt(report: Report, id: string, q: nat) {
    && q < |report.queries| && report.queries[q].id == id
    && forall p | 0 <= p < q :: report.queries[p].id != id
  }

  /** The report's first record of the query is an answer. */
  ghost predicate Answers(report: Report, id: string) {
    exists q: nat :: FirstAt(report, id, q) && AnswerAt(report, q)
  }

  predicate AnswerAt(report: Report, q: nat)
    requires q < |report.queries|
  {
    report.queries[q].outcome.Answered? && report.queries[q].outcome.runs != []
  }

  /** And its first run came to this. */
  ghost predicate AnswersWith(report: Report, id: string, digest: Digest, rows: nat) {
    exists q: nat :: FirstAt(report, id, q) && AnswerAt(report, q)
      && report.queries[q].outcome.runs[0].digest == digest && report.queries[q].outcome.runs[0].rows == rows
  }

  lemma {:induction false} FindIsFirst(queries: seq<Measured>, id: string, q: nat)
    requires q < |queries| && queries[q].id == id && forall p | 0 <= p < q :: queries[p].id != id
    ensures Find(queries, id) == Some(queries[q])
  {
    if q > 0 {
      assert queries[0].id != id;
      FindIsFirst(queries[1..], id, q - 1);
    }
  }

  lemma {:induction false} FoundIsFirst(queries: seq<Measured>, id: string)
    ensures Find(queries, id).Some? ==>
      exists q: nat :: q < |queries| && queries[q] == Find(queries, id).value && queries[q].id == id
        && forall p | 0 <= p < q :: queries[p].id != id
  {
    if queries != [] && queries[0].id != id {
      FoundIsFirst(queries[1..], id);
      if Find(queries[1..], id).Some? {
        var q: nat :| q < |queries| - 1 && queries[1..][q] == Find(queries[1..], id).value && queries[1..][q].id == id
          && forall p | 0 <= p < q :: queries[1..][p].id != id;
        assert queries[q + 1] == queries[1..][q];
        forall p | 0 <= p < q + 1 ensures queries[p].id != id {
          if p > 0 { assert queries[p] == queries[1..][p - 1]; }
        }
      }
    }
  }

  /** A report has one reading of a query exactly when it answers it, and the reading says what it answered. */
  lemma ReadingIsAnswer(report: Report, id: string)
    ensures ReadingOf(report, id) != [] <==> Answers(report, id)
    ensures ReadingOf(report, id) != [] ==> |ReadingOf(report, id)| == 1 && ReadingOf(report, id)[0].driver == report.driver
    ensures forall digest, rows ::
      AnswersWith(report, id, digest, rows) <==> ReadingOf(report, id) == [Reading(report.driver, digest, rows)]
  {
    FoundIsFirst(report.queries, id);
    forall q: nat | FirstAt(report, id, q) ensures Find(report.queries, id) == Some(report.queries[q]) {
      FindIsFirst(report.queries, id, q);
    }
    if Find(report.queries, id).Some? {
      var q: nat :| q < |report.queries| && report.queries[q] == Find(report.queries, id).value && FirstAt(report, id, q);
      assert FirstAt(report, id, q);
    }
  }

  /** The readings are what the reports at these places say, in the order of the places. */
  ghost predicate Placed(reports: seq<Report>, id: string, places: seq<nat>, readings: seq<Reading>) {
    && |places| == |readings|
    && (forall i | 0 <= i < |places| :: places[i] < |reports| && ReadingOf(reports[places[i]], id) == [readings[i]])
    && (forall i, j | 0 <= i < j < |places| :: places[i] < places[j])
  }

  /** No other report says anything. */
  ghost predicate NoOthers(reports: seq<Report>, id: string, places: seq<nat>) {
    forall r | 0 <= r < |reports| && ReadingOf(reports[r], id) != [] :: r in places
  }

  lemma PlacedMore(reports: seq<Report>, id: string, places: seq<nat>, readings: seq<Reading>)
    requires reports != [] && |ReadingOf(reports[|reports| - 1], id)| <= 1
    requires Placed(reports[..|reports| - 1], id, places, readings)
    ensures var last := ReadingOf(reports[|reports| - 1], id);
      Placed(reports, id, places + (if last == [] then [] else [|reports| - 1]), readings + last)
  {
    hide ReadingOf;
    var n := |reports| - 1;
    assert forall r | 0 <= r < n :: reports[..n][r] == reports[r];
    var last := ReadingOf(reports[n], id);
    if last != [] { assert last == [last[0]]; }
  }

  lemma NoOthersMore(reports: seq<Report>, id: string, places: seq<nat>)
    requires reports != [] && NoOthers(reports[..|reports| - 1], id, places)
    ensures NoOthers(reports, id, places + (if ReadingOf(reports[|reports| - 1], id) == [] then [] else [|reports| - 1]))
  {
    hide ReadingOf;
    var n := |reports| - 1;
    assert forall r | 0 <= r < n :: reports[..n][r] == reports[r];
  }

  /** Every reading is a report's, and every report that answers has one, in the order of the reports. */
  lemma {:induction false} ReadingsArePlaces(reports: seq<Report>, id: string) returns (places: seq<nat>)
    ensures Placed(reports, id, places, Readings(reports, id)) && NoOthers(reports, id, places)
  {
    if reports == [] {
      places := [];
    } else {
      hide Placed, NoOthers, ReadingOf;
      var n := |reports| - 1;
      places := ReadingsArePlaces(reports[..n], id);
      ReadingIsAnswer(reports[n], id);
      PlacedMore(reports, id, places, Readings(reports[..n], id));
      NoOthersMore(reports, id, places);
      places := places + (if ReadingOf(reports[n], id) == [] then [] else [n]);
    }
  }

  /** Two reports answer the query, and with different digests. */
  ghost predicate Differ(reports: seq<Report>, id: string, r: nat, s: nat) {
    && r < |reports| && s < |reports|
    && exists d, e, m, n :: d != e && AnswersWith(reports[r], id, d, m) && AnswersWith(reports[s], id, e, n)
  }

  ghost predicate Answering(reports: seq<Report>, id: string, r: nat) {
    r < |reports| && Answers(reports[r], id)
  }

  ghost predicate Nobody(reports: seq<Report>, id: string) {
    forall r :: !Answering(reports, id, r)
  }

  ghost predicate OnlyOne(reports: seq<Report>, id: string) {
    exists r :: Answering(reports, id, r) && forall s | Answering(reports, id, s) :: s == r
  }

  ghost predicate Several(reports: seq<Report>, id: string) {
    exists r, s :: r != s && Answering(reports, id, r) && Answering(reports, id, s)
  }

  ghost predicate SomeDiffer(reports: seq<Report>, id: string) {
    exists r, s :: Differ(reports, id, r, s)
  }

  lemma PlacesAnswer(reports: seq<Report>, id: string, places: seq<nat>, readings: seq<Reading>)
    requires Placed(reports, id, places, readings) && NoOthers(reports, id, places)
    ensures forall r :: Answering(reports, id, r) <==> r in places
  {
    forall r: nat ensures Answering(reports, id, r) <==> r in places {
      if r < |reports| { ReadingIsAnswer(reports[r], id); }
    }
  }

  lemma NumberOfPlaces(reports: seq<Report>, id: string, places: seq<nat>, readings: seq<Reading>)
    requires Placed(reports, id, places, readings) && NoOthers(reports, id, places)
    ensures |readings| == 0 <==> Nobody(reports, id)
    ensures |readings| == 1 <==> OnlyOne(reports, id)
    ensures |readings| >= 2 <==> Several(reports, id)
  {
    PlacesAnswer(reports, id, places, readings);
    hide Answering, ReadingOf, NoOthers;
    if |places| >= 1 { assert places[0] in places; }
    if |places| >= 2 { assert places[1] in places && places[0] != places[1]; }
  }

  lemma PlacesDiffer(reports: seq<Report>, id: string, r: nat, s: nat, x: Reading, y: Reading)
    requires r < |reports| && s < |reports|
    requires ReadingOf(reports[r], id) == [x] && ReadingOf(reports[s], id) == [y]
    ensures Differ(reports, id, r, s) <==> x.digest != y.digest
  {
    ReadingIsAnswer(reports[r], id);
    ReadingIsAnswer(reports[s], id);
    hide AnswersWith, ReadingOf;
    assert x == Reading(reports[r].driver, x.digest, x.rows) && y == Reading(reports[s].driver, y.digest, y.rows);
    assert AnswersWith(reports[r], id, x.digest, x.rows) && AnswersWith(reports[s], id, y.digest, y.rows);
  }

  lemma DifferAnswers(reports: seq<Report>, id: string, r: nat, s: nat)
    requires Differ(reports, id, r, s)
    ensures Answering(reports, id, r) && Answering(reports, id, s)
  {
  }

  lemma DifferenceFound(reports: seq<Report>, id: string, places: seq<nat>, readings: seq<Reading>)
    requires Placed(reports, id, places, readings) && NoOthers(reports, id, places) && readings != []
    ensures SomeDiffer(reports, id) <==> exists x :: x in readings && x.digest != readings[0].digest
  {
    PlacesAnswer(reports, id, places, readings);
    if x :| x in readings && x.digest != readings[0].digest {
      var i :| 0 <= i < |readings| && readings[i] == x;
      PlacesDiffer(reports, id, places[i], places[0], x, readings[0]);
    }
    if r, s :| Differ(reports, id, r, s) {
      DifferAnswers(reports, id, r, s);
      var i :| 0 <= i < |places| && places[i] == r;
      var j :| 0 <= j < |places| && places[j] == s;
      PlacesDiffer(reports, id, r, s, readings[i], readings[j]);
      assert readings[i] in readings && readings[j] in readings;
    }
  }

  /** What the class of a query says, over the places of the reports: nobody answers it, one does, several
      do and no two differ, or two differ. */
  lemma ClassOverPlaces(reports: seq<Report>, id: string)
    ensures var c := ClassOf(Readings(reports, id));
      && (c == Unanswered <==> Nobody(reports, id))
      && (c == Alone <==> OnlyOne(reports, id))
      && (c == Agreed <==> Several(reports, id) && !SomeDiffer(reports, id))
      && (c == Disagreed <==> SomeDiffer(reports, id))
  {
    hide Placed, NoOthers, Nobody, OnlyOne, Several, SomeDiffer;
    var readings := Readings(reports, id);
    var places := ReadingsArePlaces(reports, id);
    NumberOfPlaces(reports, id, places, readings);
    if readings == [] {
      NobodyDiffers(reports, id);
    } else {
      DifferenceFound(reports, id, places, readings);
    }
  }

  lemma NobodyDiffers(reports: seq<Report>, id: string)
    requires Nobody(reports, id)
    ensures !SomeDiffer(reports, id)
  {
    forall r, s | Differ(reports, id, r, s) ensures false { DifferAnswers(reports, id, r, s); }
  }

  lemma DisputesAre(reports: seq<Report>, ids: seq<string>, id: string)
    ensures (exists d :: d in Disputes(reports, ids) && d.query == id) <==> id in ids
    ensures forall d | d in Disputes(reports, ids) :: d.readings == Readings(reports, d.query)
  {
    hide Readings;
    if id in ids {
      var i :| 0 <= i < |ids| && ids[i] == id;
      assert Disputes(reports, ids)[i].query == id;
      assert Disputes(reports, ids)[i] in Disputes(reports, ids);
    }
  }

  /** The lists of a comparison, said of the reports: a query that some report mentions is unanswered when no
      report's first record of it is an answer, alone when one's is, agreed when several are and no two of
      their first runs came to different digests, and disagreed when two did. */
  lemma ListsExactly(reports: seq<Report>, id: string)
    ensures var c, mentioned := Compared(reports, FirstMentions(Mentions(reports))), id in Mentions(reports);
      && (id in c.unanswered <==> mentioned && Nobody(reports, id))
      && (id in c.alone <==> mentioned && OnlyOne(reports, id))
      && (id in c.agreed <==> mentioned && Several(reports, id) && !SomeDiffer(reports, id))
      && ((exists d :: d in c.disagreed && d.query == id) <==> mentioned && SomeDiffer(reports, id))
  {
    hide Nobody, OnlyOne, Several, SomeDiffer, Readings, ClassOf, Disputes, OfClass, Unstables;
    var ids := FirstMentions(Mentions(reports));
    FirstMentionsExact(Mentions(reports));
    OfClassExact(reports, ids, Unanswered);
    OfClassExact(reports, ids, Alone);
    OfClassExact(reports, ids, Agreed);
    OfClassExact(reports, ids, Disagreed);
    ClassOverPlaces(reports, id);
    DisputesAre(reports, OfClass(reports, ids, Disagreed), id);
  }

  /** The readings of a disagreement are what the reports at these places answered, in order: the driver, and
      the first run's digest and row count; and no other report answers. */
  ghost predicate SaidAt(reports: seq<Report>, d: Disagreement, places: seq<nat>) {
    && |places| == |d.readings|
    && (forall r :: Answering(reports, d.query, r) <==> r in places)
    && (forall i, j | 0 <= i < j < |places| :: places[i] < places[j])
    && forall i | 0 <= i < |places| ::
      && places[i] < |reports|
      && d.readings[i].driver == reports[places[i]].driver
      && AnswersWith(reports[places[i]], d.query, d.readings[i].digest, d.readings[i].rows)
  }

  /** A disagreement comes with what every report that answers the query said, in the order of the reports. */
  lemma DisagreementsSay(reports: seq<Report>, d: Disagreement)
    requires d in Compared(reports, FirstMentions(Mentions(reports))).disagreed
    ensures exists places :: SaidAt(reports, d, places)
  {
    hide Readings, OfClass, Answering, AnswersWith;
    DisputesAre(reports, OfClass(reports, FirstMentions(Mentions(reports)), Disagreed), d.query);
    var places := ReadingsArePlaces(reports, d.query);
    PlacesAnswer(reports, d.query, places, d.readings);
    forall i | 0 <= i < |places|
      ensures places[i] < |reports| && d.readings[i].driver == reports[places[i]].driver
      ensures AnswersWith(reports[places[i]], d.query, d.readings[i].digest, d.readings[i].rows)
    {
      ReadingIsAnswer(reports[places[i]], d.query);
    }
    assert SaidAt(reports, d, places);
  }
}
