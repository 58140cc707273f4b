/** Which values share a text, and which tables an answer, when nothing is known of their columns. */
module Sameness {
  import opened Text
  import opened Sorting
  import opened Answer

  // Values

  /** Two times that differ by whole days. */
  predicate SameTime(a: Value, b: Value) {
    a.Time? && b.Time? && a.microseconds % DAY == b.microseconds % DAY
  }

  /** A text that reads as another kind of value is written. */
  predicate Spells(t: Value, v: Value) {
    t.Text? && !v.Text? && !v.Null? && t.text == Render(v)
  }

  predicate Alike(a: Value, b: Value) {
    a == b || SameTime(a, b) || Spells(a, b) || Spells(b, a)
  }

  function KindOf(v: Value): Kind
    requires !v.Null?
  {
    match v
    case Bool(_) => KBool
    case Int(_) => KInt
    case Text(_) => KText
    case Date(_) => KDate
    case Time(_) => KTime
    case Timestamp(_) => KTimestamp
  }

  /** The kind a field has if it is not a text, by the marks it carries. */
  function KindOfField(s: string): Kind {
    if s == "true" || s == "false" then KBool
    else if ' ' in s then KTimestamp
    else if ':' in s then KTime
    else if s != "" && '-' in s[1..] then KDate
    else KInt
  }

  lemma SignedMarks(n: int, width: nat)
    ensures ':' !in Signed(n, width) && ' ' !in Signed(n, width)
    ensures Signed(n, width) != "" && '-' !in Signed(n, width)[1..]
  {
  }

  lemma DateMarks(days: int)
    ensures ':' !in DateText(days) && ' ' !in DateText(days)
    ensures DateText(days) != "" && '-' in DateText(days)[1..]
  {
    var date := Calendar.Civil(days);
    SignedMarks(date.year, 4);
    SignedMarks(date.month, 2);
    SignedMarks(date.day, 2);
    hide Signed, Calendar.Civil;
    var year, month, day := Signed(date.year, 4), Signed(date.month, 2), Signed(date.day, 2);
    assert DateText(days) == year + "-" + month + "-" + day;
    assert DateText(days)[1..][|year| - 1] == '-';
  }

  lemma ClockMarks(us: int)
    ensures ':' in ClockText(us) && ' ' !in ClockText(us)
  {
    ClockRead(us);
    hide Padded;
    var within := us % DAY;
    var seconds := within / 1_000_000;
    var hour := Padded(seconds / 3_600, 2);
    assert ClockText(us)[|hour|] == ':';
  }

  lemma NumericIsNoFlag(s: string)
    requires Numeric(s)
    ensures s != "true" && s != "false"
  {
    assert "true"[0] == 't' && "false"[0] == 'f';
  }

  /** Marks tell every two kinds but text apart. */
  lemma MarksTellKinds(v: Value)
    requires !v.Null? && !v.Text?
    ensures KindOfField(Render(v)) == KindOf(v)
    ensures !v.Bool? ==> Numeric(Render(v))
  {
    hide DateText, ClockText, Signed, Numeric;
    match v
    case Bool(_) =>
    case Int(n) =>
      IntRead(n);
      SignedMarks(n, 0);
      NumericIsNoFlag(Render(v));
    case Date(days) =>
      DateRead(days);
      DateMarks(days);
      NumericIsNoFlag(Render(v));
    case Time(us) =>
      ClockRead(us);
      ClockMarks(us);
      NumericIsNoFlag(Render(v));
    case Timestamp(us) =>
      TimestampRead(us);
      NumericIsNoFlag(Render(v));
      assert Render(v)[|DateText(us / DAY)|] == ' ';
  }

  /** A value with the days a time's text forgets taken off. */
  function WithinDay(v: Value): Value {
    match v
    case Time(us) => Time(us % DAY)
    case _ => v
  }

  lemma WithinDayRenders(v: Value)
    ensures Render(WithinDay(v)) == Render(v)
  {
    hide Render;
    if v.Time? { ClockForgetsDays(v.microseconds % DAY, v.microseconds); }
  }

  lemma ReadWithinDay(v: Value)
    requires !v.Null?
    ensures Read(KindOf(v), Render(v)) == WithinDay(v)
  {
    hide Render, Read;
    WithinDayRenders(v);
    RenderRead(KindOf(v), WithinDay(v));
  }

  lemma PlainAlike(a: Value, b: Value)
    requires !a.Text? && !b.Text?
    ensures Render(a) == Render(b) <==> a == b || SameTime(a, b)
  {
    NullIsAlone(a, b);
    hide Render, Read, KindOfField;
    if !a.Null? && !b.Null? {
      MarksTellKinds(a);
      MarksTellKinds(b);
      ReadWithinDay(a);
      ReadWithinDay(b);
      WithinDayRenders(a);
      WithinDayRenders(b);
    }
  }

  lemma NullIsAlone(a: Value, b: Value)
    ensures a.Null? ==> (Render(a) == Render(b) <==> b.Null?)
    ensures b.Null? ==> (Render(a) == Render(b) <==> a.Null?)
  {
    OnlyNull(a);
    OnlyNull(b);
  }

  lemma OnlyNull(v: Value)
    ensures Render(v) == "\\N" <==> v.Null?
  {
    hide DateText, ClockText, Signed, Numeric, Escape;
    if v.Text? {
      EscapeRead(v.text);
    } else if !v.Null? {
      MarksTellKinds(v);
      if !v.Bool? { NumericIsNotNull(Render(v)); }
    }
  }

  /** Nothing in it is escaped. */
  predicate Plain(s: string) {
    forall i | 0 <= i < |s| :: s[i] != '\\' && s[i] != '\t' && s[i] != '\n' && s[i] != '\r'
  }

  lemma {:induction false} EscapeIsPlain(s: string)
    requires Plain(s)
    ensures Escape(s) == s
  {
    if s != "" {
      EscapeIsPlain(s[1..]);
      assert s == [s[0]] + s[1..];
    }
  }

  lemma PlainField(v: Value)
    requires !v.Null? && !v.Text?
    ensures Escape(Render(v)) == Render(v)
  {
    MarksTellKinds(v);
    if v.Bool? {
      assert Plain(Render(v));
    } else {
      NumericIsPlain(Render(v));
    }
    EscapeIsPlain(Render(v));
  }

  lemma NumericIsPlain(s: string)
    requires Numeric(s)
    ensures Plain(s)
  {
  }

  lemma TextAlike(t: Value, v: Value)
    requires t.Text?
    ensures Render(t) == Render(v) <==> t == v || Spells(t, v)
  {
    EscapeRead(t.text);
    NullIsAlone(t, v);
    if v.Text? {
      EscapeRead(v.text);
    } else if !v.Null? {
      PlainField(v);
      EscapeRead(Render(v));
    }
    hide Escape, Unescape;
  }

  /** Two values share a text exactly when they are the same, or times of one time of day, or one is a text
      that spells the other.  No text spells a null. */
  lemma FieldsAlikeExactly(a: Value, b: Value)
    ensures Render(a) == Render(b) <==> Alike(a, b)
  {
    hide Render;
    if a.Text? {
      TextAlike(a, b);
    } else if b.Text? {
      TextAlike(b, a);
    } else {
      PlainAlike(a, b);
    }
  }

  /** Such a pair: a flag and the text that spells it. */
  lemma KindsShareText()
    ensures Render(Bool(true)) == Render(Text("true")) && Bool(true) != Text("true")
    ensures Render(Bool(false)) == "false"
  {
    assert Escape("true") == "true" by {
      assert "true"[1..] == "rue" && "rue"[1..] == "ue" && "ue"[1..] == "e" && "e"[1..] == "";
      assert Escape("e") == "e" && Escape("ue") == "ue" && Escape("rue") == "rue";
    }
  }

  // Tables

  predicate RowsAlike(x: seq<Value>, y: seq<Value>) {
    |x| == |y| && forall i | 0 <= i < |x| :: Alike(x[i], y[i])
  }

  predicate TablesAlike(a: seq<seq<Value>>, b: seq<seq<Value>>) {
    |a| == |b| && forall i | 0 <= i < |a| :: RowsAlike(a[i], b[i])
  }

  /** Every row as wide as the first, as rows are accepted. */
  predicate Rectangular(table: seq<seq<Value>>) {
    forall i | 0 <= i < |table| :: |table[i]| == |table[0]|
  }

  lemma FieldsFromLine(row: seq<Value>)
    requires row != []
    ensures Split('\t', Line(row)) == Map(Render, row)
  {
    hide Render;
    forall p | p in Map(Render, row) ensures '\t' !in p {
      var i :| 0 <= i < |row| && p == Map(Render, row)[i];
      RenderClean(row[i]);
    }
    SplitJoin('\t', Map(Render, row));
  }

  /** Rows of one width share a line exactly when they are alike field by field. */
  lemma LinesAlikeExactly(x: seq<Value>, y: seq<Value>)
    requires |x| == |y|
    ensures Line(x) == Line(y) <==> RowsAlike(x, y)
  {
    hide Alike, Render;
    var fx, fy := Map(Render, x), Map(Render, y);
    forall i | 0 <= i < |x| ensures fx[i] == fy[i] <==> Alike(x[i], y[i]) {
      FieldsAlikeExactly(x[i], y[i]);
    }
    if x != [] {
      FieldsFromLine(x);
      FieldsFromLine(y);
    }
    assert RowsAlike(x, y) ==> fx == fy;
  }

  lemma TableLinesAlike(a: seq<seq<Value>>, b: seq<seq<Value>>)
    requires |a| == |b| && forall i | 0 <= i < |a| :: |a[i]| == |b[i]|
    ensures Map(Line, a) == Map(Line, b) <==> TablesAlike(a, b)
  {
    hide Line, RowsAlike;
    forall i | 0 <= i < |a| ensures Map(Line, a)[i] == Map(Line, b)[i] <==> RowsAlike(a[i], b[i]) {
      LinesAlikeExactly(a[i], b[i]);
    }
  }

  lemma SameShape(a: seq<seq<Value>>, b: seq<seq<Value>>, ordered: bool)
    requires Rectangular(a) && Rectangular(b)
    ensures AnswerOf(a, ordered).rows == AnswerOf(b, ordered).rows && AnswerOf(a, ordered).columns == AnswerOf(b, ordered).columns
       ==> |a| == |b| && forall i | 0 <= i < |a| :: |a[i]| == |b[i]|
  {
    hide Body, Line;
  }

  lemma AlikeShape(a: seq<seq<Value>>, b: seq<seq<Value>>, ordered: bool)
    requires TablesAlike(a, b)
    ensures AnswerOf(a, ordered).columns == AnswerOf(b, ordered).columns
    ensures forall i | 0 <= i < |a| :: |a[i]| == |b[i]|
  {
    hide Alike, Body, Line;
  }

  /** Whatever the columns hold, mixed kinds and different kinds on the two sides included: two answers
      under an order are equal exactly when the tables are alike row by row. */
  lemma OrderedAnswersAlike(a: seq<seq<Value>>, b: seq<seq<Value>>)
    requires Rectangular(a) && Rectangular(b)
    ensures AnswerOf(a, true) == AnswerOf(b, true) <==> TablesAlike(a, b)
  {
    hide AnswerOf, Line, TablesAlike;
    AnswersEqual(a, b);
    SameShape(a, b, true);
    RowsCounted(a, true);
    RowsCounted(b, true);
    if TablesAlike(a, b) {
      AlikeShape(a, b, true);
      AlikeSize(a, b);
      TableLinesAlike(a, b);
    } else if AnswerOf(a, true) == AnswerOf(b, true) {
      TableLinesAlike(a, b);
    }
  }

  lemma AlikeSize(a: seq<seq<Value>>, b: seq<seq<Value>>)
    requires TablesAlike(a, b)
    ensures |a| == |b|
  {
  }

  lemma RowsCounted(a: seq<seq<Value>>, ordered: bool)
    ensures AnswerOf(a, ordered).rows == |a|
  {
    hide Body, Line;
  }

  /** The rows of one table put in the order in which their lines stand in another. */
  lemma {:induction false} Arrange(a: seq<seq<Value>>, b: seq<seq<Value>>) returns (c: seq<seq<Value>>)
    requires multiset(Map(Line, a)) == multiset(Map(Line, b))
    ensures multiset(c) == multiset(b) && Map(Line, c) == Map(Line, a)
    decreases |a|
  {
    hide Line;
    assert |multiset(Map(Line, a))| == |a| && |multiset(Map(Line, b))| == |b|;
    if a == [] {
      c := [];
    } else {
      var k := PullHead(Map(Line, a), Map(Line, b));
      var rest := b[..k] + b[k + 1..];
      assert Map(Line, a)[1..] == Map(Line, a[1..]);
      assert Map(Line, b)[..k] + Map(Line, b)[k + 1..] == Map(Line, rest);
      var tail := Arrange(a[1..], rest);
      c := [b[k]] + tail;
      assert b == b[..k] + [b[k]] + b[k + 1..];
      MapConcat(Line, [b[k]], tail);
      assert Map(Line, a) == [Map(Line, a)[0]] + Map(Line, a)[1..];
    }
  }

  /** The tables are alike once the rows of the second are put in some order. */
  ghost predicate AlikeInSomeOrder(a: seq<seq<Value>>, b: seq<seq<Value>>) {
    exists c :: multiset(c) == multiset(b) && TablesAlike(a, c)
  }

  /** And without an order, exactly when they are alike in some order of their rows. */
  lemma UnorderedAnswersAlike(a: seq<seq<Value>>, b: seq<seq<Value>>)
    requires Rectangular(a) && Rectangular(b)
    ensures AnswerOf(a, false) == AnswerOf(b, false) <==> AlikeInSomeOrder(a, b)
  {
    hide AnswerOf, Line, TablesAlike;
    AnswersEqual(a, b);
    if c :| multiset(c) == multiset(b) && TablesAlike(a, c) {
      AlikeShape(a, c, false);
      AlikeSize(a, c);
      TableLinesAlike(a, c);
      MapMultiset(Line, c, b);
      SameColumns(c, b, false);
    } else if AnswerOf(a, false) == AnswerOf(b, false) {
      var c := Arrange(a, b);
      SameShape(a, b, false);
      RowsCounted(a, false);
      RowsCounted(b, false);
      SameWidths(a, b, c);
      TableLinesAlike(a, c);
    }
  }

  lemma SameColumns(c: seq<seq<Value>>, b: seq<seq<Value>>, ordered: bool)
    requires multiset(c) == multiset(b) && Rectangular(b)
    ensures AnswerOf(c, ordered).columns == AnswerOf(b, ordered).columns
  {
    hide Body, Line;
    assert |c| == |multiset(c)| == |multiset(b)| == |b|;
    if c != [] {
      assert c[0] in multiset(b);
    }
  }

  lemma SameWidths(a: seq<seq<Value>>, b: seq<seq<Value>>, c: seq<seq<Value>>)
    requires multiset(c) == multiset(b) && |a| == |b| && Rectangular(a) && Rectangular(b)
    requires forall i | 0 <= i < |a| :: |a[i]| == |b[i]|
    ensures |a| == |c| && forall i | 0 <= i < |a| :: |a[i]| == |c[i]|
  {
    assert |c| == |multiset(c)| == |multiset(b)| == |b|;
    forall i | 0 <= i < |a| ensures |a[i]| == |c[i]| {
      assert c[i] in multiset(b);
    }
  }
}
