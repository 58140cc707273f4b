/** The canonical form of an answer: values rendered, rows collected, and the three parts compared. */
module Answer {
  import opened Wrappers
  import opened Text
  import opened Sorting
  import Calendar

  /** What a row holds in one column.  Floats are not part of this model. */
  datatype Value =
    | Null
    | Bool(flag: bool)
    | Int(number: int)
    | Text(text: string)
    | Date(days: int)
    | Time(microseconds: int)
    | Timestamp(instant: int)

  const DAY: nat := 24 * 60 * 60 * 1_000_000

  function DateText(days: int): string {
    FullDate(Calendar.Civil(days))
  }

  function FullDate(date: Calendar.Date): string {
    Signed(date.year, 4) + "-" + Signed(date.month, 2) + "-" + Signed(date.day, 2)
  }

  function TrimZeros(s: string): string {
    if s != "" && s[|s| - 1] == '0' then TrimZeros(s[..|s| - 1]) else s
  }

  function ClockText(microseconds: int): string {
    var within := microseconds % DAY;
    var seconds := within / 1_000_000;
    var fraction := within % 1_000_000;
    ClockForm(seconds / 3_600, (seconds / 60) % 60, seconds % 60, fraction)
  }

  function ClockForm(hour: nat, minute: nat, second: nat, fraction: nat): string {
    HourMinuteSecond(hour, minute, second)
    + if fraction != 0 then "." + TrimZeros(Padded(fraction, 6)) else ""
  }

  function HourMinuteSecond(hour: nat, minute: nat, second: nat): string {
    Padded(hour, 2) + ":" + Padded(minute, 2) + ":" + Padded(second, 2)
  }

  function Render(v: Value): string {
    match v
    case Null => "\\N"
    case Bool(flag) => if flag then "true" else "false"
    case Int(n) => Signed(n, 0)
    case Text(text) => Escape(text)
    case Date(days) => DateText(days)
    case Time(us) => ClockText(us)
    case Timestamp(us) => DateText(us / DAY) + " " + ClockText(us % DAY)
  }

  // Reading a field back

  datatype Kind = KBool | KInt | KText | KDate | KTime | KTimestamp

  /** A column of one kind holds nulls and values of that kind, and its times lie within one day. */
  predicate Fits(kind: Kind, v: Value) {
    match v
    case Null => true
    case Bool(_) => kind == KBool
    case Int(_) => kind == KInt
    case Text(_) => kind == KText
    case Date(_) => kind == KDate
    case Time(us) => kind == KTime && 0 <= us < DAY
    case Timestamp(_) => kind == KTimestamp
  }

  function ReadDate(s: string): int {
    if |s| < 6 then 0 else
    var month := ReadInt(s[|s| - 5..|s| - 3]);
    if 1 <= month <= 12 then
      Calendar.DayNumber(Calendar.Date(ReadInt(s[..|s| - 6]), month, ReadInt(s[|s| - 2..])))
    else 0
  }

  function ReadClock(s: string): int {
    if |s| < 8 then 0 else
    1_000_000 * (3_600 * ReadInt(s[..2]) + 60 * ReadInt(s[3..5]) + ReadInt(s[6..8])) + ReadFraction(s[8..])
  }

  function ReadFraction(s: string): int {
    if 1 <= |s| <= 7 then ReadInt(s[1..] + Zeros(7 - |s|)) else 0
  }

  function Read(kind: Kind, s: string): Value {
    if s == "\\N" then Null else
    match kind
    case KBool => Bool(s == "true")
    case KInt => Int(ReadInt(s))
    case KText => Text(Unescape(s))
    case KDate => Date(ReadDate(s))
    case KTime => Time(ReadClock(s))
    case KTimestamp =>
      var parts := Split(' ', s);
      if |parts| == 2 then Timestamp(DAY * ReadDate(parts[0]) + ReadClock(parts[1])) else Null
  }

  lemma {:induction false} TrimZerosRead(s: string)
    requires Digits(s)
    ensures Digits(TrimZeros(s)) && |TrimZeros(s)| <= |s|
    ensures s == TrimZeros(s) + Zeros(|s| - |TrimZeros(s)|)
    ensures ReadNatural(s) > 0 ==> TrimZeros(s) != ""
  {
    if s != "" && s[|s| - 1] == '0' {
      TrimZerosRead(s[..|s| - 1]);
      assert s == s[..|s| - 1] + ['0'];
    }
  }

  lemma {:induction false} TrimZerosEnds(s: string)
    ensures TrimZeros(s) == "" || TrimZeros(s)[|TrimZeros(s)| - 1] != '0'
  {
    if s != "" && s[|s| - 1] == '0' {
      TrimZerosEnds(s[..|s| - 1]);
    }
  }

  /** A clock text has a fraction exactly when there is one, and the fraction never ends in a zero: eight
      characters without, and a point and one to six digits more with. */
  lemma ClockTextForm(us: int)
    ensures var text := ClockText(us);
      && (us % 1_000_000 == 0 ==> |text| == 8)
      && (us % 1_000_000 != 0 ==> 9 < |text| <= 15 && text[8] == '.' && text[|text| - 1] != '0')
      && text[2] == ':' && text[5] == ':'
  {
    hide Padded, TrimZeros;
    var within := us % DAY;
    var seconds, fraction := within / 1_000_000, within % 1_000_000;
    WithinSecond(us);
    ClockParts(seconds);
    TwoPadded(seconds / 3_600);
    TwoPadded((seconds / 60) % 60);
    TwoPadded(seconds % 60);
    if fraction != 0 {
      FractionForm(fraction);
    }
  }

  lemma WithinSecond(us: int)
    ensures (us % DAY) % 1_000_000 == us % 1_000_000
  {
    var q := us / DAY;
    assert us == us % DAY + DAY * q;
    WholeSeconds(us % DAY, 86_400 * q);
  }

  lemma WholeSeconds(r: int, k: int)
    ensures (r + 1_000_000 * k) % 1_000_000 == r % 1_000_000
  {
  }

  lemma TwoPadded(n: nat)
    requires n < 100
    ensures |Padded(n, 2)| == 2
  {
    assert Pow10(2) == 100;
    PaddedRead(n, 2);
  }

  lemma FractionForm(fraction: nat)
    requires 0 < fraction < 1_000_000
    ensures var trimmed := TrimZeros(Padded(fraction, 6));
      0 < |trimmed| <= 6 && trimmed[|trimmed| - 1] != '0'
  {
    assert Pow10(6) == 1_000_000;
    PaddedRead(fraction, 6);
    TrimZerosRead(Padded(fraction, 6));
    TrimZerosEnds(Padded(fraction, 6));
  }

  lemma HourMinuteSecondRead(h: nat, m: nat, s: nat, rest: string)
    requires h < 100 && m < 100 && s < 100
    requires Numeric(rest) && ' ' !in rest
    ensures var text := HourMinuteSecond(h, m, s) + rest;
            && |text| == 8 + |rest|
            && ReadInt(text[..2]) == h && ReadInt(text[3..5]) == m && ReadInt(text[6..8]) == s
            && text[8..] == rest && Numeric(text) && ' ' !in text
  {
    assert Pow10(2) == 100;
    PaddedRead(h, 2);
    PaddedRead(m, 2);
    PaddedRead(s, 2);
    SignedRead(h, 2);
    SignedRead(m, 2);
    SignedRead(s, 2);
    FixedFields(Padded(h, 2), Padded(m, 2), Padded(s, 2), rest);
  }

  lemma FixedFields(h: string, m: string, s: string, rest: string)
    requires |h| == 2 && |m| == 2 && |s| == 2 && Digits(h) && Digits(m) && Digits(s)
    requires Numeric(rest) && ' ' !in rest
    ensures var text := h + ":" + m + ":" + s + rest;
            && text[..2] == h && text[3..5] == m && text[6..8] == s && text[8..] == rest
            && Numeric(text) && ' ' !in text
  {
  }

  lemma TrimmedFraction(digits: string)
    requires Digits(digits) && |digits| == 6 && ReadNatural(digits) > 0
    ensures var text := "." + TrimZeros(digits);
            ReadFraction(text) == ReadInt(digits) && Numeric(text) && ' ' !in text
  {
    TrimZerosRead(digits);
    var trimmed := TrimZeros(digits);
    assert ("." + trimmed)[1..] == trimmed;
  }

  lemma FractionRead(fraction: nat)
    requires 0 < fraction < 1_000_000
    ensures var text := "." + TrimZeros(Padded(fraction, 6));
            ReadFraction(text) == fraction && Numeric(text) && ' ' !in text
  {
    assert Pow10(6) == 1_000_000;
    PaddedRead(fraction, 6);
    SignedRead(fraction, 6);
    TrimmedFraction(Padded(fraction, 6));
  }

  lemma ClockFormRead(h: nat, m: nat, s: nat, fraction: nat)
    requires h < 100 && m < 100 && s < 100 && fraction < 1_000_000
    ensures Numeric(ClockForm(h, m, s, fraction)) && ' ' !in ClockForm(h, m, s, fraction)
    ensures ReadClock(ClockForm(h, m, s, fraction)) == 1_000_000 * (3_600 * h + 60 * m + s) + fraction
  {
    if fraction != 0 {
      FractionRead(fraction);
      HourMinuteSecondRead(h, m, s, "." + TrimZeros(Padded(fraction, 6)));
    } else {
      HourMinuteSecondRead(h, m, s, "");
    }
  }

  lemma ClockParts(seconds: nat)
    requires seconds < 86_400
    ensures seconds == 3_600 * (seconds / 3_600) + 60 * ((seconds / 60) % 60) + seconds % 60
    ensures seconds / 3_600 < 24
  {
    assert (seconds / 60) / 60 == seconds / 3_600;
  }

  /** The clock text reads back to the time of day it was written from, and to nothing else. */
  lemma ClockRead(us: int)
    ensures Numeric(ClockText(us)) && ' ' !in ClockText(us)
    ensures ReadClock(ClockText(us)) == us % DAY
  {
    var seconds, fraction := (us % DAY) / 1_000_000, (us % DAY) % 1_000_000;
    ClockParts(seconds);
    ClockFormRead(seconds / 3_600, (seconds / 60) % 60, seconds % 60, fraction);
  }

  lemma DateFields(year: string, month: string, day: string)
    requires |month| == 2 && |day| == 2 && year != ""
    requires forall part | part in [year, month, day] :: Numeric(part) && ' ' !in part
    ensures var s := year + "-" + month + "-" + day;
            && s[..|s| - 6] == year && s[|s| - 5..|s| - 3] == month && s[|s| - 2..] == day
            && Numeric(s) && ' ' !in s
  {
    var s := year + "-" + month + "-" + day;
    assert year in [year, month, day] && month in [year, month, day] && day in [year, month, day];
  }

  lemma TwoDigits(n: nat)
    requires n < 100
    ensures |Signed(n, 2)| == 2
  {
    assert Pow10(2) == 100;
    PaddedRead(n, 2);
  }

  lemma FullDateRead(date: Calendar.Date)
    requires 1 <= date.month <= 12 && 1 <= date.day <= 31
    ensures Numeric(FullDate(date)) && ' ' !in FullDate(date)
    ensures ReadDate(FullDate(date)) == Calendar.DayNumber(date)
  {
    hide Padded, Signed, ReadInt, Calendar.DayNumber, Calendar.DaysBeforeYear;
    TwoDigits(date.month);
    TwoDigits(date.day);
    SignedRead(date.year, 4);
    SignedRead(date.month, 2);
    SignedRead(date.day, 2);
    SignedNumeric(date.year, 4);
    SignedNumeric(date.month, 2);
    SignedNumeric(date.day, 2);
    DateFields(Signed(date.year, 4), Signed(date.month, 2), Signed(date.day, 2));
  }

  /** For the years 0 to 9999 a date text is a full date: four digits, two and two, with dashes between. */
  lemma DateTextForm(days: int)
    ensures var year, text := Calendar.Civil(days).year, DateText(days);
      0 <= year <= 9999 ==>
        && |text| == 10 && text[4] == '-' && text[7] == '-'
        && Digits(text[..4]) && Digits(text[5..7]) && Digits(text[8..])
  {
    Calendar.CivilInverted(days);
    var date := Calendar.Civil(days);
    hide Calendar.Civil, Padded;
    if 0 <= date.year <= 9999 {
      assert Pow10(4) == 10000;
      PaddedRead(date.year, 4);
      TwoPadded(date.month);
      TwoPadded(date.day);
      FullDateForm(Signed(date.year, 4), Signed(date.month, 2), Signed(date.day, 2));
    }
  }

  lemma FullDateForm(year: string, month: string, day: string)
    requires |year| == 4 && |month| == 2 && |day| == 2 && Digits(year) && Digits(month) && Digits(day)
    ensures var text := year + "-" + month + "-" + day;
      && |text| == 10 && text[4] == '-' && text[7] == '-'
      && text[..4] == year && text[5..7] == month && text[8..] == day
  {
  }

  lemma DateRead(days: int)
    ensures Numeric(DateText(days)) && ' ' !in DateText(days)
    ensures ReadDate(DateText(days)) == days
  {
    Calendar.CivilInverted(days);
    FullDateRead(Calendar.Civil(days));
  }

  lemma TwoPartRead(date: string, clock: string)
    requires ' ' !in date && ' ' !in clock && Numeric(date) && Numeric(clock)
    ensures Numeric(date + " " + clock)
    ensures Read(KTimestamp, date + " " + clock) == Timestamp(DAY * ReadDate(date) + ReadClock(clock))
  {
    SplitHead(' ', date, clock);
    SplitHead(' ', clock, "");
    assert date + [' '] + clock == date + " " + clock;
  }

  lemma TimestampRead(us: int)
    ensures Numeric(Render(Timestamp(us)))
    ensures Read(KTimestamp, Render(Timestamp(us))) == Timestamp(us)
  {
    hide DateText, ClockText, ReadDate, ReadClock;
    DateRead(us / DAY);
    ClockRead(us % DAY);
    TwoPartRead(DateText(us / DAY), ClockText(us % DAY));
  }

  lemma NumericIsNotNull(s: string)
    requires Numeric(s)
    ensures s != "\\N" && '\t' !in s && '\n' !in s
  {
    assert "\\N"[0] == '\\';
  }

  lemma IntRead(n: int)
    ensures Numeric(Render(Int(n))) && Read(KInt, Render(Int(n))) == Int(n)
  {
    SignedRead(n, 0);
    SignedNumeric(n, 0);
  }

  /** An integer's text has a sign only below zero, and no zero first but in zero itself. */
  lemma IntTextForm(n: int)
    ensures Render(Int(n)) == (if n < 0 then "-" else "") + Natural(if n < 0 then -n else n)
    ensures n != 0 ==> Render(Int(n))[if n < 0 then 1 else 0] != '0'
  {
    NaturalForm(if n < 0 then -n else n);
    assert "" + Natural(if n < 0 then -n else n) == Natural(if n < 0 then -n else n);
  }

  /** In a column of one kind every field reads back to the value it was rendered from, so rendering
      is injective there, and no field holds a separator. */
  lemma RenderRead(kind: Kind, v: Value)
    requires Fits(kind, v)
    ensures Read(kind, Render(v)) == v
    ensures '\t' !in Render(v) && '\n' !in Render(v)
  {
    hide DateText, ClockText, ReadDate, ReadClock, ReadInt, Signed;
    match v
    case Null =>
    case Bool(_) =>
    case Text(text) => EscapeRead(text);
    case Int(n) => IntRead(n); NumericIsNotNull(Render(v));
    case Date(days) => DateRead(days); NumericIsNotNull(Render(v));
    case Time(us) => ClockRead(us); NumericIsNotNull(Render(v));
    case Timestamp(us) => TimestampRead(us); NumericIsNotNull(Render(v));
  }

  lemma RenderClean(v: Value)
    ensures '\t' !in Render(v) && '\n' !in Render(v)
  {
    hide DateText, ClockText;
    match v
    case Time(us) => ClockRead(us); NumericIsNotNull(Render(v));
    case Null => RenderRead(KText, v);
    case Bool(_) => RenderRead(KBool, v);
    case Int(_) => RenderRead(KInt, v);
    case Text(_) => RenderRead(KText, v);
    case Date(_) => RenderRead(KDate, v);
    case Timestamp(_) => RenderRead(KTimestamp, v);
  }

  /** What the clock text forgets is exactly the whole days. */
  lemma ClockForgetsDays(a: int, b: int)
    ensures Render(Time(a)) == Render(Time(b)) <==> a % DAY == b % DAY
  {
    ClockRead(a);
    ClockRead(b);
  }

  // Lines and bodies

  datatype Answer = Answer(rows: nat, columns: nat, body: string)

  function Line(row: seq<Value>): string {
    Join('\t', Map(Render, row))
  }

  function Body(lines: seq<string>): string {
    var joined := Join('\n', lines);
    if joined != "" then joined + "\n" else joined
  }

  /** What a table's rows come to: one canonical text, in row order or sorted by line. */
  function AnswerOf(table: seq<seq<Value>>, ordered: bool): Answer {
    var lines := Map(Line, table);
    Answer(|table|, if table == [] then 0 else |table[0]|, Body(if ordered then lines else Sort(TextLeq, lines)))
  }

  lemma LineClean(row: seq<Value>)
    ensures '\n' !in Line(row)
  {
    forall p | p in Map(Render, row) ensures '\n' !in p {
      var i :| 0 <= i < |row| && p == Map(Render, row)[i];
      RenderClean(row[i]);
    }
    JoinMembers('\t', Map(Render, row), '\n');
  }

  /** The lines of an answer.  The row count tells no rows from one empty line. */
  function ReadLines(a: Answer): seq<string> {
    if a.rows == 0 then []
    else if a.body == "" then [""]
    else Split('\n', a.body[..|a.body| - 1])
  }

  lemma LinesRead(lines: seq<string>, columns: nat)
    requires forall l | l in lines :: '\n' !in l
    ensures ReadLines(Answer(|lines|, columns, Body(lines))) == lines
  {
    if lines != [] {
      SplitJoin('\n', lines);
      var joined := Join('\n', lines);
      if joined != "" {
        assert (joined + "\n")[..|joined + "\n"| - 1] == joined;
      }
    }
  }

  function ReadRow(kinds: seq<Kind>, line: string): seq<Value> {
    var fields := if kinds == [] then [] else Split('\t', line);
    seq(|kinds|, i requires 0 <= i < |kinds| => if i < |fields| then Read(kinds[i], fields[i]) else Null)
  }

  function ReadTable(kinds: seq<Kind>, a: Answer): seq<seq<Value>> {
    Map(line => ReadRow(kinds, line), ReadLines(a))
  }

  predicate RowFits(kinds: seq<Kind>, row: seq<Value>) {
    |row| == |kinds| && forall i | 0 <= i < |kinds| :: Fits(kinds[i], row[i])
  }

  lemma RowRead(kinds: seq<Kind>, row: seq<Value>)
    requires RowFits(kinds, row)
    ensures ReadRow(kinds, Line(row)) == row
  {
    hide Render, Read;
    var fields := Map(Render, row);
    forall i | 0 <= i < |row| ensures Read(kinds[i], fields[i]) == row[i] && '\t' !in fields[i] {
      RenderRead(kinds[i], row[i]);
    }
    if kinds != [] {
      SplitJoin('\t', fields);
    }
  }

  predicate TableFits(kinds: seq<Kind>, table: seq<seq<Value>>) {
    forall row | row in table :: RowFits(kinds, row)
  }

  /** Sorting lines forgets their order and nothing else. */
  lemma LinesSortCanonical(a: seq<string>, b: seq<string>)
    ensures Sort(TextLeq, a) == Sort(TextLeq, b) <==> multiset(a) == multiset(b)
  {
    forall x, y ensures TextLeq(x, y) || TextLeq(y, x) { TextLeqTotal(x, y); }
    forall x, y, z | TextLeq(x, y) && TextLeq(y, z) ensures TextLeq(x, z) { TextLeqTransitive(x, y, z); }
    forall x, y | x in a && y in a && TextLeq(x, y) && TextLeq(y, x) ensures x == y { TextLeqTotal(x, y); }
    SortCanonical(TextLeq, a, b);
  }

  function Ordering(lines: seq<string>, ordered: bool): (r: seq<string>)
    ensures multiset(r) == multiset(lines) && |r| == |lines|
  {
    if ordered then lines else Sort(TextLeq, lines)
  }

  lemma LinesClean(table: seq<seq<Value>>, ordered: bool)
    ensures forall l | l in Ordering(Map(Line, table), ordered) :: '\n' !in l
  {
    var lines := Ordering(Map(Line, table), ordered);
    forall l | l in lines ensures '\n' !in l {
      assert l in multiset(lines);
      assert l in Map(Line, table);
      var i :| 0 <= i < |table| && l == Map(Line, table)[i];
      LineClean(table[i]);
    }
  }

  /** The three parts of an answer give back its lines: the rows themselves under an order, and
      otherwise the rows sorted. */
  lemma AnswerRead(table: seq<seq<Value>>, ordered: bool)
    ensures ReadLines(AnswerOf(table, ordered)) == Ordering(Map(Line, table), ordered)
  {
    var lines := Ordering(Map(Line, table), ordered);
    LinesClean(table, ordered);
    LinesRead(lines, AnswerOf(table, ordered).columns);
  }

  /** The counts are those of the rows and of the first row's columns, and of a table without rows nothing. */
  lemma AnswerCounts(table: seq<seq<Value>>, ordered: bool)
    ensures var answer := AnswerOf(table, ordered);
      && answer.rows == |table|
      && (table == [] ==> answer == Answer(0, 0, ""))
      && (table != [] ==> answer.columns == |table[0]|)
  {
    hide Line, TextLeq;
    if table == [] {
      assert Map(Line, table) == [];
    }
  }

  /** Without an order the lines stand in the order of their characters. */
  lemma UnorderedLinesAscend(table: seq<seq<Value>>)
    ensures SortedBy(TextLeq, ReadLines(AnswerOf(table, false)))
  {
    hide Line, TextLeq;
    AnswerRead(table, false);
    TextLeqIsPreorder();
    SortSorts(TextLeq, Map(Line, table));
  }

  lemma TextLeqIsPreorder()
    ensures Preorder(TextLeq)
  {
    forall x, y ensures TextLeq(x, y) || TextLeq(y, x) { TextLeqTotal(x, y); }
    forall x, y, z | TextLeq(x, y) && TextLeq(y, z) ensures TextLeq(x, z) { TextLeqTransitive(x, y, z); }
  }

  lemma EqualByLines(a: seq<seq<Value>>, b: seq<seq<Value>>, ordered: bool)
    ensures AnswerOf(a, ordered) == AnswerOf(b, ordered)
       <==> AnswerOf(a, ordered).columns == AnswerOf(b, ordered).columns
            && Ordering(Map(Line, a), ordered) == Ordering(Map(Line, b), ordered)
  {
    hide Line, ReadLines, Body, TextLeq;
    AnswerRead(a, ordered);
    AnswerRead(b, ordered);
    var x, y := Ordering(Map(Line, a), ordered), Ordering(Map(Line, b), ordered);
    assert x == y ==> |x| == |y|;
  }

  /** Two unordered answers are equal exactly when their column counts and their multisets of rendered
      rows are, and two ordered ones exactly when the sequences are. */
  lemma AnswersEqual(a: seq<seq<Value>>, b: seq<seq<Value>>)
    ensures AnswerOf(a, true) == AnswerOf(b, true)
       <==> AnswerOf(a, true).columns == AnswerOf(b, true).columns && Map(Line, a) == Map(Line, b)
    ensures AnswerOf(a, false) == AnswerOf(b, false)
       <==> AnswerOf(a, false).columns == AnswerOf(b, false).columns
            && multiset(Map(Line, a)) == multiset(Map(Line, b))
  {
    hide AnswerOf, Line;
    EqualByLines(a, b, true);
    EqualByLines(a, b, false);
    LinesSortCanonical(Map(Line, a), Map(Line, b));
  }

  lemma LinesOfTableRead(kinds: seq<Kind>, table: seq<seq<Value>>)
    requires TableFits(kinds, table)
    ensures Map(line => ReadRow(kinds, line), Map(Line, table)) == table
  {
    forall i | 0 <= i < |table| ensures ReadRow(kinds, Line(table[i])) == table[i] {
      assert table[i] in table;
      RowRead(kinds, table[i]);
    }
  }

  /** Over a table of fixed column kinds, the answer decodes to the rows themselves when the query
      named an order, and to the same rows in some order when it did not. */
  lemma TableRead(kinds: seq<Kind>, table: seq<seq<Value>>)
    requires TableFits(kinds, table)
    ensures ReadTable(kinds, AnswerOf(table, true)) == table
    ensures multiset(ReadTable(kinds, AnswerOf(table, false))) == multiset(table)
  {
    AnswerRead(table, true);
    AnswerRead(table, false);
    LinesOfTableRead(kinds, table);
    var lines := Map(Line, table);
    MapMultiset(line => ReadRow(kinds, line), Sort(TextLeq, lines), lines);
  }

  /** Equality of answers means the same answer: the same rows, up to their order exactly when the
      query asked for none. */
  lemma SameAnswer(kinds: seq<Kind>, a: seq<seq<Value>>, b: seq<seq<Value>>)
    requires TableFits(kinds, a) && TableFits(kinds, b)
    ensures AnswerOf(a, true) == AnswerOf(b, true) <==> a == b
    ensures AnswerOf(a, false) == AnswerOf(b, false) <==> multiset(a) == multiset(b)
  {
    TableRead(kinds, a);
    TableRead(kinds, b);
    if multiset(a) == multiset(b) {
      MapMultiset(Line, a, b);
      AnswersEqual(a, b);
      assert |multiset(a)| == |a| && |multiset(b)| == |b|;
      if a != [] {
        assert a[0] in a && b[0] in b;
      }
    }
  }

  // Counting lines

  lemma RendersToNothing(v: Value)
    ensures Render(v) == "" <==> v == Text("")
  {
    hide Escape, Calendar.Civil;
    match v {
      case Text(text) => EscapesToNothing(text);
      case Date(days) => DateRead(days);
      case _ =>
    }
  }

  lemma EscapesToNothing(text: string)
    ensures Escape(text) == "" <==> text == ""
  {
  }

  /** A row that renders to nothing has no columns, or one with an empty text in it. */
  lemma EmptyLine(row: seq<Value>)
    ensures Line(row) == "" <==> row == [] || row == [Text("")]
  {
    hide Render;
    if |row| == 1 {
      RendersToNothing(row[0]);
    }
  }

  lemma BodyNewlines(lines: seq<string>)
    requires forall l | l in lines :: '\n' !in l
    ensures Newlines(Body(lines)) == |lines| <==> lines != [""]
  {
    if lines != [] {
      JoinNewlines(lines);
      NewlinesAdd(Join('\n', lines), "\n");
    }
  }

  lemma OneLineOrdering(lines: seq<string>, ordered: bool)
    ensures Ordering(lines, ordered) == [""] <==> lines == [""]
  {
    if |lines| == 1 {
      assert lines == [lines[0]] && Ordering(lines, ordered) == [Ordering(lines, ordered)[0]];
      assert lines[0] in multiset(Ordering(lines, ordered));
    }
  }

  /** The body holds as many lines as there are rows, for every table but the two whose only row renders
      to nothing: no columns, or one empty text. */
  lemma RowsAreLinesExactly(table: seq<seq<Value>>, ordered: bool)
    ensures Newlines(AnswerOf(table, ordered).body) == AnswerOf(table, ordered).rows
       <==> table != [[]] && table != [[Text("")]]
  {
    hide Line, Body;
    var lines := Map(Line, table);
    LinesClean(table, ordered);
    BodyNewlines(Ordering(lines, ordered));
    OneLineOrdering(lines, ordered);
    if |table| == 1 {
      EmptyLine(table[0]);
      assert table == [table[0]];
      assert lines == [Line(table[0])];
    }
  }

  /** The smallest such table. */
  lemma OneEmptyLine()
    ensures AnswerOf([[Text("")]], true) == Answer(1, 1, "")
  {
    assert Map(Render, [Text("")]) == [""];
    assert Map(Line, [[Text("")]]) == [""];
  }

  // Collecting rows

  datatype WidthError = WidthError(row: nat, wanted: nat, found: nat)

  lemma EscapeUnrolls(text: string, at: nat, done: string)
    requires at < |text|
    ensures done + Escape(text[at..]) == (done + EscapeOne(text[at])) + Escape(text[at + 1..])
  {
    hide EscapeOne;
    assert text[at..][1..] == text[at + 1..];
    assert Escape(text[at..]) == EscapeOne(text[at]) + Escape(text[at + 1..]);
  }

  /** Appends a text with the separators escaped, character by character. */
  method EscapeInto(text: string, into: string) returns (out: string)
    ensures out == into + Escape(text)
  {
    out := into;
    for at := 0 to |text|
      invariant out + Escape(text[at..]) == into + Escape(text)
    {
      EscapeUnrolls(text, at, out);
      var piece := [text[at]];
      match text[at] {
        case '\\' => piece := "\\\\";
        case '\t' => piece := "\\t";
        case '\n' => piece := "\\n";
        case '\r' => piece := "\\r";
        case other =>
      }
      out := out + piece;
    }
  }

  /** Appends a value to a line being built, as the renderer writes into its buffer. */
  method RenderInto(v: Value, into: string) returns (out: string)
    ensures out == into + Render(v)
  {
    if v.Text? {
      out := EscapeInto(v.text, into);
    } else {
      out := into + Render(v);
    }
  }

  /** Collects the rows of a result, as lines. */
  class Rows {
    var columns: Option<nat>
    var rows: seq<string>
    /** The rows accepted so far, as values. */
    ghost var table: seq<seq<Value>>

    ghost predicate Valid()
      reads this
    {
      && rows == Map(Line, table)
      && columns == (if table == [] then None else Some(|table[0]|))
      && forall row | row in table :: columns == Some(|row|)
    }

    constructor ()
      ensures Valid() && table == []
    {
      columns, rows, table := None, [], [];
    }

    /** A row is taken exactly when it is the first or as wide as the first, and a refused row changes
        nothing. */
    method Push(values: seq<Value>) returns (r: Result<(), WidthError>)
      requires Valid()
      modifies this
      ensures Valid()
      ensures r.Ok? <==> old(table) == [] || |values| == |old(table)[0]|
      ensures r.Ok? ==> table == old(table) + [values]
      ensures r.Err? ==> table == old(table) && rows == old(rows) && columns == old(columns)
      ensures r.Err? ==> r.error == WidthError(|table|, |table[0]|, |values|)
    {
      hide Line, Render;
      match columns {
        case None => columns := Some(|values|);
        case Some(wanted) =>
          if wanted != |values| {
            return Err(WidthError(|rows|, wanted, |values|));
          }
      }
      var line := "";
      var index := 0;
      assert values[..0] == [];
      EmptyLine([]);
      while index < |values|
        invariant index <= |values|
        invariant line == Line(values[..index])
        invariant columns == Some(|values|) && rows == old(rows) && table == old(table)
      {
        if index > 0 {
          line := line + ['\t'];
        }
        line := RenderInto(values[index], line);
        LineGrows(values, index);
        index := index + 1;
      }
      assert values[..index] == values;
      rows := rows + [line];
      table := table + [values];
      return Ok(());
    }

    /** The finished answer is the canonical form of the rows that were accepted. */
    method Finish(ordered: bool) returns (answer: Answer)
      requires Valid()
      modifies this
      ensures answer == AnswerOf(old(table), ordered)
    {
      if !ordered {
        rows := Sort(TextLeq, rows);
      }
      var body := Join('\n', rows);
      if body != "" {
        body := body + "\n";
      }
      answer := Answer(|rows|, if columns.Some? then columns.value else 0, body);
    }
  }

  lemma {:induction false} JoinGrows(sep: char, parts: seq<string>, last: string)
    ensures Join(sep, parts + [last]) == (if parts == [] then last else Join(sep, parts) + [sep] + last)
  {
    if |parts| > 1 {
      JoinGrows(sep, parts[1..], last);
      assert (parts + [last])[1..] == parts[1..] + [last];
      var head, mid := parts[0], Join(sep, parts[1..]);
      assert head + [sep] + (mid + [sep] + last) == (head + [sep] + mid) + [sep] + last;
    } else if |parts| == 1 {
      assert (parts + [last])[1..] == [last];
    }
  }

  lemma LineGrows(values: seq<Value>, index: nat)
    requires index < |values|
    ensures Line(values[..index + 1])
         == (if index == 0 then "" else Line(values[..index]) + ['\t']) + Render(values[index])
  {
    assert Map(Render, values[..index + 1]) == Map(Render, values[..index]) + [Render(values[index])];
    JoinGrows('\t', Map(Render, values[..index]), Render(values[index]));
  }
}
