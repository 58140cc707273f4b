/** The text forms numbers, lists and escaped strings are written in, each with the reader that takes
    it back. */
module Text {

  // Numbers

  function Digit(d: nat): char
    requires d < 10
  {
    ('0' as int + d) as char
  }

  predicate Digits(s: string) {
    forall i | 0 <= i < |s| :: '0' <= s[i] <= '9'
  }

  /** A natural number in decimal, without leading zeros. */
  function Natural(n: nat): (s: string)
    ensures |s| >= 1 && Digits(s)
  {
    if n < 10 then [Digit(n)] else Natural(n / 10) + [Digit(n % 10)]
  }

  function Zeros(k: nat): (s: string)
    ensures |s| == k && Digits(s) && forall i | 0 <= i < k :: s[i] == '0'
  {
    seq(k, _ => '0')
  }

  /** A natural number padded with zeros to a width. */
  function Padded(n: nat, width: nat): (s: string)
    ensures Digits(s) && |s| >= width && |s| >= 1
  {
    var digits := Natural(n);
    if |digits| < width then Zeros(width - |digits|) + digits else digits
  }

  /** Sign-aware padding: the sign counts towards the width, as a width with a leading zero asks. */
  function Signed(n: int, width: nat): string {
    if n < 0 then "-" + Padded(-n, if width == 0 then 0 else width - 1) else Padded(n, width)
  }

  function ReadNatural(s: string): nat
    requires Digits(s)
  {
    if s == [] then 0 else 10 * ReadNatural(s[..|s| - 1]) + (s[|s| - 1] as int - '0' as int)
  }

  function ReadInt(s: string): int {
    if s != [] && s[0] == '-' then
      if Digits(s[1..]) then 0 - ReadNatural(s[1..]) else 0
    else if Digits(s) then ReadNatural(s) else 0
  }

  lemma {:induction false} NaturalRead(n: nat)
    ensures ReadNatural(Natural(n)) == n
    ensures forall width: nat | n < Pow10(width) && width > 0 :: |Natural(n)| <= width
  {
    if n >= 10 {
      NaturalRead(n / 10);
      assert Natural(n)[..|Natural(n)| - 1] == Natural(n / 10);
      forall width: nat | n < Pow10(width) && width > 0 ensures |Natural(n)| <= width {
        assert Pow10(width) == 10 * Pow10(width - 1);
        assert n / 10 < Pow10(width - 1);
        assert width - 1 > 0;
      }
    }
  }

  /** No zero comes first but in zero itself. */
  lemma {:induction false} NaturalForm(n: nat)
    ensures n > 0 ==> Natural(n)[0] != '0'
    ensures n == 0 ==> Natural(n) == "0"
  {
    if n >= 10 { NaturalForm(n / 10); }
  }

  function Pow10(k: nat): nat {
    if k == 0 then 1 else 10 * Pow10(k - 1)
  }

  lemma {:induction false} LeadingZeros(k: nat, s: string)
    requires Digits(s)
    ensures Digits(Zeros(k) + s) && ReadNatural(Zeros(k) + s) == ReadNatural(s)
  {
    if s != [] {
      LeadingZeros(k, s[..|s| - 1]);
      assert (Zeros(k) + s)[..k + |s| - 1] == Zeros(k) + s[..|s| - 1];
    } else if k > 0 {
      LeadingZeros(k - 1, []);
      assert (Zeros(k) + s)[..k - 1] == Zeros(k - 1) + s;
    } else {
      assert Zeros(k) + s == [];
    }
  }

  lemma PaddedRead(n: nat, width: nat)
    ensures ReadNatural(Padded(n, width)) == n
    ensures n < Pow10(width) && width > 0 ==> |Padded(n, width)| == width
  {
    NaturalRead(n);
    if |Natural(n)| < width {
      LeadingZeros(width - |Natural(n)|, Natural(n));
    }
  }

  lemma PlainRead(digits: string)
    requires Digits(digits) && digits != ""
    ensures ReadInt(digits) == ReadNatural(digits)
    ensures ReadInt("-" + digits) == 0 - ReadNatural(digits)
  {
    assert ("-" + digits)[1..] == digits;
  }

  /** Every signed decimal reads back, whatever width it was padded to. */
  lemma SignedRead(n: int, width: nat)
    ensures ReadInt(Signed(n, width)) == n
  {
    var w := if n >= 0 || width == 0 then width else width - 1;
    var size := if n < 0 then -n else n;
    PaddedRead(size, w);
    PlainRead(Padded(size, w));
  }

  /** The characters numbers, dates and times are made of, from the space to the colon. */
  predicate Numeric(s: string) {
    forall i | 0 <= i < |s| :: ' ' <= s[i] <= ':'
  }

  lemma SignedNumeric(n: int, width: nat)
    ensures Numeric(Signed(n, width)) && ' ' !in Signed(n, width) && Signed(n, width) != ""
  {
  }

  // Lists

  function Join(sep: char, parts: seq<string>): string {
    if parts == [] then ""
    else if |parts| == 1 then parts[0]
    else parts[0] + [sep] + Join(sep, parts[1..])
  }

  function Split(sep: char, s: string): (parts: seq<string>)
    ensures |parts| >= 1
  {
    if s == "" then [""]
    else
      var rest := Split(sep, s[1..]);
      if s[0] == sep then [""] + rest else [[s[0]] + rest[0]] + rest[1..]
  }

  lemma {:induction false} SplitHead(sep: char, head: string, tail: string)
    requires sep !in head
    ensures Split(sep, head) == [head]
    ensures Split(sep, head + [sep] + tail) == [head] + Split(sep, tail)
  {
    if head == "" {
      assert ("" + [sep] + tail)[1..] == tail;
    } else {
      SplitHead(sep, head[1..], tail);
      assert (head + [sep] + tail)[1..] == head[1..] + [sep] + tail;
      assert head == [head[0]] + head[1..];
    }
  }

  /** Splitting undoes joining when no part holds the separator. */
  lemma {:induction false} SplitJoin(sep: char, parts: seq<string>)
    requires parts != [] && forall p | p in parts :: sep !in p
    ensures Split(sep, Join(sep, parts)) == parts
  {
    assert parts[0] in parts;
    if |parts| == 1 {
      SplitHead(sep, parts[0], "");
    } else {
      forall p | p in parts[1..] ensures sep !in p { assert p in parts; }
      SplitJoin(sep, parts[1..]);
      SplitHead(sep, parts[0], Join(sep, parts[1..]));
    }
  }

  /** Two lists put together with the parts that meet made one. */
  function Meet(x: seq<string>, y: seq<string>): (z: seq<string>)
    requires x != [] && y != []
    ensures z != []
  {
    x[..|x| - 1] + [x[|x| - 1] + y[0]] + y[1..]
  }

  lemma MeetAfter(x: seq<string>, y: seq<string>, c: char)
    requires x != [] && y != []
    ensures Meet([""] + x, y) == [""] + Meet(x, y)
    ensures Meet([[c] + x[0]] + x[1..], y) == [[c] + Meet(x, y)[0]] + Meet(x, y)[1..]
  {
    assert ([""] + x)[..|x|] == [""] + x[..|x| - 1];
    if |x| == 1 {
      assert [c] + (x[0] + y[0]) == ([c] + x[0]) + y[0];
    }
  }

  /** Splitting two texts put together splits each, and joins the parts that meet. */
  lemma {:induction false} SplitConcat(sep: char, a: string, b: string)
    ensures Split(sep, a + b) == Meet(Split(sep, a), Split(sep, b))
  {
    if a == "" {
      assert a + b == b && "" + Split(sep, b)[0] == Split(sep, b)[0];
    } else {
      hide Meet;
      SplitConcat(sep, a[1..], b);
      assert (a + b)[1..] == a[1..] + b;
      MeetAfter(Split(sep, a[1..]), Split(sep, b), a[0]);
    }
  }

  lemma {:induction false} JoinMembers(sep: char, parts: seq<string>, c: char)
    requires c != sep && forall p | p in parts :: c !in p
    ensures c !in Join(sep, parts)
  {
    if |parts| > 0 { assert parts[0] in parts; }
    if |parts| > 1 {
      forall p | p in parts[1..] ensures c !in p { assert p in parts; }
      JoinMembers(sep, parts[1..], c);
    }
  }

  // White space

  /** Whether trimming leaves nothing. */
  predicate Blank(text: string) {
    forall c | c in text :: Whitespace(c)
  }

  predicate Whitespace(c: char) {
    var n := c as int;
    || 0x09 <= n <= 0x0D || n == 0x20 || n == 0x85 || n == 0xA0 || n == 0x1680
    || 0x2000 <= n <= 0x200A || n == 0x2028 || n == 0x2029 || n == 0x202F || n == 0x205F || n == 0x3000
  }

  // Newlines

  function Newlines(s: string): nat {
    if s == "" then 0 else (if s[0] == '\n' then 1 else 0) + Newlines(s[1..])
  }

  lemma {:induction false} NewlinesAdd(a: string, b: string)
    ensures Newlines(a + b) == Newlines(a) + Newlines(b)
  {
    if a == "" {
      assert a + b == b;
    } else {
      NewlinesAdd(a[1..], b);
      assert (a + b)[1..] == a[1..] + b;
    }
  }

  lemma {:induction false} NewlinesNone(s: string)
    ensures Newlines(s) == 0 <==> '\n' !in s
  {
    if s != "" {
      NewlinesNone(s[1..]);
      assert s == [s[0]] + s[1..];
    }
  }

  /** Lines joined by newlines hold one fewer than there are, and join to nothing only when there is
      nothing but at most one empty line. */
  lemma {:induction false} JoinNewlines(lines: seq<string>)
    requires lines != [] && forall l | l in lines :: '\n' !in l
    ensures Newlines(Join('\n', lines)) == |lines| - 1
    ensures Join('\n', lines) == "" <==> lines == [""]
  {
    assert lines[0] in lines;
    NewlinesNone(lines[0]);
    if |lines| > 1 {
      forall l | l in lines[1..] ensures '\n' !in l { assert l in lines; }
      JoinNewlines(lines[1..]);
      NewlinesAdd(lines[0] + "\n", Join('\n', lines[1..]));
      NewlinesAdd(lines[0], "\n");
    }
  }

  // Escapes

  function EscapeOne(c: char): string {
    if c == '\\' then "\\\\"
    else if c == '\t' then "\\t"
    else if c == '\n' then "\\n"
    else if c == '\r' then "\\r"
    else [c]
  }

  function Escape(s: string): string {
    if s == "" then "" else EscapeOne(s[0]) + Escape(s[1..])
  }

  function Unescape(s: string): string {
    if s == "" then ""
    else if s[0] == '\\' && |s| > 1 then
      [if s[1] == 't' then '\t' else if s[1] == 'n' then '\n' else if s[1] == 'r' then '\r' else s[1]]
      + Unescape(s[2..])
    else [s[0]] + Unescape(s[1..])
  }

  lemma EscapeHead(c: char, tail: string)
    ensures Unescape(EscapeOne(c) + tail) == [c] + Unescape(tail)
    ensures '\t' !in EscapeOne(c) && '\n' !in EscapeOne(c) && '\r' !in EscapeOne(c)
    ensures EscapeOne(c) + tail != "\\N"
  {
    var whole := EscapeOne(c) + tail;
    if |EscapeOne(c)| == 2 {
      assert whole[2..] == tail;
    } else {
      assert whole[1..] == tail;
    }
  }

  /** Escaped text reads back, holds none of the separators, and never spells the null. */
  lemma {:induction false} EscapeRead(s: string)
    ensures Unescape(Escape(s)) == s
    ensures '\t' !in Escape(s) && '\n' !in Escape(s) && '\r' !in Escape(s)
    ensures Escape(s) != "\\N"
  {
    hide EscapeOne, Unescape;
    if s != "" {
      EscapeRead(s[1..]);
      EscapeHead(s[0], Escape(s[1..]));
      assert s == [s[0]] + s[1..];
    } else {
      EscapeNothing();
    }
  }

  lemma EscapeNothing()
    ensures Unescape("") == ""
  {
  }

  // Order

  /** Texts compare character by character, and a prefix comes first. */
  predicate TextLeq(a: string, b: string) {
    a == "" || (b != "" && (a[0] < b[0] || (a[0] == b[0] && TextLeq(a[1..], b[1..]))))
  }

  lemma {:induction false} TextLeqTotal(a: string, b: string)
    ensures TextLeq(a, b) || TextLeq(b, a)
    ensures TextLeq(a, b) && TextLeq(b, a) ==> a == b
  {
    if a != "" && b != "" {
      TextLeqTotal(a[1..], b[1..]);
      assert a == [a[0]] + a[1..] && b == [b[0]] + b[1..];
    }
  }

  lemma {:induction false} TextLeqTransitive(a: string, b: string, c: string)
    requires TextLeq(a, b) && TextLeq(b, c)
    ensures TextLeq(a, c)
  {
    if a != "" && a[0] == b[0] && b[0] == c[0] {
      TextLeqTransitive(a[1..], b[1..], c[1..]);
    }
  }
}
