/** What is hashed of an answer. */
module Digest {
  import opened Bytes
  import opened Answer
  import opened Sameness

  /** The bytes fed to the hasher: two counts of fixed width and then the body. */
  function Preimage(a: Answer): seq<Byte> {
    LittleEndian(a.rows, 8)
    + LittleEndian(if a.columns < U64 then a.columns else U64 - 1, 8)
    + Utf8(a.body)
  }

  /** What is hashed, part by part: eight bytes that come to the row count, eight that come to the column
      count, or to the most eight bytes can when it is more, and the text of the body. */
  lemma PreimageParts(a: Answer)
    requires a.rows < U64
    ensures |Preimage(a)| >= 16 && Preimage(a)[16..] == Utf8(a.body)
    ensures LeastFirst(Preimage(a)[..8]) == a.rows
    ensures LeastFirst(Preimage(a)[8..16]) == (if a.columns < U64 then a.columns else U64 - 1)
  {
    assert Pow256(4) == 0x1_0000_0000;
    assert Pow256(8) == U64;
    var columns := if a.columns < U64 then a.columns else U64 - 1;
    LittleEndianValue(a.rows, 8);
    LittleEndianValue(columns, 8);
    assert Preimage(a)[..8] == LittleEndian(a.rows, 8) && Preimage(a)[8..16] == LittleEndian(columns, 8);
    hide Pow256;
  }

  /** For any hash of the bytes, the digest is a function of the answer alone; and the bytes are equal
      exactly when the answers are, so two answers that differ share a digest only by a collision. */
  lemma PreimageInjective(a: Answer, b: Answer)
    requires a.rows < U64 && a.columns < U64 && b.rows < U64 && b.columns < U64
    ensures Preimage(a) == Preimage(b) <==> a == b
  {
    if Preimage(a) == Preimage(b) {
      var x, y := Preimage(a), Preimage(b);
      assert x[..8] == LittleEndian(a.rows, 8) && y[..8] == LittleEndian(b.rows, 8);
      assert x[8..16] == LittleEndian(a.columns, 8) && y[8..16] == LittleEndian(b.columns, 8);
      assert x[16..] == Utf8(a.body) && y[16..] == Utf8(b.body);
      assert Pow256(4) == 0x1_0000_0000;
      assert Pow256(8) == U64;
      LittleEndianInjective(a.rows, b.rows, 8);
      LittleEndianInjective(a.columns, b.columns, 8);
      Utf8Injective(a.body, b.body);
    }
  }

  /** Whatever their columns hold, two tables are fed to the hasher as the same bytes exactly when they are
      alike, row by row under an order and in some order of the rows without one. */
  lemma AlikePreimage(a: seq<seq<Value>>, b: seq<seq<Value>>, ordered: bool)
    requires Rectangular(a) && Rectangular(b)
    requires |a| < U64 && |b| < U64 && forall row | row in a + b :: |row| < U64
    ensures Preimage(AnswerOf(a, ordered)) == Preimage(AnswerOf(b, ordered))
       <==> if ordered then TablesAlike(a, b) else AlikeInSomeOrder(a, b)
  {
    hide TablesAlike, AlikeInSomeOrder, Body, Line;
    OrderedAnswersAlike(a, b);
    UnorderedAnswersAlike(a, b);
    if a != [] { assert a[0] in a + b; }
    if b != [] { assert b[0] in a + b; }
    PreimageInjective(AnswerOf(a, ordered), AnswerOf(b, ordered));
  }

  /** Two tables of the same column kinds are fed to the hasher as the same bytes exactly when they hold
      the same rows, in the same order if the query named one. */
  lemma SamePreimage(kinds: seq<Kind>, a: seq<seq<Value>>, b: seq<seq<Value>>, ordered: bool)
    requires TableFits(kinds, a) && TableFits(kinds, b)
    requires |a| < U64 && |b| < U64 && |kinds| < U64
    ensures Preimage(AnswerOf(a, ordered)) == Preimage(AnswerOf(b, ordered))
       <==> if ordered then a == b else multiset(a) == multiset(b)
  {
    SameAnswer(kinds, a, b);
    if a != [] { assert a[0] in a; }
    if b != [] { assert b[0] in b; }
    PreimageInjective(AnswerOf(a, ordered), AnswerOf(b, ordered));
  }
}
