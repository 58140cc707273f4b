/** Texts and counts as bytes: UTF-8 and fixed width little endian, both one to one. */
module Bytes {
  type Byte = b: nat | b < 256

  const U64: nat := 0x1_0000_0000_0000_0000

  /** One character in UTF-8 (section 3 of RFC 3629). */
  function CharBytes(c: char): (bytes: seq<Byte>)
    ensures 1 <= |bytes| <= 4
  {
    var n := c as int;
    if n < 0x80 then [n]
    else if n < 0x800 then [0xC0 + n / 0x40, 0x80 + n % 0x40]
    else if n < 0x1_0000 then [0xE0 + n / 0x1000, 0x80 + (n / 0x40) % 0x40, 0x80 + n % 0x40]
    else [0xF0 + n / 0x4_0000, 0x80 + (n / 0x1000) % 0x40, 0x80 + (n / 0x40) % 0x40, 0x80 + n % 0x40]
  }

  function Utf8(s: string): seq<Byte> {
    if s == "" then [] else CharBytes(s[0]) + Utf8(s[1..])
  }

  lemma CharBytesInjective(c: char, d: char)
    requires CharBytes(c) == CharBytes(d)
    ensures c == d
  {
    var n, m := c as int, d as int;
    var x, y := CharBytes(c), CharBytes(d);
    assert |x| == |y| && x[0] == y[0];
    if |x| > 1 { assert x[1] == y[1]; }
    if |x| > 2 { assert x[2] == y[2]; }
    if |x| > 3 { assert x[3] == y[3]; }
    CharFromBytes(n);
    CharFromBytes(m);
  }

  lemma CharFromBytes(n: nat)
    ensures n == 0x40 * (n / 0x40) + n % 0x40
    ensures n / 0x40 == 0x40 * (n / 0x1000) + (n / 0x40) % 0x40
    ensures n / 0x1000 == 0x40 * (n / 0x4_0000) + (n / 0x1000) % 0x40
  {
    assert (n / 0x40) / 0x40 == n / 0x1000;
    assert (n / 0x1000) / 0x40 == n / 0x4_0000;
  }

  /** The first byte says how many bytes the character takes. */
  function Width(first: Byte): nat {
    if first < 0x80 then 1 else if first < 0xE0 then 2 else if first < 0xF0 then 3 else 4
  }

  lemma CharWidth(c: char)
    ensures |CharBytes(c)| == Width(CharBytes(c)[0])
  {
  }

  lemma {:induction false} Utf8Injective(a: string, b: string)
    requires Utf8(a) == Utf8(b)
    ensures a == b
  {
    if a != "" && b != "" {
      CharWidth(a[0]);
      CharWidth(b[0]);
      var x, y := CharBytes(a[0]), CharBytes(b[0]);
      assert Utf8(a)[0] == x[0] && Utf8(b)[0] == y[0];
      assert Utf8(a)[..|x|] == x && Utf8(b)[..|y|] == y;
      assert Utf8(a)[|x|..] == Utf8(a[1..]) && Utf8(b)[|y|..] == Utf8(b[1..]);
      CharBytesInjective(a[0], b[0]);
      Utf8Injective(a[1..], b[1..]);
      assert a == [a[0]] + a[1..] && b == [b[0]] + b[1..];
    }
  }

  lemma {:induction false} Utf8Concat(a: string, b: string)
    ensures Utf8(a + b) == Utf8(a) + Utf8(b)
  {
    if a == "" {
      assert a + b == b;
    } else {
      Utf8Concat(a[1..], b);
      assert (a + b)[1..] == a[1..] + b;
    }
  }

  /** The low bytes of a number, least first. */
  function LittleEndian(n: nat, width: nat): (bytes: seq<Byte>)
    ensures |bytes| == width
  {
    if width == 0 then [] else [n % 256] + LittleEndian(n / 256, width - 1)
  }

  function Pow256(k: nat): nat {
    if k == 0 then 1 else 256 * Pow256(k - 1)
  }

  lemma {:induction false} LittleEndianInjective(a: nat, b: nat, width: nat)
    requires a < Pow256(width) && b < Pow256(width)
    requires LittleEndian(a, width) == LittleEndian(b, width)
    ensures a == b
  {
    if width > 0 {
      assert LittleEndian(a, width)[0] == LittleEndian(b, width)[0];
      assert LittleEndian(a, width)[1..] == LittleEndian(b, width)[1..];
      LittleEndianInjective(a / 256, b / 256, width - 1);
    }
  }

  /** What bytes come to with the least first. */
  function LeastFirst(bytes: seq<Byte>): nat {
    if bytes == [] then 0 else bytes[0] + 256 * LeastFirst(bytes[1..])
  }

  /** A number that fits its bytes is what they come to. */
  lemma {:induction false} LittleEndianValue(n: nat, width: nat)
    requires n < Pow256(width)
    ensures LeastFirst(LittleEndian(n, width)) == n
  {
    if width > 0 {
      LittleEndianValue(n / 256, width - 1);
    }
  }

  /** A byte that goes on with a character begun before it. */
  predicate Continues(b: Byte) {
    0x80 <= b < 0xC0
  }

  /** The form of a character's bytes: seven, eleven, sixteen or twenty one bits of its number, the first
      byte saying how many bytes there are and each later one carrying six bits, in no more bytes than it
      needs. */
  lemma CharBytesForm(c: char)
    ensures var n, b := c as int, CharBytes(c);
      && (|b| == 1 ==> b[0] == n < 0x80)
      && (|b| == 2 ==>
        && 0x80 <= n < 0x800 && 0xC0 <= b[0] < 0xE0 && Continues(b[1])
        && n == 0x40 * (b[0] as int - 0xC0) + (b[1] as int - 0x80))
      && (|b| == 3 ==>
        && 0x800 <= n < 0x1_0000 && 0xE0 <= b[0] < 0xF0 && Continues(b[1]) && Continues(b[2])
        && n == 0x1000 * (b[0] as int - 0xE0) + 0x40 * (b[1] as int - 0x80) + (b[2] as int - 0x80))
      && (|b| == 4 ==>
        && 0x1_0000 <= n && 0xF0 <= b[0] < 0xF8 && Continues(b[1]) && Continues(b[2]) && Continues(b[3])
        && n == 0x4_0000 * (b[0] as int - 0xF0) + 0x1000 * (b[1] as int - 0x80) + 0x40 * (b[2] as int - 0x80) + (b[3] as int - 0x80))
  {
    CharFromBytes(c as int);
  }
}
