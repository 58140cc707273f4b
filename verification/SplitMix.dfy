/** The small generator the bootstraps draw from. */
module SplitMix {
  const WORD: nat := 0x1_0000_0000_0000_0000

  type U64 = n: nat | n < 0x1_0000_0000_0000_0000

  /** What the state moves by, modulo the word. */
  const STEP: U64 := 0x9e37_79b9_7f4a_7c15

  function NextState(state: U64): U64 {
    (state + STEP) % WORD
  }

  // Words as bits, least first

  type Bits = b: seq<bool> | |b| == 64 witness seq(64, _ => false)

  function Pow2(k: nat): nat {
    if k == 0 then 1 else 2 * Pow2(k - 1)
  }

  function ToBits(n: nat, width: nat): (b: seq<bool>)
    ensures |b| == width
  {
    if width == 0 then [] else [n % 2 == 1] + ToBits(n / 2, width - 1)
  }

  function FromBits(b: seq<bool>): (n: nat)
    ensures n < Pow2(|b|)
  {
    if b == [] then 0 else (if b[0] then 1 else 0) + 2 * FromBits(b[1..])
  }

  lemma {:induction false} BitsRoundTrip(n: nat, width: nat)
    requires n < Pow2(width)
    ensures FromBits(ToBits(n, width)) == n
  {
    if width > 0 {
      BitsRoundTrip(n / 2, width - 1);
      assert ToBits(n, width)[1..] == ToBits(n / 2, width - 1);
    }
  }

  lemma {:induction false} WordRoundTrip(b: seq<bool>)
    ensures ToBits(FromBits(b), |b|) == b
  {
    if b != [] {
      WordRoundTrip(b[1..]);
      assert b == [b[0]] + b[1..];
    }
  }

  lemma WordIsPow2()
    ensures Pow2(64) == WORD
  {
    assert Pow2(4) == 16;
    Pow2Doubles(4);
    Pow2Doubles(8);
    Pow2Doubles(16);
    Pow2Doubles(32);
  }

  lemma Pow2Doubles(k: nat)
    ensures Pow2(2 * k) == Pow2(k) * Pow2(k)
  {
    Pow2Adds(k, k);
  }

  lemma {:induction false} Pow2Adds(a: nat, b: nat)
    ensures Pow2(a + b) == Pow2(a) * Pow2(b)
  {
    if a > 0 {
      Pow2Adds(a - 1, b);
      assert Pow2(a + b) == 2 * Pow2(a - 1 + b);
    }
  }

  /** A bit of a word shifted right: zeros come in from the top. */
  predicate Shifted(b: Bits, i: nat, k: nat) {
    i + k < 64 && b[i + k]
  }

  /** Exclusive or of a word with itself shifted right. */
  function XorShiftBits(b: Bits, k: nat): Bits {
    seq(64, i requires 0 <= i < 64 => b[i] != Shifted(b, i, k))
  }

  /** Exclusive or of a word with itself shifted once and shifted twice. */
  function UnshiftBits(b: Bits, k: nat): Bits {
    seq(64, i requires 0 <= i < 64 => (b[i] != Shifted(b, i, k)) != Shifted(b, i, 2 * k))
  }

  /** Three shifts reach past the word, so shifting on undoes the shift. */
  lemma UnshiftInverse(b: Bits, k: nat)
    requires 0 < k < 64 <= 3 * k
    ensures UnshiftBits(XorShiftBits(b, k), k) == b && XorShiftBits(UnshiftBits(b, k), k) == b
  {
    var x, y := XorShiftBits(b, k), UnshiftBits(b, k);
    forall i | 0 <= i < 64 ensures UnshiftBits(x, k)[i] == b[i] && XorShiftBits(y, k)[i] == b[i] {
      assert x[i] == (b[i] != Shifted(b, i, k));
      assert y[i] == ((b[i] != Shifted(b, i, k)) != Shifted(b, i, 2 * k));
      if i + k < 64 {
        assert x[i + k] == (b[i + k] != Shifted(b, i + k, k));
        assert y[i + k] == ((b[i + k] != Shifted(b, i + k, k)) != Shifted(b, i + k, 2 * k));
      }
      if i + 2 * k < 64 {
        assert x[i + 2 * k] == (b[i + 2 * k] != Shifted(b, i + 2 * k, k));
      }
    }
  }

  /** `z ^ (z >> k)` on a word. */
  function XorShift(z: U64, k: nat): U64 {
    WordIsPow2();
    FromBits(XorShiftBits(ToBits(z, 64), k))
  }

  function Unshift(z: U64, k: nat): U64 {
    WordIsPow2();
    FromBits(UnshiftBits(ToBits(z, 64), k))
  }

  lemma ShiftInverse(z: U64, k: nat)
    requires 0 < k < 64 <= 3 * k
    ensures Unshift(XorShift(z, k), k) == z && XorShift(Unshift(z, k), k) == z
  {
    hide XorShiftBits, UnshiftBits;
    WordIsPow2();
    var b := ToBits(z, 64);
    UnshiftInverse(b, k);
    BitsRoundTrip(z, 64);
    WordRoundTrip(XorShiftBits(b, k));
    WordRoundTrip(UnshiftBits(b, k));
  }

  /** Multiplication on a word wraps. */
  function Times(z: U64, factor: U64): U64 {
    (z * factor) % WORD
  }

  lemma TimesInverse(z: U64, factor: U64, inverse: U64, q: nat)
    requires factor * inverse == q * WORD + 1
    ensures Times(Times(z, factor), inverse) == z
  {
    var m := (z * factor) / WORD;
    assert z * factor == m * WORD + Times(z, factor);
    assert Times(z, factor) * inverse == z * factor * inverse - m * WORD * inverse;
    assert z * factor * inverse == z * (factor * inverse) == z * (q * WORD + 1) == (z * q) * WORD + z;
    assert m * WORD * inverse == (m * inverse) * WORD;
    Residue(Times(z, factor) * inverse, z * q - m * inverse, z);
  }

  lemma Residue(x: int, k: int, r: nat)
    requires x == k * WORD + r && r < WORD
    ensures x % WORD == r
  {
  }

  const FACTOR1: U64 := 0xbf58_476d_1ce4_e5b9
  const FACTOR2: U64 := 0x94d0_49bb_1331_11eb
  const INVERSE1: U64 := 0x96de_1b17_3f11_9089
  const INVERSE2: U64 := 0x3196_42b2_d24d_8ec3

  /** The output for a state: two rounds of shift, exclusive or and multiply, and a last shift. */
  function Output(state: U64): U64 {
    XorShift(Times(XorShift(Times(XorShift(state, 30), FACTOR1), 27), FACTOR2), 31)
  }

  /** The way back: each shift undone by shifting on, each multiplication by the inverse of its odd
      factor. */
  function StateOf(output: U64): U64 {
    Unshift(Times(Unshift(Times(Unshift(output, 31), INVERSE2), 27), INVERSE1), 30)
  }

  lemma Factors(z: U64)
    ensures Times(Times(z, FACTOR1), INVERSE1) == z && Times(Times(z, INVERSE1), FACTOR1) == z
    ensures Times(Times(z, FACTOR2), INVERSE2) == z && Times(Times(z, INVERSE2), FACTOR2) == z
  {
    var q1, q2 := (FACTOR1 * INVERSE1) / WORD, (FACTOR2 * INVERSE2) / WORD;
    assert FACTOR1 * INVERSE1 == q1 * WORD + 1 && FACTOR2 * INVERSE2 == q2 * WORD + 1;
    TimesInverse(z, FACTOR1, INVERSE1, q1);
    TimesInverse(z, INVERSE1, FACTOR1, q1);
    TimesInverse(z, FACTOR2, INVERSE2, q2);
    TimesInverse(z, INVERSE2, FACTOR2, q2);
  }

  lemma OutputInverse(state: U64)
    ensures StateOf(Output(state)) == state
  {
    hide XorShift, Unshift, Times;
    var a := XorShift(state, 30);
    var z := Times(a, FACTOR1);
    var b := XorShift(z, 27);
    var y := Times(b, FACTOR2);
    ShiftInverse(y, 31);
    Factors(b);
    ShiftInverse(z, 27);
    Factors(a);
    ShiftInverse(state, 30);
  }

  lemma StateInverse(output: U64)
    ensures Output(StateOf(output)) == output
  {
    hide XorShift, Unshift, Times;
    var b := Unshift(output, 31);
    var y := Times(b, INVERSE2);
    var a := Unshift(y, 27);
    var z := Times(a, INVERSE1);
    ShiftInverse(output, 31);
    Factors(b);
    ShiftInverse(y, 27);
    Factors(a);
    ShiftInverse(z, 30);
  }

  /** Output and state determine each other: the outputs over all states are all words, each once. */
  lemma OutputBijection(state: U64, output: U64)
    ensures Output(state) == output <==> state == StateOf(output)
  {
    hide Output, StateOf;
    OutputInverse(state);
    StateInverse(output);
  }

  // The period

  function StateAfter(seed: U64, draws: nat): U64 {
    if draws == 0 then seed else NextState(StateAfter(seed, draws - 1))
  }

  lemma {:induction false} StateAfterIs(seed: U64, draws: nat)
    ensures StateAfter(seed, draws) == (seed + draws * STEP) % WORD
  {
    if draws > 0 {
      StateAfterIs(seed, draws - 1);
      assert draws * STEP == (draws - 1) * STEP + STEP;
      WrapAdd(seed + (draws - 1) * STEP, STEP);
    }
  }

  lemma WrapAdd(x: nat, y: nat)
    ensures (x + y) % WORD == (x % WORD + y) % WORD
  {
  }

  const STEP_INVERSE: U64 := 0xf1de_83e1_9937_733d

  /** The step is odd, so it is only a multiple of the word when it is taken a multiple of the word
      times. */
  lemma StepIsUnit(draws: nat)
    ensures (draws * STEP) % WORD == 0 <==> draws % WORD == 0
  {
    var q := (STEP * STEP_INVERSE) / WORD;
    assert STEP * STEP_INVERSE == q * WORD + 1;
    if (draws * STEP) % WORD == 0 {
      var m := (draws * STEP) / WORD;
      assert draws * STEP == m * WORD;
      Cancel(draws, q, m);
    } else {
      if draws % WORD == 0 {
        var m := draws / WORD;
        assert draws == m * WORD;
        Multiple(m * STEP, draws * STEP);
        assert false;
      }
    }
  }

  lemma Multiple(m: int, n: int)
    requires n == m * WORD
    ensures n % WORD == 0
  {
  }

  lemma Cancel(draws: nat, q: int, m: int)
    requires STEP * STEP_INVERSE == q * WORD + 1 && draws * STEP == m * WORD
    ensures draws % WORD == 0
  {
    assert draws * (STEP * STEP_INVERSE) == (draws * STEP) * STEP_INVERSE;
    assert draws * (q * WORD + 1) == (draws * q) * WORD + draws;
    assert (m * WORD) * STEP_INVERSE == (m * STEP_INVERSE) * WORD;
    var k := m * STEP_INVERSE - draws * q;
    assert draws == k * WORD;
    Multiple(k, draws);
  }

  /** From any seed the state comes back to it exactly after every whole word of draws, and not before. */
  lemma Period(seed: U64, draws: nat)
    ensures StateAfter(seed, draws) == seed <==> draws % WORD == 0
  {
    hide StateAfter;
    StateAfterIs(seed, draws);
    StepIsUnit(draws);
    WrapAdd(draws * STEP, seed);
  }

  // A value under a bound

  /** The high word of the output times the bound. */
  function Below(output: U64, bound: nat): (r: nat)
    requires bound > 0
    ensures r < bound
  {
    HighWord(output, bound);
    (output * bound) / WORD
  }

  lemma HighWord(r: U64, bound: nat)
    requires bound > 0
    ensures (r * bound) / WORD < bound
  {
    assert r * bound < WORD * bound;
  }

  /** The outputs that give one result. */
  ghost function Hits(bound: nat, result: nat): set<nat>
    requires bound > 0
  {
    set r: nat | r < WORD && (r * bound) / WORD == result
  }

  /** The first output whose product reaches a multiple of the word. */
  function First(bound: nat, k: nat): nat
    requires bound > 0
  {
    (k * WORD + bound - 1) / bound
  }

  lemma CeilingReaches(bound: nat, x: nat, f: nat, e: nat, r: nat)
    requires x + bound - 1 == f * bound + e && e < bound
    ensures r >= f <==> r * bound >= x
  {
    var d := r - f;
    assert r * bound == f * bound + d * bound;
    assert d >= 0 ==> d * bound >= 0;
    assert d <= -1 ==> d * bound + bound <= 0;
  }

  lemma FirstReaches(bound: nat, k: nat, r: nat)
    requires bound > 0
    ensures r >= First(bound, k) <==> r * bound >= k * WORD
  {
    var x := k * WORD;
    DivMod(x + bound - 1, bound);
    CeilingReaches(bound, x, First(bound, k), (x + bound - 1) % bound, r);
  }

  lemma DivMod(x: nat, d: nat)
    requires d > 0
    ensures x == (x / d) * d + x % d
  {
  }

  /** The numbers from a first up to, and without, a last. */
  ghost function Interval(lo: nat, hi: nat): set<nat> {
    if lo >= hi then {} else Interval(lo, hi - 1) + {hi - 1}
  }

  lemma {:induction false} IntervalExact(lo: nat, hi: nat)
    requires lo <= hi
    ensures |Interval(lo, hi)| == hi - lo
    ensures forall r: nat :: r in Interval(lo, hi) <==> lo <= r < hi
    decreases hi - lo
  {
    if lo < hi { IntervalExact(lo, hi - 1); }
  }

  lemma HitsAreAnInterval(bound: nat, result: nat)
    requires result < bound
    ensures First(bound, result) <= First(bound, result + 1)
    ensures Hits(bound, result) == Interval(First(bound, result), First(bound, result + 1))
  {
    hide First;
    var lo, hi := First(bound, result), First(bound, result + 1);
    FirstReaches(bound, result + 1, hi);
    FirstReaches(bound, result, hi);
    assert (result + 1) * WORD >= result * WORD;
    IntervalExact(lo, hi);
    forall r: nat ensures r in Hits(bound, result) <==> lo <= r < hi {
      HitBetween(bound, result, r);
    }
  }

  lemma HitBetween(bound: nat, result: nat, r: nat)
    requires result < bound
    ensures r < WORD && (r * bound) / WORD == result <==> First(bound, result) <= r < First(bound, result + 1)
  {
    hide First;
    FirstReaches(bound, result, r);
    FirstReaches(bound, result + 1, r);
    Between(r * bound, result);
    if r >= WORD {
      assert r * bound >= WORD * bound by { assert (r - WORD) * bound >= 0; }
      assert WORD * bound >= (result + 1) * WORD by { assert WORD * (bound - result - 1) >= 0; }
    }
  }

  lemma Between(x: nat, k: nat)
    ensures x / WORD == k <==> k * WORD <= x < (k + 1) * WORD
  {
  }

  function Ceiling(n: nat, d: nat): nat
    requires d > 0
  {
    (n + d - 1) / d
  }

  lemma CeilingIs(n: nat, d: nat)
    requires d > 0
    ensures Ceiling(n, d) == n / d + (if n % d == 0 then 0 else 1)
  {
    DivMod(n, d);
    if n % d == 0 {
      Quotient(n / d, d - 1, d);
    } else {
      assert n + d - 1 == (n / d + 1) * d + (n % d - 1);
      Quotient(n / d + 1, n % d - 1, d);
    }
  }

  lemma GapSize(bound: nat, k: nat)
    requires bound > 0
    ensures var gap := First(bound, k + 1) - First(bound, k);
            gap == WORD / bound || gap == Ceiling(WORD, bound)
  {
    hide Ceiling;
    CeilingIs(WORD, bound);
    StepOfFirst(bound, k, WORD);
  }

  lemma StepOfFirst(bound: nat, k: nat, word: nat)
    requires bound > 0 && word == WORD
    ensures First(bound, k + 1) - First(bound, k) == word / bound
         || (First(bound, k + 1) - First(bound, k) == word / bound + 1 && word % bound != 0)
  {
    var a := k * WORD + bound - 1;
    assert (k + 1) * WORD + bound - 1 == a + word;
    AddedQuotient(a, word, bound);
  }

  lemma AddedQuotient(a: nat, w: nat, d: nat)
    requires d > 0
    ensures (a + w) / d == a / d + w / d || ((a + w) / d == a / d + w / d + 1 && w % d != 0)
  {
    DivMod(a, d);
    DivMod(w, d);
    DivideSum(a / d, a % d, w / d, w % d, d);
  }

  lemma Quotient(q: nat, e: nat, d: nat)
    requires e < d
    ensures (q * d + e) / d == q
  {
    var x := q * d + e;
    var k := x / d - q;
    assert x == d * (x / d) + x % d;
    assert d * (x / d) == d * q + d * k;
    assert e == d * k + x % d;
    assert k >= 1 ==> d * k >= d;
    assert k <= -1 ==> d * k + d <= 0;
  }

  lemma DivideSum(f: nat, e: nat, q: nat, m: nat, d: nat)
    requires e < d && m < d
    ensures (f * d + e + (q * d + m)) / d == f + q + (if e + m >= d then 1 else 0)
  {
    var carry := if e + m >= d then 1 else 0;
    assert f * d + e + (q * d + m) == (f + q + carry) * d + (e + m - carry * d);
    Quotient(f + q + carry, e + m - carry * d, d);
  }

  /** Each result below a bound is given by the floor or the ceiling of its share of the outputs: no
      result is favoured over another by more than one output of the whole word. */
  lemma BelowIsEven(bound: nat, result: nat)
    requires result < bound
    ensures |Hits(bound, result)| == WORD / bound || |Hits(bound, result)| == Ceiling(WORD, bound)
  {
    HitsAreAnInterval(bound, result);
    IntervalExact(First(bound, result), First(bound, result + 1));
    GapSize(bound, result);
  }

  /** And by as many states as outputs. */
  ghost function StateHits(bound: nat, result: nat): set<nat>
    requires bound > 0
  {
    set s: nat | s < WORD && Below(Output(s), bound) == result
  }

  lemma StateHitsEven(bound: nat, result: nat)
    requires result < bound
    ensures |StateHits(bound, result)| == |Hits(bound, result)|
  {
    var states, outputs := StateHits(bound, result), Hits(bound, result);
    forall s | s in states ensures Output(s) in outputs {
    }
    forall r | r in outputs ensures StateOf(r) in states && Output(StateOf(r)) == r {
      OutputBijection(StateOf(r), r);
    }
    forall s, t | s in states && t in states && Output(s) == Output(t) ensures s == t {
      OutputBijection(s, Output(s));
      OutputBijection(t, Output(t));
    }
    MatchingSizes(states, outputs);
  }

  lemma {:induction false} MatchingSizes(states: set<nat>, outputs: set<nat>)
    requires forall s | s in states :: s < WORD && Output(s) in outputs
    requires forall r | r in outputs :: r < WORD && StateOf(r) in states && Output(StateOf(r)) == r
    requires forall s, t | s in states && t in states && Output(s) == Output(t) :: s == t
    ensures |states| == |outputs|
    decreases states
  {
    hide Output, StateOf;
    if states == {} {
      assert outputs == {};
    } else {
      var s :| s in states;
      OutputBijection(s, Output(s));
      forall r | r in outputs - {Output(s)} ensures StateOf(r) in states - {s} {
      }
      MatchingSizes(states - {s}, outputs - {Output(s)});
    }
  }

  /** The generator. */
  class SplitMix64 {
    var state: U64

    constructor (seed: U64)
      ensures state == seed
    {
      state := seed;
    }

    method Next() returns (output: U64)
      modifies this
      ensures state == NextState(old(state)) && output == Output(state)
    {
      state := (state + STEP) % WORD;
      var z := state;
      z := Times(XorShift(z, 30), FACTOR1);
      z := Times(XorShift(z, 27), FACTOR2);
      output := XorShift(z, 31);
    }

    method Draw(bound: nat) returns (r: nat)
      requires bound > 0
      modifies this
      ensures state == NextState(old(state))
      ensures r < bound && r == Below(Output(state), bound)
    {
      hide Output;
      var output := Next();
      HighWord(output, bound);
      r := (output * bound) / WORD;
    }
  }
}
