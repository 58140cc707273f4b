/** The first draw from a seed of zero, computed bit by bit. */
module Vectors {
  import opened SplitMix

  function Halves(n: nat, k: nat): nat {
    if k == 0 then n else Halves(n / 2, k - 1)
  }

  /** The low bits of one word are those of two others, exclusively or'd. */
  predicate XorIs(y: nat, z: nat, s: nat, width: nat) {
    width == 0 || ((y % 2 == 1) == ((z % 2 == 1) != (s % 2 == 1)) && XorIs(y / 2, z / 2, s / 2, width - 1))
  }

  lemma {:induction false} XorBits(y: nat, z: nat, s: nat, width: nat, i: nat)
    requires XorIs(y, z, s, width) && i < width
    ensures ToBits(y, width)[i] == (ToBits(z, width)[i] != ToBits(s, width)[i])
  {
    if i > 0 {
      XorBits(y / 2, z / 2, s / 2, width - 1, i - 1);
    }
  }

  lemma {:induction false} BitAt(n: nat, width: nat, i: nat)
    requires i < width
    ensures ToBits(n, width)[i] == (Halves(n, i) % 2 == 1)
  {
    if i > 0 {
      BitAt(n / 2, width - 1, i - 1);
    }
  }

  lemma {:induction false} HalvesAdd(n: nat, a: nat, b: nat)
    ensures Halves(Halves(n, a), b) == Halves(n, a + b)
  {
    if a > 0 {
      HalvesAdd(n / 2, a - 1, b);
    }
  }

  lemma {:induction false} HalvesEnd(n: nat, k: nat)
    requires n < Pow2(k)
    ensures Halves(n, k) == 0
  {
    if k > 0 {
      HalvesEnd(n / 2, k - 1);
    }
  }

  lemma {:induction false} HalvesOfNothing(k: nat)
    ensures Halves(0, k) == 0
  {
    if k > 0 { HalvesOfNothing(k - 1); }
  }

  lemma ShiftedBit(z: U64, k: nat, i: nat)
    requires i < 64
    ensures ToBits(Halves(z, k), 64)[i] == Shifted(ToBits(z, 64), i, k)
  {
    hide ToBits, Halves;
    BitAt(Halves(z, k), 64, i);
    HalvesAdd(z, k, i);
    if i + k < 64 {
      BitAt(z, 64, i + k);
    } else {
      WordIsPow2();
      HalvesEnd(z, 64);
      HalvesAdd(z, 64, i + k - 64);
      HalvesOfNothing(i + k - 64);
    }
  }

  /** A word that is another exclusively or'd with its own upper bits is what shifting it comes to. */
  lemma XorShiftIs(z: U64, k: nat, y: U64)
    requires XorIs(y, z, Halves(z, k), 64)
    ensures XorShift(z, k) == y
  {
    WordIsPow2();
    var b, x := ToBits(z, 64), ToBits(y, 64);
    forall i | 0 <= i < 64 ensures x[i] == XorShiftBits(b, k)[i] {
      XorBits(y, z, Halves(z, k), 64, i);
      ShiftedBit(z, k, i);
    }
    assert x == XorShiftBits(b, k);
    BitsRoundTrip(y, 64);
  }

  /** The first draw from a seed of zero is the one the generator is known by. */
  lemma FirstDraw()
    ensures Output(NextState(0)) == 0xe220_a839_7b1d_cdaf
  {
    FirstShift();
    SecondShift();
    ThirdShift();
    hide XorShift;
  }

  // Computing with words four bits at a time

  predicate XorOfFour(y: nat, z: nat, s: nat) {
    && (y % 2 == 1) == ((z % 2 == 1) != (s % 2 == 1))
    && ((y / 2) % 2 == 1) == (((z / 2) % 2 == 1) != ((s / 2) % 2 == 1))
    && ((y / 4) % 2 == 1) == (((z / 4) % 2 == 1) != ((s / 4) % 2 == 1))
    && ((y / 8) % 2 == 1) == (((z / 8) % 2 == 1) != ((s / 8) % 2 == 1))
  }

  lemma OneMore(y: nat, z: nat, s: nat, width: nat)
    requires (y % 2 == 1) == ((z % 2 == 1) != (s % 2 == 1)) && XorIs(y / 2, z / 2, s / 2, width)
    ensures XorIs(y, z, s, width + 1)
  {
  }

  lemma FourMore(y: nat, z: nat, s: nat, width: nat)
    requires XorOfFour(y, z, s) && XorIs(y / 16, z / 16, s / 16, width)
    ensures XorIs(y, z, s, width + 4)
  {
    hide XorIs;
    assert (y / 8) / 2 == y / 16 && (z / 8) / 2 == z / 16 && (s / 8) / 2 == s / 16;
    OneMore(y / 8, z / 8, s / 8, width);
    assert (y / 4) / 2 == y / 8 && (z / 4) / 2 == z / 8 && (s / 4) / 2 == s / 8;
    OneMore(y / 4, z / 4, s / 4, width + 1);
    assert (y / 2) / 2 == y / 4 && (z / 2) / 2 == z / 4 && (s / 2) / 2 == s / 4;
    OneMore(y / 2, z / 2, s / 2, width + 2);
    OneMore(y, z, s, width + 3);
  }

  predicate XorOfSixteen(y: nat, z: nat, s: nat) {
    && XorOfFour(y, z, s) && XorOfFour(y / 0x10, z / 0x10, s / 0x10)
    && XorOfFour(y / 0x100, z / 0x100, s / 0x100) && XorOfFour(y / 0x1000, z / 0x1000, s / 0x1000)
  }

  lemma SixteenMore(y: nat, z: nat, s: nat, width: nat)
    requires XorOfSixteen(y, z, s) && XorIs(y / 0x1_0000, z / 0x1_0000, s / 0x1_0000, width)
    ensures XorIs(y, z, s, width + 16)
  {
    hide XorOfFour, XorIs;
    assert (y / 0x1000) / 16 == y / 0x1_0000 && (z / 0x1000) / 16 == z / 0x1_0000 && (s / 0x1000) / 16 == s / 0x1_0000;
    FourMore(y / 0x1000, z / 0x1000, s / 0x1000, width);
    assert (y / 0x100) / 16 == y / 0x1000 && (z / 0x100) / 16 == z / 0x1000 && (s / 0x100) / 16 == s / 0x1000;
    FourMore(y / 0x100, z / 0x100, s / 0x100, width + 4);
    assert (y / 0x10) / 16 == y / 0x100 && (z / 0x10) / 16 == z / 0x100 && (s / 0x10) / 16 == s / 0x100;
    FourMore(y / 0x10, z / 0x10, s / 0x10, width + 8);
    FourMore(y, z, s, width + 12);
  }

  lemma ByQuarters(y: nat, z: nat, s: nat)
    requires XorOfSixteen(y, z, s) && XorOfSixteen(y / 0x1_0000, z / 0x1_0000, s / 0x1_0000)
    requires XorOfSixteen(y / 0x1_0000_0000, z / 0x1_0000_0000, s / 0x1_0000_0000)
    requires XorOfSixteen(y / 0x1_0000_0000_0000, z / 0x1_0000_0000_0000, s / 0x1_0000_0000_0000)
    ensures XorIs(y, z, s, 64)
  {
    hide XorOfSixteen;
    var y3, z3, s3 := y / 0x1_0000_0000_0000, z / 0x1_0000_0000_0000, s / 0x1_0000_0000_0000;
    assert XorIs(y3 / 0x1_0000, z3 / 0x1_0000, s3 / 0x1_0000, 0);
    hide XorIs;
    SixteenMore(y3, z3, s3, 0);
    var y2, z2, s2 := y / 0x1_0000_0000, z / 0x1_0000_0000, s / 0x1_0000_0000;
    assert y2 / 0x1_0000 == y3 && z2 / 0x1_0000 == z3 && s2 / 0x1_0000 == s3;
    SixteenMore(y2, z2, s2, 16);
    var y1, z1, s1 := y / 0x1_0000, z / 0x1_0000, s / 0x1_0000;
    assert y1 / 0x1_0000 == y2 && z1 / 0x1_0000 == z2 && s1 / 0x1_0000 == s2;
    SixteenMore(y1, z1, s1, 32);
    SixteenMore(y, z, s, 48);
  }

  lemma ThreeHalves(n: nat)
    ensures Halves(n, 3) == n / 8
  {
    assert Halves(n / 2, 2) == Halves((n / 2) / 2, 1) == Halves(((n / 2) / 2) / 2, 0);
  }

  lemma SixHalves(n: nat)
    ensures Halves(n, 6) == n / 64
  {
    hide Halves;
    HalvesAdd(n, 3, 3);
    ThreeHalves(n);
    ThreeHalves(n / 8);
  }

  lemma TwelveHalves(n: nat)
    ensures Halves(n, 12) == n / 0x1000
  {
    hide Halves;
    HalvesAdd(n, 6, 6);
    SixHalves(n);
    SixHalves(n / 64);
  }

  lemma ManyHalves(n: nat)
    ensures Halves(n, 24) == n / 0x100_0000
    ensures Halves(n, 27) == n / 0x800_0000
    ensures Halves(n, 30) == n / 0x4000_0000
  {
    hide Halves;
    HalvesAdd(n, 12, 12);
    TwelveHalves(n);
    TwelveHalves(n / 0x1000);
    HalvesAdd(n, 24, 3);
    ThreeHalves(n / 0x100_0000);
    HalvesAdd(n, 24, 6);
    SixHalves(n / 0x100_0000);
  }

  lemma OneHalf(n: nat)
    ensures Halves(n, 31) == n / 0x8000_0000
  {
    HalvesAdd(n, 30, 1);
    ManyHalves(n);
    assert Halves(Halves(n, 30), 1) == Halves(Halves(n, 30) / 2, 0);
  }

  lemma FirstLowest()
    ensures XorOfSixteen(0x9e37_79bb_0797_9af0, 0x9e37_79b9_7f4a_7c15, 0x2_78dd_e6e5)
  {
  }

  lemma FirstLower()
    ensures XorOfSixteen(0x9e37_79bb_0797, 0x9e37_79b9_7f4a, 0x2_78dd)
  {
  }

  lemma FirstUpper()
    ensures XorOfSixteen(0x9e37_79bb, 0x9e37_79b9, 0x2)
  {
  }

  lemma FirstHighest()
    ensures XorOfSixteen(0x9e37, 0x9e37, 0x0)
  {
  }

  lemma FirstShift()
    ensures XorShift(0x9e37_79b9_7f4a_7c15, 30) == 0x9e37_79bb_0797_9af0
  {
    hide XorShift, Halves, XorIs, XorOfSixteen;
    var z, y := 0x9e37_79b9_7f4a_7c15, 0x9e37_79bb_0797_9af0;
    ManyHalves(z);
    FirstLowest();
    FirstLower();
    FirstUpper();
    FirstHighest();
    ByQuarters(y, z, 0x2_78dd_e6e5);
    XorShiftIs(z, 30, y);
  }

  lemma SecondLowest()
    ensures XorOfSixteen(0x6f68_2616_bae3_641a, 0x6f68_261b_57e7_a770, 0xd_ed04_c36a)
  {
  }

  lemma SecondLower()
    ensures XorOfSixteen(0x6f68_2616_bae3, 0x6f68_261b_57e7, 0xd_ed04)
  {
  }

  lemma SecondUpper()
    ensures XorOfSixteen(0x6f68_2616, 0x6f68_261b, 0xd)
  {
  }

  lemma SecondHighest()
    ensures XorOfSixteen(0x6f68, 0x6f68, 0x0)
  {
  }

  lemma SecondShift()
    ensures XorShift(0x6f68_261b_57e7_a770, 27) == 0x6f68_2616_bae3_641a
  {
    hide XorShift, Halves, XorIs, XorOfSixteen;
    var z, y := 0x6f68_261b_57e7_a770, 0x6f68_2616_bae3_641a;
    ManyHalves(z);
    SecondLowest();
    SecondLower();
    SecondUpper();
    SecondHighest();
    ByQuarters(y, z, 0xd_ed04_c36a);
    XorShiftIs(z, 27, y);
  }

  lemma ThirdLowest()
    ensures XorOfSixteen(0xe220_a839_7b1d_cdaf, 0xe220_a838_bf5c_9dde, 0x1_c441_5071)
  {
  }

  lemma ThirdLower()
    ensures XorOfSixteen(0xe220_a839_7b1d, 0xe220_a838_bf5c, 0x1_c441)
  {
  }

  lemma ThirdUpper()
    ensures XorOfSixteen(0xe220_a839, 0xe220_a838, 0x1)
  {
  }

  lemma ThirdHighest()
    ensures XorOfSixteen(0xe220, 0xe220, 0x0)
  {
  }

  lemma ThirdShift()
    ensures XorShift(0xe220_a838_bf5c_9dde, 31) == 0xe220_a839_7b1d_cdaf
  {
    hide XorShift, Halves, XorIs, XorOfSixteen;
    var z, y := 0xe220_a838_bf5c_9dde, 0xe220_a839_7b1d_cdaf;
    OneHalf(z);
    ThirdLowest();
    ThirdLower();
    ThirdUpper();
    ThirdHighest();
    ByQuarters(y, z, 0x1_c441_5071);
    XorShiftIs(z, 31, y);
  }
}
