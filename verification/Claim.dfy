/** Grading a measurement against a threshold that was registered before it. */
module Claim {
  import opened Wrappers
  import opened Reals
  import opened Text

  datatype Verdict = Reproduced | ReproducedWithCaveat | NotReproduced | NotAttemptable | Pending

  datatype Caveat = GatesOverridden | UntestedPlatform | ConfigurationGuessed

  datatype Bar = Bar(target: real, tolerance: real)

  datatype Measured = Measured(day: string, value: real, resolution: real, caveats: seq<Caveat>)

  datatype Attempt = Taken(measured: Measured) | Refused(citation: string)

  datatype Claim = Claim(id: string, day: string, source: string, bar: Bar)

  datatype Ungradable =
    | Unregistered
    | RegisteredNotADay
    | MeasuredNotADay
    | NoCitation
    | Backdated
    | RelativeToNothing

  /** The gap between one and the next double, below which a target counts as zero. */
  const EPSILON: real := 1.0 / 4_503_599_627_370_496.0

  function DecideBar(bar: Bar, m: Measured): Option<Verdict> {
    if Abs(bar.target) < EPSILON then None
    else
      var off := Abs(m.value - bar.target) / Abs(bar.target);
      if off + m.resolution <= bar.tolerance then
        Some(if m.caveats == [] then Reproduced else ReproducedWithCaveat)
      else if off - m.resolution > bar.tolerance then Some(NotReproduced)
      else Some(NotAttemptable)
  }

  predicate Passes(v: Verdict) {
    v == Reproduced || v == ReproducedWithCaveat
  }

  // What the verdicts mean

  /** What the instrument resolves, in the units of the reading. */
  function Reach(bar: Bar, m: Measured): real {
    m.resolution * Abs(bar.target)
  }

  /** How far from the target the bar lets a reading sit, in the units of the reading. */
  function Limit(bar: Bar): real {
    bar.tolerance * Abs(bar.target)
  }

  /** A value the instrument could not tell from the reading. */
  ghost predicate Indistinct(bar: Bar, m: Measured, value: real) {
    Abs(value - m.value) <= Reach(bar, m)
  }

  ghost predicate Inside(bar: Bar, value: real) {
    Abs(value - bar.target) <= Limit(bar)
  }

  lemma Scaled(x: real, t: real, y: real)
    requires t > 0.0
    ensures x / t <= y <==> x <= y * t
  {
    assert (x / t) * t == x;
  }

  lemma OffScaled(bar: Bar, m: Measured)
    requires Abs(bar.target) >= EPSILON
    ensures var t := Abs(bar.target);
            var distance := Abs(m.value - bar.target);
            && t > 0.0
            && (distance / t + m.resolution <= bar.tolerance
                <==> distance + m.resolution * t <= bar.tolerance * t)
            && (distance / t - m.resolution > bar.tolerance
                <==> distance - m.resolution * t > bar.tolerance * t)
  {
    var t := Abs(bar.target);
    var distance := Abs(m.value - bar.target);
    Scaled(distance, t, bar.tolerance - m.resolution);
    Scaled(distance, t, bar.tolerance + m.resolution);
  }

  function Far(target: real, reading: real, reach: real): real {
    if reading >= target then reading + reach else reading - reach
  }

  function Near(target: real, reading: real, reach: real): real {
    if Abs(reading - target) <= reach then target
    else if reading >= target then reading - reach
    else reading + reach
  }

  /** Of the values within reach of a reading, one lies furthest from the target and one nearest. */
  lemma Extremes(target: real, reading: real, reach: real)
    requires reach >= 0.0
    ensures var d := Abs(reading - target);
            && Abs(Far(target, reading, reach) - reading) <= reach
            && Abs(Near(target, reading, reach) - reading) <= reach
            && Abs(Far(target, reading, reach) - target) == d + reach
            && Abs(Near(target, reading, reach) - target) == (if d <= reach then 0.0 else d - reach)
  {
  }

  lemma Between(target: real, reading: real, reach: real, v: real)
    requires reach >= 0.0 && Abs(v - reading) <= reach
    ensures Abs(Near(target, reading, reach) - target) <= Abs(v - target) <= Abs(Far(target, reading, reach) - target)
  {
  }

  function FarValue(bar: Bar, m: Measured): real {
    Far(bar.target, m.value, Reach(bar, m))
  }

  function NearValue(bar: Bar, m: Measured): real {
    Near(bar.target, m.value, Reach(bar, m))
  }

  lemma NonNegative(bar: Bar, m: Measured)
    ensures m.resolution >= 0.0 ==> Reach(bar, m) >= 0.0
    ensures bar.tolerance >= 0.0 ==> Limit(bar) >= 0.0
  {
  }

  /** The same three outcomes in the units of the reading, with nothing divided. */
  lemma DecideUnscaled(bar: Bar, m: Measured)
    requires Abs(bar.target) >= EPSILON
    ensures DecideBar(bar, m).Some? && DecideBar(bar, m).value != Pending
    ensures var distance := Abs(m.value - bar.target);
            && (Passes(DecideBar(bar, m).value) <==> distance + Reach(bar, m) <= Limit(bar))
            && (DecideBar(bar, m).value == NotReproduced <==>
                  !(distance + Reach(bar, m) <= Limit(bar)) && distance - Reach(bar, m) > Limit(bar))
  {
    OffScaled(bar, m);
  }

  lemma VerdictByExtremes(bar: Bar, m: Measured)
    requires bar.tolerance >= 0.0 && m.resolution >= 0.0 && Abs(bar.target) >= EPSILON
    ensures Indistinct(bar, m, FarValue(bar, m)) && Indistinct(bar, m, NearValue(bar, m))
    ensures DecideBar(bar, m).Some?
    ensures Passes(DecideBar(bar, m).value) <==> Inside(bar, FarValue(bar, m))
    ensures DecideBar(bar, m).value == NotReproduced <==> !Inside(bar, NearValue(bar, m))
    ensures DecideBar(bar, m).value != Pending
  {
    hide DecideBar, Reach, Limit;
    DecideUnscaled(bar, m);
    NonNegative(bar, m);
    Extremes(bar.target, m.value, Reach(bar, m));
  }

  lemma InsideBetween(bar: Bar, m: Measured, v: real)
    requires m.resolution >= 0.0 && Indistinct(bar, m, v)
    ensures Inside(bar, FarValue(bar, m)) ==> Inside(bar, v)
    ensures Inside(bar, v) ==> Inside(bar, NearValue(bar, m))
  {
    hide Reach, Limit;
    NonNegative(bar, m);
    Between(bar.target, m.value, Reach(bar, m), v);
  }

  /** A pass says every value the instrument could not tell from the reading meets the bar, a failure
      says none of them does, and undecided says that some do and some do not. */
  lemma VerdictMeaning(bar: Bar, m: Measured)
    requires bar.tolerance >= 0.0 && m.resolution >= 0.0 && Abs(bar.target) >= EPSILON
    ensures DecideBar(bar, m).Some?
    ensures var verdict := DecideBar(bar, m).value;
            && (Passes(verdict) <==> forall v | Indistinct(bar, m, v) :: Inside(bar, v))
            && (verdict == NotReproduced <==> forall v | Indistinct(bar, m, v) :: !Inside(bar, v))
            && (verdict == NotAttemptable <==>
                  && (exists v :: Indistinct(bar, m, v) && Inside(bar, v))
                  && (exists v :: Indistinct(bar, m, v) && !Inside(bar, v)))
  {
    hide DecideBar, Indistinct, Inside, FarValue, NearValue;
    VerdictByExtremes(bar, m);
    forall v | Indistinct(bar, m, v)
      ensures Inside(bar, FarValue(bar, m)) ==> Inside(bar, v)
      ensures Inside(bar, v) ==> Inside(bar, NearValue(bar, m))
    {
      InsideBetween(bar, m, v);
    }
  }

  /** A finer instrument never turns a decided verdict into another one. */
  lemma FinerNeverFlips(bar: Bar, m: Measured, finer: real)
    requires 0.0 <= finer <= m.resolution
    ensures var before, after := DecideBar(bar, m), DecideBar(bar, m.(resolution := finer));
            && (before.None? <==> after.None?)
            && (before.Some? && before.value != NotAttemptable ==> after == before)
  {
  }

  /** Caveats separate the two spellings of a pass and decide nothing else. */
  lemma CaveatsOnlySpell(bar: Bar, m: Measured, caveats: seq<Caveat>)
    ensures var a, b := DecideBar(bar, m), DecideBar(bar, m.(caveats := caveats));
            && (a.None? <==> b.None?)
            && (a.Some? ==> (Passes(a.value) <==> Passes(b.value)) && (!Passes(a.value) ==> a == b))
            && (a.Some? && Passes(a.value) ==> (a.value == Reproduced <==> m.caveats == []))
  {
  }

  // Days

  predicate IsDay(text: string) {
    && |text| == 10 && text[4] == '-' && text[7] == '-'
    && forall at | 0 <= at < 10 && at != 4 && at != 7 :: '0' <= text[at] <= '9'
  }

  predicate DayOf(text: string, y: string, m: string, d: string) {
    text == y + "-" + m + "-" + d && |y| == 4 && |m| == 2 && |d| == 2 && Digits(y) && Digits(m) && Digits(d)
  }

  /** A day is four digits, two and two, with dashes between. */
  lemma IsDayExactly(text: string)
    ensures IsDay(text) <==> exists y, m, d :: DayOf(text, y, m, d)
  {
    hide IsDay, DayOf;
    if IsDay(text) {
      DayParted(text);
    } else if y, m, d :| DayOf(text, y, m, d) {
      DayJoined(text, y, m, d);
    }
  }

  lemma DayParted(text: string)
    requires IsDay(text)
    ensures DayOf(text, text[..4], text[5..7], text[8..])
  {
    assert text == text[..4] + "-" + text[5..7] + "-" + text[8..];
  }

  lemma DayJoined(text: string, y: string, m: string, d: string)
    requires DayOf(text, y, m, d)
    ensures IsDay(text)
  {
    forall at | 0 <= at < 10 && at != 4 && at != 7 ensures '0' <= text[at] <= '9' {
      if at < 4 {
        assert text[at] == y[at];
      } else if at < 7 {
        assert text[at] == m[at - 5];
      } else {
        assert text[at] == d[at - 8];
      }
    }
  }

  /** Year, month and day of a text of that shape, as numbers. */
  function DayParts(text: string): (nat, nat, nat)
    requires IsDay(text)
  {
    (ReadNatural(text[..4]), ReadNatural(text[5..7]), ReadNatural(text[8..]))
  }

  predicate NotAfter(a: (nat, nat, nat), b: (nat, nat, nat)) {
    a.0 < b.0 || (a.0 == b.0 && (a.1 < b.1 || (a.1 == b.1 && a.2 <= b.2)))
  }

  lemma {:induction false} LeadingDigit(s: string)
    requires Digits(s) && s != ""
    ensures ReadNatural(s) == (s[0] as int - '0' as int) * Pow10(|s| - 1) + ReadNatural(s[1..])
    ensures ReadNatural(s) < Pow10(|s|)
  {
    var front, last := s[..|s| - 1], s[|s| - 1] as int - '0' as int;
    if |s| == 1 {
      assert front == "" && s[1..] == "";
    } else {
      LeadingDigit(front);
      assert front[1..] == s[1..][..|s| - 2];
      assert s[1..][|s| - 2] == s[|s| - 1];
      assert Pow10(|s| - 1) == 10 * Pow10(|s| - 2);
      var lead := s[0] as int - '0' as int;
      assert 10 * (lead * Pow10(|s| - 2)) == lead * Pow10(|s| - 1);
    }
  }

  lemma LeadDecides(x: nat, y: nat, p: nat, r: nat, q: nat)
    requires r < p && q < p && x < y
    ensures x * p + r < y * p + q
  {
    var k := y - x - 1;
    assert y * p == x * p + p + k * p;
    assert k * p >= 0;
  }

  /** Digits of one length compare as text as they do as numbers. */
  lemma {:induction false} DigitsCompare(a: string, b: string)
    requires Digits(a) && Digits(b) && |a| == |b|
    ensures TextLeq(a, b) <==> ReadNatural(a) <= ReadNatural(b)
    ensures ReadNatural(a) == ReadNatural(b) ==> a == b
  {
    if a != "" {
      LeadingDigit(a);
      LeadingDigit(b);
      TailBelow(a);
      TailBelow(b);
      DigitsCompare(a[1..], b[1..]);
      hide ReadNatural, Pow10;
      var x, y := a[0] as int - '0' as int, b[0] as int - '0' as int;
      var p, r, q := Pow10(|a| - 1), ReadNatural(a[1..]), ReadNatural(b[1..]);
      if x < y { LeadDecides(x, y, p, r, q); }
      if y < x { LeadDecides(y, x, p, q, r); }
      assert a == [a[0]] + a[1..] && b == [b[0]] + b[1..];
    }
  }

  lemma TailBelow(s: string)
    requires Digits(s) && s != ""
    ensures ReadNatural(s[1..]) < Pow10(|s| - 1)
  {
    if |s| > 1 { LeadingDigit(s[1..]); }
  }

  lemma {:induction false} PrefixCompare(a: string, b: string, x: string, y: string)
    requires |a| == |b|
    ensures TextLeq(a + x, b + y) <==> if a == b then TextLeq(x, y) else TextLeq(a, b)
  {
    if a == "" {
      assert a + x == x && b + y == y;
    } else {
      assert (a + x)[1..] == a[1..] + x && (b + y)[1..] == b[1..] + y;
      assert a == [a[0]] + a[1..] && b == [b[0]] + b[1..];
      PrefixCompare(a[1..], b[1..], x, y);
    }
  }

  /** On the days that are accepted, the order of the texts is the order of the dates. */
  lemma DayOrder(a: string, b: string)
    requires IsDay(a) && IsDay(b)
    ensures TextLeq(a, b) <==> NotAfter(DayParts(a), DayParts(b))
  {
    DigitsCompare(a[..4], b[..4]);
    DigitsCompare(a[5..7], b[5..7]);
    DigitsCompare(a[8..], b[8..]);
    var ra, rb := a[5..7] + "-" + a[8..], b[5..7] + "-" + b[8..];
    assert a == a[..4] + "-" + ra && b == b[..4] + "-" + rb;
    PrefixCompare(a[..4] + "-", b[..4] + "-", ra, rb);
    PrefixCompare(a[5..7] + "-", b[5..7] + "-", a[8..], b[8..]);
    PrefixCompare(a[..4], b[..4], "-", "-");
    PrefixCompare(a[5..7], b[5..7], "-", "-");
    assert (a[..4] + "-")[..4] == a[..4] && (b[..4] + "-")[..4] == b[..4];
    assert (a[5..7] + "-")[..2] == a[5..7] && (b[5..7] + "-")[..2] == b[5..7];
  }

  // The whole decision

  function Decide(claim: Claim, attempt: Option<Attempt>): Result<Verdict, Ungradable> {
    if Blank(claim.source) then Err(Unregistered)
    else if !IsDay(claim.day) then Err(RegisteredNotADay)
    else match attempt
      case None => Ok(Pending)
      case Some(Refused(citation)) => if Blank(citation) then Err(NoCitation) else Ok(NotAttemptable)
      case Some(Taken(m)) =>
        if !IsDay(m.day) then Err(MeasuredNotADay)
        else if !TextLeq(claim.day, m.day) then Err(Backdated)
        else match DecideBar(claim.bar, m)
          case Some(verdict) => Ok(verdict)
          case None => Err(RelativeToNothing)
  }

  /** A verdict that settles a claim comes only from a measurement dated on or after the registration of
      its threshold, and then it is the verdict of the bar. */
  lemma SettledOnlyByLaterMeasurement(claim: Claim, attempt: Option<Attempt>)
    ensures (Decide(claim, attempt).Ok? && (Passes(Decide(claim, attempt).value) || Decide(claim, attempt).value == NotReproduced))
       <==> && !Blank(claim.source) && IsDay(claim.day)
            && attempt.Some? && attempt.value.Taken? && IsDay(attempt.value.measured.day)
            && NotAfter(DayParts(claim.day), DayParts(attempt.value.measured.day))
            && DecideBar(claim.bar, attempt.value.measured).Some?
            && DecideBar(claim.bar, attempt.value.measured).value != NotAttemptable
  {
    if IsDay(claim.day) && attempt.Some? && attempt.value.Taken? && IsDay(attempt.value.measured.day) {
      DayOrder(claim.day, attempt.value.measured.day);
    }
  }

  /** What may be graded at all: a threshold with a source, registered on a day. */
  predicate Registered(claim: Claim) {
    !Blank(claim.source) && IsDay(claim.day)
  }

  /** Every outcome but the bar's own, with exactly when it comes: what is not registered is not graded, what
      nobody tried is pending, a refusal stands when it cites something, and a measurement counts when it was
      taken on a day no earlier than the registration and the target is not zero. */
  lemma OutcomesExactly(claim: Claim, attempt: Option<Attempt>)
    ensures var r := Decide(claim, attempt);
      && (r == Err(Unregistered) <==> Blank(claim.source))
      && (r == Err(RegisteredNotADay) <==> !Blank(claim.source) && !IsDay(claim.day))
      && (r == Ok(Pending) <==> Registered(claim) && attempt.None?)
      && (r == Err(NoCitation) <==> Registered(claim) && attempt.Some? && attempt.value.Refused? && Blank(attempt.value.citation))
      && (r == Err(MeasuredNotADay) <==>
        Registered(claim) && attempt.Some? && attempt.value.Taken? && !IsDay(attempt.value.measured.day))
      && (r == Err(Backdated) <==>
        && Registered(claim) && attempt.Some? && attempt.value.Taken? && IsDay(attempt.value.measured.day)
        && !NotAfter(DayParts(claim.day), DayParts(attempt.value.measured.day)))
      && (r == Err(RelativeToNothing) <==> InTime(claim, attempt) && Abs(claim.bar.target) * 4_503_599_627_370_496.0 < 1.0)
      && (Registered(claim) && attempt.Some? && attempt.value.Refused? && !Blank(attempt.value.citation) ==> r == Ok(NotAttemptable))
      && (InTime(claim, attempt) && Abs(claim.bar.target) * 4_503_599_627_370_496.0 >= 1.0 ==>
        r == Ok(DecideBar(claim.bar, attempt.value.measured).value))
  {
    hide Blank;
    if IsDay(claim.day) && attempt.Some? && attempt.value.Taken? && IsDay(attempt.value.measured.day) {
      DayOrder(claim.day, attempt.value.measured.day);
    }
    NeverPending(claim.bar, if attempt.Some? && attempt.value.Taken? then attempt.value.measured else Measured("", 0.0, 0.0, []));
    hide IsDay, DecideBar;
  }

  predicate InTime(claim: Claim, attempt: Option<Attempt>) {
    && Registered(claim) && attempt.Some? && attempt.value.Taken? && IsDay(attempt.value.measured.day)
    && NotAfter(DayParts(claim.day), DayParts(attempt.value.measured.day))
  }

  lemma NeverPending(bar: Bar, m: Measured)
    ensures DecideBar(bar, m) != Some(Pending)
    ensures DecideBar(bar, m).None? <==> Abs(bar.target) * 4_503_599_627_370_496.0 < 1.0
  {
    hide Abs;
  }
}
