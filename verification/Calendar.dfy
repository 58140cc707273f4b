/** Day numbers and the proleptic Gregorian calendar. */
module Calendar {

  datatype Date = Date(year: int, month: int, day: int)

  /** The date a day number falls on: the year is shifted to begin in March, so that the leap day is
      its last and the month lengths become one linear formula. */
  function Civil(days: int): Date {
    var shifted := days + 719_468;
    var era := shifted / 146_097;
    var dayOfEra := shifted % 146_097;
    var yearOfEra := YearOfEra(dayOfEra);
    MarchDate(yearOfEra + era * 400, dayOfEra - EraYearStart(yearOfEra))
  }

  /** The date of a day of a year that begins in March. */
  function MarchDate(year: int, dayOfYear: int): Date {
    var shiftedMonth := (5 * dayOfYear + 2) / 153;
    var day := dayOfYear - (153 * shiftedMonth + 2) / 5 + 1;
    var month := if shiftedMonth < 10 then shiftedMonth + 3 else shiftedMonth - 9;
    Date(if month <= 2 then year + 1 else year, month, day)
  }

  function YearOfEra(dayOfEra: int): int {
    (dayOfEra - dayOfEra / 1_460 + dayOfEra / 36_524 - dayOfEra / 146_096) / 365
  }

  // The calendar itself, stated from the leap year rule and the month lengths.

  predicate Leap(year: int) {
    year % 4 == 0 && (year % 100 != 0 || year % 400 == 0)
  }

  function MonthLength(year: int, month: int): int {
    if month == 2 then (if Leap(year) then 29 else 28)
    else if month == 4 || month == 6 || month == 9 || month == 11 then 30
    else 31
  }

  predicate Valid(date: Date) {
    1 <= date.month <= 12 && 1 <= date.day <= MonthLength(date.year, date.month)
  }

  function NextDay(date: Date): Date {
    if date.day < MonthLength(date.year, date.month) then date.(day := date.day + 1)
    else if date.month < 12 then Date(date.year, date.month + 1, 1)
    else Date(date.year + 1, 1, 1)
  }

  function DaysBeforeMonth(year: int, month: int): int
    requires 1 <= month <= 13
  {
    if month == 1 then 0 else DaysBeforeMonth(year, month - 1) + MonthLength(year, month - 1)
  }

  /** Days from 0001-01-01 to the first of January of a year. */
  function DaysBeforeYear(year: int): int {
    var past := year - 1;
    365 * past + past / 4 - past / 100 + past / 400
  }

  /** The day count: days from 1970-01-01. */
  function DayNumber(date: Date): int
    requires 1 <= date.month <= 12
  {
    DaysBeforeYear(date.year) - 719_162 + DaysBeforeMonth(date.year, date.month) + date.day - 1
  }

  lemma Fourths(n: int)
    ensures (n + 1) / 4 == n / 4 + (if (n + 1) % 4 == 0 then 1 else 0)
  {
  }

  lemma Hundredths(n: int)
    ensures (n + 1) / 100 == n / 100 + (if (n + 1) % 100 == 0 then 1 else 0)
  {
  }

  lemma FourHundredths(n: int)
    ensures (n + 1) / 400 == n / 400 + (if (n + 1) % 400 == 0 then 1 else 0)
  {
  }

  lemma Hundreds(m: int)
    ensures (100 * m) % 100 == 0
  {
  }

  lemma Fours(m: int)
    ensures (4 * m) % 4 == 0
  {
  }

  lemma LeapFactors(year: int)
    ensures year % 400 == 0 ==> year % 100 == 0
    ensures year % 100 == 0 ==> year % 4 == 0
  {
    Hundreds(4 * (year / 400));
    Fours(25 * (year / 100));
  }

  lemma YearAdvances(year: int)
    ensures DaysBeforeYear(year + 1) == DaysBeforeYear(year) + (if Leap(year) then 366 else 365)
  {
    var past := year - 1;
    Fourths(past);
    Hundredths(past);
    FourHundredths(past);
    LeapFactors(year);
  }

  lemma MonthTable(year: int)
    ensures DaysBeforeMonth(year, 1) == 0 && DaysBeforeMonth(year, 2) == 31
    ensures var f := if Leap(year) then 29 else 28;
            && DaysBeforeMonth(year, 3) == 31 + f && DaysBeforeMonth(year, 4) == 62 + f
            && DaysBeforeMonth(year, 5) == 92 + f && DaysBeforeMonth(year, 6) == 123 + f
            && DaysBeforeMonth(year, 7) == 153 + f && DaysBeforeMonth(year, 8) == 184 + f
            && DaysBeforeMonth(year, 9) == 215 + f && DaysBeforeMonth(year, 10) == 245 + f
            && DaysBeforeMonth(year, 11) == 276 + f && DaysBeforeMonth(year, 12) == 306 + f
            && DaysBeforeMonth(year, 13) == 337 + f
  {
    assert DaysBeforeMonth(year, 2) == 31;
    assert DaysBeforeMonth(year, 4) == DaysBeforeMonth(year, 3) + 31;
    assert DaysBeforeMonth(year, 6) == DaysBeforeMonth(year, 5) + 31;
    assert DaysBeforeMonth(year, 8) == DaysBeforeMonth(year, 7) + 31;
    assert DaysBeforeMonth(year, 10) == DaysBeforeMonth(year, 9) + 30;
    assert DaysBeforeMonth(year, 12) == DaysBeforeMonth(year, 11) + 30;
  }

  /** The day count steps by one exactly where the calendar steps by one day. */
  lemma DayNumberSteps(date: Date)
    requires Valid(date)
    ensures Valid(NextDay(date)) && DayNumber(NextDay(date)) == DayNumber(date) + 1
  {
    MonthTable(date.year);
    YearAdvances(date.year);
  }

  lemma YearsMonotone(a: int, b: int)
    requires a <= b
    ensures DaysBeforeYear(a) <= DaysBeforeYear(b)
  {
    assert (a - 1) / 4 <= (b - 1) / 4;
    assert (a - 1) / 400 <= (b - 1) / 400;
    assert (b - 1) / 100 - (a - 1) / 100 <= b - a;
  }

  /** A date inside its year. */
  lemma InsideYear(date: Date)
    requires Valid(date)
    ensures DaysBeforeYear(date.year) <= DayNumber(date) + 719_162 < DaysBeforeYear(date.year + 1)
  {
    MonthTable(date.year);
    YearAdvances(date.year);
  }

  /** Two valid dates with one day count are one date. */
  lemma DayNumberInjective(a: Date, b: Date)
    requires Valid(a) && Valid(b) && DayNumber(a) == DayNumber(b)
    ensures a == b
  {
    InsideYear(a);
    InsideYear(b);
    if a.year < b.year { YearsMonotone(a.year + 1, b.year); }
    if b.year < a.year { YearsMonotone(b.year + 1, a.year); }
    MonthTable(a.year);
  }

  /** The year formula on a day split into a century, a four year cycle and a day of the cycle. */
  lemma YearOfEraSplit(century: int, cycle: int, rest: int)
    requires 0 <= century < 4 && 0 <= cycle < 25 && 0 <= rest <= 1_460
    requires cycle == 24 && rest == 1_460 ==> century == 3
    ensures var doe := 36_524 * century + 1_461 * cycle + rest;
            YearOfEra(doe) == 100 * century + 4 * cycle + (if rest == 1_460 then 3 else rest / 365)
  {
    var doe := 36_524 * century + 1_461 * cycle + rest;
    var extra := if 24 * century + cycle + rest >= 1_460 then 1 else 0;
    assert doe / 1_460 == 25 * century + cycle + extra;
    var last := if doe == 146_096 then 1 else 0;
    assert doe / 36_524 == century + last;
    assert doe / 146_096 == last;
    assert doe - doe / 1_460 + doe / 36_524 - doe / 146_096
        == 365 * (100 * century + 4 * cycle) + (rest - extra);
  }

  /** Days of an era before one of its years. */
  function EraYearStart(yearOfEra: int): int {
    365 * yearOfEra + yearOfEra / 4 - yearOfEra / 100
  }

  lemma EraYearSpan(century: int, cycle: int, rest: int, y: int)
    requires 0 <= century < 4 && 0 <= cycle < 25 && 0 <= rest <= 1_460
    requires cycle == 24 && rest == 1_460 ==> century == 3
    requires y == 100 * century + 4 * cycle + (if rest == 1_460 then 3 else rest / 365)
    ensures var doy := 36_524 * century + 1_461 * cycle + rest - EraYearStart(y);
            0 <= y < 400 && 0 <= doy <= 365 && (doy == 365 ==> Leap(y + 1))
  {
    var year := if rest == 1_460 then 3 else rest / 365;
    assert 0 <= year <= 3;
    assert y / 100 == century && y / 4 == 25 * century + cycle;
    assert 36_524 * century + 1_461 * cycle + rest - EraYearStart(y) == rest - 365 * year;
    if rest == 1_460 {
      assert (y + 1) % 4 == 0;
      assert (y + 1) % 100 == 0 ==> cycle == 24;
    }
  }

  /** The year formula picks the year whose span holds the day, for every day of a 400 year era. */
  lemma YearOfEraBounds(doe: int)
    requires 0 <= doe < 146_097
    ensures var y := YearOfEra(doe);
            var doy := doe - EraYearStart(y);
            0 <= y < 400 && 0 <= doy <= 365 && (doy == 365 ==> Leap(y + 1))
  {
    var century := if doe / 36_524 > 3 then 3 else doe / 36_524;
    var left := doe - 36_524 * century;
    assert 0 <= left <= 36_524 && (left == 36_524 ==> century == 3);
    EraSplit(doe, century, left);
  }

  lemma EraSplit(doe: int, century: int, left: int)
    requires 0 <= century < 4 && 0 <= left <= 36_524 && (left == 36_524 ==> century == 3)
    requires doe == 36_524 * century + left
    ensures var y := YearOfEra(doe);
            var doy := doe - EraYearStart(y);
            0 <= y < 400 && 0 <= doy <= 365 && (doy == 365 ==> Leap(y + 1))
  {
    var cycle := left / 1_461;
    assert 0 <= cycle < 25 && 1_461 * cycle <= left <= 1_461 * cycle + 1_460;
    YearOfEraSplit(century, cycle, left - 1_461 * cycle);
    EraYearSpan(century, cycle, left - 1_461 * cycle, YearOfEra(doe));
  }

  /** Within the shifted year, the month formula walks the month lengths from March. */
  lemma MonthFormula(doy: int, year: int)
    requires 0 <= doy <= 365
    ensures var mp := (5 * doy + 2) / 153;
            var month := if mp < 10 then mp + 3 else mp - 9;
            var day := doy - (153 * mp + 2) / 5 + 1;
            && 0 <= mp < 12 && 1 <= day
            && (month != 2 ==> day <= MonthLength(year, month))
            && (month == 2 ==> day <= 29 && (day == 29 <==> doy == 365))
            && DaysBeforeMonth(year, month) + day - 1
               == if month <= 2 then doy - 306 else doy + (if Leap(year) then 60 else 59)
  {
    MonthTable(year);
    var mp := (5 * doy + 2) / 153;
    assert mp == 0 || mp == 1 || mp == 2 || mp == 3 || mp == 4 || mp == 5 || mp == 6
        || mp == 7 || mp == 8 || mp == 9 || mp == 10 || mp == 11;
  }

  /** The day number of the first of March of a year. */
  function MarchFirst(year: int): int {
    365 * year + year / 4 - year / 100 + year / 400 - 719_468
  }

  lemma MarchDateCounted(year: int, doy: int)
    requires 0 <= doy <= 365 && (doy == 365 ==> Leap(year + 1))
    ensures Valid(MarchDate(year, doy)) && DayNumber(MarchDate(year, doy)) == MarchFirst(year) + doy
  {
    MonthFormula(doy, year);
    MonthFormula(doy, year + 1);
    YearAdvances(year);
  }

  lemma EraQuotients(era: int, n: int)
    ensures (n + era * 400) / 4 == n / 4 + 100 * era
    ensures (n + era * 400) / 100 == n / 100 + 4 * era
    ensures (n + era * 400) / 400 == n / 400 + era
  {
  }

  lemma EraRemainders(era: int, n: int)
    ensures (n + era * 400) % 4 == n % 4
    ensures (n + era * 400) % 100 == n % 100
    ensures (n + era * 400) % 400 == n % 400
  {
    EraQuotients(era, n);
  }

  lemma EraYears(era: int, yearOfEra: int)
    requires 0 <= yearOfEra < 400
    ensures var year := yearOfEra + era * 400;
            && MarchFirst(year) == 146_097 * era + EraYearStart(yearOfEra) - 719_468
            && Leap(year + 1) == Leap(yearOfEra + 1)
  {
    EraQuotients(era, yearOfEra);
    EraRemainders(era, yearOfEra + 1);
  }

  /** Every day number is a valid date, and the day count takes it back. */
  lemma CivilInverted(days: int)
    ensures Valid(Civil(days)) && DayNumber(Civil(days)) == days
  {
    var era := (days + 719_468) / 146_097;
    var doe := (days + 719_468) % 146_097;
    assert days + 719_468 == 146_097 * era + doe;
    YearOfEraBounds(doe);
    EraYears(era, YearOfEra(doe));
    MarchDateCounted(YearOfEra(doe) + era * 400, doe - EraYearStart(YearOfEra(doe)));
  }

  /** The other way round: every valid date is the date of its day count, so the two are inverse
      bijections between the integers and the calendar. */
  lemma CivilOfDayNumber(date: Date)
    requires Valid(date)
    ensures Civil(DayNumber(date)) == date
  {
    CivilInverted(DayNumber(date));
    DayNumberInjective(Civil(DayNumber(date)), date);
  }

  lemma Epoch()
    ensures Civil(0) == Date(1970, 1, 1)
  {
    assert Leap(1972) && !Leap(1970);
    MonthTable(1970);
    assert DayNumber(Date(1970, 1, 1)) == 0;
    CivilOfDayNumber(Date(1970, 1, 1));
  }

  /** The date formula is the day by day calendar, counted from the epoch in both directions. */
  lemma CivilIsTheCalendar(days: int)
    ensures Civil(0) == Date(1970, 1, 1)
    ensures Civil(days + 1) == NextDay(Civil(days))
  {
    Epoch();
    CivilInverted(days);
    DayNumberSteps(Civil(days));
    CivilOfDayNumber(NextDay(Civil(days)));
  }

  ghost predicate Earlier(x: Date, y: Date) {
    x.year < y.year
    || (x.year == y.year && (x.month < y.month || (x.month == y.month && x.day < y.day)))
  }

  lemma EarlierCounted(x: Date, y: Date)
    requires Valid(x) && Valid(y) && DayNumber(x) < DayNumber(y)
    ensures Earlier(x, y)
  {
    InsideYear(x);
    InsideYear(y);
    if y.year < x.year { YearsMonotone(y.year + 1, x.year); }
    MonthTable(x.year);
  }

  /** Days and dates keep the same order. */
  lemma CivilOrdered(a: int, b: int)
    requires a < b
    ensures Earlier(Civil(a), Civil(b))
  {
    CivilInverted(a);
    CivilInverted(b);
    EarlierCounted(Civil(a), Civil(b));
  }
}
