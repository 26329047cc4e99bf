/**
 * The calendar the application reads timestamps through. Firestore timestamps
 * are turned into local dates with `toDate()`, `startOfDay`, `format(.., 'yyyy-MM')`,
 * `subYears` and `new Date(y, m, d)`; here a timestamp is a count of milliseconds
 * since the epoch already shifted to local time, a day is the number of days
 * since 1970-01-01, and a month is the key `year * 12 + (month - 1)`.
 *
 * The conversion between day numbers and civil dates splits a day number into
 * 400-year eras, centuries, four-year blocks and years that start on March 1st.
 */
module Calendar {

  /** Milliseconds since the epoch, in local time. */
  type Timestamp = int

  const MsPerDay: int := 86400000

  /** `startOfDay(t)`: the day number that contains the instant (floor division). */
  function DayOf(t: Timestamp): int
  {
    t / MsPerDay
  }

  /** A proleptic Gregorian date; `month` is 1..12. */
  datatype Date = Date(year: int, month: int, day: int)

  predicate IsLeap(y: int)
  {
    y % 4 == 0 && (y % 100 != 0 || y % 400 == 0)
  }

  function DaysInMonth(y: int, m: int): int
  {
    if m == 2 then (if IsLeap(y) then 29 else 28)
    else if m == 4 || m == 6 || m == 9 || m == 11 then 30
    else 31
  }

  predicate ValidDate(d: Date)
  {
    1 <= d.month <= 12 && 1 <= d.day <= DaysInMonth(d.year, d.month)
  }

  /** Months counted from March: March is 0, February is 11. */
  function MarchMonth(m: int): int
  {
    if m > 2 then m - 3 else m + 9
  }

  /** The year that starts on the March 1st on or before the date. */
  function MarchYear(d: Date): int
  {
    if d.month <= 2 then d.year - 1 else d.year
  }

  /** Days from March 1st of year 0 to March 1st of the March-based year `y`. */
  function YearStart(y: int): int
  {
    365 * y + y / 4 - y / 100 + y / 400
  }

  /** Days from March 1st to the first of month `m`. */
  function MonthOffset(m: int): int
  {
    (153 * MarchMonth(m) + 2) / 5
  }

  /** Day number of a civil date (`new Date(y, m - 1, d)` at local midnight). */
  function DaysFromCivil(d: Date): int
  {
    var y := MarchYear(d);
    var era := y / 400;
    var yoe := y - era * 400;
    era * 146097 + 365 * yoe + yoe / 4 - yoe / 100 + MonthOffset(d.month) + d.day - 1 - 719468
  }

  /** A day number taken apart: era, century of the era, four-year block, year of the block, day of the March-based year. */
  datatype Split = Split(era: int, cen: int, quad: int, yr: int, doy: int)

  function SplitDays(z: int): Split
  {
    var zz := z + 719468;
    var era := zz / 146097;
    var doe := zz % 146097;
    var cen := if doe / 36524 < 3 then doe / 36524 else 3;
    var doc := doe - 36524 * cen;
    var quad := doc / 1461;
    var doq := doc % 1461;
    var yr := if doq / 365 < 3 then doq / 365 else 3;
    Split(era, cen, quad, yr, doq - 365 * yr)
  }

  /** The civil date of a day number. */
  function CivilFromDays(z: int): Date
  {
    var s := SplitDays(z);
    var mp := (5 * s.doy + 2) / 153;
    var day := s.doy - (153 * mp + 2) / 5 + 1;
    var m := if mp < 10 then mp + 3 else mp - 9;
    Date(400 * s.era + 100 * s.cen + 4 * s.quad + s.yr + (if m <= 2 then 1 else 0), m, day)
  }

  /** `format(date, 'yyyy-MM')`, as a number: one more per calendar month. */
  function MonthKey(z: int): int
  {
    var d := CivilFromDays(z);
    d.year * 12 + d.month - 1
  }

  /** `subYears(day, 1)`: the same month and day a year earlier, February 29th becoming the 28th. */
  function YearAgo(z: int): int
  {
    var d := CivilFromDays(z);
    var dim := DaysInMonth(d.year - 1, d.month);
    DaysFromCivil(Date(d.year - 1, d.month, if d.day <= dim then d.day else dim))
  }

  /** Whole days since `new Date(year, 0, 0)`, the last day of the previous year. */
  function DayOfYear(z: int): int
  {
    z - DaysFromCivil(Date(CivilFromDays(z).year - 1, 12, 31))
  }

  lemma SplitFacts(z: int)
    ensures var s := SplitDays(z);
      && 0 <= s.cen <= 3 && 0 <= s.quad <= 24 && 0 <= s.yr <= 3 && 0 <= s.doy <= 365
      && z + 719468 == 146097 * s.era + 36524 * s.cen + 1461 * s.quad + 365 * s.yr + s.doy
      && (s.doy == 365 ==> s.yr == 3 && (s.quad == 24 ==> s.cen == 3))
  {
    var zz := z + 719468;
    var doe := zz % 146097;
    assert 0 <= doe < 146097;
    var cen := if doe / 36524 < 3 then doe / 36524 else 3;
    var doc := doe - 36524 * cen;
    assert 0 <= doc <= 36524;
    assert cen < 3 ==> doc <= 36523;
    var quad := doc / 1461;
    var doq := doc % 1461;
    assert doc == 1461 * quad + doq;
    assert quad <= 24;
    assert quad == 24 && cen < 3 ==> doq <= 1459;
    var yr := if doq / 365 < 3 then doq / 365 else 3;
    assert 0 <= doq - 365 * yr <= 365;
  }

  /** Converting a day number to a date and back gives the same day number. */
  lemma RoundTrip(z: int)
    ensures DaysFromCivil(CivilFromDays(z)) == z
  {
    SplitFacts(z);
    var s := SplitDays(z);
    var d := CivilFromDays(z);
    var yoe := 100 * s.cen + 4 * s.quad + s.yr;
    MonthOfDayInverse(s.doy);
    assert MarchYear(d) == 400 * s.era + yoe;
    YearOfEra(s.era, s.cen, s.quad, s.yr);
    assert MonthOffset(d.month) + d.day - 1 == s.doy;
  }

  /** The month and day found for a day of the March-based year lead back to it. */
  lemma MonthOfDayInverse(doy: int)
    requires 0 <= doy <= 365
    ensures var mp := (5 * doy + 2) / 153;
      var m := if mp < 10 then mp + 3 else mp - 9;
      var day := doy - (153 * mp + 2) / 5 + 1;
      MonthOffset(m) + day - 1 == doy
  {
    var mp := (5 * doy + 2) / 153;
    assert 0 <= mp <= 11;
  }

  /** The year-of-era part of `DaysFromCivil` undoes the era, century, block and year split. */
  lemma YearOfEra(era: int, cen: int, quad: int, yr: int)
    requires 0 <= cen <= 3 && 0 <= quad <= 24 && 0 <= yr <= 3
    ensures var y := 400 * era + 100 * cen + 4 * quad + yr;
      var yoe := y - (y / 400) * 400;
      && y / 400 == era && yoe == 100 * cen + 4 * quad + yr
      && (y / 400) * 146097 + 365 * yoe + yoe / 4 - yoe / 100 == 146097 * era + 36524 * cen + 1461 * quad + 365 * yr
  {
    var yoe := 100 * cen + 4 * quad + yr;
    assert yoe / 4 == 25 * cen + quad;
    assert yoe / 100 == cen;
    assert (400 * era + yoe) / 400 == era;
  }

  /** Every day number names a real date, February 29th only in leap years. */
  lemma CivilValid(z: int)
    ensures ValidDate(CivilFromDays(z))
  {
    SplitFacts(z);
    var s := SplitDays(z);
    MonthOfDay(s.doy);
    if s.doy == 365 {
      LastDayLeap(s.era, s.cen, s.quad);
    }
  }

  /** The month and day within a March-based year: a day of the year up to 364 falls in a month of a common year; day 365 is February 29th. */
  lemma MonthOfDay(doy: int)
    requires 0 <= doy <= 365
    ensures var mp := (5 * doy + 2) / 153;
      var m := if mp < 10 then mp + 3 else mp - 9;
      var day := doy - (153 * mp + 2) / 5 + 1;
      && 0 <= mp <= 11 && 1 <= m <= 12 && 1 <= day
      && (doy < 365 ==> day <= DaysInMonth(1, m))
      && (doy == 365 ==> m == 2 && day == 29)
  {
    var mp := (5 * doy + 2) / 153;
    if doy < 31 { assert mp == 0; }
    else if doy < 61 { assert mp == 1; }
    else if doy < 92 { assert mp == 2; }
    else if doy < 122 { assert mp == 3; }
    else if doy < 153 { assert mp == 4; }
    else if doy < 184 { assert mp == 5; }
    else if doy < 214 { assert mp == 6; }
    else if doy < 245 { assert mp == 7; }
    else if doy < 275 { assert mp == 8; }
    else if doy < 306 { assert mp == 9; }
    else if doy < 337 { assert mp == 10; }
    else { assert mp == 11; }
  }

  /** The year whose February holds the 366th day of a March-based year is a leap year. */
  lemma LastDayLeap(era: int, cen: int, quad: int)
    requires 0 <= cen <= 3 && 0 <= quad <= 24
    requires quad == 24 ==> cen == 3
    ensures IsLeap(400 * era + 100 * cen + 4 * quad + 4)
  {
    var y := 400 * era + 100 * cen + 4 * quad + 4;
    assert y == 4 * (100 * era + 25 * cen + quad + 1);
    if quad == 24 {
      assert y == 400 * (era + 1);
    } else {
      assert y == 100 * (4 * era + cen) + 4 * quad + 4;
      assert 4 <= 4 * quad + 4 < 100;
    }
  }

  lemma DaysFromCivilYear(d: Date)
    ensures DaysFromCivil(d) == YearStart(MarchYear(d)) + MonthOffset(d.month) + d.day - 1 - 719468
  {
    var y := MarchYear(d);
    var era := y / 400;
    var yoe := y - era * 400;
    assert y / 4 == 100 * era + yoe / 4;
    assert y / 100 == 4 * era + yoe / 100;
  }

  lemma DivStep4(y: int)
    ensures y / 4 - (y - 1) / 4 == if y % 4 == 0 then 1 else 0
  {
  }

  lemma DivStep100(y: int)
    ensures y / 100 - (y - 1) / 100 == if y % 100 == 0 then 1 else 0
  {
  }

  lemma DivStep400(y: int)
    ensures y / 400 - (y - 1) / 400 == if y % 400 == 0 then 1 else 0
  {
  }

  lemma Mod400Mod100(y: int)
    ensures y % 400 == 0 ==> y % 100 == 0
  {
    if y % 400 == 0 {
      assert y == 100 * (4 * (y / 400));
    }
  }

  lemma Mod100Mod4(y: int)
    ensures y % 100 == 0 ==> y % 4 == 0
  {
    if y % 100 == 0 {
      assert y == 4 * (25 * (y / 100));
    }
  }

  lemma YearStartStep(y: int)
    ensures YearStart(y) - YearStart(y - 1)
      == 365 + (y / 4 - (y - 1) / 4) - (y / 100 - (y - 1) / 100) + (y / 400 - (y - 1) / 400)
  {
  }

  /** The March-based year before `y` is 366 days long exactly when February of `y` has a 29th. */
  lemma YearLength(y: int)
    ensures YearStart(y) - YearStart(y - 1) == if IsLeap(y) then 366 else 365
  {
    YearStartStep(y);
    DivStep4(y);
    DivStep100(y);
    DivStep400(y);
    Mod400Mod100(y);
    Mod100Mod4(y);
  }

  /** One year back is 365 or 366 days back, so the inclusive span to today holds 366 or 367 days. */
  lemma YearAgoSpan(z: int)
    ensures 365 <= z - YearAgo(z) <= 366
  {
    var d := CivilFromDays(z);
    CivilValid(z);
    RoundTrip(z);
    var dim := DaysInMonth(d.year - 1, d.month);
    var a := Date(d.year - 1, d.month, if d.day <= dim then d.day else dim);
    DaysFromCivilYear(d);
    DaysFromCivilYear(a);
    var y := MarchYear(d);
    assert MarchYear(a) == y - 1;
    YearLength(y);
    assert z - YearAgo(z) == YearStart(y) - YearStart(y - 1) + d.day - a.day;
    if d.day > dim {
      assert d.month == 2 && d.day == 29 && a.day == 28;
      assert y == d.year - 1 && !IsLeap(y);
    }
  }

  lemma MonthOffsetRange(m: int)
    requires 1 <= m <= 12
    ensures m == 1 ==> MonthOffset(m) == 306
    ensures m == 2 ==> MonthOffset(m) == 337
    ensures m == 12 ==> MonthOffset(m) == 275
    ensures 3 <= m <= 12 ==> 0 <= MonthOffset(m) <= 275
  {
  }

  lemma DayOfYearOfDate(d: Date)
    requires ValidDate(d)
    ensures 1 <= DaysFromCivil(d) - DaysFromCivil(Date(d.year - 1, 12, 31)) <= 366
  {
    var e := Date(d.year - 1, 12, 31);
    DaysFromCivilYear(d);
    DaysFromCivilYear(e);
    MonthOffsetRange(d.month);
    MonthOffsetRange(12);
    if d.month > 2 {
      YearLength(MarchYear(d));
    }
  }

  /** Day number of December 31st of the year before `y`, from which `DayOfYear` counts. */
  function YearZero(y: int): int
  {
    DaysFromCivil(Date(y - 1, 12, 31))
  }

  /** A calendar year is as long as the March-based year ending in its February. */
  lemma YearZeroStep(y: int)
    ensures YearZero(y + 1) - YearZero(y) == YearStart(y) - YearStart(y - 1)
  {
    DaysFromCivilYear(Date(y, 12, 31));
    DaysFromCivilYear(Date(y - 1, 12, 31));
  }

  /** Later years start later. */
  lemma {:induction false} YearZeroMonotone(a: int, b: int)
    ensures b <= a ==> YearZero(b) <= YearZero(a)
    decreases if b <= a then a - b else 0
  {
    if b < a {
      YearZeroMonotone(a - 1, b);
      YearZeroStep(a - 1);
      YearLength(a - 1);
    }
  }

  /** The months from March on end by day 306 of the March-based year. */
  lemma MonthEnds(y: int, m: int)
    requires 3 <= m <= 12
    ensures 0 <= MonthOffset(m) && MonthOffset(m) + DaysInMonth(y, m) <= 306
  {
  }

  /** A date lies within its year, and only January 1st is its first day. */
  lemma DayWithinYear(d: Date)
    requires ValidDate(d)
    ensures YearZero(d.year) < DaysFromCivil(d) <= YearZero(d.year + 1)
    ensures DaysFromCivil(d) == YearZero(d.year) + 1 ==> d.month == 1 && d.day == 1
  {
    YearZeroStep(d.year);
    DaysFromCivilYear(d);
    DaysFromCivilYear(Date(d.year - 1, 12, 31));
    YearLength(d.year);
    if d.month > 2 {
      MonthEnds(d.year, d.month);
    } else {
      MonthOffsetRange(d.month);
    }
  }

  /** Two consecutive days lie in the same year unless the second is January 1st. */
  lemma SameYear(z: int, d: Date, e: Date)
    requires ValidDate(d) && ValidDate(e)
    requires DaysFromCivil(d) == z && DaysFromCivil(e) == z + 1
    requires e.month != 1 || e.day != 1
    ensures d.year == e.year
  {
    DayWithinYear(d);
    DayWithinYear(e);
    YearZeroMonotone(e.year, d.year + 1);
    YearZeroMonotone(d.year, e.year + 1);
  }

  /** Overnight the day of the year grows by one, except into 1 January. */
  lemma DayOfYearNext(z: int)
    requires CivilFromDays(z + 1).month != 1 || CivilFromDays(z + 1).day != 1
    ensures DayOfYear(z + 1) == DayOfYear(z) + 1
  {
    CivilValid(z);
    CivilValid(z + 1);
    RoundTrip(z);
    RoundTrip(z + 1);
    SameYear(z, CivilFromDays(z), CivilFromDays(z + 1));
  }

  /** The day of the year runs from 1 (January 1st) to at most 366. */
  lemma DayOfYearRange(z: int)
    ensures 1 <= DayOfYear(z) <= 366
  {
    CivilValid(z);
    RoundTrip(z);
    DayOfYearOfDate(CivilFromDays(z));
  }
}
