/** The two calendar conversions: a day count to a civil date, and a civil date to a day count. */
module Calendar {
  import opened Wrappers

  datatype Date = Date(year: int, month: int, day: int)

  // ---------------------------------------------------------------------------
  // The proleptic Gregorian calendar

  predicate IsLeap(year: int) {
    year % 4 == 0 && (year % 100 != 0 || year % 400 == 0)
  }

  function DaysInMonth(year: int, month: int): (n: int)
    ensures 28 <= n <= 31
  {
    if month == 2 then (if IsLeap(year) then 29 else 28)
    else if month in {4, 6, 9, 11} then 30
    else 31
  }

  predicate IsDate(d: Date) {
    1 <= d.month <= 12 && 1 <= d.day <= DaysInMonth(d.year, d.month)
  }

  function NextDay(d: Date): Date {
    if d.day < DaysInMonth(d.year, d.month) then d.(day := d.day + 1)
    else if d.month < 12 then Date(d.year, d.month + 1, 1)
    else Date(d.year + 1, 1, 1)
  }

  // ---------------------------------------------------------------------------
  // The conversions

  /** Day count of 0000-03-01, seen from 1970-01-01. */
  const EPOCH_SHIFT := 719_468

  /** Days before year `y` of an era whose years start in March. */
  function YearStart(y: int): int {
    365 * y + y / 4 - y / 100
  }

  function YearOfEra(dayOfEra: int): int {
    (dayOfEra - dayOfEra / 1_460 + dayOfEra / 36_524 - dayOfEra / 146_096) / 365
  }

  /** The day of the year, counted from 1 March, that a month starts on. */
  function MonthStart(monthPos: int): int {
    (153 * monthPos + 2) / 5
  }

  /** The shift for a negative count is the one for truncating division, though the division floors. */
  function EraOf(shifted: int): int {
    (if shifted >= 0 then shifted else shifted - 146_096) / 146_097
  }

  function DateInYear(year: int, dayOfYear: int): Date {
    var monthPos := (5 * dayOfYear + 2) / 153;
    var month := if monthPos < 10 then monthPos + 3 else monthPos - 9;
    Date(if month <= 2 then year + 1 else year, month, dayOfYear - MonthStart(monthPos) + 1)
  }

  function DayOfEra(days: int): (r: int)
    ensures 0 <= r <= 2 * 146_096
    ensures r <= 146_096 <==> days + EPOCH_SHIFT >= 0 || (days + EPOCH_SHIFT) % 146_097 == 146_096
  {
    days + EPOCH_SHIFT - EraOf(days + EPOCH_SHIFT) * 146_097
  }

  function CivilFromDays(days: int): Date {
    var dayOfEra := DayOfEra(days);
    var yearOfEra := YearOfEra(dayOfEra);
    DateInYear(yearOfEra + EraOf(days + EPOCH_SHIFT) * 400, dayOfEra - YearStart(yearOfEra))
  }

  /** Days since 1970-01-01; none for a month or day out of range. */
  function DaysFromCivil(d: Date): Option<int> {
    if !(1 <= d.month <= 12) || !(1 <= d.day <= 31) then None
    else
      var y := if d.month <= 2 then d.year - 1 else d.year;
      var yearOfEra := y % 400;
      var monthPos := (d.month + 9) % 12;
      var dayOfYear := MonthStart(monthPos) + d.day - 1;
      Some(y / 400 * 146_097 + YearStart(yearOfEra) + dayOfYear - EPOCH_SHIFT)
  }

  // ---------------------------------------------------------------------------
  // Years of an era

  /** Centuries `h`, four-year spans `q` and days `s`; the formula's three corrections come to `e + c` days. */
  lemma {:induction false} YearOfEraDecomposed(h: int, q: int, s: int, e: int, c: int)
    requires 0 <= h <= 8 && 0 <= q <= 24 && 0 <= s <= 1460 && 1461 * q + s < 36_524
    requires e == (q + s + 24 * h) / 1_460 && c == (36_524 * h + 1_461 * q + s) / 146_096
    ensures 0 <= e <= 1 && YearOfEra(36_524 * h + 1_461 * q + s) == 100 * h + 4 * q + (s - e - c) / 365
  {
    var dayOfEra := 36_524 * h + 1_461 * q + s;
    assert dayOfEra / 36_524 == h;
    assert dayOfEra == 1_460 * (25 * h + q) + (q + s + 24 * h);
    assert dayOfEra / 1_460 == 25 * h + q + e;
  }

  lemma {:induction false} YearStartDecomposed(h: int, q: int, t: int)
    requires 0 <= q <= 24 && 0 <= t <= 3
    ensures YearStart(100 * h + 4 * q + t) == 36_524 * h + 1_461 * q + 365 * t
  {
    var y := 100 * h + 4 * q + t;
    assert 4 * (25 * h + q) <= y < 4 * (25 * h + q) + 4;
    assert y / 4 == 25 * h + q;
    assert 100 * h <= y < 100 * h + 100;
    assert y / 100 == h;
  }

  lemma {:induction false} LeapDecomposed(h: int, q: int, t: int)
    requires 0 <= h <= 3 && 0 <= q <= 24 && 0 <= t <= 3
    ensures IsLeap(100 * h + 4 * q + t + 1) <==> t == 3 && (q < 24 || h == 3)
  {
    var y := 100 * h + 4 * q + t + 1;
    assert y % 4 == (t + 1) % 4;
    assert t == 3 ==> y == 100 * h + 4 * (q + 1);
    assert q == 24 && t == 3 ==> y == 100 * (h + 1) && y % 400 == 100 * ((h + 1) % 4);
  }

  lemma {:induction false} FirstEraYear(h: int, q: int, s: int)
    requires 0 <= h <= 3 && 0 <= q <= 24 && 0 <= s <= 1460 && 1461 * q + s < 36_524
    ensures var y := YearOfEra(36_524 * h + 1_461 * q + s);
            && 0 <= y <= 399
            && 0 <= 36_524 * h + 1_461 * q + s - YearStart(y) < 365 + if IsLeap(y + 1) then 1 else 0
  {
    hide IsLeap, YearOfEra, YearStart;
    var e := (q + s + 24 * h) / 1_460;
    YearOfEraDecomposed(h, q, s, e, 0);
    var t := (s - e) / 365;
    YearStartDecomposed(h, q, t);
    LeapDecomposed(h, q, t);
  }

  lemma {:induction false} SecondEraYear(h: int, q: int, s: int)
    requires 4 <= h <= 7 && 0 <= q <= 24 && 0 <= s <= 1460 && 0 < 36_524 * (h - 4) + 1461 * q + s
    requires 1461 * q + s < 36_524
    ensures var y := YearOfEra(36_524 * h + 1_461 * q + s);
            400 <= y <= 799 && 0 <= 36_524 * h + 1_461 * q + s - YearStart(y) <= 366
  {
    hide YearOfEra, YearStart;
    var e := (q + s + 24 * h) / 1_460;
    YearOfEraDecomposed(h, q, s, e, 1);
    if s == 0 {
      YearBefore(h, q);
    } else {
      YearStartDecomposed(h, q, (s - e - 1) / 365);
    }
  }

  /** In the first era the formula finds the year the day falls in. */
  lemma {:induction false} YearOfEraBrackets(dayOfEra: int)
    requires 0 <= dayOfEra <= 146_096
    ensures 0 <= YearOfEra(dayOfEra) <= 399
    ensures 0 <= dayOfEra - YearStart(YearOfEra(dayOfEra)) < 365 + if IsLeap(YearOfEra(dayOfEra) + 1) then 1 else 0
  {
    hide IsLeap;
    if dayOfEra == 146_096 {
      assert YearOfEra(146_096) == 399 && YearStart(399) == 145_731;
      LeapDecomposed(3, 24, 3);
    } else {
      var h, r := dayOfEra / 36_524, dayOfEra % 36_524;
      FirstEraYear(h, r / 1_461, r % 1_461);
    }
  }

  /** Past the era's last day the formula has slipped into the next era's years, one day late. */
  lemma {:induction false} YearOfEraSlips(dayOfEra: int)
    requires 146_097 <= dayOfEra <= 2 * 146_096
    ensures 400 <= YearOfEra(dayOfEra) <= 799
    ensures 0 <= dayOfEra - YearStart(YearOfEra(dayOfEra)) <= 366
  {
    if dayOfEra == 2 * 146_096 {
      assert YearOfEra(2 * 146_096) == 799 && YearStart(799) == 291_827;
    } else {
      var h, r := dayOfEra / 36_524, dayOfEra % 36_524;
      SecondEraYear(h, r / 1_461, r % 1_461);
    }
  }

  lemma {:induction false} YearBefore(h: int, q: int)
    requires 0 <= q <= 24
    ensures 36_524 * h + 1_461 * q - YearStart(100 * h + 4 * q - 1) == if q == 0 then 365 else 366
  {
  }

  /** Years repeat every 400, but the year starts leave the era's last day out. */
  lemma {:induction false} YearStartPeriod(y: int)
    ensures YearStart(y) == y / 400 * 146_096 + YearStart(y % 400)
  {
    var k, z := y / 400, y % 400;
    assert y == 400 * k + z;
    assert (400 * k + z) / 4 == 100 * k + z / 4 && (400 * k + z) / 100 == 4 * k + z / 100;
  }

  // ---------------------------------------------------------------------------
  // Days of a year

  lemma {:induction false} MonthOfDay(year: int, dayOfYear: int)
    requires 0 <= dayOfYear <= 366
    ensures var d := DateInYear(year, dayOfYear);
            && 1 <= d.month <= 12 && 1 <= d.day <= 31
            && (if d.month <= 2 then d.year - 1 else d.year) == year
            && MonthStart((d.month + 9) % 12) + d.day - 1 == dayOfYear
  {
  }

  /** A day of a March year is a real date. */
  lemma {:induction false} DayIsDate(year: int, dayOfYear: int)
    requires 0 <= dayOfYear < 365 + if IsLeap(year + 1) then 1 else 0
    ensures IsDate(DateInYear(year, dayOfYear))
  {
    hide IsLeap;
    var monthPos := (5 * dayOfYear + 2) / 153;
    assert 0 <= monthPos <= 11;
  }

  // ---------------------------------------------------------------------------
  // The conversions are inverse

  /** The day counts `CivilFromDays` gets right. */
  predicate InRange(days: int) {
    days + EPOCH_SHIFT >= 0 || (days + EPOCH_SHIFT) % 146_097 == 146_096
  }

  lemma {:induction false} CivilDecomposed(days: int)
    ensures 0 <= DayOfEra(days) - YearStart(YearOfEra(DayOfEra(days))) <= 366
    ensures YearOfEra(DayOfEra(days)) / 400 == if InRange(days) then 0 else 1
    ensures InRange(days) ==> IsDate(CivilFromDays(days))
  {
    var dayOfEra := DayOfEra(days);
    hide IsLeap, YearOfEra, YearStart, IsDate, DateInYear, DayOfEra;
    if InRange(days) {
      YearOfEraBrackets(dayOfEra);
      var y, era := YearOfEra(dayOfEra), EraOf(days + EPOCH_SHIFT);
      LeapPeriod(y + 1, era);
      DayIsDate(y + era * 400, dayOfEra - YearStart(y));
    } else {
      YearOfEraSlips(dayOfEra);
    }
  }

  lemma {:induction false} LeapPeriod(y: int, era: int)
    ensures IsLeap(y + era * 400) == IsLeap(y)
  {
    ShiftMod(y, era * 100, 4);
    ShiftMod(y, era * 4, 100);
    ShiftMod(y, era, 400);
  }

  lemma {:induction false} ShiftMod(y: int, k: int, m: int)
    requires m in {4, 100, 400}
    ensures (y + k * m) % m == y % m && (y + k * m) / m == y / m + k
  {
    if m == 4 {
      assert (y + k * 4) / 4 == y / 4 + k;
    } else if m == 100 {
      assert (y + k * 100) / 100 == y / 100 + k;
    } else {
      assert (y + k * 400) / 400 == y / 400 + k;
    }
  }

  /** The day count of a day of a March year. */
  function MarchDays(year: int, dayOfYear: int): int {
    year / 400 * 146_097 + YearStart(year % 400) + dayOfYear - EPOCH_SHIFT
  }

  lemma {:induction false} DaysOfDay(year: int, dayOfYear: int)
    requires 0 <= dayOfYear <= 366
    ensures DaysFromCivil(DateInYear(year, dayOfYear)) == Some(MarchDays(year, dayOfYear))
  {
    MonthOfDay(year, dayOfYear);
    hide DateInYear, MonthStart, YearStart;
  }

  lemma {:induction false} MarchDaysPeriod(y: int, era: int, dayOfYear: int)
    ensures MarchDays(y + era * 400, dayOfYear) == MarchDays(y, dayOfYear) + era * 146_097
  {
    hide YearStart;
    ShiftMod(y, era, 400);
  }

  lemma {:induction false} MarchDaysOfEra(y: int, dayOfEra: int)
    ensures MarchDays(y, dayOfEra - YearStart(y)) == y / 400 + dayOfEra - EPOCH_SHIFT
  {
    YearStartPeriod(y);
    hide YearStart;
  }

  /** The conversion's parts: the day comes out in year `y` of an era counted from `era`. */
  lemma {:induction false} CivilParts(days: int) returns (y: int, era: int, dayOfYear: int)
    ensures CivilFromDays(days) == DateInYear(y + era * 400, dayOfYear) && 0 <= dayOfYear <= 366
    ensures y / 400 == if InRange(days) then 0 else 1
    ensures InRange(days) ==> IsDate(CivilFromDays(days))
    ensures MarchDays(y, dayOfYear) + era * 146_097 == y / 400 + days
  {
    CivilDecomposed(days);
    era := EraOf(days + EPOCH_SHIFT);
    y := YearOfEra(DayOfEra(days));
    dayOfYear := DayOfEra(days) - YearStart(y);
    assert DayOfEra(days) == days + EPOCH_SHIFT - era * 146_097;
    hide *;
    MarchDaysOfEra(y, DayOfEra(days));
  }

  /** Converting a day count to a date and back gives the same day exactly on the counts in range, which
      are all from 0000-03-01 on and the last day of each 400-year era before; on all others the date is
      one day late. */
  lemma {:induction false} CivilRoundTrip(days: int)
    ensures DaysFromCivil(CivilFromDays(days)) == Some(if InRange(days) then days else days + 1)
    ensures InRange(days) ==> IsDate(CivilFromDays(days))
  {
    hide *;
    var y, era, dayOfYear := CivilParts(days);
    DaysOfDay(y + era * 400, dayOfYear);
    MarchDaysPeriod(y, era, dayOfYear);
  }

  // ---------------------------------------------------------------------------
  // Real dates

  function YearLength(year: int): (n: int)
    ensures 365 <= n <= 366
  {
    365 + if IsLeap(year + 1) then 1 else 0
  }

  function MarchYear(d: Date): int {
    if d.month <= 2 then d.year - 1 else d.year
  }

  function DayOfYear(d: Date): int {
    MonthStart((d.month + 9) % 12) + d.day - 1
  }

  /** A real date is a day of its March year, and that day is the date. */
  lemma {:induction false} DateOfDay(d: Date)
    requires IsDate(d)
    ensures 0 <= DayOfYear(d) < YearLength(MarchYear(d))
    ensures DateInYear(MarchYear(d), DayOfYear(d)) == d
    ensures DaysFromCivil(d) == Some(MarchDays(MarchYear(d), DayOfYear(d)))
  {
    hide IsLeap, YearStart;
    assert 0 <= (d.month + 9) % 12 <= 11;
    if d.month <= 2 {
      assert (d.month + 9) % 12 == d.month + 9;
    } else {
      assert (d.month + 9) % 12 == d.month - 3;
    }
  }

  lemma {:induction false} YearStartSteps(y: int)
    requires 0 <= y <= 399
    ensures YearStart(y) + YearLength(y) == if y == 399 then 146_097 else YearStart(y + 1)
  {
  }

  lemma {:induction false} YearStartGrows(y: int, z: int)
    requires 0 <= y <= z <= 399
    ensures YearStart(y) <= YearStart(z)
  {
  }

  lemma {:induction false} StartsAtZero()
    ensures YearStart(0) == 0
  {
  }

  lemma {:induction false} YearLengthPeriod(y: int)
    ensures YearLength(y) == YearLength(y % 400)
  {
    LeapPeriod(y % 400 + 1, y / 400);
    hide IsLeap;
  }

  lemma {:induction false} EraUnique(e: int, r: int, f: int, t: int)
    requires e * 146_097 + r == f * 146_097 + t && 0 <= r < 146_097 && 0 <= t < 146_097
    ensures e == f && r == t
  {
  }

  lemma {:induction false} WithinEra(y: int, m: int)
    requires 0 <= y <= 399 && 0 <= m < YearLength(y)
    ensures 0 <= YearStart(y) + m < 146_097
  {
    hide *;
    StartsAtZero();
    YearStartGrows(0, y);
    YearStartSteps(y);
    if y < 399 {
      YearStartGrows(y + 1, 399);
      YearStartSteps(399);
    }
  }

  lemma {:induction false} DaysOfEraInjective(y: int, m: int, z: int, n: int)
    requires 0 <= y <= 399 && 0 <= z <= 399 && 0 <= m < YearLength(y) && 0 <= n < YearLength(z)
    requires YearStart(y) + m == YearStart(z) + n
    ensures y == z && m == n
  {
    hide *;
    YearStartSteps(y);
    YearStartSteps(z);
    if y < z {
      YearStartGrows(y + 1, z);
    } else if z < y {
      YearStartGrows(z + 1, y);
    }
  }

  /** Different days of March years have different day counts. */
  lemma {:induction false} MarchDaysInjective(y: int, m: int, z: int, n: int)
    requires 0 <= m < YearLength(y) && 0 <= n < YearLength(z) && MarchDays(y, m) == MarchDays(z, n)
    ensures y == z && m == n
  {
    hide YearStart, YearLength, IsLeap;
    YearLengthPeriod(y);
    YearLengthPeriod(z);
    WithinEra(y % 400, m);
    WithinEra(z % 400, n);
    EraUnique(y / 400, YearStart(y % 400) + m, z / 400, YearStart(z % 400) + n);
    DaysOfEraInjective(y % 400, m, z % 400, n);
  }

  /** Two real dates with one day count are one date. */
  lemma {:induction false} DaysInjective(d: Date, e: Date)
    requires IsDate(d) && IsDate(e) && DaysFromCivil(d) == DaysFromCivil(e)
    ensures d == e
  {
    hide IsDate, DaysFromCivil, MarchDays, DateInYear;
    DateOfDay(d);
    DateOfDay(e);
    MarchDaysInjective(MarchYear(d), DayOfYear(d), MarchYear(e), DayOfYear(e));
  }

  lemma {:induction false} MarchDaysStep(y: int, m: int)
    requires 0 <= m < YearLength(y)
    ensures MarchDays(y, m) + 1 == if m + 1 < YearLength(y) then MarchDays(y, m + 1) else MarchDays(y + 1, 0)
  {
    var a := y % 400;
    LeapPeriod(a + 1, y / 400);
    hide IsLeap;
    YearStartSteps(a);
    assert YearStart(0) == 0;
    hide YearStart;
    assert (y + 1) % 400 == (if a == 399 then 0 else a + 1) && (y + 1) / 400 == y / 400 + if a == 399 then 1 else 0;
  }

  /** The next calendar day has the next day count. */
  lemma {:induction false} NextDayCounts(d: Date)
    requires IsDate(d)
    ensures IsDate(NextDay(d)) && DaysFromCivil(NextDay(d)) == Some(DaysFromCivil(d).value + 1)
  {
    hide IsDate, DaysFromCivil, DateInYear, NextDay, DayOfYear, MarchDays, MarchYear, YearLength;
    DateOfDay(d);
    NextDayOfYear(d);
    DateOfDay(NextDay(d));
    MarchDaysStep(MarchYear(d), DayOfYear(d));
  }

  lemma {:induction false} NextDayOfYear(d: Date)
    requires IsDate(d)
    ensures IsDate(NextDay(d))
    ensures if DayOfYear(d) + 1 < YearLength(MarchYear(d))
            then MarchYear(NextDay(d)) == MarchYear(d) && DayOfYear(NextDay(d)) == DayOfYear(d) + 1
            else MarchYear(NextDay(d)) == MarchYear(d) + 1 && DayOfYear(NextDay(d)) == 0
  {
    hide IsLeap;
  }

  /** Converting a date and back gives the same date exactly when the date is real. */
  lemma {:induction false} DateRoundTrip(d: Date)
    requires DaysFromCivil(d).Some? && InRange(DaysFromCivil(d).value)
    ensures CivilFromDays(DaysFromCivil(d).value) == d <==> IsDate(d)
  {
    hide CivilFromDays, DaysFromCivil, IsDate;
    var days := DaysFromCivil(d).value;
    CivilRoundTrip(days);
    if IsDate(d) {
      DaysInjective(CivilFromDays(days), d);
    }
  }

  lemma {:induction false} CivilStarts()
    ensures CivilFromDays(-EPOCH_SHIFT) == Date(0, 3, 1) && CivilFromDays(0) == Date(1970, 1, 1)
  {
    FirstDay();
    EpochDay();
  }

  lemma {:induction false} FirstDay()
    ensures CivilFromDays(-EPOCH_SHIFT) == Date(0, 3, 1)
  {
    FirstEra();
    FirstYear();
    FirstOfMarch();
    hide EraOf, DayOfEra, YearOfEra, YearStart, DateInYear;
    assert 0 * 400 == 0;
  }

  lemma {:induction false} FirstEra()
    ensures EraOf(-EPOCH_SHIFT + EPOCH_SHIFT) == 0 && DayOfEra(-EPOCH_SHIFT) == 0
  {
  }

  lemma {:induction false} FirstYear()
    ensures YearOfEra(0) == 0 && YearStart(0) == 0
  {
  }

  lemma {:induction false} FirstOfMarch()
    ensures DateInYear(0, 0) == Date(0, 3, 1)
  {
  }

  lemma {:induction false} EpochDay()
    ensures CivilFromDays(0) == Date(1970, 1, 1)
  {
    assert EraOf(EPOCH_SHIFT) == 4 && DayOfEra(0) == 135_080 && YearOfEra(135_080) == 369;
    hide EraOf, DayOfEra, YearOfEra;
    assert YearStart(369) == 134_774;
  }

  /** From 0000-03-01 on, one day more is the next calendar day. */
  lemma {:induction false} CivilSteps(days: int)
    requires days + EPOCH_SHIFT >= 0
    ensures CivilFromDays(days + 1) == NextDay(CivilFromDays(days))
  {
    hide CivilFromDays, DaysFromCivil, IsDate, NextDay, IsLeap;
    CivilRoundTrip(days);
    CivilRoundTrip(days + 1);
    NextDayCounts(CivilFromDays(days));
    DaysInjective(CivilFromDays(days + 1), NextDay(CivilFromDays(days)));
  }

  /** Two days before 0000-03-01 comes out as the day before it. */
  lemma {:induction false} LateBeforeTheEpoch()
    ensures CivilFromDays(-EPOCH_SHIFT - 2) == CivilFromDays(-EPOCH_SHIFT - 1) == Date(0, 2, 29)
    ensures !IsDate(CivilFromDays(-EPOCH_SHIFT - 145_733))
  {
    assert EraOf(-2) == -2 && DayOfEra(-EPOCH_SHIFT - 2) == 292_192 && YearOfEra(292_192) == 799;
    assert EraOf(-1) == -1 && DayOfEra(-EPOCH_SHIFT - 1) == 146_096 && YearOfEra(146_096) == 399;
    assert EraOf(-145_733) == -2 && DayOfEra(-EPOCH_SHIFT - 145_733) == 146_461 && YearOfEra(146_461) == 400;
    hide EraOf, DayOfEra, YearOfEra;
    assert CivilFromDays(-EPOCH_SHIFT - 145_733) == Date(-399, 2, 29);
  }
}
