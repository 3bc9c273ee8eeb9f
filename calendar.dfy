/** The time-value model of ECMA-262, section 21.4.1 ("Time Values and Time
    Range"): a time value counts milliseconds from 1970-01-01T00:00:00Z, and
    the UTC calendar fields are derived from it through Day, DayFromYear,
    YearFromTime, MonthFromTime and DateFromTime. Dafny's `/` and `%` on `int`
    are Euclidean, which for the positive divisors used here is the floor
    division the standard prescribes. */
module Calendar {

  const MsPerDay: int := 86400000

  /** The largest magnitude of a valid time value (section 21.4.1.31, TimeClip). */
  const MaxTimeValue: int := 8640000000000000

  /** Day(t): the day number containing time value t. */
  function Day(t: int): int
  {
    t / MsPerDay
  }

  /** TimeWithinDay(t). */
  function TimeWithinDay(t: int): (r: int)
    ensures 0 <= r < MsPerDay
    ensures t == Day(t) * MsPerDay + r
  {
    t % MsPerDay
  }

  /** 1 in a leap year, 0 otherwise (InLeapYear). */
  function LeapDays(y: int): (r: int)
    ensures r == 0 || r == 1
  {
    if y % 4 != 0 then 0 else if y % 100 != 0 then 1 else if y % 400 != 0 then 0 else 1
  }

  function DaysInYear(y: int): int
  {
    365 + LeapDays(y)
  }

  /** DayFromYear(y): the day number of the first day of year y. */
  function DayFromYear(y: int): int
  {
    365 * (y - 1970) + (y - 1969) / 4 - (y - 1901) / 100 + (y - 1601) / 400
  }

  /** Floor division by k moves up by one exactly when the dividend reaches a multiple of k. */
  lemma DivStep(a: int, k: int)
    requires k == 4 || k == 100 || k == 400
    ensures (a + 1) / k == a / k + (if (a + 1) % k == 0 then 1 else 0)
  {
    var q, r := a / k, a % k;
    assert a == k * q + r && 0 <= r < k;
    if r == k - 1 {
      assert a + 1 == k * (q + 1);
    } else {
      assert a + 1 == k * q + (r + 1);
    }
  }

  /** Consecutive years are DaysInYear(y) days apart. */
  lemma NextYear(y: int)
    ensures DayFromYear(y + 1) == DayFromYear(y) + DaysInYear(y)
  {
    DivStep(y - 1969, 4);
    DivStep(y - 1901, 100);
    DivStep(y - 1601, 400);
    assert (y - 1968) % 4 == 0 <==> y % 4 == 0;
    assert (y - 1900) % 100 == 0 <==> y % 100 == 0;
    assert (y - 1600) % 400 == 0 <==> y % 400 == 0;
  }

  lemma {:induction false} DayFromYearMonotone(a: int, b: int)
    requires a < b
    ensures DayFromYear(a) + 365 * (b - a) <= DayFromYear(b)
    decreases b - a
  {
    NextYear(a);
    if a + 1 < b {
      DayFromYearMonotone(a + 1, b);
    }
  }

  /** Walk up from year y until the year that contains `day`. */
  function YearUp(day: int, y: int): (r: int)
    requires DayFromYear(y) <= day
    ensures r >= y
    ensures DayFromYear(r) <= day < DayFromYear(r + 1)
    decreases day - DayFromYear(y)
  {
    NextYear(y);
    if day < DayFromYear(y + 1) then y else YearUp(day, y + 1)
  }

  /** Walk down from year y until the year that contains `day`. */
  function YearDown(day: int, y: int): (r: int)
    requires day < DayFromYear(y + 1)
    ensures r <= y
    ensures DayFromYear(r) <= day < DayFromYear(r + 1)
    decreases DayFromYear(y + 1) - day
  {
    NextYear(y - 1);
    if DayFromYear(y) <= day then y else YearDown(day, y - 1)
  }

  /** The year whose days include `day` (YearFromTime, on day numbers). */
  function YearFromDay(day: int): (y: int)
    ensures DayFromYear(y) <= day < DayFromYear(y + 1)
  {
    if day >= 0 then YearUp(day, 1970) else YearDown(day, 1969)
  }

  /** YearFromTime is "the largest y such that TimeFromYear(y) <= t": any year
      whose first day is at or before `day` is at most YearFromDay(day), and
      the year bracketing `day` is unique. */
  lemma YearFromDayIsLargest(day: int, y: int)
    requires DayFromYear(y) <= day
    ensures y <= YearFromDay(day)
  {
    var z := YearFromDay(day);
    if z + 1 < y {
      DayFromYearMonotone(z + 1, y);
    }
  }

  lemma YearBracketUnique(day: int, y: int)
    requires DayFromYear(y) <= day < DayFromYear(y + 1)
    ensures y == YearFromDay(day)
  {
    var z := YearFromDay(day);
    if y < z {
      if y + 1 < z { DayFromYearMonotone(y + 1, z); }
    } else if z < y {
      if z + 1 < y { DayFromYearMonotone(z + 1, y); }
    }
  }

  /** Days in a year before month m (0-based, 0..12), given the year's leap days. */
  function MonthStart(m: int, leap: int): int
    requires 0 <= m <= 12
  {
    [0, 31, 59, 90, 120, 151, 181, 212, 243, 273, 304, 334, 365][m] + (if m >= 2 then leap else 0)
  }

  /** MonthFromTime, on the day within the year (0-based month). */
  function MonthFromDayWithinYear(dw: int, leap: int): (m: int)
    requires leap == 0 || leap == 1
    requires 0 <= dw < 365 + leap
    ensures 0 <= m < 12
    ensures MonthStart(m, leap) <= dw < MonthStart(m + 1, leap)
  {
    if dw < 31 then 0
    else if dw < 59 + leap then 1
    else if dw < 90 + leap then 2
    else if dw < 120 + leap then 3
    else if dw < 151 + leap then 4
    else if dw < 181 + leap then 5
    else if dw < 212 + leap then 6
    else if dw < 243 + leap then 7
    else if dw < 273 + leap then 8
    else if dw < 304 + leap then 9
    else if dw < 334 + leap then 10
    else 11
  }

  /** A UTC calendar date with a 1-based month, as the DatePicker prints it. */
  datatype Civil = Civil(year: int, month: int, day: int)

  /** Days in a month (1-based) of a year. */
  function DaysInMonth(year: int, month: int): (n: int)
    requires 1 <= month <= 12
    ensures 28 <= n <= 31
  {
    MonthStart(month, LeapDays(year)) - MonthStart(month - 1, LeapDays(year))
  }

  predicate ValidCivil(c: Civil)
  {
    1 <= c.month <= 12 && 1 <= c.day <= DaysInMonth(c.year, c.month)
  }

  /** MakeDay for a valid date: the day number it names. */
  function DayFromCivil(c: Civil): int
    requires ValidCivil(c)
  {
    DayFromYear(c.year) + MonthStart(c.month - 1, LeapDays(c.year)) + c.day - 1
  }

  /** The UTC calendar date of a day number (YearFromTime, MonthFromTime + 1,
      DateFromTime). It is valid and names that very day. */
  function CivilFromDay(day: int): (c: Civil)
    ensures ValidCivil(c)
    ensures DayFromCivil(c) == day
  {
    var y := YearFromDay(day);
    NextYear(y);
    var leap := LeapDays(y);
    var dw := day - DayFromYear(y);
    var m := MonthFromDayWithinYear(dw, leap);
    Civil(y, m + 1, dw - MonthStart(m, leap) + 1)
  }

  /** Decoding a valid date's day number gives that date back. */
  lemma CivilRoundTrip(c: Civil)
    requires ValidCivil(c)
    ensures CivilFromDay(DayFromCivil(c)) == c
  {
    var day := DayFromCivil(c);
    var leap := LeapDays(c.year);
    NextYear(c.year);
    MonthStartMonotoneUpTo(c.month, leap);
    YearBracketUnique(day, c.year);
    MonthBracketUnique(day - DayFromYear(c.year), leap, c.month - 1);
  }

  lemma MonthStartMonotoneUpTo(m: int, leap: int)
    requires 1 <= m <= 12 && (leap == 0 || leap == 1)
    ensures MonthStart(m, leap) <= 365 + leap
  {
  }

  lemma MonthBracketUnique(dw: int, leap: int, m: int)
    requires leap == 0 || leap == 1
    requires 0 <= m < 12
    requires MonthStart(m, leap) <= dw < MonthStart(m + 1, leap)
    ensures 0 <= dw < 365 + leap
    ensures MonthFromDayWithinYear(dw, leap) == m
  {
    var k := MonthFromDayWithinYear(dw, leap);
    if k < m {
      MonthStartMonotoneLe(k + 1, m, leap);
    } else if m < k {
      MonthStartMonotoneLe(m + 1, k, leap);
    }
  }

  lemma MonthStartMonotoneLe(a: int, b: int, leap: int)
    requires 0 <= a <= b <= 12 && (leap == 0 || leap == 1)
    ensures MonthStart(a, leap) <= MonthStart(b, leap)
  {
  }

  /** Lexicographic order on (year, month, day). */
  predicate CivilLe(a: Civil, b: Civil)
  {
    a.year < b.year
    || (a.year == b.year && a.month < b.month)
    || (a.year == b.year && a.month == b.month && a.day <= b.day)
  }

  /** Every day of a valid date lies within its year. */
  lemma DayWithinYear(c: Civil)
    requires ValidCivil(c)
    ensures DayFromYear(c.year) <= DayFromCivil(c) < DayFromYear(c.year + 1)
  {
    NextYear(c.year);
    MonthStartMonotoneLe(c.month, 12, LeapDays(c.year));
  }

  /** A date later in calendar order names a later day. */
  lemma DayFromCivilStrict(a: Civil, b: Civil)
    requires ValidCivil(a) && ValidCivil(b)
    requires !CivilLe(a, b)
    ensures DayFromCivil(a) > DayFromCivil(b)
  {
    if a.year > b.year {
      DayWithinYear(a);
      DayWithinYear(b);
      if b.year + 1 < a.year { DayFromYearMonotone(b.year + 1, a.year); }
    } else if a.month > b.month {
      MonthStartMonotoneLe(b.month, a.month - 1, LeapDays(a.year));
    }
  }

  /** A later day never has an earlier calendar date. */
  lemma CivilFromDayMonotone(d1: int, d2: int)
    requires d1 <= d2
    ensures CivilLe(CivilFromDay(d1), CivilFromDay(d2))
  {
    var c1, c2 := CivilFromDay(d1), CivilFromDay(d2);
    if !CivilLe(c1, c2) {
      DayFromCivilStrict(c1, c2);
    }
  }
}
