/** The proleptic Gregorian calendar on day numbers counted from 1970-01-01.
    Timestamps are whole seconds since 1970-01-01 00:00; the Date, Year,
    Month and YearMonth columns of a transaction are functions of them. */
module Calendar {

  const SecondsPerDay := 86400
  const EpochYear := 1970

  /** The day a timestamp falls on (rounding towards the past, also before 1970:
      Dafny's `/` by a positive divisor is floor division). */
  function DayNumber(t: int): int {
    t / SecondsPerDay
  }

  /** The `days` of the time difference `t2 - t1`: the whole days in it,
      rounded towards the past when it is negative. A difference that is not
      negative has a day count that is not negative either, and none for
      equal timestamps. */
  function ElapsedDays(t1: int, t2: int): (d: int)
    ensures d * SecondsPerDay <= t2 - t1 < (d + 1) * SecondsPerDay
    ensures t1 <= t2 ==> d >= 0
    ensures t1 == t2 ==> d == 0
  {
    (t2 - t1) / SecondsPerDay
  }

  predicate IsLeapYear(y: int) {
    y % 4 == 0 && (y % 100 != 0 || y % 400 == 0)
  }

  function YearLength(y: int): int {
    if IsLeapYear(y) then 366 else 365
  }

  function MonthLength(y: int, m: int): int
    requires 1 <= m <= 12
  {
    if m == 2 then (if IsLeapYear(y) then 29 else 28)
    else if m == 4 || m == 6 || m == 9 || m == 11 then 30
    else 31
  }

  /** Days of a common year before the first of each month (index m - 1), and
      before the next year (index 12). */
  const CumulativeDays: seq<int> := [0, 31, 59, 90, 120, 151, 181, 212, 243, 273, 304, 334, 365]

  /** Days of year `y` before the first of month `m` (m = 13: the whole year). */
  function DaysBeforeMonth(y: int, m: int): int
    requires 1 <= m <= 13
  {
    CumulativeDays[m - 1] + (if m > 2 && IsLeapYear(y) then 1 else 0)
  }

  /** The table agrees with the month lengths and adds up to the year length. */
  lemma DaysBeforeMonthStep(y: int, m: int)
    requires 1 <= m <= 12
    ensures DaysBeforeMonth(y, m + 1) == DaysBeforeMonth(y, m) + MonthLength(y, m)
    ensures DaysBeforeMonth(y, 13) == YearLength(y)
  {
  }

  /** Days from 1970-01-01 to January 1 of year `y` (negative before 1970). */
  function DaysBeforeYear(y: int): int
    decreases if y < EpochYear then EpochYear - y else y - EpochYear
  {
    if y == EpochYear then 0
    else if y > EpochYear then DaysBeforeYear(y - 1) + YearLength(y - 1)
    else DaysBeforeYear(y + 1) - YearLength(y)
  }

  lemma DaysBeforeYearStep(y: int)
    ensures DaysBeforeYear(y + 1) == DaysBeforeYear(y) + YearLength(y)
  {
  }

  lemma {:induction false} DaysBeforeYearIncreasing(y1: int, y2: int)
    requires y1 < y2
    ensures DaysBeforeYear(y1) + YearLength(y1) <= DaysBeforeYear(y2)
    decreases y2 - y1
  {
    DaysBeforeYearStep(y1);
    if y1 + 1 < y2 {
      DaysBeforeYearIncreasing(y1 + 1, y2);
    }
  }

  /** The year holding day `offset` counted from January 1 of `y` (offset >= 0),
      with the day's position inside that year. */
  function YearForward(y: int, offset: nat): (r: (int, nat))
    ensures r.1 < YearLength(r.0)
    ensures DaysBeforeYear(r.0) + r.1 == DaysBeforeYear(y) + offset
    decreases offset
  {
    DaysBeforeYearStep(y);
    if offset < YearLength(y) then (y, offset)
    else YearForward(y + 1, offset - YearLength(y))
  }

  /** As YearForward, for a day before January 1 of `y`. */
  function YearBackward(y: int, offset: int): (r: (int, nat))
    requires offset < 0
    ensures r.1 < YearLength(r.0)
    ensures DaysBeforeYear(r.0) + r.1 == DaysBeforeYear(y) + offset
    decreases -offset
  {
    DaysBeforeYearStep(y - 1);
    var o := offset + YearLength(y - 1);
    if o >= 0 then (y - 1, o) else YearBackward(y - 1, o)
  }

  /** The month (from `m` on) holding day `rest` counted from the first of
      month `m`, and the day of that month (1-based). */
  function MonthOf(y: int, m: int, rest: int): (r: (int, int))
    requires 1 <= m <= 12
    requires 0 <= rest < YearLength(y) - DaysBeforeMonth(y, m)
    ensures 1 <= r.0 <= 12 && 1 <= r.1 <= MonthLength(y, r.0)
    ensures DaysBeforeMonth(y, r.0) + r.1 - 1 == DaysBeforeMonth(y, m) + rest
    decreases 12 - m
  {
    DaysBeforeMonthStep(y, m);
    if rest < MonthLength(y, m) then (m, rest + 1)
    else MonthOf(y, m + 1, rest - MonthLength(y, m))
  }

  datatype Date = Date(year: int, month: int, day: int)

  predicate ValidDate(d: Date) {
    1 <= d.month <= 12 && 1 <= d.day <= MonthLength(d.year, d.month)
  }

  /** The day number of a calendar date. */
  function DaysFromCivil(d: Date): int
    requires ValidDate(d)
  {
    DaysBeforeYear(d.year) + DaysBeforeMonth(d.year, d.month) + d.day - 1
  }

  /** The calendar date of a day number: a valid date that maps back to it. */
  function CivilFromDays(n: int): (d: Date)
    ensures ValidDate(d)
    ensures DaysFromCivil(d) == n
  {
    var yd := if n >= 0 then YearForward(EpochYear, n) else YearBackward(EpochYear, n);
    var md := MonthOf(yd.0, 1, yd.1);
    Date(yd.0, md.0, md.1)
  }

  /** Lexicographic order on (year, month, day). */
  predicate DateBefore(d1: Date, d2: Date) {
    || d1.year < d2.year
    || (d1.year == d2.year && d1.month < d2.month)
    || (d1.year == d2.year && d1.month == d2.month && d1.day < d2.day)
  }

  /** Later dates have larger day numbers. */
  lemma DaysFromCivilIncreasing(d1: Date, d2: Date)
    requires ValidDate(d1) && ValidDate(d2)
    requires DateBefore(d1, d2)
    ensures DaysFromCivil(d1) < DaysFromCivil(d2)
  {
    DaysBeforeMonthStep(d1.year, d1.month);
    if d1.year < d2.year {
      DaysBeforeYearIncreasing(d1.year, d2.year);
    }
  }

  /** Every valid date is the date of its own day number: together with
      CivilFromDays' contract, dates and day numbers are in one-to-one
      correspondence. */
  lemma CivilFromDaysOfDaysFromCivil(d: Date)
    requires ValidDate(d)
    ensures CivilFromDays(DaysFromCivil(d)) == d
  {
    var e := CivilFromDays(DaysFromCivil(d));
    if DateBefore(d, e) {
      DaysFromCivilIncreasing(d, e);
    } else if DateBefore(e, d) {
      DaysFromCivilIncreasing(e, d);
    }
  }

  /** The date of a timestamp: the valid calendar date whose day number is
      the day the timestamp falls on. */
  function DateOf(t: int): (d: Date)
    ensures ValidDate(d) && DaysFromCivil(d) == DayNumber(t)
    ensures 1 <= d.month <= 12 && 1 <= d.day <= 31
  {
    CivilFromDays(DayNumber(t))
  }

  /** The calendar month of a date as one integer (a monthly period key):
      consecutive months have consecutive keys. */
  function MonthIndex(d: Date): int {
    d.year * 12 + (d.month - 1)
  }

  /** Monthly period keys follow time: a later timestamp never falls in an
      earlier month. */
  lemma MonthIndexMonotone(t1: int, t2: int)
    requires t1 <= t2
    ensures MonthIndex(DateOf(t1)) <= MonthIndex(DateOf(t2))
  {
    var n1, n2 := DayNumber(t1), DayNumber(t2);
    assert n1 <= n2;
    var d1, d2 := DateOf(t1), DateOf(t2);
    if MonthIndex(d1) > MonthIndex(d2) {
      assert DateBefore(d2, d1);
      DaysFromCivilIncreasing(d2, d1);
    }
  }
}
