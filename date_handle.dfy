/**
 * Calendar arithmetic on proleptic-Gregorian dates: rolling a date by whole
 * months with end-of-month clamping, and the signed year-fraction
 * approximation used for zero-coupon accrual and discounting.
 *
 * DayNumber stands in for chrono's `signed_duration_since(..).num_days()`:
 * the number of days between two dates is the difference of their day numbers.
 */
module DateHandle {

  datatype Date = Date(year: int, month: int, day: int)

  predicate IsLeapYear(y: int) {
    y % 4 == 0 && (y % 100 != 0 || y % 400 == 0)
  }

  function DaysInMonth(y: int, m: int): (n: int)
    requires 1 <= m <= 12
    ensures 28 <= n <= 31
  {
    if m == 2 then (if IsLeapYear(y) then 29 else 28)
    else if m == 4 || m == 6 || m == 9 || m == 11 then 30
    else 31
  }

  /** What chrono's `NaiveDate::from_ymd_opt` accepts (its bounded year range aside). */
  predicate ValidDate(d: Date) {
    1 <= d.month <= 12 && 1 <= d.day <= DaysInMonth(d.year, d.month)
  }

  /**
   * A linear key that orders valid dates chronologically: months contribute
   * at most 12 * 32 + 31 < 416, so the key is lexicographic on (year, month, day).
   */
  function DateKey(d: Date): int {
    d.year * 416 + d.month * 32 + d.day
  }

  /** Chronological order (chrono's `Ord` on NaiveDate). */
  predicate Before(a: Date, b: Date) {
    DateKey(a) < DateKey(b)
  }

  /** Valid dates have equal keys exactly when they are the same date. */
  lemma DateKeyInjective(a: Date, b: Date)
    requires ValidDate(a) && ValidDate(b)
    ensures DateKey(a) == DateKey(b) <==> a == b
  {
    KeyBounds(a);
    KeyBounds(b);
    if a.year < b.year {
      assert DateKey(a) < (a.year + 1) * 416 <= b.year * 416 < DateKey(b);
    } else if b.year < a.year {
      assert DateKey(b) < (b.year + 1) * 416 <= a.year * 416 < DateKey(a);
    } else if a.month != b.month {
      assert DateKey(a) - a.year * 416 == a.month * 32 + a.day;
      assert DateKey(b) - a.year * 416 == b.month * 32 + b.day;
    }
  }

  lemma KeyBounds(d: Date)
    requires ValidDate(d)
    ensures d.year * 416 < DateKey(d) < (d.year + 1) * 416
    ensures 1 <= d.day <= 31
  {
  }

  predicate AtOrBefore(a: Date, b: Date) {
    DateKey(a) <= DateKey(b)
  }

  function YearLength(y: int): int {
    if IsLeapYear(y) then 366 else 365
  }

  /** Days from 0000-01-01 to the first day of year y (negative for y < 0). */
  function DaysBeforeYear(y: int): int {
    365 * y + (y + 3) / 4 - (y + 99) / 100 + (y + 399) / 400
  }

  /** Days from the first of January of year y to the first day of month m. */
  function DaysBeforeMonth(y: int, m: int): (n: int)
    requires 1 <= m <= 12
    ensures 0 <= n <= 334 + 1
  {
    CommonDaysBeforeMonth(m) + (if m > 2 && IsLeapYear(y) then 1 else 0)
  }

  /** Days before month m in a common year. */
  function CommonDaysBeforeMonth(m: int): int
    requires 1 <= m <= 12
  {
    match m
    case 1 => 0
    case 2 => 31
    case 3 => 59
    case 4 => 90
    case 5 => 120
    case 6 => 151
    case 7 => 181
    case 8 => 212
    case 9 => 243
    case 10 => 273
    case 11 => 304
    case 12 => 334
  }

  function DayNumber(d: Date): int
    requires 1 <= d.month <= 12
  {
    DaysBeforeYear(d.year) + DaysBeforeMonth(d.year, d.month) + d.day - 1
  }

  /** The number of whole days from a to b, as chrono's `b.signed_duration_since(a).num_days()`. */
  function DaysBetween(a: Date, b: Date): int
    requires 1 <= a.month <= 12 && 1 <= b.month <= 12
  {
    DayNumber(b) - DayNumber(a)
  }

  lemma DaysBeforeYearStep(y: int)
    ensures DaysBeforeYear(y + 1) == DaysBeforeYear(y) + YearLength(y)
  {
    Step4(y);
    Step100(y);
    Step400(y);
    Divides(y);
    var leap := if y % 4 == 0 then 1 else 0;
    var century := if y % 100 == 0 then 1 else 0;
    var quad := if y % 400 == 0 then 1 else 0;
    assert YearLength(y) == 365 + leap - century + quad;
  }

  /** A multiple of 400 is a multiple of 100, and a multiple of 100 one of 4. */
  lemma Divides(y: int)
    ensures y % 400 == 0 ==> y % 100 == 0
    ensures y % 100 == 0 ==> y % 4 == 0
  {
    if y % 400 == 0 {
      CenturyMultiple(y / 400 * 4);
    }
    if y % 100 == 0 {
      LeapMultiple(y / 100 * 25);
    }
  }

  lemma CenturyMultiple(t: int)
    ensures (100 * t) % 100 == 0
  {
  }

  lemma LeapMultiple(t: int)
    ensures (4 * t) % 4 == 0
  {
  }

  lemma Step4(y: int)
    ensures (y + 4) / 4 == (y + 3) / 4 + (if y % 4 == 0 then 1 else 0)
  {
  }

  lemma Step100(y: int)
    ensures (y + 100) / 100 == (y + 99) / 100 + (if y % 100 == 0 then 1 else 0)
  {
  }

  lemma Step400(y: int)
    ensures (y + 400) / 400 == (y + 399) / 400 + (if y % 400 == 0 then 1 else 0)
  {
  }

  lemma {:induction false} DaysBeforeYearGrows(y0: int, y1: int)
    requires y0 <= y1
    ensures DaysBeforeYear(y0) + 365 * (y1 - y0) <= DaysBeforeYear(y1)
    decreases y1 - y0
  {
    if y0 < y1 {
      DaysBeforeYearStep(y0);
      DaysBeforeYearGrows(y0 + 1, y1);
    }
  }

  lemma DaysBeforeMonthStep(y: int, m: int)
    requires 1 <= m < 12
    ensures DaysBeforeMonth(y, m + 1) == DaysBeforeMonth(y, m) + DaysInMonth(y, m)
  {
  }

  /** A month never runs past the end of its year. */
  lemma MonthEndWithinYear(y: int, m: int)
    requires 1 <= m <= 12
    ensures DaysBeforeMonth(y, m) + DaysInMonth(y, m) <= YearLength(y)
  {
  }

  lemma {:induction false} DaysBeforeMonthGrows(y: int, m0: int, m1: int)
    requires 1 <= m0 < m1 <= 12
    ensures DaysBeforeMonth(y, m0) + DaysInMonth(y, m0) <= DaysBeforeMonth(y, m1)
    decreases m1 - m0
  {
    DaysBeforeMonthStep(y, m0);
    if m0 + 1 < m1 {
      DaysBeforeMonthGrows(y, m0 + 1, m1);
    }
  }

  /** Day numbers are strictly increasing along the calendar. */
  lemma DayNumberMonotone(a: Date, b: Date)
    requires ValidDate(a) && ValidDate(b) && Before(a, b)
    ensures DayNumber(a) < DayNumber(b)
  {
    if a.year < b.year {
      MonthEndWithinYear(a.year, a.month);
      DaysBeforeYearStep(a.year);
      DaysBeforeYearGrows(a.year + 1, b.year);
      calc {
        DayNumber(a);
      <=
        DaysBeforeYear(a.year) + DaysBeforeMonth(a.year, a.month) + DaysInMonth(a.year, a.month) - 1;
      <
        DaysBeforeYear(a.year) + YearLength(a.year);
      ==
        DaysBeforeYear(a.year + 1);
      <=
        DaysBeforeYear(b.year);
      <=
        DayNumber(b);
      }
    } else if a.year == b.year && a.month < b.month {
      DaysBeforeMonthGrows(a.year, a.month, b.month);
      assert DayNumber(a) < DaysBeforeYear(a.year) + DaysBeforeMonth(a.year, a.month) + DaysInMonth(a.year, a.month);
    } else {
      KeyBounds(a);
      KeyBounds(b);
      assert a.year == b.year && a.month == b.month && a.day < b.day;
    }
  }

  /** Comparing valid dates is comparing their day numbers, in both directions. */
  lemma BeforeIffDayNumber(a: Date, b: Date)
    requires ValidDate(a) && ValidDate(b)
    ensures Before(a, b) <==> DayNumber(a) < DayNumber(b)
    ensures a == b <==> DayNumber(a) == DayNumber(b)
  {
    if Before(a, b) {
      DayNumberMonotone(a, b);
    } else if Before(b, a) {
      DayNumberMonotone(b, a);
    } else {
      DateKeyInjective(a, b);
    }
  }

  lemma AtOrBeforeIffDayNumber(a: Date, b: Date)
    requires ValidDate(a) && ValidDate(b)
    ensures AtOrBefore(a, b) <==> DayNumber(a) <= DayNumber(b)
  {
    BeforeIffDayNumber(a, b);
    if !Before(a, b) && AtOrBefore(a, b) {
      DateKeyInjective(a, b);
    }
  }

  /** The number of months since year 0 month 0: year * 12 + month. */
  function MonthIndex(d: Date): int {
    d.year * 12 + d.month
  }

  /** Rust's `/` on i32: rounds toward zero. */
  function TruncDiv(a: int, b: int): int
    requires b > 0
  {
    if a >= 0 then a / b else -((-a) / b)
  }

  /** Rust's `%` on i32: the remainder takes the sign of the dividend. */
  function TruncRem(a: int, b: int): (r: int)
    requires b > 0
    ensures a == b * TruncDiv(a, b) + r
    ensures -b < r < b
    ensures a >= 0 ==> 0 <= r
  {
    a - b * TruncDiv(a, b)
  }

  /** The month `add_months` computes, before any date is built from it. */
  function RolledMonth(d: Date, months: int): int {
    TruncRem(MonthIndex(d) + months - 1, 12) + 1
  }

  function RolledYear(d: Date, months: int): int {
    TruncDiv(MonthIndex(d) + months - 1, 12)
  }

  /**
   * `add_months` reaches a date only when the month it computes lies in 1..12;
   * otherwise `from_ymd` panics. With Rust's truncating `%` that happens when the
   * target month index is 0 or below and not congruent to 1 modulo 12.
   */
  predicate AddMonthsDefined(d: Date, months: int) {
    1 <= RolledMonth(d, months) <= 12
  }

  lemma PositiveIndexDefined(d: Date, months: int)
    requires MonthIndex(d) + months >= 1
    ensures AddMonthsDefined(d, months)
    ensures RolledYear(d, months) == (MonthIndex(d) + months - 1) / 12
    ensures RolledMonth(d, months) == (MonthIndex(d) + months - 1) % 12 + 1
  {
  }

  /** The day-number gap between the first of a month and the first of the next. */
  lemma MonthLengthFromDayNumbers(y: int, m: int)
    requires 1 <= m <= 12
    ensures (if m == 12 then DayNumber(Date(y + 1, 1, 1)) else DayNumber(Date(y, m + 1, 1)))
            - DayNumber(Date(y, m, 1)) == DaysInMonth(y, m)
  {
    if m == 12 {
      DaysBeforeYearStep(y);
    } else {
      DaysBeforeMonthStep(y, m);
    }
  }

  /**
   * Roll a date by whole months; the day is clamped to the length of the target
   * month, which is measured as the days between its first day and the first day
   * of the month after.
   */
  function AddMonths(d: Date, months: int): (r: Date)
    requires ValidDate(d) && AddMonthsDefined(d, months)
    ensures ValidDate(r)
    ensures MonthIndex(r) == MonthIndex(d) + months
    ensures r.day == if d.day <= DaysInMonth(r.year, r.month) then d.day else DaysInMonth(r.year, r.month)
  {
    var numOfMonths := MonthIndex(d) + months;
    var year := TruncDiv(numOfMonths - 1, 12);
    var month := TruncRem(numOfMonths - 1, 12) + 1;
    var nxtMonth := if month == 12 then Date(year + 1, 1, 1) else Date(year, month + 1, 1);
    var maxDay := DaysBetween(Date(year, month, 1), nxtMonth);
    MonthLengthFromDayNumbers(year, month);
    var day := d.day;
    Date(year, month, if day > maxDay then maxDay else day)
  }

  /** Two dates in the same month index share year and month. */
  lemma MonthIndexDetermines(a: Date, b: Date)
    requires 1 <= a.month <= 12 && 1 <= b.month <= 12
    requires MonthIndex(a) == MonthIndex(b)
    ensures a.year == b.year && a.month == b.month
  {
  }

  lemma AddZeroMonths(d: Date)
    requires ValidDate(d) && AddMonthsDefined(d, 0)
    ensures AddMonths(d, 0) == d
  {
    MonthIndexDetermines(AddMonths(d, 0), d);
  }

  /** A larger month index is a later date, whatever the days. */
  lemma LaterMonthIsLater(a: Date, b: Date)
    requires ValidDate(a) && ValidDate(b)
    requires MonthIndex(a) < MonthIndex(b)
    ensures Before(a, b) && a.year <= b.year
  {
    MonthIndexBounds(a);
    MonthIndexBounds(b);
    if a.year < b.year {
      assert DateKey(a) <= a.year * 416 + 415 < b.year * 416 < DateKey(b);
    }
  }

  lemma MonthIndexBounds(d: Date)
    requires ValidDate(d)
    ensures d.year * 12 < MonthIndex(d) <= d.year * 12 + 12
    ensures d.year * 416 < DateKey(d) <= d.year * 416 + 415
  {
  }

  /** Rolling forward by a positive number of months always gives a later date. */
  lemma AddMonthsIsLater(d: Date, months: int)
    requires ValidDate(d) && AddMonthsDefined(d, months) && months > 0
    ensures Before(d, AddMonths(d, months))
    ensures d.year <= AddMonths(d, months).year
  {
    LaterMonthIsLater(d, AddMonths(d, months));
  }

  /** The clamping examples from the last day of 2020: +0, +1, +2, +11 and +12 months. */
  lemma AddMonthsFromEndOfYear(months: int, expected: Date)
    requires || (months == 0 && expected == Date(2020, 12, 31))
             || (months == 1 && expected == Date(2021, 1, 31))
             || (months == 2 && expected == Date(2021, 2, 28))
             || (months == 11 && expected == Date(2021, 11, 30))
             || (months == 12 && expected == Date(2021, 12, 31))
    ensures AddMonths(Date(2020, 12, 31), months) == expected
  {
    AddMonthsExample(Date(2020, 12, 31), months, expected);
  }

  /** An expected result is confirmed by its month index and its clamped day. */
  lemma AddMonthsExample(d: Date, months: int, expected: Date)
    requires ValidDate(d) && ValidDate(expected) && MonthIndex(d) + months >= 1
    requires MonthIndex(expected) == MonthIndex(d) + months
    requires expected.day == if d.day <= DaysInMonth(expected.year, expected.month) then d.day
                             else DaysInMonth(expected.year, expected.month)
    ensures AddMonths(d, months) == expected
  {
    PositiveIndexDefined(d, months);
    MonthIndexDetermines(AddMonths(d, months), expected);
  }

  /**
   * The signed year-fraction (Y1 - Y0) + (M1 - M0) / 12 + (D1 - D0) / 365; the
   * differences are taken on signed values, so they never wrap.
   */
  function YearFrac(d1: Date, d0: Date): real {
    (d1.year - d0.year) as real
    + (d1.month as real - d0.month as real) / 12.0
    + (d1.day as real - d0.day as real) / 365.0
  }

  lemma YearFracSelf(d: Date)
    ensures YearFrac(d, d) == 0.0
  {
  }

  lemma YearFracAntisymmetric(d1: Date, d0: Date)
    ensures YearFrac(d1, d0) == -YearFrac(d0, d1)
  {
  }

  /** Year fractions chain: going from a to c is going from a to b and then b to c. */
  lemma YearFracChain(c: Date, b: Date, a: Date)
    ensures YearFrac(c, a) == YearFrac(c, b) + YearFrac(b, a)
  {
  }

  /** Rolling by m months moves the year fraction by m / 12, plus the clamped days. */
  lemma YearFracOfAddMonths(d: Date, months: int)
    requires ValidDate(d) && AddMonthsDefined(d, months)
    ensures YearFrac(AddMonths(d, months), d)
            == months as real / 12.0 + (AddMonths(d, months).day - d.day) as real / 365.0
  {
    var r := AddMonths(d, months);
    assert r.year * 12 + r.month == d.year * 12 + d.month + months;
    assert (r.year - d.year) as real + (r.month as real - d.month as real) / 12.0
        == ((r.year * 12 + r.month) - (d.year * 12 + d.month)) as real / 12.0;
  }
}
