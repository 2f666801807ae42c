/** Calendar dates of the proleptic Gregorian calendar, years 1 to 9999, as
    Python's `datetime.date` represents them, and adding one day to a date. */
module Calendar {
  import opened Wrappers

  datatype Date = Date(year: int, month: int, day: int)

  const MinYear: int := 1
  const MaxYear: int := 9999

  predicate IsLeapYear(y: int) {
    y % 4 == 0 && (y % 100 != 0 || y % 400 == 0)
  }

  function DaysInMonth(y: int, m: int): int
    requires 1 <= m <= 12
  {
    if m == 2 then (if IsLeapYear(y) then 29 else 28)
    else [31, 28, 31, 30, 31, 30, 31, 31, 30, 31, 30, 31][m - 1]
  }

  function DaysInYear(y: int): int {
    if IsLeapYear(y) then 366 else 365
  }

  /** A date `datetime.date` can hold. */
  predicate IsValid(d: Date) {
    MinYear <= d.year <= MaxYear && 1 <= d.month <= 12
    && 1 <= d.day <= DaysInMonth(d.year, d.month)
  }

  /** The last date `datetime.date` can hold. */
  const LastDate: Date := Date(MaxYear, 12, 31)

  /** Days of the year before the first of month `m` (Python's `_days_before_month`). */
  function DaysBeforeMonth(y: int, m: int): int
    requires 1 <= m <= 12
  {
    [0, 31, 59, 90, 120, 151, 181, 212, 243, 273, 304, 334][m - 1]
    + (if m > 2 && IsLeapYear(y) then 1 else 0)
  }

  /** Days before January 1st of year `y`, counted from January 1st of year 1
      (Python's `_days_before_year`). */
  function DaysBeforeYear(y: int): int
    requires y >= 1
  {
    var p := y - 1;
    p * 365 + p / 4 - p / 100 + p / 400
  }

  /** The day number of `d` that `date.toordinal()` computes: January 1st of year 1 is day 1. */
  function ToOrdinal(d: Date): int
    requires IsValid(d)
  {
    DaysBeforeYear(d.year) + DaysBeforeMonth(d.year, d.month) + d.day
  }

  /** `d + timedelta(days=1)`: the next date, or `None` where Python raises
      `OverflowError` because `d` is the last date it can hold. */
  function AddOneDay(d: Date): (r: Option<Date>)
    requires IsValid(d)
    ensures r.None? <==> d == LastDate
    ensures r.Some? ==> IsValid(r.value) && ToOrdinal(r.value) == ToOrdinal(d) + 1
  {
    if d.day < DaysInMonth(d.year, d.month) then Some(Date(d.year, d.month, d.day + 1))
    else if d.month < 12 then
      MonthStep(d.year, d.month);
      Some(Date(d.year, d.month + 1, 1))
    else if d.year < MaxYear then
      YearStep(d.year + 1);
      Some(Date(d.year + 1, 1, 1))
    else None
  }

  lemma MonthStep(y: int, m: int)
    requires 1 <= m < 12
    ensures DaysBeforeMonth(y, m + 1) == DaysBeforeMonth(y, m) + DaysInMonth(y, m)
  {
  }

  /** One step of integer division by a leap-year period: `y / k` grows by one exactly when `k` divides `y`. */
  lemma DivStep(y: int, k: int)
    requires y >= 1 && (k == 4 || k == 100 || k == 400)
    ensures y / k == (y - 1) / k + (if y % k == 0 then 1 else 0)
  {
  }

  /** A year is as long as the days between its January 1st and the next one's. */
  lemma YearStep(y: int)
    requires y >= 2
    ensures DaysBeforeYear(y) == DaysBeforeYear(y - 1) + DaysInYear(y - 1)
  {
    var p := y - 1;
    DivStep(p, 4);
    DivStep(p, 100);
    DivStep(p, 400);
    DivisorsOfLeapPeriods(p);
  }

  lemma DivisorsOfLeapPeriods(p: int)
    ensures p % 400 == 0 ==> p % 100 == 0
    ensures p % 100 == 0 ==> p % 4 == 0
  {
    if p % 400 == 0 {
      var q := p / 400;
      assert p == 100 * (4 * q);
    }
    if p % 100 == 0 {
      var q := p / 100;
      assert p == 4 * (25 * q);
    }
  }

  /** A date's day number falls within its year. */
  lemma OrdinalWithinYear(d: Date)
    requires IsValid(d)
    ensures DaysBeforeYear(d.year) < ToOrdinal(d) <= DaysBeforeYear(d.year) + DaysInYear(d.year)
  {
  }

  lemma {:induction false} YearsAreOrdered(y1: int, y2: int)
    requires 1 <= y1 < y2
    ensures DaysBeforeYear(y1) + DaysInYear(y1) <= DaysBeforeYear(y2)
    decreases y2 - y1
  {
    YearStep(y2);
    if y1 < y2 - 1 {
      YearsAreOrdered(y1, y2 - 1);
    }
  }

  /** Distinct valid dates have distinct day numbers, so `AddOneDay` is the one
      date whose day number follows that of its argument. */
  lemma {:induction false} OrdinalInjective(a: Date, b: Date)
    requires IsValid(a) && IsValid(b) && ToOrdinal(a) == ToOrdinal(b)
    ensures a == b
  {
    OrdinalWithinYear(a);
    OrdinalWithinYear(b);
    if a.year < b.year {
      YearsAreOrdered(a.year, b.year);
      assert false;
    } else if b.year < a.year {
      YearsAreOrdered(b.year, a.year);
      assert false;
    }
    if a.month != b.month {
      assert false;
    }
  }
}
