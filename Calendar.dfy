/** The proleptic Gregorian calendar as Python's `datetime.date` sees it:
    a date is valid when its day exists in its month, and dates are compared
    and shifted through their ordinal day number. */
module Calendar {
  import opened Base

  datatype Date = Date(year: int, month: int, day: int)

  predicate IsLeap(y: int) {
    y % 4 == 0 && (y % 100 != 0 || y % 400 == 0)
  }

  function DaysInMonth(y: int, m: int): (n: int)
    requires 1 <= m <= 12
    ensures 28 <= n <= 31
    ensures m == 2 ==> (n == 29 <==> IsLeap(y))
    ensures m == 12 ==> n == 31
  {
    if m == 2 then (if IsLeap(y) then 29 else 28)
    else if m == 4 || m == 6 || m == 9 || m == 11 then 30
    else 31
  }

  /** The dates `datetime.date` accepts: years 1 to 9999, existing month and day. */
  predicate ValidDate(d: Date) {
    1 <= d.year <= 9999 && 1 <= d.month <= 12 && 1 <= d.day <= DaysInMonth(d.year, d.month)
  }

  /** Days in the years before year `y`. */
  function DaysBeforeYear(y: int): int {
    var p := y - 1;
    p * 365 + p / 4 - p / 100 + p / 400
  }

  /** Days in the months of year `y` before month `m`. */
  function DaysBeforeMonth(y: int, m: int): (n: int)
    requires 1 <= m <= 12
    ensures m == 1 ==> n == 0
  {
    if m == 1 then 0 else DaysBeforeMonth(y, m - 1) + DaysInMonth(y, m - 1)
  }

  /** `date.toordinal()`. */
  function Ordinal(d: Date): Day
    requires 1 <= d.month <= 12
  {
    DaysBeforeYear(d.year) + DaysBeforeMonth(d.year, d.month) + d.day
  }

  /** `date.weekday()` of an ordinal day: 0 is Monday and 6 is Sunday. */
  function Weekday(o: Day): (w: int)
    ensures 0 <= w < 7
  {
    (o + 6) % 7
  }

  /** Month `m` ends where month `m + 1` starts: the last day of `m` is the
      day before the first of `m + 1`. */
  lemma MonthsAreContiguous(y: int, m: int)
    requires 1 <= m < 12
    ensures Ordinal(Date(y, m + 1, 1)) - 1 == Ordinal(Date(y, m, DaysInMonth(y, m)))
  {
  }

  /** The months before `m` leave room for the rest of the year: a valid date's
      ordinal lies within its year's first and last day. */
  lemma {:induction false} DaysBeforeMonthBounds(y: int, m: int)
    requires 1 <= m <= 12
    ensures DaysBeforeMonth(y, m) + DaysInMonth(y, m) <= DaysBeforeMonth(y, 12) + 31
    decreases 12 - m
  {
    if m > 1 {
      DaysBeforeMonthNonNegative(y, m - 1);
    }
    if m < 12 {
      DaysBeforeMonthBounds(y, m + 1);
    }
  }

  lemma {:induction false} DaysBeforeMonthNonNegative(y: int, m: int)
    requires 1 <= m <= 12
    ensures 0 <= DaysBeforeMonth(y, m)
  {
    if m > 1 {
      DaysBeforeMonthNonNegative(y, m - 1);
    }
  }

  /** The last day of year `y` (31 December) lies 365 or 366 days after
      the day before its first day. */
  lemma {:induction false} YearLength(y: int)
    ensures DaysBeforeMonth(y, 12) + 31 == if IsLeap(y) then 366 else 365
  {
    assert DaysBeforeMonth(y, 3) == 31 + DaysInMonth(y, 2);
    assert DaysBeforeMonth(y, 4) == DaysBeforeMonth(y, 3) + 31;
    assert DaysBeforeMonth(y, 5) == DaysBeforeMonth(y, 4) + 30;
    assert DaysBeforeMonth(y, 6) == DaysBeforeMonth(y, 5) + 31;
    assert DaysBeforeMonth(y, 7) == DaysBeforeMonth(y, 6) + 30;
    assert DaysBeforeMonth(y, 8) == DaysBeforeMonth(y, 7) + 31;
    assert DaysBeforeMonth(y, 9) == DaysBeforeMonth(y, 8) + 31;
    assert DaysBeforeMonth(y, 10) == DaysBeforeMonth(y, 9) + 30;
    assert DaysBeforeMonth(y, 11) == DaysBeforeMonth(y, 10) + 31;
    assert DaysBeforeMonth(y, 12) == DaysBeforeMonth(y, 11) + 30;
  }

  /** `date(9999, 12, 31).toordinal()`, the last day `datetime.date` can hold. */
  const MaxOrdinal: Day := 3652059

  /** A `datetime` exists for instant `t`: from 0001-01-01 00:00:00 to
      9999-12-31 23:59:59. Arithmetic that leaves this range raises
      `OverflowError`. */
  predicate InDatetimeRange(t: Instant) {
    0 <= t < MaxOrdinal * SecondsPerDay
  }

  /** Monday of the week of `t` has weekday 0, and the Sunday after it 6. */
  lemma MondayOfWeek(t: Day)
    ensures Weekday(t - Weekday(t)) == 0
    ensures Weekday(t - Weekday(t) + 6) == 6
  {
  }

  /** Every day of a valid date lies in 1 .. 9999-12-31. */
  lemma OrdinalBounds(d: Date)
    requires ValidDate(d)
    ensures DaysBeforeYear(d.year) < Ordinal(d) <= DaysBeforeYear(d.year + 1)
    ensures 1 <= Ordinal(d) <= MaxOrdinal
  {
    DaysBeforeMonthNonNegative(d.year, d.month);
    DaysBeforeMonthBounds(d.year, d.month);
    YearLength(d.year);
    NextYearStart(d.year);
    DaysBeforeYearBelowMax(d.year);
  }

  /** The year after `y` starts 365 or 366 days after `y` does. */
  lemma NextYearStart(y: int)
    ensures DaysBeforeYear(y + 1) == DaysBeforeYear(y) + (if IsLeap(y) then 366 else 365)
  {
    NextQuotient4(y - 1);
    NextQuotient100(y - 1);
    NextQuotient400(y - 1);
    if y % 400 == 0 {
      DivisibleBy400(y);
    } else if y % 100 == 0 {
      DivisibleBy100(y);
    }
  }

  lemma DivisibleBy400(y: int)
    requires y % 400 == 0
    ensures y % 100 == 0 && y % 4 == 0
  {
    assert y == 400 * (y / 400);
  }

  lemma DivisibleBy100(y: int)
    requires y % 100 == 0
    ensures y % 4 == 0
  {
    assert y == 100 * (y / 100);
  }

  lemma NextQuotient4(p: int)
    ensures (p + 1) / 4 == p / 4 + (if (p + 1) % 4 == 0 then 1 else 0)
  {
  }

  lemma NextQuotient100(p: int)
    ensures (p + 1) / 100 == p / 100 + (if (p + 1) % 100 == 0 then 1 else 0)
  {
  }

  lemma NextQuotient400(p: int)
    ensures (p + 1) / 400 == p / 400 + (if (p + 1) % 400 == 0 then 1 else 0)
  {
  }

  /** Months never shrink the count of days before them. */
  lemma {:induction false} DaysBeforeMonthGrows(y: int, m: int)
    requires 1 <= m <= 12
    ensures DaysBeforeMonth(y, m) <= DaysBeforeMonth(y, 12)
    decreases 12 - m
  {
    if m < 12 {
      DaysBeforeMonthGrows(y, m + 1);
    }
  }

  lemma {:induction false} DaysBeforeYearBelowMax(y: int)
    requires 1 <= y <= 9999
    ensures 0 <= DaysBeforeYear(y) && DaysBeforeYear(y + 1) <= MaxOrdinal
    decreases 9999 - y
  {
    NextYearStart(y);
    if y < 9999 {
      DaysBeforeYearBelowMax(y + 1);
    }
  }
}
