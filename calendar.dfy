/**
 * The pieces of Python's proleptic Gregorian `datetime.date` that the period
 * computations use: a date as (year, month, day), its day ordinal
 * (`date.toordinal()`, with 0001-01-01 as day 1, a Monday), `date.weekday()`,
 * and moving one day forward or back.
 */
module Calendar {

  datatype Date = Date(year: int, month: int, day: int)

  predicate IsLeap(y: int) {
    y % 4 == 0 && (y % 100 != 0 || y % 400 == 0)
  }

  function DaysInMonth(y: int, m: int): (n: int)
    requires 1 <= m <= 12
    ensures 28 <= n <= 31
  {
    if m == 2 then (if IsLeap(y) then 29 else 28)
    else if m == 4 || m == 6 || m == 9 || m == 11 then 30
    else 31
  }

  predicate Valid(d: Date) {
    1 <= d.year && 1 <= d.month <= 12 && 1 <= d.day <= DaysInMonth(d.year, d.month)
  }

  /** Days in the years before `y`, year by year. */
  function DaysBeforeYear(y: int): (n: int)
    requires y >= 1
    ensures n >= 0
    decreases y
  {
    if y == 1 then 0 else DaysBeforeYear(y - 1) + YearLength(y - 1)
  }

  /** Going from `p` to `p + 1` raises `p / k` by one exactly when `k` divides `p + 1`, for the leap-year divisors. */
  lemma QuotientSteps(p: int)
    requires p >= 0
    ensures (p + 1) / 4 == p / 4 + (if (p + 1) % 4 == 0 then 1 else 0)
    ensures (p + 1) / 100 == p / 100 + (if (p + 1) % 100 == 0 then 1 else 0)
    ensures (p + 1) / 400 == p / 400 + (if (p + 1) % 400 == 0 then 1 else 0)
  {
  }

  /** A year's length counts one leap day per divisor 4, less one for 100, plus one for 400. */
  lemma LeapDayCount(x: int)
    ensures YearLength(x) == 365 + (if x % 4 == 0 then 1 else 0) - (if x % 100 == 0 then 1 else 0)
                                 + (if x % 400 == 0 then 1 else 0)
  {
    if x % 400 == 0 {
      assert x == 400 * (x / 400);
      assert x == 100 * (4 * (x / 400)) && x == 4 * (100 * (x / 400));
    } else if x % 100 == 0 {
      assert x == 100 * (x / 100) && x == 4 * (25 * (x / 100));
    }
  }

  /** CPython's closed formula `_days_before_year`: 365 a year plus the leap days. */
  lemma {:induction false} DaysBeforeYearFormula(y: int)
    requires y >= 1
    ensures var p := y - 1; DaysBeforeYear(y) == p * 365 + p / 4 - p / 100 + p / 400
    decreases y
  {
    if y > 1 {
      DaysBeforeYearFormula(y - 1);
      QuotientSteps(y - 2);
      LeapDayCount(y - 1);
    }
  }

  /** Days in the months of year `y` before month `m`. */
  function DaysBeforeMonth(y: int, m: int): (n: int)
    requires 1 <= m <= 12
    ensures 0 <= n
    decreases m
  {
    if m == 1 then 0 else DaysBeforeMonth(y, m - 1) + DaysInMonth(y, m - 1)
  }

  /** The days of year `y`: 366 in a leap year, 365 otherwise. */
  function YearLength(y: int): int {
    if IsLeap(y) then 366 else 365
  }

  /** The months of a year add up to its length. */
  lemma MonthsFillYear(y: int)
    ensures DaysBeforeMonth(y, 12) + DaysInMonth(y, 12) == YearLength(y)
  {
    assert DaysBeforeMonth(y, 3) == 31 + DaysInMonth(y, 2);
    assert DaysBeforeMonth(y, 12) == 334 + DaysInMonth(y, 2) - 28;
  }

  /** Month `m` ends within its year. */
  lemma {:induction false} MonthsWithinYear(y: int, m: int)
    requires 1 <= m <= 12
    ensures DaysBeforeMonth(y, m) + DaysInMonth(y, m) <= YearLength(y)
    decreases 12 - m
  {
    if m == 12 {
      MonthsFillYear(y);
    } else {
      MonthsWithinYear(y, m + 1);
    }
  }

  /** A month ends no later than a later month begins. */
  lemma {:induction false} MonthsGrow(y: int, m1: int, m2: int)
    requires 1 <= m1 < m2 <= 12
    ensures DaysBeforeMonth(y, m1) + DaysInMonth(y, m1) <= DaysBeforeMonth(y, m2)
    decreases m2 - m1
  {
    if m1 + 1 < m2 {
      MonthsGrow(y, m1, m2 - 1);
    }
  }

  /** A year ends no later than a later year begins. */
  lemma {:induction false} YearsGrow(x: int, y: int)
    requires 1 <= x < y
    ensures DaysBeforeYear(x) + YearLength(x) <= DaysBeforeYear(y)
    decreases y - x
  {
    if x + 1 < y {
      YearsGrow(x, y - 1);
    }
  }

  /** `date.toordinal()`: the day falls within its year. */
  function ToOrdinal(d: Date): (n: int)
    requires Valid(d)
    ensures DaysBeforeYear(d.year) < n <= DaysBeforeYear(d.year) + YearLength(d.year)
  {
    MonthsWithinYear(d.year, d.month);
    DaysBeforeYear(d.year) + DaysBeforeMonth(d.year, d.month) + d.day
  }

  /** The first day of a month follows the last day of the month before. */
  lemma NewMonth(y: int, m: int)
    requires 1 <= y && 1 <= m < 12
    ensures ToOrdinal(Date(y, m + 1, 1)) == ToOrdinal(Date(y, m, DaysInMonth(y, m))) + 1
  {
    assert DaysBeforeMonth(y, m + 1) == DaysBeforeMonth(y, m) + DaysInMonth(y, m);
  }

  /** New Year's Day follows the 31st of December. */
  lemma NewYear(y: int)
    requires 1 <= y
    ensures ToOrdinal(Date(y + 1, 1, 1)) == ToOrdinal(Date(y, 12, 31)) + 1
  {
    MonthsFillYear(y);
  }

  /** `a` comes before `b` in (year, month, day) order, the order of their ISO `YYYY-MM-DD` texts. */
  predicate Before(a: Date, b: Date) {
    a.year < b.year || (a.year == b.year && (a.month < b.month || (a.month == b.month && a.day < b.day)))
  }

  lemma BeforeHasSmallerOrdinal(a: Date, b: Date)
    requires Valid(a) && Valid(b) && Before(a, b)
    ensures ToOrdinal(a) < ToOrdinal(b)
  {
    if a.year < b.year {
      YearsGrow(a.year, b.year);
    } else if a.month < b.month {
      MonthsGrow(a.year, a.month, b.month);
    }
  }

  /** Ordinals order dates as their ISO texts do, and two dates share an ordinal only when equal. */
  lemma OrdinalOrder(a: Date, b: Date)
    requires Valid(a) && Valid(b)
    ensures Before(a, b) <==> ToOrdinal(a) < ToOrdinal(b)
    ensures a == b <==> ToOrdinal(a) == ToOrdinal(b)
  {
    if Before(a, b) {
      BeforeHasSmallerOrdinal(a, b);
    } else if Before(b, a) {
      BeforeHasSmallerOrdinal(b, a);
    }
  }

  /**
   * `date.weekday()` of the date whose ordinal is `n`: Monday is 0, Sunday 6.
   * Ordinal 1, 0001-01-01, is a Monday, so Mondays are the ordinals 1 modulo
   * 7 and Sundays the multiples of 7.
   */
  function Weekday(n: int): (w: int)
    ensures 0 <= w < 7
    ensures w == 0 <==> n % 7 == 1
    ensures w == 6 <==> n % 7 == 0
  {
    (n + 6) % 7
  }

  /** `d + timedelta(days=1)`: the date whose ordinal is one more. */
  function NextDay(d: Date): (r: Date)
    requires Valid(d)
    ensures Valid(r)
    ensures ToOrdinal(r) == ToOrdinal(d) + 1
  {
    if d.day < DaysInMonth(d.year, d.month) then Date(d.year, d.month, d.day + 1)
    else if d.month < 12 then
      NewMonth(d.year, d.month);
      Date(d.year, d.month + 1, 1)
    else
      NewYear(d.year);
      Date(d.year + 1, 1, 1)
  }

  /** `d - timedelta(days=1)`, the date whose ordinal is one less; 0001-01-01 has no predecessor. */
  function PrevDay(d: Date): (r: Date)
    requires Valid(d) && d != Date(1, 1, 1)
    ensures Valid(r)
    ensures ToOrdinal(r) == ToOrdinal(d) - 1
  {
    if d.day > 1 then Date(d.year, d.month, d.day - 1)
    else if d.month > 1 then
      NewMonth(d.year, d.month - 1);
      Date(d.year, d.month - 1, DaysInMonth(d.year, d.month - 1))
    else
      NewYear(d.year - 1);
      Date(d.year - 1, 12, 31)
  }

  /** `d + timedelta(days=n)` for a non-negative `n`: the date whose ordinal is `n` more. */
  function AddDays(d: Date, n: nat): (r: Date)
    requires Valid(d)
    ensures Valid(r)
    ensures ToOrdinal(r) == ToOrdinal(d) + n
    decreases n
  {
    if n == 0 then d else AddDays(NextDay(d), n - 1)
  }

  /** The month after month `m` of year `y`, as (year, month). */
  function MonthAfter(y: int, m: int): (int, int)
    requires 1 <= m <= 12
  {
    if m < 12 then (y, m + 1) else (y + 1, 1)
  }

  /** Four days after day `k` of a month, stepping one day at a time. */
  lemma FourSteps(d: Date)
    requires Valid(d)
    ensures AddDays(d, 4) == NextDay(NextDay(NextDay(NextDay(d))))
  {
    var d1 := NextDay(d);
    var d2 := NextDay(d1);
    var d3 := NextDay(d2);
    assert AddDays(d3, 1) == NextDay(d3);
    assert AddDays(d2, 2) == AddDays(d3, 1);
    assert AddDays(d1, 3) == AddDays(d2, 2);
  }

  /** Day 28 of a month plus four days always falls on day 1 to 4 of the next month. */
  lemma Day28PlusFour(y: int, m: int)
    requires 1 <= y && 1 <= m <= 12
    ensures var t := AddDays(Date(y, m, 28), 4);
            (t.year, t.month) == MonthAfter(y, m) && 1 <= t.day <= 4
  {
    var (ny, nm) := MonthAfter(y, m);
    var last := DaysInMonth(y, m);
    var d0 := Date(y, m, 28);
    FourSteps(d0);
    var d1 := NextDay(d0);
    var d2 := NextDay(d1);
    var d3 := NextDay(d2);
    if last == 28 {
      assert d1 == Date(ny, nm, 1) && d2 == Date(ny, nm, 2) && d3 == Date(ny, nm, 3);
    } else if last == 29 {
      assert d1 == Date(y, m, 29) && d2 == Date(ny, nm, 1) && d3 == Date(ny, nm, 2);
    } else if last == 30 {
      assert d2 == Date(y, m, 30) && d3 == Date(ny, nm, 1);
    } else {
      assert d3 == Date(y, m, 31);
    }
  }
}
