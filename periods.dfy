/**
 * The reporting periods of the time-entry page (`section_cra`) and the
 * capacity page (`section_capacites`) in app.py: a single day, the week of
 * a date, or its calendar month.
 */
module Periods {
  import opened Calendar
  import Dates

  /**
   * First and last day of the month of `d`, computed the way the pages do:
   * day 1; then day 28 plus four days, moved back to day 1 (the first of the
   * next month), minus one day.
   */
  function MonthBounds(d: Date): (r: (Date, Date))
    requires Valid(d)
    ensures Valid(r.0) && Valid(r.1)
    ensures r.0 == Date(d.year, d.month, 1)
    ensures r.1 == Date(d.year, d.month, DaysInMonth(d.year, d.month))
  {
    var start := Date(d.year, d.month, 1);
    var t := AddDays(Date(start.year, start.month, 28), 4);
    Day28PlusFour(d.year, d.month);
    var nextMonth := Date(t.year, t.month, 1);
    var end := PrevDay(nextMonth);
    (start, end)
  }

  /** The period choices of the two pages' "Vue" radio buttons. */
  datatype View = DayView | WeekView | MonthView

  /** The first and last day ordinals of the period the page shows for `d`. */
  function Period(view: View, d: Date): (r: (int, int))
    requires Valid(d)
    ensures r.0 <= ToOrdinal(d) <= r.1
    ensures view == DayView ==> r.0 == r.1
    ensures view == WeekView ==> Weekday(r.0) == 0 && r.1 == r.0 + 6
    ensures view == MonthView ==> r.1 - r.0 + 1 == DaysInMonth(d.year, d.month)
  {
    match view
    case DayView => (ToOrdinal(d), ToOrdinal(d))
    case WeekView => Dates.WeekBounds(ToOrdinal(d))
    case MonthView =>
      var (first, last) := MonthBounds(d);
      (ToOrdinal(first), ToOrdinal(last))
  }

  /** The number of days the capacity grid lists: `(end - start).days + 1`, none when negative. */
  function DayCount(start: int, end: int): (n: nat)
    ensures start <= end ==> n == end - start + 1
    ensures end < start ==> n == 0
  {
    if end < start then 0 else end - start + 1
  }

  /**
   * The grid lists one day for a day, seven for a week and the month's
   * length for a month.
   */
  lemma PeriodDayCount(view: View, d: Date)
    requires Valid(d)
    ensures var (first, last) := Period(view, d);
      DayCount(first, last) == match view
        case DayView => 1
        case WeekView => 7
        case MonthView => DaysInMonth(d.year, d.month)
  {
  }
}
