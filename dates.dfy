/**
 * `week_bounds`: the Monday-to-Sunday week holding a day. Days are day
 * ordinals, as `Calendar.ToOrdinal` gives them.
 */
module Dates {
  import opened Calendar

  /** The Monday on or before `d`, and the Sunday six days later. */
  function WeekBounds(d: int): (r: (int, int))
    ensures Weekday(r.0) == 0
    ensures r.1 == r.0 + 6
    ensures r.0 <= d <= r.1
    ensures d - r.0 == Weekday(d)
  {
    var start := d - Weekday(d);
    assert (start + 6) % 7 == 0 by {
      assert d + 6 == 7 * ((d + 6) / 7) + Weekday(d);
      assert start + 6 == 7 * ((d + 6) / 7);
    }
    (start, start + 6)
  }

  /** The days of a week all have that week's bounds. */
  lemma SameWeekSameBounds(d: int, e: int)
    requires WeekBounds(d).0 <= e <= WeekBounds(d).1
    ensures WeekBounds(e) == WeekBounds(d)
  {
    var start := WeekBounds(d).0;
    var k := e - start;
    var q := (start + 6) / 7;
    assert start + 6 == 7 * q;
    assert e + 6 == 7 * q + k;
    assert Weekday(e) == k;
  }

  /** Different weeks do not overlap: bounds of a day are unique to its week. */
  lemma WeeksAreDisjoint(d: int, e: int)
    requires WeekBounds(d) != WeekBounds(e)
    ensures WeekBounds(d).1 < e || e < WeekBounds(d).0
  {
    if WeekBounds(d).0 <= e <= WeekBounds(d).1 {
      SameWeekSameBounds(d, e);
    }
  }
}
