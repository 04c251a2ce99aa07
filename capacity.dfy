/**
 * The capacity grid of the capacity page (app.py, `section_capacites`):
 * one cell per listed user and day of the period, holding the day's
 * capacity (the override, else 8 hours), the hours logged
 * (`kpi_user_load_daily`, 0 when there is no row) and their difference.
 */
module CapacityGrid {
  import opened Wrappers
  import opened Schema
  import opened Kpi
  import Calendar
  import Periods

  /** The default capacity of a working day, in hours. */
  const DefaultCapacity := 8

  datatype Cell = Cell(day: int, userId: int, userName: string, capacity: int, logged: int, delta: int)

  /** The capacity of `uid` on `day`: the override if there is one, else the default. */
  function CapacityOn(os: seq<CapacityOverride>, uid: int, day: int): (c: int)
    ensures OverrideFor(os, uid, day).None? ==> c == DefaultCapacity
    ensures OverrideFor(os, uid, day).Some? ==> c == OverrideFor(os, uid, day).value.capacity
  {
    match OverrideFor(os, uid, day)
    case Some(o) => o.capacity
    case None => DefaultCapacity
  }

  /** The merged cell of `u` on `day`, as the left join and `fillna(0)` give it. */
  function CellFor(s: Store, u: User, day: int): (c: Cell)
    ensures c.day == day && c.userId == u.id && c.userName == u.fullName
    ensures c.capacity == CapacityOn(s.overrides, u.id, day)
    ensures c.logged == DailyLoad(s, u.id, day).GetOr(0)
    ensures c.delta == c.capacity - c.logged
  {
    var cap := CapacityOn(s.overrides, u.id, day);
    var logged := DailyLoad(s, u.id, day).GetOr(0);
    Cell(day, u.id, u.fullName, cap, logged, cap - logged)
  }

  /** The cells of one user for the `n` days from `start`. */
  function RowCells(s: Store, u: User, start: int, n: nat): (cs: seq<Cell>)
    ensures |cs| == n
    ensures forall j :: 0 <= j < n ==> cs[j] == CellFor(s, u, start + j)
  {
    seq(n, j requires 0 <= j < n => CellFor(s, u, start + j))
  }

  /** The grid: each user's row of days, users in the order listed. */
  function Grid(s: Store, us: seq<User>, start: int, n: nat): seq<Cell> {
    if us == [] then [] else Grid(s, us[..|us| - 1], start, n) + RowCells(s, us[|us| - 1], start, n)
  }

  lemma RowFits(i: nat, m: nat, n: nat)
    requires i < m
    ensures i * n + n <= m * n
    ensures (i + 1) * n == i * n + n
  {
    assert (i + 1) * n <= m * n;
  }

  lemma SliceOfConcat<T>(a: seq<T>, b: seq<T>, lo: nat, hi: nat)
    requires lo <= hi
    ensures hi <= |a| ==> (a + b)[lo..hi] == a[lo..hi]
    ensures lo == |a| && hi == |a| + |b| ==> (a + b)[lo..hi] == b
  {
  }

  /**
   * The grid has one row of `n` cells per user: the cells `i * n` to
   * `i * n + n` are user `i`'s days, so user `i` on day `j` is at `i * n + j`.
   */
  lemma {:induction false} GridShape(s: Store, us: seq<User>, start: int, n: nat)
    ensures |Grid(s, us, start, n)| == |us| * n
    ensures forall i :: 0 <= i < |us| ==>
      i * n + n <= |us| * n && Grid(s, us, start, n)[i * n..i * n + n] == RowCells(s, us[i], start, n)
  {
    if us != [] {
      var m := |us| - 1;
      var init := us[..m];
      GridShape(s, init, start, n);
      var front := Grid(s, init, start, n);
      var row := RowCells(s, us[m], start, n);
      var g := front + row;
      assert g == Grid(s, us, start, n);
      RowFits(m, |us|, n);
      assert |g| == |us| * n;
      forall i | 0 <= i < |us|
        ensures i * n + n <= |us| * n && g[i * n..i * n + n] == RowCells(s, us[i], start, n)
      {
        RowFits(i, |us|, n);
        if i < m {
          RowFits(i, m, n);
          assert us[i] == init[i];
          SliceOfConcat(front, row, i * n, i * n + n);
        } else {
          SliceOfConcat(front, row, m * n, m * n + n);
        }
      }
    }
  }

  /** The cell of user `i` on day `j` is at `i * n + j`. */
  lemma CellPosition(s: Store, us: seq<User>, start: int, n: nat, i: nat, j: nat)
    requires i < |us| && j < n
    ensures i * n + j < |Grid(s, us, start, n)|
    ensures Grid(s, us, start, n)[i * n + j] == CellFor(s, us[i], start + j)
  {
    GridShape(s, us, start, n);
    RowFits(i, |us|, n);
    var g := Grid(s, us, start, n);
    var lo := i * n;
    assert lo + n <= |g|;
    var row := g[lo..lo + n];
    assert row == RowCells(s, us[i], start, n);
    assert row[j] == g[lo + j];
  }

  /** One more user adds that user's row at the end. */
  lemma GridStep(s: Store, us: seq<User>, i: nat, start: int, n: nat)
    requires i < |us|
    ensures Grid(s, us[..i + 1], start, n) == Grid(s, us[..i], start, n) + RowCells(s, us[i], start, n)
  {
    assert us[..i + 1][..i] == us[..i];
  }

  /** The nested loop that builds `cap_rows`, merged with the logged hours. */
  method BuildGrid(s: Store, us: seq<User>, start: int, n: nat) returns (cells: seq<Cell>)
    ensures cells == Grid(s, us, start, n)
  {
    cells := [];
    var i := 0;
    while i < |us|
      invariant 0 <= i <= |us|
      invariant cells == Grid(s, us[..i], start, n)
    {
      var u := us[i];
      ghost var before := cells;
      var j := 0;
      while j < n
        invariant 0 <= j <= n
        invariant cells == before + RowCells(s, u, start, j)
      {
        var day := start + j;
        var cap := match OverrideFor(s.overrides, u.id, day) case Some(o) => o.capacity case None => DefaultCapacity;
        var logged := match DailyLoad(s, u.id, day) case Some(h) => h case None => 0;
        cells := cells + [Cell(day, u.id, u.fullName, cap, logged, cap - logged)];
        assert RowCells(s, u, start, j + 1) == RowCells(s, u, start, j) + [CellFor(s, u, day)];
        j := j + 1;
      }
      GridStep(s, us, i, start, n);
      i := i + 1;
    }
    assert us[..|us|] == us;
  }

  /** Every cell of the grid falls on one of the `n` days from `start`. */
  lemma {:induction false} GridDays(s: Store, us: seq<User>, start: int, n: nat)
    ensures forall k :: 0 <= k < |Grid(s, us, start, n)| ==>
      start <= Grid(s, us, start, n)[k].day < start + n
  {
    if us != [] {
      var init := us[..|us| - 1];
      GridDays(s, init, start, n);
      var front := Grid(s, init, start, n);
      var row := RowCells(s, us[|us| - 1], start, n);
      var g := front + row;
      forall k | 0 <= k < |g| ensures start <= g[k].day < start + n {
        if k >= |front| {
          assert g[k] == row[k - |front|];
        } else {
          assert g[k] == front[k];
        }
      }
    }
  }

  /**
   * `section_capacites`: the period of the chosen view around `d`, its
   * `nb_days = (end - start).days + 1`, and the grid of the listed users over
   * exactly those days, each user's row holding one cell per day from `start`
   * to `end`.
   */
  method CapacityPage(s: Store, us: seq<User>, view: Periods.View, d: Calendar.Date)
    returns (start: int, end: int, cells: seq<Cell>)
    requires Calendar.Valid(d)
    ensures (start, end) == Periods.Period(view, d)
    ensures cells == Grid(s, us, start, Periods.DayCount(start, end))
    ensures |cells| == |us| * Periods.DayCount(start, end)
    ensures forall k :: 0 <= k < |cells| ==> start <= cells[k].day <= end
  {
    var p := Periods.Period(view, d);
    start, end := p.0, p.1;
    var nbDays: nat := end - start + 1;
    cells := BuildGrid(s, us, start, nbDays);
    GridShape(s, us, start, nbDays);
    GridDays(s, us, start, nbDays);
  }

  /** With the tables' constraints, every capacity is within 0..24 and nothing logged is negative. */
  lemma {:induction false} GridBounds(s: Store, us: seq<User>, start: int, n: nat)
    requires ConstraintsHold(s)
    ensures forall k :: 0 <= k < |Grid(s, us, start, n)| ==>
      0 <= Grid(s, us, start, n)[k].capacity <= 24 && Grid(s, us, start, n)[k].logged >= 0
  {
    if us != [] {
      GridBounds(s, us[..|us| - 1], start, n);
      var row := RowCells(s, us[|us| - 1], start, n);
      forall j | 0 <= j < n ensures 0 <= row[j].capacity <= 24 && row[j].logged >= 0 {
        var u := us[|us| - 1];
        var o := OverrideFor(s.overrides, u.id, start + j);
        if o.Some? {
          var k :| 0 <= k < |s.overrides| && s.overrides[k] == o.value;
        }
        DayHoursNonNegative(s.timeEntries, u.id, start + j);
      }
    }
  }

  lemma {:induction false} DayHoursNonNegative(es: seq<TimeEntry>, uid: int, day: int)
    requires forall k :: 0 <= k < |es| ==> ValidHours(es[k].hours)
    ensures DayHours(es, uid, day) >= 0
  {
    if es != [] {
      DayHoursNonNegative(es[1..], uid, day);
    }
  }

  function SumCapacity(cs: seq<Cell>): int {
    if cs == [] then 0 else SumCapacity(cs[..|cs| - 1]) + cs[|cs| - 1].capacity
  }

  function SumLogged(cs: seq<Cell>): int {
    if cs == [] then 0 else SumLogged(cs[..|cs| - 1]) + cs[|cs| - 1].logged
  }

  function SumDelta(cs: seq<Cell>): int {
    if cs == [] then 0 else SumDelta(cs[..|cs| - 1]) + cs[|cs| - 1].delta
  }

  /** The weekly summary balances: the summed deltas are the summed capacity minus the summed logged hours. */
  lemma {:induction false} SummaryBalances(cs: seq<Cell>)
    requires forall k :: 0 <= k < |cs| ==> cs[k].delta == cs[k].capacity - cs[k].logged
    ensures SumDelta(cs) == SumCapacity(cs) - SumLogged(cs)
  {
    if cs != [] {
      SummaryBalances(cs[..|cs| - 1]);
    }
  }

  /** Every cell of the grid has the difference of its capacity and its logged hours as delta. */
  lemma {:induction false} GridCellsBalance(s: Store, us: seq<User>, start: int, n: nat)
    ensures forall k :: 0 <= k < |Grid(s, us, start, n)| ==>
      Grid(s, us, start, n)[k].delta == Grid(s, us, start, n)[k].capacity - Grid(s, us, start, n)[k].logged
  {
    if us != [] {
      GridCellsBalance(s, us[..|us| - 1], start, n);
    }
  }

  /** The grid's summary over all its cells balances. */
  lemma GridSummaryBalances(s: Store, us: seq<User>, start: int, n: nat)
    ensures SumDelta(Grid(s, us, start, n)) == SumCapacity(Grid(s, us, start, n)) - SumLogged(Grid(s, us, start, n))
  {
    GridCellsBalance(s, us, start, n);
    SummaryBalances(Grid(s, us, start, n));
  }
}
