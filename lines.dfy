/**
 * `_overwrite_lines` of the simulation page (app.py): the lines of one
 * simulation in one line table are replaced by the rows of the edited
 * table. Each cell that is missing, `None`, `""` or NaN takes the column's
 * default; a row whose cleaned cells are all `None`, `""` or zero is
 * skipped; the other rows are inserted as `[sim_id] + values`, in order.
 * At every call site the columns are those of the table, in schema order.
 */
module SimulationLines {
  import opened Wrappers
  import opened Schema
  import opened Kpi

  /** A row of the edited table: cells by column name. */
  type EditedRow = map<string, Value>

  /** `r.get(c)` and `defaults.get(c, None)`: a missing column reads as `None`. */
  function Get(r: map<string, Value>, c: string): Value {
    if c in r then r[c] else Null
  }

  /** The cells the page replaces by the default: `None`, `""` and NaN. */
  predicate IsMissing(v: Value) {
    v == Null || v == Text("") || v == NotANumber
  }

  /** `v in (None, "", 0, 0.0)`: the cells that do not make a row worth keeping. */
  predicate IsBlank(v: Value) {
    v == Null || v == Text("") || v == Number(0.0)
  }

  /** A cell after defaulting: the default for a missing cell, else the cell itself. */
  function CleanValue(v: Value, d: Value): (r: Value)
    ensures IsMissing(v) ==> r == d
    ensures !IsMissing(v) ==> r == v
  {
    var v1 := if v == Null || v == Text("") then d else v;
    if v1 == NotANumber then d else v1
  }

  /** The cleaned values of a row, in column order. */
  function CleanRow(r: EditedRow, cols: seq<string>, defaults: map<string, Value>): (vs: seq<Value>)
    ensures |vs| == |cols|
    ensures forall k :: 0 <= k < |cols| ==> vs[k] == CleanValue(Get(r, cols[k]), Get(defaults, cols[k]))
  {
    seq(|cols|, k requires 0 <= k < |cols| => CleanValue(Get(r, cols[k]), Get(defaults, cols[k])))
  }

  predicate AllBlank(vs: seq<Value>) {
    forall k :: 0 <= k < |vs| ==> IsBlank(vs[k])
  }

  /** The line a kept row becomes. */
  function LineOf(simId: int, table: LineTable, r: EditedRow, defaults: map<string, Value>): LineRow {
    LineRow(table, simId, CleanRow(r, Columns(table), defaults))
  }

  /** The lines the edited rows give, in order, the all-blank ones left out. */
  function KeptRows(simId: int, table: LineTable, rows: seq<EditedRow>, defaults: map<string, Value>): (out: seq<LineRow>)
    ensures |out| <= |rows|
    ensures forall k :: 0 <= k < |out| ==> out[k].table == table && out[k].simId == simId
    ensures forall k :: 0 <= k < |out| ==> |out[k].values| == |Columns(table)| && !AllBlank(out[k].values)
  {
    if rows == [] then []
    else
      var last := LineOf(simId, table, rows[|rows| - 1], defaults);
      KeptRows(simId, table, rows[..|rows| - 1], defaults) + (if AllBlank(last.values) then [] else [last])
  }

  /** A row is kept exactly when one of its cleaned cells is not blank; the kept ones keep their order. */
  lemma KeptRowsAppend(simId: int, table: LineTable, rows: seq<EditedRow>, r: EditedRow, defaults: map<string, Value>)
    ensures KeptRows(simId, table, rows + [r], defaults) ==
      KeptRows(simId, table, rows, defaults)
        + (if AllBlank(CleanRow(r, Columns(table), defaults)) then [] else [LineOf(simId, table, r, defaults)])
  {
    assert (rows + [r])[..|rows|] == rows;
  }

  /** The inner loop over the columns: the cleaned values and the `all_empty` flag. */
  method CleanCells(r: EditedRow, cols: seq<string>, defaults: map<string, Value>) returns (values: seq<Value>, allEmpty: bool)
    ensures values == CleanRow(r, cols, defaults)
    ensures allEmpty <==> AllBlank(values)
  {
    values := [];
    allEmpty := true;
    var j := 0;
    while j < |cols|
      invariant 0 <= j <= |cols|
      invariant values == CleanRow(r, cols[..j], defaults)
      invariant allEmpty <==> AllBlank(values)
    {
      var c := cols[j];
      var v := Get(r, c);
      if v == Null || v == Text("") {
        v := Get(defaults, c);
      }
      if v == NotANumber {
        v := Get(defaults, c);
      }
      if !IsBlank(v) {
        allEmpty := false;
      }
      values := values + [v];
      assert cols[..j + 1][..j] == cols[..j];
      j := j + 1;
    }
    assert cols[..|cols|] == cols;
  }

  /** One more row of the outer loop: kept at the end, or skipped. */
  lemma KeptRowsStep(simId: int, table: LineTable, rows: seq<EditedRow>, i: nat, defaults: map<string, Value>)
    requires i < |rows|
    ensures KeptRows(simId, table, rows[..i + 1], defaults) ==
      KeptRows(simId, table, rows[..i], defaults)
        + (if AllBlank(CleanRow(rows[i], Columns(table), defaults)) then [] else [LineOf(simId, table, rows[i], defaults)])
  {
    assert rows[..i + 1] == rows[..i] + [rows[i]];
    KeptRowsAppend(simId, table, rows[..i], rows[i], defaults);
  }

  /** The outer loop over the edited rows, building `rows`. */
  method BuildRows(simId: int, table: LineTable, dfLines: seq<EditedRow>, defaults: map<string, Value>)
    returns (rows: seq<LineRow>)
    ensures rows == KeptRows(simId, table, dfLines, defaults)
  {
    var cols := Columns(table);
    rows := [];
    var i := 0;
    while i < |dfLines|
      invariant 0 <= i <= |dfLines|
      invariant rows == KeptRows(simId, table, dfLines[..i], defaults)
    {
      var values, allEmpty := CleanCells(dfLines[i], cols, defaults);
      KeptRowsStep(simId, table, dfLines, i, defaults);
      if !allEmpty {
        rows := rows + [LineRow(table, simId, values)];
      }
      i := i + 1;
    }
    assert dfLines[..|dfLines|] == dfLines;
  }

  // ---------------------------------------------------------------- replacing the lines

  /** The lines `DELETE FROM table WHERE simulation_id = simId` leaves. */
  function OtherLines(ls: seq<LineRow>, table: LineTable, simId: int): (out: seq<LineRow>)
    ensures |out| <= |ls|
    ensures forall k :: 0 <= k < |out| ==> !(out[k].table == table && out[k].simId == simId) && out[k] in ls
    ensures forall k :: 0 <= k < |ls| && !(ls[k].table == table && ls[k].simId == simId) ==> ls[k] in out
  {
    if ls == [] then []
    else
      var rest := OtherLines(ls[1..], table, simId);
      assert forall k :: 1 <= k < |ls| ==> ls[k] == ls[1..][k - 1];
      if ls[0].table == table && ls[0].simId == simId then rest else [ls[0]] + rest
  }

  /**
   * The delete followed by the insert of the kept rows: every other line
   * stays, none of the simulation's old lines of that table does, and the
   * kept rows come last.
   */
  function ReplaceLines(ls: seq<LineRow>, table: LineTable, simId: int, kept: seq<LineRow>): (r: seq<LineRow>)
    ensures |kept| <= |r| && r[|r| - |kept|..] == kept
    ensures forall k :: 0 <= k < |r| - |kept| ==> !(r[k].table == table && r[k].simId == simId) && r[k] in ls
    ensures forall k :: 0 <= k < |ls| && !(ls[k].table == table && ls[k].simId == simId) ==> ls[k] in r
  {
    OtherLines(ls, table, simId) + kept
  }

  /** The delete changes no total except those of the replaced simulation's measures on that table. */
  lemma {:induction false} OtherLinesTotal(ls: seq<LineRow>, table: LineTable, simId: int, sid: int, m: Measure)
    requires sid != simId || TableOf(m) != table
    ensures Total(OtherLines(ls, table, simId), sid, m) == Total(ls, sid, m)
  {
    if ls != [] {
      OtherLinesTotal(ls[1..], table, simId, sid, m);
    }
  }

  /** Lines of one simulation and one table count for no measure of another simulation or table. */
  lemma KeptAddNothingElsewhere(kept: seq<LineRow>, table: LineTable, simId: int, sid: int, m: Measure)
    requires forall k :: 0 <= k < |kept| ==> kept[k].table == table && kept[k].simId == simId
    requires sid != simId || TableOf(m) != table
    ensures Total(kept, sid, m) == 0.0
  {
    TotalIgnoresOthers(kept, sid, m);
  }

  /** After the replacement, the totals of the replaced table for that simulation are those of the kept rows alone. */
  lemma {:induction false} OtherLinesDropTarget(ls: seq<LineRow>, table: LineTable, simId: int, m: Measure)
    requires TableOf(m) == table
    ensures Total(OtherLines(ls, table, simId), simId, m) == 0.0
  {
    if ls != [] {
      OtherLinesDropTarget(ls[1..], table, simId, m);
    }
  }

  lemma ReplacedTotals(ls: seq<LineRow>, table: LineTable, simId: int, kept: seq<LineRow>, m: Measure)
    requires TableOf(m) == table
    ensures Total(ReplaceLines(ls, table, simId, kept), simId, m) == Total(kept, simId, m)
  {
    TotalAppend(OtherLines(ls, table, simId), kept, simId, m);
    OtherLinesDropTarget(ls, table, simId, m);
  }

  /**
   * Replacing the lines of one table of one simulation leaves every total
   * of every other simulation, and of the other tables, as it was.
   */
  lemma UntouchedTotals(ls: seq<LineRow>, table: LineTable, simId: int, kept: seq<LineRow>, sid: int, m: Measure)
    requires forall k :: 0 <= k < |kept| ==> kept[k].table == table && kept[k].simId == simId
    requires sid != simId || TableOf(m) != table
    ensures Total(ReplaceLines(ls, table, simId, kept), sid, m) == Total(ls, sid, m)
  {
    TotalAppend(OtherLines(ls, table, simId), kept, sid, m);
    OtherLinesTotal(ls, table, simId, sid, m);
    KeptAddNothingElsewhere(kept, table, simId, sid, m);
  }

  /** The summary of every other simulation is unchanged by the replacement. */
  lemma OtherSummariesUnchanged(ls: seq<LineRow>, table: LineTable, simId: int, kept: seq<LineRow>, sim: Simulation)
    requires forall k :: 0 <= k < |kept| ==> kept[k].table == table && kept[k].simId == simId
    requires sim.id != simId
    ensures SummaryOf(ReplaceLines(ls, table, simId, kept), sim) == SummaryOf(ls, sim)
  {
    forall m: Measure ensures Total(ReplaceLines(ls, table, simId, kept), sim.id, m) == Total(ls, sim.id, m) {
      UntouchedTotals(ls, table, simId, kept, sim.id, m);
    }
  }

  // ---------------------------------------------------------------- the page's defaults

  /**
   * The defaults the simulation page passes for each line table: each is
   * for a column of the table, none is missing, and the guard column's is
   * not blank.
   */
  function PageDefaults(t: LineTable): (d: map<string, Value>)
    ensures forall c :: c in d ==> c in Columns(t) && !IsMissing(d[c])
    ensures Columns(t)[GuardColumn(t)] in d && !IsBlank(d[Columns(t)[GuardColumn(t)]])
  {
    match t
    case InternalResources =>
      map["std_rate_per_hour" := Number(0.0), "std_cost_per_hour" := Number(0.0), "planned_days" := Number(0.0),
          "hours_per_day" := Number(8.0), "billable_ratio" := Number(1.0), "non_billable_hours" := Number(0.0)]
    case ExternalResources =>
      map["buy_rate_per_day" := Number(0.0), "sell_rate_per_day" := Number(0.0), "planned_days" := Number(0.0),
          "hours_per_day" := Number(8.0)]
    case Costs =>
      map["cost_type" := Text("expenses"), "cost_amount" := Number(0.0), "refactured_amount" := Number(0.0)]
  }

  /**
   * The column whose default is not blank: `hours_per_day` for resources,
   * `cost_type` for costs.
   */
  function GuardColumn(t: LineTable): (k: nat)
    ensures k < |Columns(t)|
  {
    match t
    case InternalResources => 5
    case ExternalResources => 5
    case Costs => 0
  }

  /**
   * With the page's defaults the blank-row test runs after defaulting, so a
   * row whose guard column is missing is always kept, even a row with no
   * cell filled in at all: it is stored with the default values.
   */
  lemma PageKeepsRowsMissingTheGuard(simId: int, t: LineTable, r: EditedRow)
    requires IsMissing(Get(r, Columns(t)[GuardColumn(t)]))
    ensures !AllBlank(CleanRow(r, Columns(t), PageDefaults(t)))
    ensures KeptRows(simId, t, [r], PageDefaults(t)) == [LineOf(simId, t, r, PageDefaults(t))]
  {
    var k := GuardColumn(t);
    var c := Columns(t)[k];
    assert Get(PageDefaults(t), c) != Null && Get(PageDefaults(t), c) != Text("") && Get(PageDefaults(t), c) != Number(0.0);
    assert !IsBlank(CleanRow(r, Columns(t), PageDefaults(t))[k]);
    KeptRowsAppend(simId, t, [], r, PageDefaults(t));
    assert [] + [r] == [r];
  }

  /** A row is skipped only when each of its cells is blank after defaulting: an empty editor row with no default is dropped. */
  lemma EmptyRowDroppedWithoutDefaults(simId: int, t: LineTable, r: EditedRow)
    requires forall c :: c in r ==> IsBlank(r[c])
    ensures KeptRows(simId, t, [r], map[]) == []
  {
    var vs := CleanRow(r, Columns(t), map[]);
    forall k | 0 <= k < |vs| ensures IsBlank(vs[k]) {
      var c := Columns(t)[k];
      assert Get(map[], c) == Null;
    }
    KeptRowsAppend(simId, t, [], r, map[]);
    assert [] + [r] == [r];
  }
}
