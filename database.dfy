/**
 * The database the pages write to, as an object whose tables are fields:
 * the time-entry insert, the capacity-override upsert and the replacement
 * of a simulation's lines each change one table and nothing else.
 */
module Database {
  import opened Wrappers
  import opened Schema
  import opened Kpi
  import opened TimeEntryForm
  import opened CapacityOverrides
  import opened SimulationLines

  /** How `_overwrite_lines` ends: no id, an id with no simulation, or the lines replaced. */
  datatype OverwriteOutcome = NoSimulationId | UnknownSimulation | Replaced(inserted: nat)

  class Db {
    var users: seq<User>
    var clients: seq<Client>
    var missions: seq<Mission>
    var leads: set<(int, int)>
    var assignments: seq<Assignment>
    var timeEntries: seq<TimeEntry>
    var overrides: seq<CapacityOverride>
    var simulations: seq<Simulation>
    var lines: seq<LineRow>

    /** The tables as one value, for the views and the visibility rules. */
    function Snapshot(): Store
      reads this
    {
      Store(users, clients, missions, leads, assignments, timeEntries, overrides, simulations, lines)
    }

    /** The CHECKs and unique keys of `time_entries` and `capacity_overrides` hold. */
    predicate Valid()
      reads this
    {
      ConstraintsHold(Snapshot())
    }

    /** Opens the database on `s`; it is valid exactly when `s` meets the schema's constraints. */
    constructor (s: Store)
      ensures Snapshot() == s
      ensures Valid() <==> ConstraintsHold(s)
    {
      users, clients, missions, leads := s.users, s.clients, s.missions, s.leads;
      assignments, timeEntries, overrides := s.assignments, s.timeEntries, s.overrides;
      simulations, lines := s.simulations, s.lines;
    }

    /** The time-entry form's submit button: the form's checks, then `INSERT OR IGNORE`. */
    method SubmitTimeEntry(role: Role, caller: int, f: EntryForm) returns (r: Submission)
      modifies this`timeEntries
      ensures r == PrepareEntry(role, caller, f)
      ensures r.Submit? ==> timeEntries == InsertOrIgnore(old(timeEntries), r.entry)
      ensures !r.Submit? ==> timeEntries == old(timeEntries)
      ensures r.Submit? && ValidHours(f.hours) ==> KeyTaken(timeEntries, r.entry)
      ensures old(Valid()) ==> Valid()
    {
      r := PrepareEntry(role, caller, f);
      if r.Submit? {
        if TimeEntriesValid(timeEntries) {
          InsertKeepsConstraints(timeEntries, r.entry);
        }
        if ValidHours(f.hours) {
          InsertTakesKey(timeEntries, r.entry);
        }
        timeEntries := InsertOrIgnore(timeEntries, r.entry);
      }
    }

    /** The override form's submit button: the form's checks, then the upsert. */
    method SaveOverride(role: Role, uid: int, day: int, capacity: int, reason: string) returns (r: OverrideRequest)
      modifies this`overrides
      ensures r == PrepareOverride(role, uid, day, capacity, reason)
      ensures r.Save? ==> overrides == Upsert(old(overrides), r.o)
      ensures !r.Save? ==> overrides == old(overrides)
      ensures r.Save? ==> OverrideFor(overrides, uid, day) == Some(r.o)
      ensures forall u, d :: (u, d) != (uid, day) ==> OverrideFor(overrides, u, d) == OverrideFor(old(overrides), u, d)
      ensures old(Valid()) ==> Valid()
    {
      r := PrepareOverride(role, uid, day, capacity, reason);
      if r.Save? {
        if OverridesValid(overrides) {
          UpsertKeepsConstraints(overrides, r.o);
        }
        UpsertStoresOverride(overrides, r.o);
        forall u, d | (u, d) != (uid, day)
          ensures OverrideFor(Upsert(overrides, r.o), u, d) == OverrideFor(overrides, u, d)
        {
          UpsertKeepsOthers(overrides, r.o, u, d);
        }
        overrides := Upsert(overrides, r.o);
      }
    }

    /**
     * `_overwrite_lines(sim_id, table, df_lines, Columns(table), defaults)`:
     * nothing changes without an id or for an unknown simulation; otherwise
     * the simulation's lines of that table are deleted and the kept rows
     * inserted, and every other simulation keeps its summary.
     */
    method OverwriteLines(simId: Option<int>, table: LineTable, dfLines: seq<EditedRow>, defaults: map<string, Value>)
      returns (r: OverwriteOutcome)
      modifies this`lines
      ensures r == NoSimulationId <==> simId.None?
      ensures r == UnknownSimulation <==> simId.Some? && !SimulationExists(simulations, simId.value)
      ensures !r.Replaced? ==> lines == old(lines)
      ensures r.Replaced? ==>
        var kept := KeptRows(simId.value, table, dfLines, defaults);
        lines == ReplaceLines(old(lines), table, simId.value, kept) && r.inserted == |kept|
      ensures r.Replaced? ==> forall sim :: sim in simulations && sim.id != simId.value ==>
        SummaryOf(lines, sim) == SummaryOf(old(lines), sim)
    {
      if simId.None? {
        return NoSimulationId;
      }
      var sid := simId.value;
      if !SimulationExists(simulations, sid) {
        return UnknownSimulation;
      }
      ghost var before := lines;
      lines := OtherLines(lines, table, sid);
      var rows: seq<LineRow> := [];
      if dfLines != [] {
        rows := BuildRows(sid, table, dfLines, defaults);
        lines := lines + rows;
      }
      assert lines == ReplaceLines(before, table, sid, rows);
      forall sim | sim in simulations && sim.id != sid
        ensures SummaryOf(lines, sim) == SummaryOf(before, sim)
      {
        OtherSummariesUnchanged(before, table, sid, rows, sim);
      }
      return Replaced(|rows|);
    }
  }
}
