/**
 * The time-entry form of the time-sheet page (app.py, `section_cra`): who
 * may log time, what the form sends, and `INSERT OR IGNORE` into
 * `time_entries`, whose CHECK and unique index make SQLite drop an entry
 * rather than fail.
 */
module TimeEntryForm {
  import opened Wrappers
  import opened Schema

  /** What the submitted form holds; `userId` is the user an Admin picked. */
  datatype EntryForm = EntryForm(
    day: int, userId: int, mission: Option<int>, category: Category, hours: int, description: string)

  /** What submitting the form leads to before the insert. */
  datatype Submission = NotAllowed | MissionRequired | Submit(entry: TimeEntry)

  /** The entry form is shown to Consultants and Admins only. */
  predicate CanLogTime(r: Role) {
    r == Consultant || r == Admin
  }

  /**
   * The form's checks: an Admin logs for the user they picked, anyone else
   * for themselves; `internal` time has no mission, other categories need
   * one; an empty description is stored as NULL.
   */
  function PrepareEntry(role: Role, caller: int, f: EntryForm): (r: Submission)
    ensures r == NotAllowed <==> !CanLogTime(role)
    ensures r == MissionRequired <==> CanLogTime(role) && f.category != Internal && f.mission.None?
    ensures r.Submit? ==> (r.entry.missionId.None? <==> r.entry.category == Internal)
    ensures r.Submit? && f.category != Internal ==> r.entry.missionId == f.mission
    ensures r.Submit? ==> r.entry.userId == (if role == Admin then f.userId else caller)
    ensures r.Submit? ==> r.entry.day == f.day && r.entry.category == f.category && r.entry.hours == f.hours
    ensures r.Submit? ==> (r.entry.description.None? <==> f.description == "")
    ensures r.Submit? && f.description != "" ==> r.entry.description == Some(f.description)
  {
    if !CanLogTime(role) then NotAllowed
    else
      var user := if role == Admin then f.userId else caller;
      var mission := if f.category == Internal then None else f.mission;
      if f.category != Internal && mission.None? then MissionRequired
      else
        var desc := if f.description == "" then None else Some(f.description);
        Submit(TimeEntry(f.day, user, mission, f.category, f.hours, desc))
  }

  /**
   * `INSERT OR IGNORE INTO time_entries`: the entry is appended unless its
   * hours break the CHECK or its key is already taken, in which case the
   * table is left as it was.
   */
  function InsertOrIgnore(es: seq<TimeEntry>, e: TimeEntry): (r: seq<TimeEntry>)
    ensures r == es + [e] <==> ValidHours(e.hours) && !KeyTaken(es, e)
    ensures r != es + [e] ==> r == es
  {
    if ValidHours(e.hours) && !KeyTaken(es, e) then es + [e] else es
  }

  /** The table's constraints survive every insert. */
  lemma InsertKeepsConstraints(es: seq<TimeEntry>, e: TimeEntry)
    requires TimeEntriesValid(es)
    ensures TimeEntriesValid(InsertOrIgnore(es, e))
  {
    var r := InsertOrIgnore(es, e);
    if r == es + [e] {
      forall i, j | 0 <= i < j < |r| ensures EntryKey(r[i]) != EntryKey(r[j]) {
        if j == |es| {
          assert r[i] == es[i];
        }
      }
    }
  }

  /** After an insert with allowed hours, the entry's key is in the table, whether it was added now or before. */
  lemma InsertTakesKey(es: seq<TimeEntry>, e: TimeEntry)
    requires ValidHours(e.hours)
    ensures KeyTaken(InsertOrIgnore(es, e), e)
  {
    if !KeyTaken(es, e) {
      assert InsertOrIgnore(es, e)[|es|] == e;
    }
  }

  /** Submitting the same entry twice stores it once. */
  lemma InsertOrIgnoreIdempotent(es: seq<TimeEntry>, e: TimeEntry)
    ensures InsertOrIgnore(InsertOrIgnore(es, e), e) == InsertOrIgnore(es, e)
  {
    if ValidHours(e.hours) {
      InsertTakesKey(es, e);
    }
  }
}
