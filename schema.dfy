/**
 * The tables of the database schema as records, and the constraints the
 * schema puts on time entries and capacity overrides. Dates are day
 * ordinals; the schema keeps them as ISO `YYYY-MM-DD` text, whose order is
 * the order of the days.
 */
module Schema {
  import opened Wrappers

  /** `users.role`; its CHECK allows exactly these four. */
  datatype Role = Admin | Board | Lead | Consultant

  datatype User = User(id: int, username: string, role: Role, fullName: string, isActive: bool)

  datatype Client = Client(id: int, name: string)

  datatype MissionStatus = Pipeline | Ongoing | Paused | Done | Cancelled

  datatype Mission = Mission(
    id: int, clientId: int, code: string, name: string, status: MissionStatus,
    soldDays: real, soldAmount: real, dailyCost: real, isActive: bool)

  /** A `mission_assignments` row; its dates and allocation play no part here. */
  datatype Assignment = Assignment(missionId: int, userId: int)

  /** `time_entries.category`; its CHECK allows exactly these three. */
  datatype Category = Billable | NonBillableClient | Internal

  datatype TimeEntry = TimeEntry(
    day: int, userId: int, missionId: Option<int>, category: Category,
    hours: int, description: Option<string>)

  datatype CapacityOverride = CapacityOverride(userId: int, day: int, capacity: int, reason: Option<string>)

  datatype Simulation = Simulation(id: int, missionId: Option<int>)

  /** A cell of an edited table: SQL NULL / Python None, text, a number, or a float NaN. */
  datatype Value = Null | Text(s: string) | Number(x: real) | NotANumber

  /** The three line tables of a simulation. */
  datatype LineTable = InternalResources | ExternalResources | Costs

  /** A line of a simulation: its table, `simulation_id`, and the values of the table's columns. */
  datatype LineRow = LineRow(table: LineTable, simId: int, values: seq<Value>)

  /** The columns of each line table after `simulation_id`, in schema order. */
  function Columns(t: LineTable): seq<string> {
    match t
    case InternalResources =>
      ["resource_name", "grade", "std_rate_per_hour", "std_cost_per_hour",
       "planned_days", "hours_per_day", "billable_ratio", "non_billable_hours"]
    case ExternalResources =>
      ["provider_name", "role", "buy_rate_per_day", "sell_rate_per_day", "planned_days", "hours_per_day"]
    case Costs =>
      ["cost_type", "label", "cost_amount", "refactured_amount"]
  }

  /** The whole database: every table the core reads or writes. */
  datatype Store = Store(
    users: seq<User>,
    clients: seq<Client>,
    missions: seq<Mission>,
    leads: set<(int, int)>,            // mission_leads (mission_id, user_id)
    assignments: seq<Assignment>,
    timeEntries: seq<TimeEntry>,
    overrides: seq<CapacityOverride>,
    simulations: seq<Simulation>,
    lines: seq<LineRow>)

  // ---- time_entries constraints

  /** `CHECK (hours IN (1,4,8))`. */
  predicate ValidHours(h: int) { h == 1 || h == 4 || h == 8 }

  /** The key of `ux_time_entry_unique_day`: a missing mission counts as mission -1. */
  function EntryKey(e: TimeEntry): (int, int, int, Category) {
    (e.day, e.userId, e.missionId.GetOr(-1), e.category)
  }

  predicate EntryKeysUnique(es: seq<TimeEntry>) {
    forall i, j :: 0 <= i < j < |es| ==> EntryKey(es[i]) != EntryKey(es[j])
  }

  predicate TimeEntriesValid(es: seq<TimeEntry>) {
    EntryKeysUnique(es) && forall i :: 0 <= i < |es| ==> ValidHours(es[i].hours)
  }

  /** Inserting `e` would break the unique index. */
  predicate KeyTaken(es: seq<TimeEntry>, e: TimeEntry) {
    exists i :: 0 <= i < |es| && EntryKey(es[i]) == EntryKey(e)
  }

  // ---- capacity_overrides constraints

  /** `CHECK (capacity_h BETWEEN 0 AND 24)`. */
  predicate ValidCapacity(c: int) { 0 <= c <= 24 }

  predicate OverrideKeysUnique(os: seq<CapacityOverride>) {
    forall i, j :: 0 <= i < j < |os| ==> (os[i].userId, os[i].day) != (os[j].userId, os[j].day)
  }

  predicate OverridesValid(os: seq<CapacityOverride>) {
    OverrideKeysUnique(os) && forall i :: 0 <= i < |os| ==> ValidCapacity(os[i].capacity)
  }

  // ---- missions primary key

  /** `missions.id INTEGER PRIMARY KEY`: no two missions share an id. */
  predicate MissionIdsUnique(ms: seq<Mission>) {
    forall i, j :: 0 <= i < j < |ms| ==> ms[i].id != ms[j].id
  }

  /** The constraints of both tables hold. */
  predicate ConstraintsHold(s: Store) {
    TimeEntriesValid(s.timeEntries) && OverridesValid(s.overrides)
  }

  // ---- lookups by primary key, as a join or `fetchone()` sees them

  function UserById(users: seq<User>, id: int): (r: Option<User>)
    ensures r.Some? ==> r.value in users && r.value.id == id
    ensures r.None? <==> forall k :: 0 <= k < |users| ==> users[k].id != id
  {
    if users == [] then None
    else if users[0].id == id then Some(users[0])
    else UserById(users[1..], id)
  }

  function ClientName(clients: seq<Client>, id: int): (r: Option<string>)
    ensures r.None? <==> forall k :: 0 <= k < |clients| ==> clients[k].id != id
    ensures r.Some? ==> exists k :: 0 <= k < |clients| && clients[k].id == id && clients[k].name == r.value
  {
    if clients == [] then None
    else if clients[0].id == id then Some(clients[0].name)
    else
      assert forall k :: 1 <= k < |clients| ==> clients[k] == clients[1..][k - 1];
      ClientName(clients[1..], id)
  }

  /** The override for (`uid`, `day`), which the unique key makes the only one. */
  function OverrideFor(os: seq<CapacityOverride>, uid: int, day: int): (r: Option<CapacityOverride>)
    ensures r.Some? ==> r.value in os && r.value.userId == uid && r.value.day == day
    ensures r.None? <==> forall k :: 0 <= k < |os| ==> (os[k].userId, os[k].day) != (uid, day)
  {
    if os == [] then None
    else if os[0].userId == uid && os[0].day == day then Some(os[0])
    else OverrideFor(os[1..], uid, day)
  }

  predicate SimulationExists(sims: seq<Simulation>, id: int) {
    exists k :: 0 <= k < |sims| && sims[k].id == id
  }
}
