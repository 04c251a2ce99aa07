/**
 * The KPI views of the schema, written as functions over the tables:
 * `kpi_mission_hours`, `kpi_mission_variance`, `kpi_alert_missions_risk`,
 * `kpi_user_load_daily`, `kpi_finance_mission` and `kpi_simulation_summary`.
 * Each view's rows follow the order of the table it is grouped on. Amounts
 * are exact reals: `ROUND(…)` is not applied.
 */
module Kpi {
  import opened Wrappers
  import opened Schema

  // ---------------------------------------------------------------- mission hours

  /** The LEFT JOIN condition: an entry on the mission, of a client-facing category. */
  predicate CountsAgainst(e: TimeEntry, mid: int) {
    e.missionId == Some(mid) && (e.category == Billable || e.category == NonBillableClient)
  }

  /** `COALESCE(SUM(te.hours), 0)` over the entries that count against mission `mid`. */
  function ConsumedHours(es: seq<TimeEntry>, mid: int): (h: int)
    ensures (forall k :: 0 <= k < |es| ==> es[k].hours >= 0) ==> h >= 0
    ensures (forall k :: 0 <= k < |es| ==> !CountsAgainst(es[k], mid)) ==> h == 0
  {
    if es == [] then 0
    else (if CountsAgainst(es[0], mid) then es[0].hours else 0) + ConsumedHours(es[1..], mid)
  }

  lemma {:induction false} ConsumedHoursAppend(a: seq<TimeEntry>, b: seq<TimeEntry>, mid: int)
    ensures ConsumedHours(a + b, mid) == ConsumedHours(a, mid) + ConsumedHours(b, mid)
  {
    if a != [] {
      assert (a + b)[1..] == a[1..] + b;
      ConsumedHoursAppend(a[1..], b, mid);
    } else {
      assert a + b == b;
    }
  }

  /** `sold_days * 8.0`: a sold day is eight hours. */
  function SoldHours(m: Mission): real {
    m.soldDays * 8.0
  }

  /** `consumed / NULLIF(sold, 0) * 100`: undefined exactly when nothing was sold. */
  function ConsumedPct(sold: real, consumed: int): (p: Option<real>)
    ensures p.None? <==> sold == 0.0
    ensures p.Some? ==> p.value * sold == consumed as real * 100.0
  {
    if sold == 0.0 then None else Some(consumed as real / sold * 100.0)
  }

  datatype MissionHours = MissionHours(
    missionId: int, code: string, name: string, clientName: string, status: MissionStatus,
    soldDays: real, soldHours: real, consumedHours: int, consumedPct: Option<real>)

  /** The view's row for mission `m`: none when the mission is inactive or has no client. */
  function HoursRowOf(s: Store, m: Mission): (r: Option<MissionHours>)
    ensures r.Some? <==> m.isActive && ClientName(s.clients, m.clientId).Some?
    ensures r.Some? ==> (r.value.missionId == m.id
      && r.value.soldHours == SoldHours(m)
      && r.value.consumedHours == ConsumedHours(s.timeEntries, m.id))
  {
    match ClientName(s.clients, m.clientId)
    case None => None
    case Some(client) =>
      if !m.isActive then None
      else
        var sold := SoldHours(m);
        var consumed := ConsumedHours(s.timeEntries, m.id);
        Some(MissionHours(m.id, m.code, m.name, client, m.status, m.soldDays, sold, consumed, ConsumedPct(sold, consumed)))
  }

  function HoursRows(s: Store, ms: seq<Mission>): (rows: seq<MissionHours>)
    ensures |rows| <= |ms|
    ensures forall k :: 0 <= k < |rows| ==>
      exists j :: 0 <= j < |ms| && HoursRowOf(s, ms[j]) == Some(rows[k])
    ensures forall j :: 0 <= j < |ms| && HoursRowOf(s, ms[j]).Some? ==> HoursRowOf(s, ms[j]).value in rows
    ensures (forall k :: 0 <= k < |s.timeEntries| ==> s.timeEntries[k].hours >= 0) ==>
      forall k :: 0 <= k < |rows| ==> rows[k].consumedHours >= 0
  {
    if ms == [] then []
    else
      var rest := HoursRows(s, ms[1..]);
      assert forall k :: 0 <= k < |rest| ==> exists j :: 0 <= j < |ms| && HoursRowOf(s, ms[j]) == Some(rest[k]) by {
        forall k | 0 <= k < |rest| ensures exists j :: 0 <= j < |ms| && HoursRowOf(s, ms[j]) == Some(rest[k]) {
          var j :| 0 <= j < |ms[1..]| && HoursRowOf(s, ms[1..][j]) == Some(rest[k]);
          assert ms[1..][j] == ms[j + 1];
        }
      }
      assert forall j :: 1 <= j < |ms| ==> ms[j] == ms[1..][j - 1];
      match HoursRowOf(s, ms[0])
      case None => rest
      case Some(r) => [r] + rest
  }

  /**
   * `kpi_mission_hours`: the row of every active mission with a client (and,
   * by `HoursRowSource`, no other row), with no negative consumption when no
   * entry has negative hours.
   */
  function MissionHoursView(s: Store): (rows: seq<MissionHours>)
    ensures |rows| <= |s.missions|
    ensures MissionIdsUnique(s.missions) ==> OnePerMission(rows, HoursId)
    ensures forall j :: 0 <= j < |s.missions| && s.missions[j].isActive && ClientName(s.clients, s.missions[j].clientId).Some? ==>
      HoursRowOf(s, s.missions[j]).value in rows
    ensures (forall k :: 0 <= k < |s.timeEntries| ==> s.timeEntries[k].hours >= 0) ==>
      forall k :: 0 <= k < |rows| ==> rows[k].consumedHours >= 0
  {
    if MissionIdsUnique(s.missions) then
      HoursRowsOnePerMission(s, s.missions);
      HoursRows(s, s.missions)
    else HoursRows(s, s.missions)
  }

  /** No two of `rows` carry the same mission id under `key`: at most one row per mission. */
  predicate OnePerMission<T>(rows: seq<T>, key: T -> int) {
    forall a, b :: 0 <= a < b < |rows| ==> key(rows[a]) != key(rows[b])
  }

  /** The tail of a list of missions with distinct ids has distinct ids. */
  lemma MissionIdsUniqueTail(ms: seq<Mission>)
    requires ms != [] && MissionIdsUnique(ms)
    ensures MissionIdsUnique(ms[1..])
  {
    forall i, j | 0 <= i < j < |ms[1..]| ensures ms[1..][i].id != ms[1..][j].id {
      assert ms[1..][i] == ms[i + 1] && ms[1..][j] == ms[j + 1];
    }
  }

  /** A row whose key no later row has can go in front. */
  lemma OnePerMissionCons<T>(r: T, rest: seq<T>, key: T -> int)
    requires OnePerMission(rest, key)
    requires forall k :: 0 <= k < |rest| ==> key(rest[k]) != key(r)
    ensures OnePerMission([r] + rest, key)
  {
    var rows := [r] + rest;
    forall a, b | 0 <= a < b < |rows| ensures key(rows[a]) != key(rows[b]) {
      assert rows[b] == rest[b - 1];
      if a > 0 {
        assert rows[a] == rest[a - 1];
      }
    }
  }

  /** The rows of the later missions carry none of the first mission's id. */
  lemma HoursRowsAfterFirst(s: Store, ms: seq<Mission>)
    requires ms != [] && MissionIdsUnique(ms)
    ensures forall k :: 0 <= k < |HoursRows(s, ms[1..])| ==> HoursRows(s, ms[1..])[k].missionId != ms[0].id
  {
    var rest := HoursRows(s, ms[1..]);
    forall k | 0 <= k < |rest| ensures rest[k].missionId != ms[0].id {
      var j :| 0 <= j < |ms[1..]| && HoursRowOf(s, ms[1..][j]) == Some(rest[k]);
      assert ms[1..][j] == ms[j + 1];
    }
  }

  /** With distinct mission ids, the hours rows have distinct mission ids. */
  lemma {:induction false} HoursRowsOnePerMission(s: Store, ms: seq<Mission>)
    requires MissionIdsUnique(ms)
    ensures OnePerMission(HoursRows(s, ms), HoursId)
  {
    if ms != [] {
      MissionIdsUniqueTail(ms);
      HoursRowsOnePerMission(s, ms[1..]);
      var rest := HoursRows(s, ms[1..]);
      var first := HoursRowOf(s, ms[0]);
      if first.Some? {
        HoursRowsAfterFirst(s, ms);
        OnePerMissionCons(first.value, rest, HoursId);
        assert HoursRows(s, ms) == [first.value] + rest;
      } else {
        assert HoursRows(s, ms) == rest;
      }
    }
  }

  /**
   * `WHERE mission_id = ?` on a view whose rows carry their mission's id as
   * `key`: the first row with that id, or none when no row has it.
   */
  function RowFor<T>(rows: seq<T>, key: T -> int, mid: int): (r: Option<T>)
    ensures r.Some? ==> r.value in rows && key(r.value) == mid
    ensures r.None? <==> forall k :: 0 <= k < |rows| ==> key(rows[k]) != mid
  {
    if rows == [] then None
    else if key(rows[0]) == mid then Some(rows[0])
    else RowFor(rows[1..], key, mid)
  }

  /** The mission id of a `kpi_mission_hours` row. */
  function HoursId(r: MissionHours): int { r.missionId }

  /** `kpi_mission_variance.variance_hours`: hours over (positive) or under (negative) budget. */
  function VarianceHours(r: MissionHours): (v: real)
    ensures v > 0.0 <==> r.consumedHours as real > r.soldHours
    ensures v + r.soldHours == r.consumedHours as real
  {
    r.consumedHours as real - r.soldHours
  }

  // ---------------------------------------------------------------- risk

  datatype RiskLevel = NoSoldLoad | Overrun | NearLimit | Ok

  /**
   * The `CASE` of `kpi_alert_missions_risk`, with `c >= 0.9 * s` written
   * `10 c >= 9 s`; each level in terms of sold and consumed hours, both
   * directions.
   */
  function Risk(sold: real, consumed: real): (r: RiskLevel)
    ensures r == NoSoldLoad <==> sold == 0.0
    ensures r == Overrun <==> sold != 0.0 && consumed > sold
    ensures r == NearLimit <==> sold != 0.0 && consumed <= sold && 10.0 * consumed >= 9.0 * sold
    ensures r == Ok <==> sold != 0.0 && consumed <= sold && 10.0 * consumed < 9.0 * sold
  {
    if sold == 0.0 then NoSoldLoad
    else if consumed > sold then Overrun
    else if 10.0 * consumed >= 9.0 * sold then NearLimit
    else Ok
  }

  /** The view's `WHERE`: nothing sold, or at least 90% consumed. */
  predicate InRiskView(sold: real, consumed: real) {
    sold == 0.0 || 10.0 * consumed >= 9.0 * sold
  }

  /**
   * With consumption never negative, the view keeps exactly the missions that
   * are not `ok`. (With negative consumption and negative sold hours an
   * `overrun` row could be filtered out.)
   */
  lemma RiskViewDropsExactlyOk(sold: real, consumed: real)
    requires consumed >= 0.0
    ensures InRiskView(sold, consumed) <==> Risk(sold, consumed) != Ok
  {
    if sold != 0.0 && consumed > sold && sold < 0.0 {
      assert 10.0 * consumed >= 0.0 > 9.0 * sold;
    }
  }

  datatype RiskRow = RiskRow(
    missionId: int, code: string, name: string, clientName: string,
    soldHours: real, consumedHours: real, varianceHours: real, level: RiskLevel)

  function RiskRowOf(r: MissionHours): RiskRow {
    var c := r.consumedHours as real;
    RiskRow(r.missionId, r.code, r.name, r.clientName, r.soldHours, c, VarianceHours(r), Risk(r.soldHours, c))
  }

  function RiskRows(rows: seq<MissionHours>): (out: seq<RiskRow>)
    ensures |out| <= |rows|
    ensures forall k :: 0 <= k < |out| ==> InRiskView(out[k].soldHours, out[k].consumedHours)
    ensures forall k :: 0 <= k < |out| ==> out[k].level == Risk(out[k].soldHours, out[k].consumedHours)
    ensures forall k :: 0 <= k < |rows| && InRiskView(rows[k].soldHours, rows[k].consumedHours as real) ==>
      RiskRowOf(rows[k]) in out
    ensures (forall k :: 0 <= k < |rows| ==> rows[k].consumedHours >= 0) ==>
      forall k :: 0 <= k < |out| ==> out[k].consumedHours >= 0.0
  {
    if rows == [] then []
    else
      var rest := RiskRows(rows[1..]);
      assert forall j :: 1 <= j < |rows| ==> rows[j] == rows[1..][j - 1];
      if InRiskView(rows[0].soldHours, rows[0].consumedHours as real) then [RiskRowOf(rows[0])] + rest else rest
  }

  /** Every row of the risk view is the risk row of some hours row: the view invents no row. */
  lemma {:induction false} RiskRowsFromHours(rows: seq<MissionHours>)
    ensures forall k :: 0 <= k < |RiskRows(rows)| ==> exists j :: 0 <= j < |rows| && RiskRows(rows)[k] == RiskRowOf(rows[j])
  {
    if rows != [] {
      RiskRowsFromHours(rows[1..]);
      var out := RiskRows(rows);
      var rest := RiskRows(rows[1..]);
      forall k | 0 <= k < |rest| ensures exists j :: 0 <= j < |rows| && rest[k] == RiskRowOf(rows[j]) {
        var j :| 0 <= j < |rows[1..]| && rest[k] == RiskRowOf(rows[1..][j]);
        assert rows[1..][j] == rows[j + 1];
      }
      var shift := if InRiskView(rows[0].soldHours, rows[0].consumedHours as real) then 1 else 0;
      assert out == (if shift == 1 then [RiskRowOf(rows[0])] else []) + rest;
      forall k | 0 <= k < |out| ensures exists j :: 0 <= j < |rows| && out[k] == RiskRowOf(rows[j]) {
        if k < shift {
          assert out[k] == RiskRowOf(rows[0]);
        } else {
          assert out[k] == rest[k - shift];
        }
      }
    } else {
      assert |RiskRows(rows)| == 0;
    }
  }

  /** Rows that consume nothing negative and pass the view's `WHERE` are never `ok`. */
  lemma RiskRowsNotOk(rows: seq<RiskRow>)
    requires forall k :: 0 <= k < |rows| ==> InRiskView(rows[k].soldHours, rows[k].consumedHours)
    requires forall k :: 0 <= k < |rows| ==> rows[k].level == Risk(rows[k].soldHours, rows[k].consumedHours)
    ensures (forall k :: 0 <= k < |rows| ==> rows[k].consumedHours >= 0.0) ==> forall k :: 0 <= k < |rows| ==> rows[k].level != Ok
  {
    forall k | 0 <= k < |rows| && rows[k].consumedHours >= 0.0 ensures rows[k].level != Ok {
      RiskViewDropsExactlyOk(rows[k].soldHours, rows[k].consumedHours);
    }
  }

  /**
   * `kpi_alert_missions_risk`: the risk row of every `kpi_mission_hours` row
   * that passes the `WHERE` (and, by `RiskRowsFromHours`, no other row),
   * each with its level; with valid time entries no row is `ok`.
   */
  function RiskView(s: Store): (rows: seq<RiskRow>)
    ensures forall k :: 0 <= k < |rows| ==> InRiskView(rows[k].soldHours, rows[k].consumedHours)
    ensures forall k :: 0 <= k < |rows| ==> rows[k].level == Risk(rows[k].soldHours, rows[k].consumedHours)
    ensures forall k :: 0 <= k < |MissionHoursView(s)| && InRiskView(MissionHoursView(s)[k].soldHours, MissionHoursView(s)[k].consumedHours as real) ==>
      RiskRowOf(MissionHoursView(s)[k]) in rows
    ensures TimeEntriesValid(s.timeEntries) ==> forall k :: 0 <= k < |rows| ==> rows[k].level != Ok
  {
    var rows := RiskRows(MissionHoursView(s));
    RiskRowsNotOk(rows);
    rows
  }

  // ---------------------------------------------------------------- user load

  /** `SUM(te.hours)` of one user on one day. */
  function DayHours(es: seq<TimeEntry>, uid: int, day: int): int {
    if es == [] then 0
    else (if es[0].userId == uid && es[0].day == day then es[0].hours else 0) + DayHours(es[1..], uid, day)
  }

  predicate HasEntryOn(es: seq<TimeEntry>, uid: int, day: int) {
    exists k :: 0 <= k < |es| && es[k].userId == uid && es[k].day == day
  }

  /**
   * `logged_hours` of the `kpi_user_load_daily` row for (`day`, `uid`); the
   * view has such a row only for an active user with an entry that day.
   */
  function DailyLoad(s: Store, uid: int, day: int): (r: Option<int>)
    ensures r.Some? <==>
      UserById(s.users, uid).Some? && UserById(s.users, uid).value.isActive && HasEntryOn(s.timeEntries, uid, day)
    ensures r.Some? ==> r.value == DayHours(s.timeEntries, uid, day)
  {
    match UserById(s.users, uid)
    case None => None
    case Some(u) =>
      if u.isActive && HasEntryOn(s.timeEntries, uid, day) then Some(DayHours(s.timeEntries, uid, day)) else None
  }

  // ---------------------------------------------------------------- finance

  datatype FinanceRow = FinanceRow(
    missionId: int, code: string, name: string, clientName: string,
    soldAmount: real, dailyCost: real, consumedHours: int, cost: real, margin: real)

  /** A consumed day (eight hours) costs the mission's daily cost. */
  function CostOf(consumedHours: int, dailyCost: real): real {
    consumedHours as real / 8.0 * dailyCost
  }

  function FinanceRowOf(s: Store, m: Mission): (r: Option<FinanceRow>)
    ensures r.Some? <==> HoursRowOf(s, m).Some?
    ensures r.Some? ==> (r.value.missionId == m.id && r.value.code == m.code && r.value.name == m.name
      && ClientName(s.clients, m.clientId) == Some(r.value.clientName)
      && r.value.soldAmount == m.soldAmount && r.value.dailyCost == m.dailyCost
      && r.value.consumedHours == ConsumedHours(s.timeEntries, m.id)
      && r.value.cost == CostOf(r.value.consumedHours, m.dailyCost)
      && r.value.margin + r.value.cost == m.soldAmount)
  {
    match ClientName(s.clients, m.clientId)
    case None => None
    case Some(client) =>
      if !m.isActive then None
      else
        var consumed := ConsumedHours(s.timeEntries, m.id);
        var cost := CostOf(consumed, m.dailyCost);
        Some(FinanceRow(m.id, m.code, m.name, client, m.soldAmount, m.dailyCost, consumed, cost, m.soldAmount - cost))
  }

  /** The present values of `xs`, in order. */
  function Present<T>(xs: seq<Option<T>>): (ys: seq<T>)
    ensures |ys| <= |xs|
  {
    if xs == [] then [] else (if xs[0].Some? then [xs[0].value] else []) + Present(xs[1..])
  }

  /** Each value of `Present(xs)` is present in `xs`. */
  lemma {:induction false} PresentFrom<T>(xs: seq<Option<T>>)
    ensures forall k :: 0 <= k < |Present(xs)| ==> exists j :: 0 <= j < |xs| && xs[j] == Some(Present(xs)[k])
  {
    if xs != [] {
      PresentFrom(xs[1..]);
      var rest := Present(xs[1..]);
      var out := Present(xs);
      var shift := if xs[0].Some? then 1 else 0;
      forall k | 0 <= k < |out| ensures exists j :: 0 <= j < |xs| && xs[j] == Some(out[k]) {
        if k < shift {
          assert xs[0] == Some(out[k]);
        } else {
          assert out[k] == rest[k - shift];
          var j :| 0 <= j < |xs[1..]| && xs[1..][j] == Some(rest[k - shift]);
          assert xs[1..][j] == xs[j + 1];
        }
      }
    } else {
      assert |Present(xs)| == 0;
    }
  }

  /** Options whose present values have distinct keys give present values with distinct keys. */
  lemma {:induction false} PresentOnePerKey<T>(xs: seq<Option<T>>, key: T -> int)
    requires forall i, j :: 0 <= i < j < |xs| && xs[i].Some? && xs[j].Some? ==> key(xs[i].value) != key(xs[j].value)
    ensures OnePerMission(Present(xs), key)
  {
    if xs != [] {
      var tail := xs[1..];
      assert forall i, j :: 0 <= i < j < |tail| && tail[i].Some? && tail[j].Some? ==> key(tail[i].value) != key(tail[j].value) by {
        forall i, j | 0 <= i < j < |tail| && tail[i].Some? && tail[j].Some? ensures key(tail[i].value) != key(tail[j].value) {
          assert tail[i] == xs[i + 1] && tail[j] == xs[j + 1];
        }
      }
      PresentOnePerKey(tail, key);
      PresentFrom(tail);
      var rest := Present(tail);
      if xs[0].Some? {
        var v := xs[0].value;
        forall k | 0 <= k < |rest| ensures key(rest[k]) != key(v) {
          var j :| 0 <= j < |tail| && tail[j] == Some(rest[k]);
          assert tail[j] == xs[j + 1];
        }
        OnePerMissionCons(v, rest, key);
        assert Present(xs) == [v] + rest;
      } else {
        assert Present(xs) == rest;
      }
    }
  }

  /** Each value present in `xs` is in `Present(xs)`. */
  lemma {:induction false} PresentComplete<T>(xs: seq<Option<T>>)
    ensures forall j :: 0 <= j < |xs| && xs[j].Some? ==> xs[j].value in Present(xs)
  {
    if xs != [] {
      PresentComplete(xs[1..]);
      assert forall j :: 1 <= j < |xs| ==> xs[j] == xs[1..][j - 1];
    }
  }

  /** The finance row, if any, of each mission. */
  function FinanceOptions(s: Store, ms: seq<Mission>): (os: seq<Option<FinanceRow>>)
    ensures |os| == |ms|
    ensures forall j :: 0 <= j < |ms| ==> os[j] == FinanceRowOf(s, ms[j])
  {
    seq(|ms|, j requires 0 <= j < |ms| => FinanceRowOf(s, ms[j]))
  }

  /** The finance rows of the missions that have one, in table order. */
  function FinanceRows(s: Store, ms: seq<Mission>): (rows: seq<FinanceRow>)
    ensures |rows| <= |ms|
    ensures MissionIdsUnique(ms) ==> OnePerMission(rows, FinanceId)
  {
    var os := FinanceOptions(s, ms);
    if MissionIdsUnique(ms) then
      PresentOnePerKey(os, FinanceId);
      Present(os)
    else Present(os)
  }

  /**
   * Every row of the finance view is the finance row of one of the
   * missions, so the view invents no row; and the finance row of every
   * mission that has one is in the view.
   */
  lemma FinanceRowsFromMissions(s: Store, ms: seq<Mission>)
    ensures forall k :: 0 <= k < |FinanceRows(s, ms)| ==>
      exists j :: 0 <= j < |ms| && FinanceRowOf(s, ms[j]) == Some(FinanceRows(s, ms)[k])
    ensures forall j :: 0 <= j < |ms| && FinanceRowOf(s, ms[j]).Some? ==> FinanceRowOf(s, ms[j]).value in FinanceRows(s, ms)
  {
    var os := FinanceOptions(s, ms);
    var rows := FinanceRows(s, ms);
    PresentFrom(os);
    PresentComplete(os);
    forall k | 0 <= k < |rows| ensures exists j :: 0 <= j < |ms| && FinanceRowOf(s, ms[j]) == Some(rows[k]) {
      var j :| 0 <= j < |os| && os[j] == Some(rows[k]);
      assert FinanceRowOf(s, ms[j]) == Some(rows[k]);
    }
    forall j | 0 <= j < |ms| && FinanceRowOf(s, ms[j]).Some? ensures FinanceRowOf(s, ms[j]).value in rows {
      assert os[j] == FinanceRowOf(s, ms[j]);
    }
  }

  /**
   * `kpi_finance_mission`: the finance row of every mission that has one
   * (and, by `FinanceRowsFromMissions`, no other row).
   */
  function FinanceView(s: Store): (rows: seq<FinanceRow>)
    ensures |rows| <= |s.missions|
    ensures MissionIdsUnique(s.missions) ==> OnePerMission(rows, FinanceId)
    ensures forall j :: 0 <= j < |s.missions| && FinanceRowOf(s, s.missions[j]).Some? ==>
      FinanceRowOf(s, s.missions[j]).value in rows
  {
    FinanceRowsFromMissions(s, s.missions);
    FinanceRows(s, s.missions)
  }

  /** The mission id of a `kpi_finance_mission` row. */
  function FinanceId(r: FinanceRow): int { r.missionId }

  lemma FinanceRowGivesHoursRow(s: Store, mid: int)
    requires RowFor(FinanceView(s), FinanceId, mid).Some?
    ensures RowFor(MissionHoursView(s), HoursId, mid).Some?
  {
    var ms := s.missions;
    var f := FinanceView(s);
    FinanceRowsFromMissions(s, ms);
    var k :| 0 <= k < |f| && f[k].missionId == mid;
    var j :| 0 <= j < |ms| && FinanceRowOf(s, ms[j]) == Some(f[k]);
    var r := HoursRowOf(s, ms[j]).value;
    assert r in MissionHoursView(s) && r.missionId == mid;
  }

  /** The mission behind the hours row of `mid`. */
  lemma HoursRowMission(s: Store, mid: int) returns (j: nat)
    requires RowFor(MissionHoursView(s), HoursId, mid).Some?
    ensures j < |s.missions| && s.missions[j].id == mid && HoursRowOf(s, s.missions[j]).Some?
  {
    var h := HoursRows(s, s.missions);
    var k :| 0 <= k < |h| && h[k].missionId == mid;
    HoursRowSource(s, s.missions, k);
    j :| 0 <= j < |s.missions| && HoursRowOf(s, s.missions[j]) == Some(h[k]);
  }

  lemma HoursRowSource(s: Store, ms: seq<Mission>, k: nat)
    requires k < |HoursRows(s, ms)|
    ensures exists j :: 0 <= j < |ms| && HoursRowOf(s, ms[j]) == Some(HoursRows(s, ms)[k])
  {
  }

  /** A mission with a finance row is found by its id in the finance rows. */
  lemma FinanceRowFound(s: Store, ms: seq<Mission>, j: nat)
    requires j < |ms| && FinanceRowOf(s, ms[j]).Some?
    ensures RowFor(FinanceRows(s, ms), FinanceId, ms[j].id).Some?
  {
    FinanceRowsFromMissions(s, ms);
    var f := FinanceRows(s, ms);
    var i :| 0 <= i < |f| && f[i] == FinanceRowOf(s, ms[j]).value;
  }

  lemma HoursRowGivesFinanceRow(s: Store, mid: int)
    requires RowFor(MissionHoursView(s), HoursId, mid).Some?
    ensures RowFor(FinanceView(s), FinanceId, mid).Some?
  {
    var j := HoursRowMission(s, mid);
    FinanceRowFound(s, s.missions, j);
  }

  /** A mission has a finance row exactly when it has an hours row. */
  lemma FinanceRowIffHoursRow(s: Store, mid: int)
    ensures RowFor(FinanceView(s), FinanceId, mid).Some? <==> RowFor(MissionHoursView(s), HoursId, mid).Some?
  {
    if RowFor(FinanceView(s), FinanceId, mid).Some? {
      FinanceRowGivesHoursRow(s, mid);
    }
    if RowFor(MissionHoursView(s), HoursId, mid).Some? {
      HoursRowGivesFinanceRow(s, mid);
    }
  }

  // ---------------------------------------------------------------- simulations

  /** What a numeric column holds for SQL arithmetic: NULL for None, NaN and text. */
  function NumberOf(v: Value): Option<real> {
    match v
    case Number(x) => Some(x)
    case _ => None
  }

  function Cell(l: LineRow, k: nat): Option<real> {
    if k < |l.values| then NumberOf(l.values[k]) else None
  }

  /** A product in SQL: NULL as soon as one factor is NULL. */
  function Mul(x: Option<real>, y: Option<real>): (p: Option<real>)
    ensures p.Some? <==> x.Some? && y.Some?
    ensures p.Some? ==> p.value == x.value * y.value
  {
    if x.None? || y.None? then None else Some(x.value * y.value)
  }

  /** The eight sums the summary view takes over line tables. */
  datatype Measure =
    | PlannedHours | BillableHours | RevenueStd | CostInternal
    | RevenueExternal | CostExternal | CostOther | RevenueOther

  function TableOf(m: Measure): LineTable {
    match m
    case PlannedHours | BillableHours | RevenueStd | CostInternal => InternalResources
    case RevenueExternal | CostExternal => ExternalResources
    case CostOther | RevenueOther => Costs
  }

  /**
   * The summand of measure `m` for one line; the column positions are those
   * of `Schema.Columns`.
   */
  function Summand(l: LineRow, m: Measure): Option<real> {
    match m
    case PlannedHours    => Mul(Cell(l, 4), Cell(l, 5))                                  // planned_days * hours_per_day
    case BillableHours   => Mul(Mul(Cell(l, 4), Cell(l, 5)), Cell(l, 6))                 // * billable_ratio
    case RevenueStd      => Mul(Mul(Mul(Cell(l, 4), Cell(l, 5)), Cell(l, 2)), Cell(l, 6)) // * std_rate_per_hour * billable_ratio
    case CostInternal    => Mul(Mul(Cell(l, 4), Cell(l, 5)), Cell(l, 3))                 // * std_cost_per_hour
    case RevenueExternal => Mul(Cell(l, 4), Cell(l, 3))                                  // planned_days * sell_rate_per_day
    case CostExternal    => Mul(Cell(l, 4), Cell(l, 2))                                  // planned_days * buy_rate_per_day
    case CostOther       => Cell(l, 2)                                                   // cost_amount
    case RevenueOther    => Cell(l, 3)                                                   // refactured_amount
  }

  predicate Counts(l: LineRow, sid: int, m: Measure) {
    l.table == TableOf(m) && l.simId == sid
  }

  /** `COALESCE(SUM(…), 0)` of measure `m` over the lines of simulation `sid`, NULL summands skipped. */
  function Total(ls: seq<LineRow>, sid: int, m: Measure): real {
    if ls == [] then 0.0
    else
      var here := if Counts(ls[0], sid, m) && Summand(ls[0], m).Some? then Summand(ls[0], m).value else 0.0;
      here + Total(ls[1..], sid, m)
  }

  lemma {:induction false} TotalAppend(a: seq<LineRow>, b: seq<LineRow>, sid: int, m: Measure)
    ensures Total(a + b, sid, m) == Total(a, sid, m) + Total(b, sid, m)
  {
    if a == [] {
      assert a + b == b;
    } else {
      assert (a + b)[1..] == a[1..] + b;
      TotalAppend(a[1..], b, sid, m);
    }
  }

  /** Lines of other simulations or other tables add nothing to a total. */
  lemma {:induction false} TotalIgnoresOthers(ls: seq<LineRow>, sid: int, m: Measure)
    requires forall k :: 0 <= k < |ls| ==> !Counts(ls[k], sid, m)
    ensures Total(ls, sid, m) == 0.0
  {
    if ls != [] {
      TotalIgnoresOthers(ls[1..], sid, m);
    }
  }

  datatype SimulationSummary = SimulationSummary(
    simulationId: int, missionId: Option<int>,
    plannedHours: real, billableHours: real,
    revenue: real, cost: real, margin: real, marginPct: Option<real>)

  /** Revenue: internal billable production at standard rate, external sales, re-invoiced costs. */
  function Revenue(ls: seq<LineRow>, sid: int): real {
    Total(ls, sid, RevenueStd) + Total(ls, sid, RevenueExternal) + Total(ls, sid, RevenueOther)
  }

  /** Cost: internal cost, external purchases, other costs. */
  function Cost(ls: seq<LineRow>, sid: int): real {
    Total(ls, sid, CostInternal) + Total(ls, sid, CostExternal) + Total(ls, sid, CostOther)
  }

  /** `margin_pct`: undefined when there is no revenue. */
  function MarginPct(revenue: real, cost: real): (p: Option<real>)
    ensures p.None? <==> revenue == 0.0
    ensures p.Some? ==> p.value * revenue == (revenue - cost) * 100.0
  {
    if revenue == 0.0 then None else Some((revenue - cost) / revenue * 100.0)
  }

  function SummaryOf(ls: seq<LineRow>, sim: Simulation): (r: SimulationSummary)
    ensures r.simulationId == sim.id
    ensures r.margin == r.revenue - r.cost
    ensures r.marginPct.None? <==> r.revenue == 0.0
  {
    var revenue := Revenue(ls, sim.id);
    var cost := Cost(ls, sim.id);
    SimulationSummary(sim.id, sim.missionId,
      Total(ls, sim.id, PlannedHours), Total(ls, sim.id, BillableHours),
      revenue, cost, revenue - cost, MarginPct(revenue, cost))
  }

  /** `kpi_simulation_summary`: one row per simulation, with or without lines. */
  function SimulationSummaryView(s: Store): (rows: seq<SimulationSummary>)
    ensures |rows| == |s.simulations|
    ensures forall k :: 0 <= k < |rows| ==> rows[k] == SummaryOf(s.lines, s.simulations[k])
  {
    seq(|s.simulations|, k requires 0 <= k < |s.simulations| => SummaryOf(s.lines, s.simulations[k]))
  }

  /**
   * A simulation without lines still has its summary row (the LEFT JOINs keep
   * it), with every total 0 and no margin percentage.
   */
  lemma SimulationWithoutLines(ls: seq<LineRow>, sim: Simulation)
    requires forall k :: 0 <= k < |ls| ==> ls[k].simId != sim.id
    ensures var r := SummaryOf(ls, sim);
      r.plannedHours == 0.0 && r.billableHours == 0.0 && r.revenue == 0.0 && r.cost == 0.0
      && r.margin == 0.0 && r.marginPct.None?
  {
    forall m: Measure ensures Total(ls, sim.id, m) == 0.0 {
      TotalIgnoresOthers(ls, sim.id, m);
    }
  }

  /** Replacing the lines of one simulation leaves every other simulation's summary as it was. */
  lemma {:induction false} SummaryUnchangedByOtherLines(kept: seq<LineRow>, added: seq<LineRow>, removed: seq<LineRow>, sid: int, sim: Simulation)
    requires sim.id != sid
    requires forall k :: 0 <= k < |added| ==> added[k].simId == sid
    requires forall k :: 0 <= k < |removed| ==> removed[k].simId == sid
    ensures SummaryOf(kept + added, sim) == SummaryOf(kept + removed, sim)
  {
    forall m: Measure ensures Total(kept + added, sim.id, m) == Total(kept + removed, sim.id, m) {
      TotalAppend(kept, added, sim.id, m);
      TotalAppend(kept, removed, sim.id, m);
      TotalIgnoresOthers(added, sim.id, m);
      TotalIgnoresOthers(removed, sim.id, m);
    }
  }

  /** Adding a line to simulation `sid` adds that line's summand to each of its measures. */
  lemma AddedLineTotals(ls: seq<LineRow>, l: LineRow, sid: int, m: Measure)
    requires Counts(l, sid, m) && Summand(l, m).Some?
    ensures Total(ls + [l], sid, m) == Total(ls, sid, m) + Summand(l, m).value
  {
    TotalAppend(ls, [l], sid, m);
    assert Total([l], sid, m) == Summand(l, m).value + Total([l][1..], sid, m);
  }

  /**
   * An external resource line with `planned_days` d, `buy_rate_per_day` b and
   * `sell_rate_per_day` v raises the simulation's revenue by d * v and its cost
   * by d * b.
   */
  lemma ExternalLineAdds(ls: seq<LineRow>, l: LineRow, sid: int, d: real, b: real, v: real)
    requires l.table == ExternalResources && l.simId == sid
    requires Cell(l, 4) == Some(d) && Cell(l, 2) == Some(b) && Cell(l, 3) == Some(v)
    ensures Revenue(ls + [l], sid) == Revenue(ls, sid) + d * v
    ensures Cost(ls + [l], sid) == Cost(ls, sid) + d * b
  {
    AddedLineTotals(ls, l, sid, RevenueExternal);
    AddedLineTotals(ls, l, sid, CostExternal);
    forall m: Measure | TableOf(m) != ExternalResources ensures Total(ls + [l], sid, m) == Total(ls, sid, m) {
      TotalAppend(ls, [l], sid, m);
      TotalIgnoresOthers([l], sid, m);
    }
  }

  /**
   * An internal resource line with `planned_days` d, `hours_per_day` h,
   * `std_rate_per_hour` r, `std_cost_per_hour` c and `billable_ratio` q
   * raises revenue by d * h * r * q and cost by d * h * c.
   */
  lemma InternalLineAdds(ls: seq<LineRow>, l: LineRow, sid: int, d: real, h: real, r: real, c: real, q: real)
    requires l.table == InternalResources && l.simId == sid
    requires Cell(l, 4) == Some(d) && Cell(l, 5) == Some(h) && Cell(l, 2) == Some(r)
    requires Cell(l, 3) == Some(c) && Cell(l, 6) == Some(q)
    ensures Revenue(ls + [l], sid) == Revenue(ls, sid) + d * h * r * q
    ensures Cost(ls + [l], sid) == Cost(ls, sid) + d * h * c
  {
    AddedLineTotals(ls, l, sid, RevenueStd);
    AddedLineTotals(ls, l, sid, CostInternal);
    forall m: Measure | TableOf(m) != InternalResources ensures Total(ls + [l], sid, m) == Total(ls, sid, m) {
      TotalAppend(ls, [l], sid, m);
      TotalIgnoresOthers([l], sid, m);
    }
  }

  /** An internal-time entry never counts against a mission's consumed hours. */
  lemma InternalTimeNotConsumed(es: seq<TimeEntry>, e: TimeEntry, mid: int)
    requires e.category == Internal
    ensures ConsumedHours(es + [e], mid) == ConsumedHours(es, mid)
  {
    ConsumedHoursAppend(es, [e], mid);
  }
}
