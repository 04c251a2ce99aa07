/**
 * `answer_question` and `_answer_mission_status` (src/services/chatbot.py):
 * the read-only chatbot's answer to a question, for a caller whose role,
 * visible missions and visible users are given by a context. An answer is
 * a reply (what the text says) and the tables shown with it; each table is
 * named by the view it lists and the id set it is filtered on. The wording
 * of the texts, the columns of the tables and their ORDER BY / LIMIT are
 * not modelled.
 */
module Chatbot {
  import opened Wrappers
  import opened Text
  import opened Schema
  import opened Kpi
  import opened Intents
  import opened MissionCodes
  import opened MissionResolver

  /** What the chatbot may see: the caller's role and id, and the missions and users visible to them. */
  datatype ChatContext = ChatContext(role: Role, userId: int, missionIds: set<int>, visibleUserIds: set<int>)

  /** Finance figures are shown to these two roles only. */
  predicate SeesFinance(r: Role) {
    r == Board || r == Admin
  }

  /** The consumption rate as printed: `N/A` or a percentage. */
  datatype PctLabel = NotAvailable | Percent(value: real)

  datatype Table =
    | CategoryBreakdown(missionId: int)        // hours of one mission by category
    | TopVariance(missionIds: set<int>)        // kpi_mission_variance
    | RiskList(missionIds: set<int>)           // kpi_alert_missions_risk
    | LoadPerPerson(userIds: set<int>)         // kpi_user_load_daily summed per person
    | SplitByCategory(userIds: set<int>)       // time_entries summed per category
    | LowestMargin(missionIds: set<int>)       // kpi_finance_mission

  datatype Reply =
    | MissionFocus(hours: MissionHours, finance: Option<FinanceRow>)
    | MissionKpiMissing
    | NoVisibleMission
    | HelpText(withFinanceExample: bool)
    | GlobalStatus(missions: nat, consumed: real, sold: real, rate: PctLabel)
    | NoRiskProject
    | RiskProjects(count: nat)
    | NoVisibleUser
    | NoTimeForLoad
    | BusiestUser
    | NoTimeForSplit
    | SplitHeadline
    | FinanceRefused
    | FinanceTotals(sold: real, cost: real, margin: real)

  datatype Answer = Answer(reply: Reply, tables: seq<Table>)

  // ---------------------------------------------------------------- filters and sums

  /**
   * `WHERE mission_id IN ids` on a view whose rows carry their mission's id
   * as `key`: exactly the rows of the missions in `ids`, in view order.
   */
  function RowsIn<T>(rows: seq<T>, key: T -> int, ids: set<int>): (out: seq<T>)
    ensures |out| <= |rows|
    ensures forall k :: 0 <= k < |out| ==> key(out[k]) in ids && out[k] in rows
    ensures forall k :: 0 <= k < |rows| && key(rows[k]) in ids ==> rows[k] in out
  {
    if rows == [] then []
    else
      var rest := RowsIn(rows[1..], key, ids);
      assert forall k :: 1 <= k < |rows| ==> rows[k] == rows[1..][k - 1];
      if key(rows[0]) in ids then [rows[0]] + rest else rest
  }

  /** The mission id of a `kpi_alert_missions_risk` row. */
  function RiskId(r: RiskRow): int { r.missionId }

  /** `SUM(consumed_hours)`, 0 for no rows. */
  function SumConsumed(rows: seq<MissionHours>): real {
    if rows == [] then 0.0 else rows[0].consumedHours as real + SumConsumed(rows[1..])
  }

  /** `SUM(sold_hours)`, 0 for no rows. */
  function SumSold(rows: seq<MissionHours>): real {
    if rows == [] then 0.0 else rows[0].soldHours + SumSold(rows[1..])
  }

  function SumSoldAmount(rows: seq<FinanceRow>): real {
    if rows == [] then 0.0 else rows[0].soldAmount + SumSoldAmount(rows[1..])
  }

  function SumCost(rows: seq<FinanceRow>): real {
    if rows == [] then 0.0 else rows[0].cost + SumCost(rows[1..])
  }

  function SumMargin(rows: seq<FinanceRow>): real {
    if rows == [] then 0.0 else rows[0].margin + SumMargin(rows[1..])
  }

  /**
   * The rate line of the global status: a percentage only when something
   * was sold and the percentage is not zero (`(pct and …) or 'N/A'` treats
   * 0.0 as missing).
   */
  function Rate(consumed: real, sold: real): (r: PctLabel)
    ensures r.Percent? <==> sold > 0.0 && consumed != 0.0
    ensures r.Percent? ==> r.value * sold == consumed * 100.0
  {
    if sold > 0.0 then
      var p := consumed / sold * 100.0;
      if p != 0.0 then Percent(p) else NotAvailable
    else NotAvailable
  }

  /** An active user of `uids` has logged time on some day: `kpi_user_load_daily` has a row for them. */
  predicate HasLoggedLoad(s: Store, uids: set<int>) {
    exists k :: 0 <= k < |s.timeEntries| && s.timeEntries[k].userId in uids
      && DailyLoad(s, s.timeEntries[k].userId, s.timeEntries[k].day).Some?
  }

  /** Some time entry belongs to a user of `uids`. */
  predicate HasTimeOf(es: seq<TimeEntry>, uids: set<int>) {
    exists k :: 0 <= k < |es| && es[k].userId in uids
  }

  /** Some time entry is booked on mission `mid`. */
  predicate HasTimeOn(es: seq<TimeEntry>, mid: int) {
    exists k :: 0 <= k < |es| && es[k].missionId == Some(mid)
  }

  // ---------------------------------------------------------------- the answers

  /** `_answer_mission_status`: the focus on one mission, with finance for Board and Admin. */
  function MissionStatusAnswer(s: Store, ctx: ChatContext, mid: int): (a: Answer)
    ensures a.reply.MissionFocus? || a.reply == MissionKpiMissing
    ensures a.reply == MissionKpiMissing <==> RowFor(MissionHoursView(s), HoursId, mid).None?
    ensures a.reply.MissionFocus? ==> a.reply.hours == RowFor(MissionHoursView(s), HoursId, mid).value
    ensures a.reply.MissionFocus? ==> (a.reply.finance.Some? <==> SeesFinance(ctx.role))
    ensures a.reply.MissionFocus? ==> (a.tables == [CategoryBreakdown(mid)] <==> HasTimeOn(s.timeEntries, mid))
    ensures a.reply.MissionFocus? ==> (a.tables == [] <==> !HasTimeOn(s.timeEntries, mid))
    ensures a.reply == MissionKpiMissing ==> a.tables == []
  {
    match RowFor(MissionHoursView(s), HoursId, mid)
    case None => Answer(MissionKpiMissing, [])
    case Some(row) =>
      FinanceRowIffHoursRow(s, mid);
      var fin := if SeesFinance(ctx.role) then RowFor(FinanceView(s), FinanceId, mid) else None;
      var tables := if HasTimeOn(s.timeEntries, mid) then [CategoryBreakdown(mid)] else [];
      Answer(MissionFocus(row, fin), tables)
  }

  function HelpAnswer(ctx: ChatContext): (a: Answer)
    ensures a.reply.HelpText? && a.tables == []
    ensures a.reply.withFinanceExample <==> SeesFinance(ctx.role)
  {
    Answer(HelpText(SeesFinance(ctx.role)), [])
  }

  /** The global status of the visible missions, with the variance table when there is any. */
  function StatusAnswer(s: Store, ids: set<int>): (a: Answer)
    ensures a.reply.GlobalStatus?
    ensures a.reply.missions == |RowsIn(MissionHoursView(s), HoursId, ids)|
    ensures a.reply.rate == Rate(a.reply.consumed, a.reply.sold)
    ensures a.tables == [] <==> a.reply.missions == 0
    ensures a.tables != [] ==> a.tables == [TopVariance(ids)]
  {
    var rows := RowsIn(MissionHoursView(s), HoursId, ids);
    var consumed := SumConsumed(rows);
    var sold := SumSold(rows);
    Answer(GlobalStatus(|rows|, consumed, sold, Rate(consumed, sold)), if rows == [] then [] else [TopVariance(ids)])
  }

  /** The missions at risk, or a message that there are none. */
  function RiskAnswer(s: Store, ids: set<int>): (a: Answer)
    ensures a.reply == NoRiskProject <==> RowsIn(RiskView(s), RiskId, ids) == []
    ensures a.reply == NoRiskProject ==> a.tables == []
    ensures a.reply != NoRiskProject ==>
      a == Answer(RiskProjects(|RowsIn(RiskView(s), RiskId, ids)|), [RiskList(ids)]) && a.reply.count > 0
  {
    var rows := RowsIn(RiskView(s), RiskId, ids);
    if rows == [] then Answer(NoRiskProject, []) else Answer(RiskProjects(|rows|), [RiskList(ids)])
  }

  /** Who is the busiest among the visible users. */
  function WhoBusyAnswer(s: Store, uids: set<int>): (a: Answer)
    ensures a.reply == NoVisibleUser <==> uids == {}
    ensures a.reply == NoTimeForLoad <==> uids != {} && !HasLoggedLoad(s, uids)
    ensures a.reply == BusiestUser <==> uids != {} && HasLoggedLoad(s, uids)
    ensures a.tables == (if a.reply == BusiestUser then [LoadPerPerson(uids)] else [])
  {
    if uids == {} then Answer(NoVisibleUser, [])
    else if !HasLoggedLoad(s, uids) then Answer(NoTimeForLoad, [])
    else Answer(BusiestUser, [LoadPerPerson(uids)])
  }

  /** How the visible users' time splits over categories. */
  function TimeSplitAnswer(s: Store, uids: set<int>): (a: Answer)
    ensures a.reply == SplitHeadline <==> HasTimeOf(s.timeEntries, uids)
    ensures a.reply != SplitHeadline ==> a == Answer(NoTimeForSplit, [])
    ensures a.reply == SplitHeadline ==> a.tables == [SplitByCategory(uids)]
  {
    if !HasTimeOf(s.timeEntries, uids) then Answer(NoTimeForSplit, [])
    else Answer(SplitHeadline, [SplitByCategory(uids)])
  }

  /** The finance totals of the visible missions, refused to roles other than Board and Admin. */
  function FinanceAnswer(s: Store, ctx: ChatContext): (a: Answer)
    ensures a.reply == FinanceRefused <==> !SeesFinance(ctx.role)
    ensures a.reply == FinanceRefused ==> a.tables == []
    ensures a.reply != FinanceRefused ==> a.tables == [LowestMargin(ctx.missionIds)]
    ensures a.reply != FinanceRefused ==>
      var rows := RowsIn(FinanceView(s), FinanceId, ctx.missionIds);
      a.reply == FinanceTotals(SumSoldAmount(rows), SumCost(rows), SumMargin(rows))
  {
    if !SeesFinance(ctx.role) then Answer(FinanceRefused, [])
    else
      var rows := RowsIn(FinanceView(s), FinanceId, ctx.missionIds);
      Answer(FinanceTotals(SumSoldAmount(rows), SumCost(rows), SumMargin(rows)), [LowestMargin(ctx.missionIds)])
  }

  /** The intents that need at least one visible mission. */
  predicate NeedsMissions(i: Intent) {
    i == StatusGlobal || i == ProjectsRisk || i == FinanceSummary
  }

  /**
   * The routing of `answer_question` once the question has been read: a
   * question about a visible mission gets that mission's focus whatever else
   * it says; otherwise the intent picks the answer, after the check that
   * some mission is visible for the intents that need one. The source's final
   * fallback ("not understood") cannot be reached, since every intent has a
   * branch.
   */
  function Route(s: Store, ctx: ChatContext, resolved: Option<MissionRef>, intent: Intent): (a: Answer)
    ensures resolved.Some? ==> a == MissionStatusAnswer(s, ctx, resolved.value.id)
    ensures resolved.None? && ctx.missionIds == {} && NeedsMissions(intent) ==> a == Answer(NoVisibleMission, [])
  {
    match resolved
    case Some(m) => MissionStatusAnswer(s, ctx, m.id)
    case None =>
      if ctx.missionIds == {} && NeedsMissions(intent) then Answer(NoVisibleMission, [])
      else
        match intent
        case Help => HelpAnswer(ctx)
        case StatusGlobal => StatusAnswer(s, ctx.missionIds)
        case ProjectsRisk => RiskAnswer(s, ctx.missionIds)
        case WhoBusy => WhoBusyAnswer(s, ctx.visibleUserIds)
        case TimeSplit => TimeSplitAnswer(s, ctx.visibleUserIds)
        case FinanceSummary => FinanceAnswer(s, ctx)
  }

  /**
   * `answer_question`: the mission the raw question names, if it names a
   * visible one, and the intent of the cleaned question, routed.
   */
  function AnswerQuestion(s: Store, ctx: ChatContext, question: string): (a: Answer)
    ensures a == Route(s, ctx, ResolveMission(s.missions, ctx.missionIds, question), ClassifyIntent(SanitizeQuestion(question)))
    ensures InScope(ctx, a)
    ensures !SeesFinance(ctx.role) ==> FinanceFree(a)
  {
    var resolved := ResolveMission(s.missions, ctx.missionIds, question);
    var intent := ClassifyIntent(SanitizeQuestion(question));
    RouteInScope(s, ctx, resolved, intent);
    if SeesFinance(ctx.role) then Route(s, ctx, resolved, intent)
    else
      RouteFinanceFree(s, ctx, resolved, intent);
      Route(s, ctx, resolved, intent)
  }

  // ---------------------------------------------------------------- properties

  /** A question that names a visible mission gets that mission's focus, even a request for help. */
  lemma MissionFocusComesFirst(s: Store, ctx: ChatContext, question: string)
    requires ResolveMission(s.missions, ctx.missionIds, question).Some?
    ensures var a := AnswerQuestion(s, ctx, question);
      var m := ResolveMission(s.missions, ctx.missionIds, question).value;
      && m.id in ctx.missionIds
      && (a.reply.MissionFocus? || a.reply == MissionKpiMissing)
      && (a.reply.MissionFocus? ==> a.reply.hours.missionId == m.id)
  {
  }

  /** With no visible mission, status, risk and finance questions get only the no-mission message. */
  lemma EmptyScopeIsRefused(s: Store, ctx: ChatContext, question: string)
    requires ctx.missionIds == {}
    requires NeedsMissions(ClassifyIntent(SanitizeQuestion(question)))
    ensures AnswerQuestion(s, ctx, question) == Answer(NoVisibleMission, [])
  {
    assert ResolveMission(s.missions, ctx.missionIds, question).None?;
  }

  /**
   * A question of whitespace only names no mission and is a request for
   * help, so it gets the help text, whatever the caller's scope.
   */
  lemma BlankQuestionGetsHelp(s: Store, ctx: ChatContext, question: string)
    requires forall i :: 0 <= i < |question| ==> IsSpace(question[i])
    ensures ResolveMission(s.missions, ctx.missionIds, question).None?
    ensures AnswerQuestion(s, ctx, question) == HelpAnswer(ctx)
  {
    BlankQuestionIsHelp(question);
    BlankCleansToEmpty(question);
    assert forall j :: 0 <= j < |question| ==> MatchAt(question, j).None?;
    ExtractIsLeftmostMatch(question);
  }

  /** What a role without finance access can never be shown. */
  predicate FinanceFree(a: Answer) {
    && !a.reply.FinanceTotals?
    && !(a.reply.MissionFocus? && a.reply.finance.Some?)
    && a.reply != HelpText(true)
    && forall k :: 0 <= k < |a.tables| ==> !a.tables[k].LowestMargin?
  }

  lemma RouteFinanceFree(s: Store, ctx: ChatContext, resolved: Option<MissionRef>, intent: Intent)
    requires !SeesFinance(ctx.role)
    ensures FinanceFree(Route(s, ctx, resolved, intent))
  {
  }

  /**
   * Finance stays with Board and Admin: for any other role no answer holds
   * finance totals, a mission's finance block, the margin table, or the
   * finance example of the help text.
   */
  lemma NoFinanceForOtherRoles(s: Store, ctx: ChatContext, question: string)
    requires !SeesFinance(ctx.role)
    ensures FinanceFree(AnswerQuestion(s, ctx, question))
  {
    RouteFinanceFree(s, ctx, ResolveMission(s.missions, ctx.missionIds, question), ClassifyIntent(SanitizeQuestion(question)));
  }

  /** A finance question from another role, with missions visible and none named, is refused. */
  lemma FinanceQuestionRefused(s: Store, ctx: ChatContext, question: string)
    requires !SeesFinance(ctx.role) && ctx.missionIds != {}
    requires ClassifyIntent(SanitizeQuestion(question)) == FinanceSummary
    requires ResolveMission(s.missions, ctx.missionIds, question).None?
    ensures AnswerQuestion(s, ctx, question) == Answer(FinanceRefused, [])
  {
  }

  /**
   * Every table of an answer is labelled with the caller's own mission or
   * user set, or with a mission in the caller's set. A table's label is the
   * filter its query uses, so this holds by how answers are built.
   */
  predicate InScope(ctx: ChatContext, a: Answer) {
    forall k :: 0 <= k < |a.tables| ==> match a.tables[k]
      case CategoryBreakdown(mid) => mid in ctx.missionIds
      case TopVariance(ids) => ids == ctx.missionIds
      case RiskList(ids) => ids == ctx.missionIds
      case LowestMargin(ids) => ids == ctx.missionIds
      case LoadPerPerson(uids) => uids == ctx.visibleUserIds
      case SplitByCategory(uids) => uids == ctx.visibleUserIds
  }

  lemma RouteInScope(s: Store, ctx: ChatContext, resolved: Option<MissionRef>, intent: Intent)
    requires resolved.Some? ==> resolved.value.id in ctx.missionIds
    ensures InScope(ctx, Route(s, ctx, resolved, intent))
  {
  }

  /** Every table an answer shows is labelled with the caller's own mission or user set. */
  lemma TablesStayInScope(s: Store, ctx: ChatContext, question: string)
    ensures InScope(ctx, AnswerQuestion(s, ctx, question))
  {
    RouteInScope(s, ctx, ResolveMission(s.missions, ctx.missionIds, question), ClassifyIntent(SanitizeQuestion(question)));
  }

  /** The figures of the global status come from the visible missions' rows only. */
  lemma StatusCountsVisibleMissions(s: Store, ctx: ChatContext, question: string)
    requires ResolveMission(s.missions, ctx.missionIds, question).None?
    requires ClassifyIntent(SanitizeQuestion(question)) == StatusGlobal && ctx.missionIds != {}
    ensures var a := AnswerQuestion(s, ctx, question);
      var rows := RowsIn(MissionHoursView(s), HoursId, ctx.missionIds);
      a.reply == GlobalStatus(|rows|, SumConsumed(rows), SumSold(rows), Rate(SumConsumed(rows), SumSold(rows)))
  {
  }

  /**
   * The finance totals a Board or Admin user gets are the sums over the
   * finance rows of the visible missions, and over nothing else.
   */
  lemma FinanceSumsVisibleMissions(s: Store, ctx: ChatContext, question: string)
    requires ResolveMission(s.missions, ctx.missionIds, question).None?
    requires ClassifyIntent(SanitizeQuestion(question)) == FinanceSummary && ctx.missionIds != {}
    requires SeesFinance(ctx.role)
    ensures var a := AnswerQuestion(s, ctx, question);
      var rows := RowsIn(FinanceView(s), FinanceId, ctx.missionIds);
      a.reply == FinanceTotals(SumSoldAmount(rows), SumCost(rows), SumMargin(rows))
  {
  }

  /** The summed margins and costs add up to the summed sold amounts. */
  lemma {:induction false} FinanceSumsBalance(rows: seq<FinanceRow>)
    requires forall k :: 0 <= k < |rows| ==> rows[k].margin + rows[k].cost == rows[k].soldAmount
    ensures SumMargin(rows) + SumCost(rows) == SumSoldAmount(rows)
  {
    if rows != [] {
      FinanceSumsBalance(rows[1..]);
    }
  }

  /** The finance totals shown balance: margin plus cost is the sold amount. */
  lemma FinanceTotalsBalance(s: Store, ctx: ChatContext, question: string)
    requires AnswerQuestion(s, ctx, question).reply.FinanceTotals?
    ensures var r := AnswerQuestion(s, ctx, question).reply;
      r.margin + r.cost == r.sold
  {
    RouteFinanceBalances(s, ctx, ResolveMission(s.missions, ctx.missionIds, question), ClassifyIntent(SanitizeQuestion(question)));
  }

  lemma RouteFinanceBalances(s: Store, ctx: ChatContext, resolved: Option<MissionRef>, intent: Intent)
    requires Route(s, ctx, resolved, intent).reply.FinanceTotals?
    ensures var r := Route(s, ctx, resolved, intent).reply;
      r.margin + r.cost == r.sold
  {
    var rows := RowsIn(FinanceView(s), FinanceId, ctx.missionIds);
    forall k | 0 <= k < |rows| ensures rows[k].margin + rows[k].cost == rows[k].soldAmount {
      FinanceViewBalances(s, rows[k]);
    }
    FinanceSumsBalance(rows);
  }

  /** Each row of the finance view has margin plus cost equal to its sold amount. */
  lemma FinanceViewBalances(s: Store, r: FinanceRow)
    requires r in FinanceView(s)
    ensures r.margin + r.cost == r.soldAmount
  {
    FinanceRowsBalance(s, s.missions, r);
  }

  lemma FinanceRowsBalance(s: Store, ms: seq<Mission>, r: FinanceRow)
    requires r in FinanceRows(s, ms)
    ensures r.margin + r.cost == r.soldAmount
  {
    var rows := FinanceRows(s, ms);
    FinanceRowsFromMissions(s, ms);
    var k :| 0 <= k < |rows| && rows[k] == r;
    var j :| 0 <= j < |ms| && FinanceRowOf(s, ms[j]) == Some(r);
  }
}
