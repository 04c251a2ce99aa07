/**
 * Role-based visibility (app.py, `_mission_ids_for_user` and
 * `_visible_user_ids`): which missions and which users a logged-in user may
 * see. Lists become sets: the queries return distinct ids and the callers
 * only test membership. The caller's role and id are parameters; the
 * session that holds them is not modelled.
 */
module Rbac {
  import opened Wrappers
  import opened Schema

  /** `uid` logged time on mission `mid`. */
  predicate LoggedOn(s: Store, mid: int, uid: int) {
    exists e :: e in s.timeEntries && e.missionId == Some(mid) && e.userId == uid
  }

  /** The ids of the active missions: `SELECT id FROM missions WHERE is_active=1`. */
  function ActiveMissionIds(s: Store): set<int> {
    set m | m in s.missions && m.isActive :: m.id
  }

  /** The ids of the active users: `SELECT id FROM users WHERE is_active=1`. */
  function ActiveUserIds(s: Store): set<int> {
    set u | u in s.users && u.isActive :: u.id
  }

  /**
   * `_mission_ids_for_user`: every active mission for Admin and Board, the
   * active missions a Lead leads, and the active missions a Consultant is
   * assigned to or has logged time on.
   */
  function MissionIdsForUser(s: Store, role: Role, uid: int): (ids: set<int>)
    ensures ids <= ActiveMissionIds(s)
    ensures role == Admin || role == Board ==> ids == ActiveMissionIds(s)
  {
    match role
    case Admin => ActiveMissionIds(s)
    case Board => ActiveMissionIds(s)
    case Lead => set m | m in s.missions && m.isActive && (m.id, uid) in s.leads :: m.id
    case Consultant =>
      set m | m in s.missions && m.isActive && (Assignment(m.id, uid) in s.assignments || LoggedOn(s, m.id, uid)) :: m.id
  }

  /** `uid` is assigned to, or has logged time on, one of the missions `mids`. */
  predicate WorksOnAny(s: Store, uid: int, mids: set<int>) {
    || (exists a :: a in s.assignments && a.userId == uid && a.missionId in mids)
    || (exists e :: e in s.timeEntries && e.userId == uid && e.missionId.Some? && e.missionId.value in mids)
  }

  /** The query a Lead runs: the active users who work on one of `mids`. */
  function Team(s: Store, mids: set<int>): set<int> {
    set u | u in s.users && u.isActive && WorksOnAny(s, u.id, mids) :: u.id
  }

  /**
   * `_visible_user_ids`: every active user for Admin and Board; for a Lead
   * the team of their missions and themselves (only themselves when they see
   * no mission); a Consultant only themselves.
   */
  function VisibleUserIds(s: Store, role: Role, uid: int, mids: set<int>): (ids: set<int>)
    ensures role == Admin || role == Board ==> ids == ActiveUserIds(s)
    ensures role == Lead || role == Consultant ==> uid in ids
    ensures role == Consultant ==> ids == {uid}
    ensures role == Lead ==> ids == Team(s, mids) + {uid}
    ensures forall id :: id in ids ==> id == uid || id in ActiveUserIds(s)
  {
    match role
    case Admin => ActiveUserIds(s)
    case Board => ActiveUserIds(s)
    case Lead => if mids == {} then EmptyTeam(s); {uid} else Team(s, mids) + {uid}
    case Consultant => {uid}
  }

  // ---------------------------------------------------------------- properties

  /** A Lead sees a mission exactly when it is active and they lead it. */
  lemma LeadSeesLedMissions(s: Store, uid: int, m: Mission)
    requires m in s.missions
    ensures m.isActive && (m.id, uid) in s.leads ==> m.id in MissionIdsForUser(s, Lead, uid)
    ensures forall id :: id in MissionIdsForUser(s, Lead, uid) ==>
      exists n :: n in s.missions && n.id == id && n.isActive && (id, uid) in s.leads
  {
  }

  /** A Consultant sees a mission exactly when it is active and they are assigned to it or logged time on it. */
  lemma ConsultantSeesOwnMissions(s: Store, uid: int, m: Mission)
    requires m in s.missions && m.isActive
    ensures (Assignment(m.id, uid) in s.assignments || LoggedOn(s, m.id, uid)) ==>
      m.id in MissionIdsForUser(s, Consultant, uid)
    ensures forall id :: id in MissionIdsForUser(s, Consultant, uid) ==>
      exists n :: n in s.missions && n.id == id && n.isActive
        && (Assignment(id, uid) in s.assignments || LoggedOn(s, id, uid))
  {
  }

  /** No role sees more missions than Admin and Board. */
  lemma MissionScopesNest(s: Store, role: Role, uid: int)
    ensures MissionIdsForUser(s, role, uid) <= MissionIdsForUser(s, Admin, uid)
    ensures MissionIdsForUser(s, Board, uid) == MissionIdsForUser(s, Admin, uid)
  {
  }

  /** The Lead's early return for no missions gives what the query would: nobody but the Lead. */
  lemma EmptyTeam(s: Store)
    ensures Team(s, {}) == {}
  {
  }

  lemma LeadShortcutAgrees(s: Store, uid: int)
    ensures VisibleUserIds(s, Lead, uid, {}) == Team(s, {}) + {uid}
  {
    EmptyTeam(s);
  }

  /** Seeing more missions never shows a Lead fewer users. */
  lemma LeadTeamGrows(s: Store, uid: int, mids: set<int>, more: set<int>)
    requires mids <= more
    ensures VisibleUserIds(s, Lead, uid, mids) <= VisibleUserIds(s, Lead, uid, more)
  {
    forall id | id in Team(s, mids) ensures id in Team(s, more) {
      var u :| u in s.users && u.isActive && WorksOnAny(s, u.id, mids) && u.id == id;
      assert WorksOnAny(s, u.id, more);
    }
  }

  /**
   * A Lead sees exactly themselves and the active users who are assigned to,
   * or have logged time on, one of their missions; every other user is hidden.
   */
  lemma LeadSeesExactlyTheTeam(s: Store, uid: int, mids: set<int>, id: int)
    ensures id in VisibleUserIds(s, Lead, uid, mids) <==>
      id == uid || exists u :: u in s.users && u.isActive && u.id == id && WorksOnAny(s, id, mids)
  {
  }

  /** A Lead sees every active user who logged time on one of their missions. */
  lemma LeadSeesLoggingUsers(s: Store, uid: int, mids: set<int>, u: User, e: TimeEntry)
    requires u in s.users && u.isActive && e in s.timeEntries && e.userId == u.id
    requires e.missionId.Some? && e.missionId.value in mids
    ensures u.id in VisibleUserIds(s, Lead, uid, mids)
  {
    assert WorksOnAny(s, u.id, mids);
  }

  /** A Lead sees every active user assigned to one of their missions. */
  lemma LeadSeesAssignedUsers(s: Store, uid: int, mids: set<int>, u: User, a: Assignment)
    requires u in s.users && u.isActive && a in s.assignments && a.userId == u.id && a.missionId in mids
    ensures u.id in VisibleUserIds(s, Lead, uid, mids)
  {
    assert WorksOnAny(s, u.id, mids);
  }
}
