/**
 Accounts, roles and sessions of the admin pages. A handler decides some things on rows it read before its
 transaction; `seen` is the store those reads met, the fields are what its transaction finds.
 */
module Admins {
  import opened Wrappers
  import opened Finite

  datatype Role = SystemAdmin | DepartmentSecurityAdmin | LicenseManager | Viewer | GeneralUser

  datatype Grant = Grant(user: nat, department: Option<nat>, role: Role, active: bool)

  datatype Entry = Entry(action: string, id: nat)

  /** `users` says who is enabled, `sessions` whom a session is bound to. */
  datatype Store = Store(
    users: map<nat, bool>,
    roles: map<nat, Grant>,
    sessions: map<nat, Option<nat>>,
    audit: seq<Entry>,
    next: nat)

  datatype Response = Done | Forbidden | NotFound | BadRequest | Conflict | LastAdmin | Failed

  datatype Request =
    | Visit(session: nat)
    | Login(session: nat, user: nat, verified: bool, newId: nat)
    | Logout(session: nat)
    | GrantRole(session: nat, user: nat, role: Role, department: Option<nat>, departmentOk: bool, auditFails: bool)
    | RevokeRole(session: nat, user: nat, id: nat, auditFails: bool)
    | Disable(session: nat, user: nat, auditFails: bool)
    | Enable(session: nat, user: nat, auditFails: bool)

  // ---- queries ----

  predicate IsEnabled(s: Store, user: nat) {
    user in s.users && s.users[user]
  }

  predicate AdminRow(s: Store, id: nat)
    requires id in s.roles
  {
    s.roles[id].active && s.roles[id].role == SystemAdmin && IsEnabled(s, s.roles[id].user)
  }

  /** The users CountActiveSystemAdminUsers counts. */
  function EnabledAdmins(s: Store): set<nat> {
    set id | id in s.roles && AdminRow(s, id) :: s.roles[id].user
  }

  predicate ActiveRole(s: Store, user: nat, department: Option<nat>, role: Role) {
    exists id | id in s.roles :: s.roles[id] == Grant(user, department, role, true)
  }

  predicate HoldsAdminRole(s: Store, user: nat) {
    exists id | id in s.roles :: s.roles[id].active && s.roles[id].user == user && s.roles[id].role == SystemAdmin
  }

  /** Who the middleware lets through to the admin pages; it does not look at disabled_at. */
  function Actor(s: Store, session: nat): Option<nat> {
    if session in s.sessions && s.sessions[session].Some? && HoldsAdminRole(s, s.sessions[session].value)
    then s.sessions[session]
    else None
  }

  function SessionsWithout(sessions: map<nat, Option<nat>>, user: nat): map<nat, Option<nat>> {
    map id | id in sessions && sessions[id] != Some(user) :: sessions[id]
  }

  /** Every role is scoped to a department, only the system admin to none. */
  predicate ScopeOk(role: Role, department: Option<nat>, departmentOk: bool) {
    if role == SystemAdmin then department.None? else department.Some? && departmentOk
  }

  // ---- the effect of each request ----

  predicate LoginBinds(seen: Store, s: Store, q: Request)
    requires q.Login?
  {
    && IsEnabled(seen, q.user) && q.verified
    && q.session in s.sessions && (q.newId == q.session || q.newId !in s.sessions) && q.user in s.users
  }

  predicate GrantInserts(seen: Store, s: Store, q: Request)
    requires q.GrantRole?
  {
    && Actor(seen, q.session).Some? && q.user in seen.users && ScopeOk(q.role, q.department, q.departmentOk)
    && !ActiveRole(seen, q.user, q.department, q.role)
    && !ActiveRole(s, q.user, q.department, q.role) && q.user in s.users && !q.auditFails
  }

  /** The row and its guard in the UPDATE: not the last enabled system admin. */
  predicate Revocable(s: Store, id: nat, user: nat) {
    && id in s.roles && s.roles[id].user == user && s.roles[id].active
    && (s.roles[id].role == SystemAdmin ==> |EnabledAdmins(s)| > 1)
  }

  predicate RevokeUpdates(seen: Store, s: Store, q: Request)
    requires q.RevokeRole?
  {
    && Actor(seen, q.session).Some? && q.user in seen.users
    && q.id in seen.roles && seen.roles[q.id].user == q.user && seen.roles[q.id].active
    && (seen.roles[q.id].role == SystemAdmin ==> Actor(seen, q.session) != Some(q.user))
    && Revocable(s, q.id, q.user) && !q.auditFails
  }

  predicate DisableUpdates(seen: Store, s: Store, q: Request)
    requires q.Disable?
  {
    && Actor(seen, q.session).Some? && Actor(seen, q.session) != Some(q.user)
    && IsEnabled(s, q.user) && !q.auditFails
  }

  predicate EnableUpdates(seen: Store, s: Store, q: Request)
    requires q.Enable?
  {
    Actor(seen, q.session).Some? && q.user in s.users && !s.users[q.user] && !q.auditFails
  }

  function After(seen: Store, s: Store, q: Request): Store {
    match q
    case Visit(session) =>
      if session in s.sessions then s else s.(sessions := s.sessions[session := None])
    case Login(session, user, _, newId) =>
      if LoginBinds(seen, s, q) then s.(sessions := (s.sessions - {session})[newId := Some(user)]) else s
    case Logout(session) => s.(sessions := s.sessions - {session})
    case GrantRole(_, user, role, department, _, _) =>
      if GrantInserts(seen, s, q)
      then s.(roles := s.roles[s.next := Grant(user, department, role, true)], next := s.next + 1,
              audit := s.audit + [Entry("role.grant", s.next)])
      else s
    case RevokeRole(_, _, id, _) =>
      if RevokeUpdates(seen, s, q)
      then s.(roles := s.roles[id := s.roles[id].(active := false)], audit := s.audit + [Entry("role.revoke", id)])
      else s
    case Disable(_, user, _) =>
      if DisableUpdates(seen, s, q)
      then s.(users := s.users[user := false], sessions := SessionsWithout(s.sessions, user),
              audit := s.audit + [Entry("app_user.disable", user)])
      else s
    case Enable(_, user, _) =>
      if EnableUpdates(seen, s, q)
      then s.(users := s.users[user := true], audit := s.audit + [Entry("app_user.enable", user)])
      else s
  }

  // ---- who may ask for what, said on the rows ----

  /** The session is bound to a user who holds the system admin role. */
  ghost predicate AdminAt(s: Store, session: nat) {
    && session in s.sessions && s.sessions[session].Some?
    && exists id | id in s.roles ::
         s.roles[id].active && s.roles[id].role == SystemAdmin && Some(s.roles[id].user) == s.sessions[session]
  }

  lemma ActorIs(s: Store, session: nat)
    ensures Actor(s, session).Some? <==> AdminAt(s, session)
    ensures AdminAt(s, session) ==> Actor(s, session) == s.sessions[session]
  {
  }

  /** No active row says the same already. */
  ghost predicate NotHeld(roles: map<nat, Grant>, q: Request)
    requires q.GrantRole?
  {
    forall id | id in roles && roles[id].active ::
      roles[id].user != q.user || roles[id].department != q.department || roles[id].role != q.role
  }

  /** The row is active and the user's, and if it makes him system admin some other enabled user is one as well. */
  ghost predicate MayGo(users: map<nat, bool>, roles: map<nat, Grant>, id: nat, user: nat) {
    && id in roles && roles[id].user == user && roles[id].active
    && (roles[id].role == SystemAdmin ==>
          exists i, j | i in roles && j in roles && EnabledAdminRow(users, roles, i) && EnabledAdminRow(users, roles, j) ::
            roles[i].user != roles[j].user)
  }

  predicate EnabledAdminRow(users: map<nat, bool>, roles: map<nat, Grant>, id: nat)
    requires id in roles
  {
    roles[id].active && roles[id].role == SystemAdmin && roles[id].user in users && users[roles[id].user]
  }

  lemma GrantIs(seen: Store, s: Store, q: Request)
    requires q.GrantRole?
    ensures GrantInserts(seen, s, q) <==>
              && AdminAt(seen, q.session) && q.user in seen.users && q.user in s.users && !q.auditFails
              && (q.role == SystemAdmin <==> q.department.None?) && (q.department.Some? ==> q.departmentOk)
              && NotHeld(seen.roles, q) && NotHeld(s.roles, q)
  {
    ActorIs(seen, q.session);
    hide AdminAt, Actor;
    HeldIs(seen, q);
    HeldIs(s, q);
    hide ActiveRole, NotHeld;
  }

  lemma HeldIs(s: Store, q: Request)
    requires q.GrantRole?
    ensures ActiveRole(s, q.user, q.department, q.role) <==> !NotHeld(s.roles, q)
  {
    if !NotHeld(s.roles, q) {
      var id :| id in s.roles && s.roles[id].active && s.roles[id].user == q.user
                && s.roles[id].department == q.department && s.roles[id].role == q.role;
      assert s.roles[id] == Grant(q.user, q.department, q.role, true);
    }
  }

  lemma ManyIs(s: Store)
    ensures |EnabledAdmins(s)| > 1 <==>
              exists i, j | i in s.roles && j in s.roles && EnabledAdminRow(s.users, s.roles, i) && EnabledAdminRow(s.users, s.roles, j) ::
                s.roles[i].user != s.roles[j].user
  {
    var admins := EnabledAdmins(s);
    if |admins| > 1 {
      var u :| u in admins;
      TwoAdmins(s, u);
      var v :| v in admins && v != u;
      var i := AdminBy(s, u);
      var j := AdminBy(s, v);
      assert EnabledAdminRow(s.users, s.roles, i) && EnabledAdminRow(s.users, s.roles, j);
    }
    if i, j :| i in s.roles && j in s.roles && EnabledAdminRow(s.users, s.roles, i) && EnabledAdminRow(s.users, s.roles, j)
               && s.roles[i].user != s.roles[j].user {
      assert AdminRow(s, i) && AdminRow(s, j);
      SubsetSize({s.roles[i].user, s.roles[j].user}, admins);
    }
  }

  lemma RevocableIs(s: Store, id: nat, user: nat)
    ensures Revocable(s, id, user) <==> MayGo(s.users, s.roles, id, user)
  {
    ManyIs(s);
    hide EnabledAdmins, EnabledAdminRow;
  }

  // ---- the handlers ----

  class AdminPages {
    var users: map<nat, bool>
    var roles: map<nat, Grant>
    var sessions: map<nat, Option<nat>>
    var audit: seq<Entry>
    var next: nat

    constructor (s: Store)
      ensures Now() == s
    {
      users, roles, sessions, audit, next := s.users, s.roles, s.sessions, s.audit, s.next;
    }

    function Now(): Store
      reads this
    {
      Store(users, roles, sessions, audit, next)
    }

    /** Bind the session to the user under a new id, or leave it as it is. */
    method RotateAndBind(session: nat, user: nat, newId: nat) returns (ok: bool)
      modifies this`sessions
      ensures ok <==> old(session in sessions && (newId == session || newId !in sessions)) && user in users
      ensures sessions == if ok then (old(sessions) - {session})[newId := Some(user)] else old(sessions)
    {
      if session !in sessions {
        return false;
      }
      if newId != session && newId in sessions {
        return false;
      }
      var before := sessions;
      sessions := (sessions - {session})[newId := sessions[session]];
      if user !in users {
        sessions := before;
        return false;
      }
      sessions := sessions[newId := Some(user)];
      ok := true;
    }

    method LoginPost(seen: Store, session: nat, user: nat, verified: bool, newId: nat) returns (r: Response)
      modifies this
      ensures Now() == After(seen, old(Now()), Login(session, user, verified, newId))
      ensures r == BadRequest <==> !IsEnabled(seen, user) || !verified
      ensures r == Done ==> newId in sessions && sessions[newId] == Some(user) && (session == newId || session !in sessions)
    {
      if user !in seen.users || !seen.users[user] || !verified {
        return BadRequest;
      }
      var ok := RotateAndBind(session, user, newId);
      r := if ok then Done else Failed;
    }

    /** The session goes, or stays when its DELETE fails; nothing else ends with it. */
    method LogoutPost(session: nat, fails: bool)
      modifies this
      ensures Now() == if fails then old(Now()) else After(old(Now()), old(Now()), Logout(session))
      ensures session !in sessions || fails
      ensures !fails ==> sessions == old(sessions) - {session}
      ensures users == old(users) && roles == old(roles)
    {
      if !fails {
        sessions := sessions - {session};
      }
    }

    method GrantPost(seen: Store, q: Request) returns (r: Response)
      requires q.GrantRole?
      modifies this
      ensures Now() == After(seen, old(Now()), q)
      ensures r == Done <==> GrantInserts(seen, old(Now()), q)
      ensures r == Conflict ==> ActiveRole(seen, q.user, q.department, q.role) ||
                                ActiveRole(old(Now()), q.user, q.department, q.role)
      ensures r == Done <==>
                && AdminAt(seen, q.session) && q.user in seen.users && q.user in old(users) && !q.auditFails
                && (q.role == SystemAdmin <==> q.department.None?) && (q.department.Some? ==> q.departmentOk)
                && NotHeld(seen.roles, q) && NotHeld(old(roles), q)
      ensures r == Forbidden <==> !AdminAt(seen, q.session)
      ensures users == old(users) && sessions == old(sessions)
      ensures roles == if r == Done then old(roles)[old(next) := Grant(q.user, q.department, q.role, true)] else old(roles)
    {
      GrantIs(seen, Now(), q);
      ActorIs(seen, q.session);
      hide AdminAt, NotHeld, Actor, ActiveRole;
      if Actor(seen, q.session).None? {
        return Forbidden;
      }
      if q.user !in seen.users {
        return NotFound;
      }
      if q.role == SystemAdmin {
        if q.department.Some? {
          return BadRequest;
        }
      } else {
        if q.department.None? || !q.departmentOk {
          return BadRequest;
        }
      }
      if ActiveRole(seen, q.user, q.department, q.role) {
        return Conflict;
      }
      // The transaction; returning without assigning is its rollback.
      if ActiveRole(Now(), q.user, q.department, q.role) {
        return Conflict;
      }
      if q.user !in users || q.auditFails {
        return Failed;
      }
      roles := roles[next := Grant(q.user, q.department, q.role, true)];
      audit := audit + [Entry("role.grant", next)];
      next := next + 1;
      r := Done;
    }

    /** The guarded UPDATE: one row or none. */
    method RevokeUserDepartmentRole(id: nat, user: nat) returns (affected: nat)
      modifies this`roles
      ensures affected == if Revocable(old(Now()), id, user) then 1 else 0
      ensures affected == 1 <==> MayGo(users, old(roles), id, user)
      ensures roles == if affected == 1 then old(roles)[id := old(roles)[id].(active := false)] else old(roles)
    {
      RevocableIs(Now(), id, user);
      hide MayGo, EnabledAdmins;
      if id in roles && roles[id].user == user && roles[id].active
         && (roles[id].role != SystemAdmin || |EnabledAdmins(Now())| > 1) {
        roles := roles[id := roles[id].(active := false)];
        return 1;
      }
      return 0;
    }

    method RevokePost(seen: Store, q: Request) returns (r: Response)
      requires q.RevokeRole?
      modifies this
      ensures Now() == After(seen, old(Now()), q)
      ensures r == Done <==> RevokeUpdates(seen, old(Now()), q)
      ensures r == LastAdmin ==> q.id in roles && roles[q.id].role == SystemAdmin && |EnabledAdmins(Now())| <= 1
      ensures r == Done <==>
                && AdminAt(seen, q.session) && q.user in seen.users && !q.auditFails
                && q.id in seen.roles && seen.roles[q.id].user == q.user && seen.roles[q.id].active
                && (seen.roles[q.id].role == SystemAdmin ==> seen.sessions[q.session] != Some(q.user))
                && MayGo(old(users), old(roles), q.id, q.user)
      ensures r == Forbidden <==> !AdminAt(seen, q.session)
      ensures users == old(users) && sessions == old(sessions)
      ensures roles == if r == Done then old(roles)[q.id := old(roles)[q.id].(active := false)] else old(roles)
    {
      ActorIs(seen, q.session);
      RevocableIs(Now(), q.id, q.user);
      hide AdminAt, Actor, MayGo, EnabledAdmins;
      var actor := Actor(seen, q.session);
      if actor.None? {
        return Forbidden;
      }
      if q.user !in seen.users || q.id !in seen.roles {
        return NotFound;
      }
      var row := seen.roles[q.id];
      if row.user != q.user || !row.active {
        return NotFound;
      }
      if row.role == SystemAdmin && actor == Some(q.user) {
        return BadRequest;
      }
      var before := roles;
      var affected := RevokeUserDepartmentRole(q.id, q.user);
      if affected == 0 {
        if q.id in roles && roles[q.id].user == q.user && roles[q.id].active {
          return LastAdmin;
        }
        return NotFound;
      }
      if q.auditFails {
        roles := before;
        return Failed;
      }
      audit := audit + [Entry("role.revoke", q.id)];
      r := Done;
    }

    method DisablePost(seen: Store, q: Request) returns (r: Response)
      requires q.Disable?
      modifies this
      ensures Now() == After(seen, old(Now()), q)
      ensures r == Done <==> DisableUpdates(seen, old(Now()), q)
      ensures r == Done ==> forall id | id in sessions :: sessions[id] != Some(q.user)
      ensures r == BadRequest <==> Actor(seen, q.session) == Some(q.user)
      ensures r == Done <==>
                && AdminAt(seen, q.session) && seen.sessions[q.session] != Some(q.user)
                && q.user in old(users) && old(users)[q.user] && !q.auditFails
      ensures r == Forbidden <==> !AdminAt(seen, q.session)
      ensures roles == old(roles) && users == if r == Done then old(users)[q.user := false] else old(users)
    {
      ActorIs(seen, q.session);
      hide AdminAt, Actor;
      var actor := Actor(seen, q.session);
      if actor.None? {
        return Forbidden;
      }
      if actor == Some(q.user) {
        return BadRequest;
      }
      if q.user !in users {
        return NotFound;
      }
      if !users[q.user] {
        return Conflict;
      }
      if q.auditFails {
        return Failed;
      }
      users := users[q.user := false];
      sessions := SessionsWithout(sessions, q.user);
      audit := audit + [Entry("app_user.disable", q.user)];
      r := Done;
    }

    method EnablePost(seen: Store, q: Request) returns (r: Response)
      requires q.Enable?
      modifies this
      ensures Now() == After(seen, old(Now()), q)
      ensures r == Done <==> EnableUpdates(seen, old(Now()), q)
      ensures r == Conflict ==> q.user in users && users[q.user]
      ensures r == Done <==> AdminAt(seen, q.session) && q.user in old(users) && !old(users)[q.user] && !q.auditFails
      ensures r == Forbidden <==> !AdminAt(seen, q.session)
      ensures roles == old(roles) && sessions == old(sessions)
      ensures users == if r == Done then old(users)[q.user := true] else old(users)
    {
      ActorIs(seen, q.session);
      hide AdminAt, Actor;
      if Actor(seen, q.session).None? {
        return Forbidden;
      }
      if q.user !in users {
        return NotFound;
      }
      if users[q.user] {
        return Conflict;
      }
      if q.auditFails {
        return Failed;
      }
      users := users[q.user := true];
      audit := audit + [Entry("app_user.enable", q.user)];
      r := Done;
    }
  }

  const ROLES: seq<Role> := [SystemAdmin, DepartmentSecurityAdmin, LicenseManager, Viewer, GeneralUser]

  lemma AllRoles(r: Role)
    ensures r in ROLES
  {
  }

  function RoleText(r: Role): string {
    match r
    case SystemAdmin => "system_admin"
    case DepartmentSecurityAdmin => "department_security_admin"
    case LicenseManager => "license_manager"
    case Viewer => "viewer"
    case GeneralUser => "general_user"
  }

  /** The role a stored text names, if it names one. */
  function RoleOf(text: string): (r: Option<Role>)
    ensures r.Some? ==> RoleText(r.value) == text
    ensures r.None? ==> forall known :: RoleText(known) != text
  {
    if text == "system_admin" then Some(SystemAdmin)
    else if text == "department_security_admin" then Some(DepartmentSecurityAdmin)
    else if text == "license_manager" then Some(LicenseManager)
    else if text == "viewer" then Some(Viewer)
    else if text == "general_user" then Some(GeneralUser)
    else None
  }

  lemma RoleTextsDiffer(a: Role)
    ensures forall b :: RoleText(a) == RoleText(b) <==> a == b
  {
  }

  /** The widest of a user's roles, texts of no known role aside; none means the request is forbidden. */
  method PickHighestRole(rows: seq<string>) returns (r: Option<Role>)
    ensures r.None? <==> forall known :: RoleText(known) !in rows
    ensures r.Some? ==> RoleText(r.value) in rows
    ensures r.Some? ==> forall i, j | 0 <= i < j < |ROLES| && ROLES[j] == r.value :: RoleText(ROLES[i]) !in rows
    ensures r == Some(SystemAdmin) <==> RoleText(SystemAdmin) in rows
  {
    hide RoleText, RoleOf;
    var have: set<Role> := {};
    for i := 0 to |rows|
      invariant forall x :: x in have <==> RoleText(x) in rows[..i]
    {
      var known := RoleOf(rows[i]);
      if known.Some? {
        RoleTextsDiffer(known.value);
        have := have + {known.value};
      }
    }
    assert rows[..|rows|] == rows;
    for i := 0 to |ROLES|
      invariant forall j | 0 <= j < i :: RoleText(ROLES[j]) !in rows
    {
      if ROLES[i] in have {
        assert i > 0 ==> ROLES[0] == SystemAdmin && ROLES[i] != SystemAdmin;
        return Some(ROLES[i]);
      }
    }
    forall known: Role
      ensures RoleText(known) !in rows
    {
      AllRoles(known);
    }
    return None;
  }

  // ---- what every run keeps ----

  ghost predicate TablesOk(s: Store) {
    && (forall id | id in s.roles :: id < s.next && s.roles[id].user in s.users)
    && forall i, j | i in s.roles && j in s.roles && i != j && s.roles[i].active && s.roles[j].active ::
         s.roles[i] != s.roles[j]
  }

  /** No session is bound to a disabled user. */
  ghost predicate SessionsOk(s: Store) {
    forall id | id in s.sessions && s.sessions[id].Some? :: IsEnabled(s, s.sessions[id].value)
  }

  ghost predicate Inv(s: Store) {
    TablesOk(s) && SessionsOk(s) && EnabledAdmins(s) != {}
  }

  lemma StepKeepsTables(seen: Store, s: Store, q: Request)
    requires TablesOk(s)
    ensures TablesOk(After(seen, s, q))
  {
  }

  lemma TwoAdmins(s: Store, user: nat)
    requires |EnabledAdmins(s)| > 1
    ensures exists other :: other in EnabledAdmins(s) && other != user
  {
    var rest := EnabledAdmins(s) - {user};
    if user in EnabledAdmins(s) {
      assert |rest| == |EnabledAdmins(s)| - 1;
    } else {
      assert rest == EnabledAdmins(s);
    }
    var other :| other in rest;
  }

  lemma AdminBy(s: Store, user: nat) returns (id: nat)
    requires user in EnabledAdmins(s)
    ensures id in s.roles && AdminRow(s, id) && s.roles[id].user == user
  {
    id :| id in s.roles && AdminRow(s, id) && s.roles[id].user == user;
  }

  /** Nothing but disabling can take the last enabled system admin away, however stale its reads were. */
  lemma StaleReadsAreSafe(seen: Store, s: Store, q: Request)
    requires TablesOk(s) && EnabledAdmins(s) != {} && !q.Disable?
    ensures EnabledAdmins(After(seen, s, q)) != {}
  {
    var s' := After(seen, s, q);
    var user :| user in EnabledAdmins(s);
    if q.RevokeRole? && RevokeUpdates(seen, s, q) && s.roles[q.id].role == SystemAdmin {
      TwoAdmins(s, q.user);
      user :| user in EnabledAdmins(s) && user != q.user;
    }
    var id := AdminBy(s, user);
    assert id in s'.roles && AdminRow(s', id);
    assert s'.roles[id].user in EnabledAdmins(s');
  }

  /** Disabling leaves an enabled system admin exactly when there was one besides the disabled user. */
  lemma DisableKeepsAdminIff(seen: Store, s: Store, q: Request)
    requires q.Disable? && DisableUpdates(seen, s, q)
    ensures EnabledAdmins(After(seen, s, q)) == EnabledAdmins(s) - {q.user}
    ensures EnabledAdmins(After(seen, s, q)) != {} <==> exists other :: other in EnabledAdmins(s) && other != q.user
  {
    var s' := After(seen, s, q);
    assert forall id | id in s.roles :: AdminRow(s', id) <==> AdminRow(s, id) && s.roles[id].user != q.user;
    assert EnabledAdmins(s') == EnabledAdmins(s) - {q.user};
    if other :| other in EnabledAdmins(s) && other != q.user {
      assert other in EnabledAdmins(s');
    }
  }

  /** An atomic request is made by an enabled admin, who cannot disable himself. */
  lemma ActorRemains(s: Store, q: Request)
    requires SessionsOk(s) && q.Disable? && DisableUpdates(s, s, q)
    ensures EnabledAdmins(After(s, s, q)) != {}
  {
    var actor := Actor(s, q.session).value;
    var id :| id in s.roles && s.roles[id].active && s.roles[id].user == actor && s.roles[id].role == SystemAdmin;
    assert AdminRow(s, id) && s.roles[id].user in EnabledAdmins(s);
    DisableKeepsAdminIff(s, s, q);
  }

  /** Login on stale reads keeps the sessions in order exactly when the user is still enabled. */
  lemma LoginKeepsSessionsIff(seen: Store, s: Store, q: Request)
    requires SessionsOk(s) && q.Login? && LoginBinds(seen, s, q)
    ensures SessionsOk(After(seen, s, q)) <==> IsEnabled(s, q.user)
  {
    assert After(seen, s, q).sessions[q.newId] == Some(q.user);
  }

  lemma StepKeepsInv(s: Store, q: Request)
    requires Inv(s)
    ensures Inv(After(s, s, q))
  {
    StepKeepsTables(s, s, q);
    if q.Disable? && DisableUpdates(s, s, q) {
      ActorRemains(s, q);
    } else if !q.Disable? {
      StaleReadsAreSafe(s, s, q);
    }
  }

  function Run(s: Store, requests: seq<Request>): Store {
    if requests == [] then s
    else
      var before := Run(s, requests[..|requests| - 1]);
      After(before, before, requests[|requests| - 1])
  }

  /** Every run of whole requests keeps an enabled system admin and binds no session to a disabled user. */
  lemma {:induction false} RunKeepsInv(s: Store, requests: seq<Request>)
    requires Inv(s)
    ensures Inv(Run(s, requests))
  {
    if requests != [] {
      RunKeepsInv(s, requests[..|requests| - 1]);
      StepKeepsInv(Run(s, requests[..|requests| - 1]), requests[|requests| - 1]);
    }
  }

  /** Transactions of concurrent handlers in commit order, each with whatever it had read before. */
  function Interleaved(s: Store, requests: seq<(Store, Request)>): Store {
    if requests == [] then s
    else
      var (seen, q) := requests[|requests| - 1];
      After(seen, Interleaved(s, requests[..|requests| - 1]), q)
  }

  lemma {:induction false} InterleavedKeepsAdmin(s: Store, requests: seq<(Store, Request)>)
    requires TablesOk(s) && EnabledAdmins(s) != {}
    requires forall p | p in requests :: !p.1.Disable?
    ensures TablesOk(Interleaved(s, requests)) && EnabledAdmins(Interleaved(s, requests)) != {}
  {
    if requests != [] {
      var (seen, q) := requests[|requests| - 1];
      assert requests[|requests| - 1] in requests;
      InterleavedKeepsAdmin(s, requests[..|requests| - 1]);
      StepKeepsTables(seen, Interleaved(s, requests[..|requests| - 1]), q);
      StaleReadsAreSafe(seen, Interleaved(s, requests[..|requests| - 1]), q);
    }
  }

  /** A role stays as it is unless exactly one audit entry says otherwise; so does an account. */
  lemma NoUnrecordedChange(seen: Store, s: Store, q: Request)
    ensures After(seen, s, q).users != s.users || After(seen, s, q).roles != s.roles ==>
              exists e :: After(seen, s, q).audit == s.audit + [e]
    ensures forall id | id in s.users :: id in After(seen, s, q).users
    ensures forall id | id in s.users && After(seen, s, q).users[id] != s.users[id] ::
              After(seen, s, q).audit ==
              s.audit + [Entry(if s.users[id] then "app_user.disable" else "app_user.enable", id)]
    ensures forall id | id in s.roles && id < s.next :: id in After(seen, s, q).roles
              && (After(seen, s, q).roles[id] != s.roles[id] ==>
                    After(seen, s, q).audit == s.audit + [Entry("role.revoke", id)])
  {
  }

  /**
   Sessions, request by request: a session is bound only by a login of an enabled user with the right
   password, and ends only by that, by its own logout or when its user is disabled.
   */
  lemma SessionChanges(seen: Store, s: Store, q: Request)
    ensures forall id | id in After(seen, s, q).sessions && After(seen, s, q).sessions[id].Some? ::
              || (id in s.sessions && s.sessions[id] == After(seen, s, q).sessions[id])
              || (q.Login? && q.verified && id == q.newId && After(seen, s, q).sessions[id] == Some(q.user)
                  && q.user in seen.users && seen.users[q.user])
    ensures forall id | id in s.sessions && id !in After(seen, s, q).sessions ::
              || (q.Logout? && id == q.session)
              || (q.Login? && id == q.session && q.newId in After(seen, s, q).sessions)
              || (q.Disable? && s.sessions[id] == Some(q.user) && !After(seen, s, q).users[q.user])
    ensures forall id | id in After(seen, s, q).sessions && id !in s.sessions ::
              (q.Visit? && id == q.session) || (q.Login? && id == q.newId)
    ensures q.Visit? ==> q.session in After(seen, s, q).sessions
    ensures q.Logout? ==> q.session !in After(seen, s, q).sessions
  {
  }

  // ---- who changes roles and accounts ----

  ghost predicate Changed(s: Store, s': Store) {
    s'.roles != s.roles || s'.users != s.users
  }

  predicate ByAdminPage(q: Request) {
    q.GrantRole? || q.RevokeRole? || q.Disable? || q.Enable?
  }

  /** Roles and accounts only change on a request whose session was a system admin's when it was checked. */
  lemma OnlyAdminsChange(seen: Store, s: Store, q: Request)
    requires Changed(s, After(seen, s, q))
    ensures ByAdminPage(q) && AdminAt(seen, q.session)
    ensures SessionsOk(seen) ==> IsEnabled(seen, seen.sessions[q.session].value)
  {
    if ByAdminPage(q) {
      ActorIs(seen, q.session);
    }
  }

  ghost predicate OnlyEnabledAct(seen: Store) {
    forall s, q :: ByAdminPage(q) && Changed(s, After(seen, s, q)) && AdminAt(seen, q.session) ==>
      IsEnabled(seen, seen.sessions[q.session].value)
  }

  /**
   The check does not look at accounts: that only enabled users pass it holds exactly while no session is
   bound to a disabled system admin.
   */
  lemma OnlyEnabledActIff(seen: Store)
    ensures OnlyEnabledAct(seen) <==>
              forall session | AdminAt(seen, session) :: IsEnabled(seen, seen.sessions[session].value)
  {
    if session :| AdminAt(seen, session) && !IsEnabled(seen, seen.sessions[session].value) {
      var user := seen.sessions[session].value;
      var s, q := Store(map[user := false], map[], map[], [], 0), Enable(session, user, false);
      ActorIs(seen, session);
      assert After(seen, s, q).users[user] && Changed(s, After(seen, s, q));
    }
  }

  /** However the requests interleave, whoever changed roles or accounts was system admin when that was checked. */
  lemma InterleavedByAdmins(s: Store, requests: seq<(Store, Request)>, k: nat)
    requires k < |requests|
    requires Changed(Interleaved(s, requests[..k]), Interleaved(s, requests[..k + 1]))
    ensures ByAdminPage(requests[k].1) && AdminAt(requests[k].0, requests[k].1.session)
    ensures SessionsOk(requests[k].0) ==> IsEnabled(requests[k].0, requests[k].0.sessions[requests[k].1.session].value)
  {
    assert requests[..k + 1][..k] == requests[..k];
    var (seen, q) := requests[k];
    hide After, AdminAt;
    assert Interleaved(s, requests[..k + 1]) == After(seen, Interleaved(s, requests[..k]), q);
    OnlyAdminsChange(seen, Interleaved(s, requests[..k]), q);
  }

  // ---- what interleaving breaks ----

  function TwoAdminStore(): Store {
    Store(map[1 := true, 2 := true],
          map[1 := Grant(1, None, SystemAdmin, true), 2 := Grant(2, None, SystemAdmin, true)],
          map[11 := Some(1), 12 := Some(2), 13 := None], [], 3)
  }

  lemma TwoAdminsAre(s: Store)
    requires s == TwoAdminStore()
    ensures Inv(s) && Actor(s, 11) == Some(1) && Actor(s, 12) == Some(2)
  {
    assert AdminRow(s, 1) && s.roles[1].user in EnabledAdmins(s);
    assert HoldsAdminRole(s, 1) by { assert s.roles[1].active; }
    assert HoldsAdminRole(s, 2) by { assert s.roles[2].active; }
  }

  lemma InterleavedTwo(s: Store, p: (Store, Request), q: (Store, Request))
    ensures Interleaved(s, [p, q]) == After(q.0, After(p.0, s, p.1), q.1)
  {
    assert [p, q][..1] == [p] && [p][..0] == [];
    hide After;
    assert Interleaved(s, [p]) == After(p.0, Interleaved(s, []), p.1);
  }

  /** Two admins who disable each other at the same time leave none. */
  lemma MutualDisable()
    ensures Inv(TwoAdminStore())
    ensures var s := TwoAdminStore();
            EnabledAdmins(Interleaved(s, [(s, Disable(11, 2, false)), (s, Disable(12, 1, false))])) == {}
  {
    var s := TwoAdminStore();
    TwoAdminsAre(s);
    InterleavedTwo(s, (s, Disable(11, 2, false)), (s, Disable(12, 1, false)));
    hide Actor, Inv, Interleaved;
    var s1 := After(s, s, Disable(11, 2, false));
    assert s1.users == map[1 := true, 2 := false];
    var s2 := After(s, s1, Disable(12, 1, false));
    assert s2.users == map[1 := false, 2 := false];
  }

  /** A login that checked the password before the account was disabled still gets its session. */
  lemma LoginRace()
    ensures var s := TwoAdminStore();
            !SessionsOk(Interleaved(s, [(s, Disable(11, 2, false)), (s, Login(13, 2, true, 14))]))
  {
    var s := TwoAdminStore();
    TwoAdminsAre(s);
    InterleavedTwo(s, (s, Disable(11, 2, false)), (s, Login(13, 2, true, 14)));
    hide Actor, Inv, Interleaved;
    var s1 := After(s, s, Disable(11, 2, false));
    assert s1.users == map[1 := true, 2 := false];
    var s2 := After(s, s1, Login(13, 2, true, 14));
    assert s2.sessions[14] == Some(2) && !IsEnabled(s2, 2);
  }

  /** Such a session lets the disabled admin enable himself again. */
  lemma DisabledAdminActs()
    ensures var s := TwoAdminStore();
            var raced := Interleaved(s, [(s, Disable(11, 2, false)), (s, Login(13, 2, true, 14))]);
            !IsEnabled(raced, 2) && AdminAt(raced, 14) && IsEnabled(After(raced, raced, Enable(14, 2, false)), 2)
  {
    var s := TwoAdminStore();
    TwoAdminsAre(s);
    InterleavedTwo(s, (s, Disable(11, 2, false)), (s, Login(13, 2, true, 14)));
    hide Actor, Inv, Interleaved;
    var s1 := After(s, s, Disable(11, 2, false));
    assert s1.users == map[1 := true, 2 := false];
    var s2 := After(s, s1, Login(13, 2, true, 14));
    assert s2.users == s1.users && s2.roles == s.roles && s2.sessions[14] == Some(2);
    assert s2.roles[2].active && s2.roles[2].role == SystemAdmin && s2.roles[2].user == 2;
    ActorIs(s2, 14);
  }
}
