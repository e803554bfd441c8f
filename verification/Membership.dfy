/** Organizations, workspaces, members, roles and invitations, row by row.

    "Organization admin" is stored nowhere: it means ADMIN in every live workspace. */
module Membership {
  import opened Common

  datatype Role = Admin | Manager | Plain

  /** Soft-deleted rows stay, not live. */
  datatype Workspace = Workspace(org: Id, live: bool)

  /** A `workspace_users` row; `active` is neither disabled nor deleted. */
  datatype Member = Member(ws: Id, profile: Id, active: bool)

  datatype Assignment = Assignment(ws: Id, member: Id, role: Role, live: bool)

  datatype InvitationStatus = Pending | Accepted | Revoked | Expired

  datatype Invitation = Invitation(ws: Id, email: string, role: Role, status: InvitationStatus, expiresAt: int)

  /** `emails` holds the profiles, with their trimmed lower-case address if they have one. */
  datatype State = State(
    emails: map<Id, Option<string>>,
    orgs: map<Id, bool>,
    workspaces: map<Id, Workspace>,
    members: map<Id, Member>,
    roles: map<Id, Assignment>,
    invitations: map<Id, Invitation>)

  // ---- queries --------------------------------------------------------------------------

  predicate LiveOrg(s: State, org: Id) { org in s.orgs && s.orgs[org] }

  predicate LiveWorkspace(s: State, w: Id) { w in s.workspaces && s.workspaces[w].live }

  /** `liveOrganizationWorkspaceIds`. */
  function LiveWorkspaces(s: State, org: Id): set<Id> {
    set w | w in s.workspaces && s.workspaces[w] == Workspace(org, true)
  }

  function Memberships(s: State, w: Id, p: Id): set<Id> {
    set m | m in s.members && s.members[m] == Member(w, p, true)
  }

  /** The membership row of a profile, if it has one; the unique index allows only one. */
  function MembershipOf(s: State, w: Id, p: Id): (m: Option<Id>)
    ensures m.Some? ==> m.value in s.members && s.members[m.value] == Member(w, p, true)
    ensures m.None? ==> forall k | k in s.members :: s.members[k] != Member(w, p, true)
  {
    var rows := Memberships(s, w, p);
    assert forall k | k in s.members && s.members[k] == Member(w, p, true) :: k in rows;
    if rows == {} then None else Some(MinOf(rows))
  }

  function LiveRoles(s: State, w: Id, m: Id): set<Id> {
    set r | r in s.roles && s.roles[r].live && s.roles[r].ws == w && s.roles[r].member == m
  }

  predicate HasRole(s: State, w: Id, m: Id, role: Role) {
    exists r | r in s.roles :: s.roles[r] == Assignment(w, m, role, true)
  }

  /** An active membership joined with a live ADMIN row. */
  predicate AdminBy(s: State, p: Id, w: Id, m: Id, r: Id) {
    && m in s.members && s.members[m] == Member(w, p, true)
    && r in s.roles && s.roles[r] == Assignment(w, m, Admin, true)
  }

  /** `profileIsWorkspaceAdmin`. */
  predicate AdminIn(s: State, p: Id, w: Id) {
    exists m, r | m in s.members && r in s.roles :: AdminBy(s, p, w, m, r)
  }

  // ---- what every state keeps -----------------------------------------------------------

  ghost predicate Rows(s: State) {
    && (forall m | m in s.members :: s.members[m].ws in s.workspaces)
    && (forall r | r in s.roles && s.roles[r].live ::
          && s.roles[r].member in s.members && s.members[s.roles[r].member].active
          && s.members[s.roles[r].member].ws == s.roles[r].ws)
    && (forall m, n | m in s.members && n in s.members && s.members[m].active && s.members[m] == s.members[n] :: m == n)
  }

  ghost predicate Sole(s: State, m: Id, r: Id) {
    && r in s.roles && s.roles[r].live && s.roles[r].member == m
    && forall q | q in s.roles && s.roles[q].live && s.roles[q].member == m :: q == r
  }

  /** Every active member holds exactly one live role. */
  ghost predicate OneRoleEach(s: State) {
    forall m | m in s.members && s.members[m].active :: exists r :: Sole(s, m, r)
  }

  /** Every live workspace has an active ADMIN. */
  ghost predicate Administered(s: State) {
    forall w | LiveWorkspace(s, w) :: exists p :: AdminIn(s, p, w)
  }

  /** Live organizations are those with a live workspace. */
  ghost predicate Housed(s: State) {
    && (forall w | LiveWorkspace(s, w) :: LiveOrg(s, s.workspaces[w].org))
    && (forall org | LiveOrg(s, org) :: LiveWorkspaces(s, org) != {})
    && (forall w | w in s.workspaces :: s.workspaces[w].org in s.orgs)
    && (forall i | i in s.invitations :: s.invitations[i].ws in s.workspaces)
  }

  ghost predicate Inv(s: State) {
    Rows(s) && OneRoleEach(s) && Administered(s) && Housed(s)
  }

  // ---- writing members and roles --------------------------------------------------------

  /** The ids of the rows an insertion draws. */
  datatype NewRows = NewRows(member: Id, role: Id)

  function WithMember(s: State, w: Id, p: Id, role: Role, rows: NewRows): State {
    s.(members := s.members[rows.member := Member(w, p, true)],
       roles := s.roles[rows.role := Assignment(w, rows.member, role, true)])
  }

  function WithoutRoles(roles: map<Id, Assignment>, w: Id, m: Id): map<Id, Assignment> {
    map r | r in roles :: if roles[r].ws == w && roles[r].member == m then roles[r].(live := false) else roles[r]
  }

  /** `setSoleRoleAssignment`: nothing when the member already holds exactly that role. */
  function WithSoleRole(s: State, w: Id, m: Id, role: Role, row: Id): State {
    if |LiveRoles(s, w, m)| == 1 && HasRole(s, w, m, role) then s
    else s.(roles := WithoutRoles(s.roles, w, m)[row := Assignment(w, m, role, true)])
  }

  function Disabled(s: State, w: Id, m: Id): State
    requires m in s.members
  {
    s.(members := s.members[m := s.members[m].(active := false)], roles := WithoutRoles(s.roles, w, m))
  }

  ghost predicate FreshRows(s: State, rows: NewRows) {
    rows.member !in s.members && rows.role !in s.roles
  }

  /** A new member: the tables stay sound, and who is ADMIN changes for that member only. */
  lemma WithMemberEffect(s: State, w: Id, p: Id, role: Role, rows: NewRows)
    requires Rows(s) && OneRoleEach(s) && FreshRows(s, rows)
    requires w in s.workspaces && MembershipOf(s, w, p).None?
    ensures var t := WithMember(s, w, p, role, rows); Rows(t) && OneRoleEach(t)
  {
    var t := WithMember(s, w, p, role, rows);
    assert Sole(t, rows.member, rows.role);
    forall m | m in t.members && t.members[m].active ensures exists r :: Sole(t, m, r) {
      if m != rows.member {
        var r :| Sole(s, m, r);
        assert Sole(t, m, r);
      }
    }
  }

  lemma ByWithMember(s: State, w: Id, p: Id, role: Role, rows: NewRows, q: Id, v: Id, m: Id, r: Id)
    requires Rows(s) && FreshRows(s, rows)
    ensures AdminBy(WithMember(s, w, p, role, rows), q, v, m, r) <==>
            AdminBy(s, q, v, m, r) || (m == rows.member && r == rows.role && role == Admin && q == p && v == w)
  {
  }

  lemma AdminExists(s: State, p: Id, w: Id)
    ensures AdminIn(s, p, w) <==> exists m, r :: AdminBy(s, p, w, m, r)
  {
  }

  lemma WithMemberAdmins(s: State, w: Id, p: Id, role: Role, rows: NewRows, q: Id, v: Id)
    requires Rows(s) && FreshRows(s, rows)
    ensures AdminIn(WithMember(s, w, p, role, rows), q, v) <==> AdminIn(s, q, v) || (role == Admin && q == p && v == w)
  {
    hide Rows, AdminBy, WithMember;
    var t := WithMember(s, w, p, role, rows);
    forall m, r ensures AdminBy(t, q, v, m, r) <==>
      AdminBy(s, q, v, m, r) || (m == rows.member && r == rows.role && role == Admin && q == p && v == w) {
      ByWithMember(s, w, p, role, rows, q, v, m, r);
    }
    AdminExists(s, q, v);
    AdminExists(t, q, v);
    assert role == Admin && q == p && v == w ==> AdminBy(t, q, v, rows.member, rows.role);
  }

  lemma SoleIsLiveRoles(s: State, w: Id, m: Id, r: Id)
    requires Rows(s) && m in s.members && s.members[m].ws == w && Sole(s, m, r)
    ensures LiveRoles(s, w, m) == {r} && s.roles[r].ws == w
  {
  }

  /** Replacing a member's role: the tables stay sound, and the member is ADMIN exactly if that is
      the new role. */
  lemma WithSoleRoleEffect(s: State, w: Id, m: Id, role: Role, row: Id)
    requires Rows(s) && OneRoleEach(s) && row !in s.roles
    requires m in s.members && s.members[m].active && s.members[m].ws == w
    ensures var t := WithSoleRole(s, w, m, role, row); Rows(t) && OneRoleEach(t)
  {
    var t := WithSoleRole(s, w, m, role, row);
    if t != s {
      assert Sole(t, m, row);
      forall n | n in t.members && t.members[n].active ensures exists r :: Sole(t, n, r) {
        if n != m {
          var r :| Sole(s, n, r);
          assert Sole(t, n, r);
        }
      }
    }
  }

  lemma ByWithSoleRole(s: State, w: Id, m: Id, role: Role, row: Id, q: Id, v: Id, n: Id, r: Id)
    requires Rows(s) && row !in s.roles && !(|LiveRoles(s, w, m)| == 1 && HasRole(s, w, m, role))
    requires m in s.members && s.members[m].active && s.members[m].ws == w
    ensures AdminBy(WithSoleRole(s, w, m, role, row), q, v, n, r) <==>
            if q == s.members[m].profile && v == w then n == m && r == row && role == Admin else AdminBy(s, q, v, n, r)
  {
    hide HasRole, LiveRoles;
  }

  lemma BySole(s: State, m: Id, only: Id, n: Id, r: Id)
    requires Rows(s) && m in s.members && s.members[m].active && Sole(s, m, only)
    ensures AdminBy(s, s.members[m].profile, s.members[m].ws, n, r) <==>
            n == m && r == only && s.roles[only].role == Admin
  {
  }

  lemma AlreadySole(s: State, w: Id, m: Id, role: Role, row: Id)
    requires |LiveRoles(s, w, m)| == 1 && HasRole(s, w, m, role)
    ensures WithSoleRole(s, w, m, role, row) == s
  {
  }

  lemma WithSoleRoleAdmins(s: State, w: Id, m: Id, role: Role, row: Id, q: Id, v: Id)
    requires Rows(s) && OneRoleEach(s) && row !in s.roles
    requires m in s.members && s.members[m].active && s.members[m].ws == w
    ensures AdminIn(WithSoleRole(s, w, m, role, row), q, v) <==>
            if q == s.members[m].profile && v == w then role == Admin else AdminIn(s, q, v)
  {
    hide Rows, AdminBy, WithSoleRole, AdminIn;
    var t, p := WithSoleRole(s, w, m, role, row), s.members[m].profile;
    var only: Id :| Sole(s, m, only);
    SoleIsLiveRoles(s, w, m, only);
    AdminExists(s, q, v);
    AdminExists(t, q, v);
    if |LiveRoles(s, w, m)| == 1 && HasRole(s, w, m, role) {
      AlreadySole(s, w, m, role, row);
      forall n, r | q == p && v == w ensures AdminBy(s, q, v, n, r) <==> n == m && r == only && role == Admin {
        BySole(s, m, only, n, r);
      }
      assert q == p && v == w && role == Admin ==> AdminBy(t, q, v, m, only);
    } else {
      forall n, r ensures AdminBy(t, q, v, n, r) <==>
                          if q == p && v == w then n == m && r == row && role == Admin else AdminBy(s, q, v, n, r) {
        ByWithSoleRole(s, w, m, role, row, q, v, n, r);
      }
      assert q == p && v == w && role == Admin ==> AdminBy(t, q, v, m, row);
    }
  }

  /** Removing a member: the tables stay sound, and only that member ceases to be ADMIN. */
  lemma DisabledEffect(s: State, w: Id, m: Id)
    requires Rows(s) && OneRoleEach(s)
    requires m in s.members && s.members[m].active && s.members[m].ws == w
    ensures var t := Disabled(s, w, m); Rows(t) && OneRoleEach(t)
  {
    var t := Disabled(s, w, m);
    forall n | n in t.members && t.members[n].active ensures exists r :: Sole(t, n, r) {
      var r: Id :| Sole(s, n, r);
      assert Sole(t, n, r);
    }
  }

  lemma ByDisabled(s: State, w: Id, m: Id, q: Id, v: Id, n: Id, r: Id)
    requires Rows(s) && m in s.members && s.members[m].active && s.members[m].ws == w
    ensures AdminBy(Disabled(s, w, m), q, v, n, r) <==>
            AdminBy(s, q, v, n, r) && !(q == s.members[m].profile && v == w)
  {
  }

  lemma DisabledAdmins(s: State, w: Id, m: Id, q: Id, v: Id)
    requires Rows(s) && m in s.members && s.members[m].active && s.members[m].ws == w
    ensures AdminIn(Disabled(s, w, m), q, v) <==> AdminIn(s, q, v) && !(q == s.members[m].profile && v == w)
  {
    hide Rows, AdminBy, Disabled, AdminIn;
    forall n, r ensures AdminBy(Disabled(s, w, m), q, v, n, r) <==>
                        AdminBy(s, q, v, n, r) && !(q == s.members[m].profile && v == w) {
      ByDisabled(s, w, m, q, v, n, r);
    }
    AdminExists(s, q, v);
    AdminExists(Disabled(s, w, m), q, v);
  }

  /** An active member is ADMIN exactly if its profile is. */
  lemma MemberIsAdmin(s: State, w: Id, m: Id)
    requires Rows(s) && m in s.members && s.members[m].active && s.members[m].ws == w
    ensures HasRole(s, w, m, Admin) <==> AdminIn(s, s.members[m].profile, w)
  {
    var p := s.members[m].profile;
    if HasRole(s, w, m, Admin) {
      var r: Id :| r in s.roles && s.roles[r] == Assignment(w, m, Admin, true);
      assert AdminBy(s, p, w, m, r);
    }
    AdminExists(s, p, w);
    forall n, r | AdminBy(s, p, w, n, r) ensures n == m {}
  }
}
