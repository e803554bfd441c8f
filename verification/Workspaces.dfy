/** The requests that change who belongs to a workspace and as what: the gate a request reads first,
    the transaction it runs later, and what every run of transactions keeps. */
module Workspaces {
  import opened Common
  import opened Membership
  import opened OrgAdmins

  const INVITATION_TTL: int := 14 * 24 * 60 * 60 * 1000

  /** A request: the actor is a profile, `role` is absent when the key is unknown, `order` is the
      order in which a query listed its rows, and the ids are those the request draws. */
  datatype Request =
    | Onboard(actor: Id, named: bool, org: Id, ws: Id, rows: NewRows)
    | CreateWorkspace(actor: Id, org: Id, named: bool, ws: Id, order: seq<Id>, drawn: map<Id, NewRows>)
    | DeleteWorkspace(actor: Id, ws: Id)
    | Invite(actor: Id, ws: Id, email: string, role: Option<Role>, invitation: Id, now: int)
    | Revoke(actor: Id, ws: Id, invitation: Id)
    | Accept(actor: Id, invitation: Id, now: int, rows: NewRows)
    | UpdateRole(actor: Id, ws: Id, member: Id, role: Option<Role>, row: Id)
    | RemoveMember(actor: Id, ws: Id, member: Id)
    | AddOrganizationAdmin(actor: Id, org: Id, target: Id, order: seq<Id>, drawn: map<Id, NewRows>)
    | RemoveOrganizationAdmin(actor: Id, org: Id, target: Id, order: seq<Id>, drawn: map<Id, NewRows>)

  /** The HTTP status answered and the state left; an expired invitation answers 410 and is still
      recorded as expired. */
  datatype Outcome = Outcome(status: nat, state: State)

  const OK: nat := 200

  /** `findActiveMembershipId`: a membership in a deleted workspace is not a membership. */
  function ActiveMembership(s: State, w: Id, p: Id): Option<Id> {
    if LiveWorkspace(s, w) then MembershipOf(s, w, p) else None
  }

  /** `requireWorkspaceManager`: whether the actor, who is at least a manager, is an ADMIN. */
  function ManagerGate(s: State, actor: Id, w: Id): Result<bool> {
    match ActiveMembership(s, w, actor)
    case None => Err(404)
    case Some(m) =>
      if HasRole(s, w, m, Admin) then Ok(true) else if HasRole(s, w, m, Manager) then Ok(false) else Err(403)
  }

  function WithWorkspace(s: State, org: Id, w: Id): State {
    s.(orgs := s.orgs[org := true], workspaces := s.workspaces[w := Workspace(org, true)])
  }

  predicate BelongsSomewhere(s: State, p: Id) {
    exists m | m in s.members :: s.members[m].profile == p && s.members[m].active && LiveWorkspace(s, s.members[m].ws)
  }

  predicate BelongsTo(s: State, p: Id, org: Id) {
    exists m | m in s.members ::
      s.members[m].profile == p && s.members[m].active && s.members[m].ws in LiveWorkspaces(s, org)
  }

  function ActiveMembers(s: State, w: Id): set<Id> {
    set m | m in s.members && s.members[m].active && s.members[m].ws == w
  }

  /** `countActiveWorkspaceAdmins` counts these. */
  function ActiveAdmins(s: State, w: Id): set<Id> {
    set m | m in ActiveMembers(s, w) && HasRole(s, w, m, Admin)
  }

  /** `assertNotLastWorkspaceAdmin` throws. */
  predicate IsLastAdmin(s: State, w: Id, m: Id) {
    HasRole(s, w, m, Admin) && |ActiveAdmins(s, w)| <= 1
  }

  /** The tombstone, and the organization's if that was its last live workspace. */
  function WithoutWorkspace(s: State, w: Id): State
    requires w in s.workspaces
  {
    var org := s.workspaces[w].org;
    var t := s.(workspaces := s.workspaces[w := Workspace(org, false)]);
    if LiveWorkspaces(t, org) == {} && LiveOrg(t, org) then t.(orgs := t.orgs[org := false]) else t
  }

  predicate HasMemberWithEmail(s: State, w: Id, email: string) {
    exists m | m in ActiveMembers(s, w) ::
      s.members[m].profile in s.emails && s.emails[s.members[m].profile] == Some(email)
  }

  /** A pending invitation to the same address is superseded. */
  function Invited(s: State, w: Id, email: string, role: Role, id: Id, now: int): State {
    var kept := map i | i in s.invitations ::
      var v := s.invitations[i];
      if v.ws == w && v.email == email && v.status == Pending then v.(status := Revoked) else v;
    s.(invitations := kept[id := Invitation(w, email, role, Pending, now + INVITATION_TTL)])
  }

  /** The membership an accepted invitation leads to: the one there is, with its roles, or a new one. */
  function Joined(s: State, w: Id, p: Id, role: Role, rows: NewRows): State {
    match MembershipOf(s, w, p)
    case None => WithMember(s, w, p, role, rows)
    case Some(m) =>
      if LiveRoles(s, w, m) != {} then s
      else s.(roles := s.roles[rows.role := Assignment(w, m, role, true)])
  }

  function Mark(s: State, i: Id, status: InvitationStatus): State
    requires i in s.invitations
  {
    s.(invitations := s.invitations[i := s.invitations[i].(status := status)])
  }

  predicate IsActiveMember(s: State, w: Id, m: Id) {
    m in s.members && s.members[m].active && s.members[m].ws == w
  }

  // ---- what is read before the transaction ------------------------------------------------

  /** `requireWorkspaceAdmin`. */
  function AdminGate(s: State, actor: Id, w: Id): Result<bool> {
    match ActiveMembership(s, w, actor)
    case None => Err(404)
    case Some(m) => if HasRole(s, w, m, Admin) then Ok(true) else Err(403)
  }

  function InviteGate(s: State, r: Request): Result<bool>
    requires r.Invite?
  {
    var gate := ManagerGate(s, r.actor, r.ws);
    if gate.Err? then gate
    else if r.email == "" || '@' !in r.email then Err(400)
    else if r.role.None? then Err(400)
    else if r.role.value == Admin && !gate.value then Err(403)
    else if HasMemberWithEmail(s, r.ws, r.email) then Err(409)
    else gate
  }

  function RoleGate(s: State, r: Request): Result<bool>
    requires r.UpdateRole?
  {
    var gate := ManagerGate(s, r.actor, r.ws);
    if gate.Err? then gate
    else if r.role.None? then Err(400)
    else if r.role.value == Admin && !gate.value then Err(403)
    else gate
  }

  /** What `removeOrganizationAdmin` checks before its transaction. */
  function RemovalCheck(s: State, actor: Id, org: Id, target: Id): nat {
    if !LiveOrg(s, org) then 404
    else if actor !in ListOrganizationAdmins(s, org) then 403
    else if target !in ListOrganizationAdmins(s, org) then 404
    else if |ListOrganizationAdmins(s, org)| <= 1 then 409
    else OK
  }

  /** What a gate that let the request through says of it in any later state: the role is known, and
      is ADMIN only if the actor was captured as ADMIN. */
  predicate Admitted(r: Request, isAdmin: bool) {
    r.Invite? || r.UpdateRole? ==> r.role.Some? && (r.role.value == Admin ==> isAdmin)
  }

  /** The refusal, or whether the actor is let through as an ADMIN.  Onboarding and accepting check
      everything inside their transaction. */
  function Gate(s: State, r: Request): (g: Result<bool>)
    ensures g.Ok? ==> Admitted(r, g.value)
  {
    match r
    case Onboard(_, _, _, _, _) => Ok(false)
    case CreateWorkspace(actor, org, _, _, _, _) =>
      if actor in ListOrganizationAdmins(s, org) then Ok(true) else Err(403)
    case DeleteWorkspace(actor, w) => AdminGate(s, actor, w)
    case Invite(_, _, _, _, _, _) => InviteGate(s, r)
    case Revoke(actor, w, _) => ManagerGate(s, actor, w)
    case Accept(_, _, _, _) => Ok(false)
    case UpdateRole(_, _, _, _, _) => RoleGate(s, r)
    case RemoveMember(actor, w, _) => ManagerGate(s, actor, w)
    case AddOrganizationAdmin(actor, org, _, _, _) =>
      if !LiveOrg(s, org) then Err(404)
      else if actor in ListOrganizationAdmins(s, org) then Ok(true) else Err(403)
    case RemoveOrganizationAdmin(actor, org, target, _, _) =>
      var status := RemovalCheck(s, actor, org, target);
      if status == OK then Ok(true) else Err(status)
  }

  // ---- the transactions -------------------------------------------------------------------

  function Onboarded(s: State, r: Request): Outcome
    requires r.Onboard?
  {
    if BelongsSomewhere(s, r.actor) then Outcome(409, s)
    else if !r.named then Outcome(400, s)
    else Outcome(OK, WithMember(WithWorkspace(s, r.org, r.ws), r.ws, r.actor, Admin, r.rows))
  }

  function Created(s: State, r: Request): Outcome
    requires r.CreateWorkspace? && (forall p | p in [r.actor] + r.order :: p in r.drawn)
  {
    if !r.named then Outcome(400, s)
    else if !LiveOrg(s, r.org) then Outcome(404, s)
    else Outcome(OK, JoinAll(WithWorkspace(s, r.org, r.ws), r.ws, [r.actor] + r.order, r.drawn))
  }

  function Deleted(s: State, w: Id): Outcome {
    if LiveWorkspace(s, w) then Outcome(OK, WithoutWorkspace(s, w)) else Outcome(404, s)
  }

  function InviteRevoked(s: State, w: Id, i: Id): Outcome {
    if i !in s.invitations || s.invitations[i].ws != w then Outcome(404, s)
    else if s.invitations[i].status != Pending then Outcome(OK, s)
    else Outcome(OK, Mark(s, i, Revoked))
  }

  /** Joining a deleted workspace one still has a row in breaks the unique index and is rolled back;
      joining any other deleted workspace is committed, and then answered 500 all the same because
      the workspace cannot be loaded. */
  function InviteAccepted(s: State, r: Request): Outcome
    requires r.Accept?
  {
    if r.invitation !in s.invitations then Outcome(404, s)
    else
      var v := s.invitations[r.invitation];
      if v.status != Pending then Outcome(409, s)
      else if v.expiresAt <= r.now then Outcome(410, Mark(s, r.invitation, Expired))
      else if r.actor !in s.emails || s.emails[r.actor] != Some(v.email) then Outcome(403, s)
      else if ActiveMembership(s, v.ws, r.actor) != MembershipOf(s, v.ws, r.actor) then Outcome(500, s)
      else Outcome(if LiveWorkspace(s, v.ws) then OK else 500,
                   Mark(Joined(s, v.ws, r.actor, v.role, r.rows), r.invitation, Accepted))
  }

  function RoleUpdated(s: State, r: Request, isAdmin: bool): Outcome
    requires r.UpdateRole? && r.role.Some?
  {
    if !IsActiveMember(s, r.ws, r.member) then Outcome(404, s)
    else if HasRole(s, r.ws, r.member, Admin) && !isAdmin then Outcome(403, s)
    else if r.role.value != Admin && IsLastAdmin(s, r.ws, r.member) then Outcome(409, s)
    else Outcome(OK, WithSoleRole(s, r.ws, r.member, r.role.value, r.row))
  }

  function MemberRemoved(s: State, w: Id, m: Id, isAdmin: bool): Outcome {
    if !IsActiveMember(s, w, m) then Outcome(404, s)
    else if HasRole(s, w, m, Admin) && !isAdmin then Outcome(403, s)
    else if IsLastAdmin(s, w, m) then Outcome(409, s)
    else if |ActiveMembers(s, w)| <= 1 then Outcome(409, s)
    else Outcome(OK, Disabled(s, w, m))
  }

  function AdminAdded(s: State, r: Request): Outcome
    requires r.AddOrganizationAdmin? && (forall w | w in r.order :: w in r.drawn)
  {
    if r.target !in s.emails then Outcome(404, s)
    else if LiveWorkspaces(s, r.org) == {} then Outcome(404, s)
    else if !BelongsTo(s, r.target, r.org) then Outcome(400, s)
    else Outcome(OK, GrantAll(s, r.target, r.order, r.drawn))
  }

  /** The ids a transaction draws are unused, and `order` lists what its query returns. */
  ghost predicate Possible(s: State, r: Request) {
    match r
    case Onboard(_, _, org, ws, rows) => org !in s.orgs && ws !in s.workspaces && FreshRows(s, rows)
    case CreateWorkspace(actor, org, _, ws, order, drawn) =>
      && ws !in s.workspaces
      && Elements(order) == ListOrganizationAdmins(s, org) - {actor}
      && FreshFor(s, [actor] + order, drawn)
    case Invite(_, _, _, _, invitation, _) => invitation !in s.invitations
    case Accept(_, _, _, rows) => FreshRows(s, rows)
    case UpdateRole(_, _, _, _, row) => row !in s.roles
    case AddOrganizationAdmin(_, org, _, order, drawn) =>
      Elements(order) == LiveWorkspaces(s, org) && FreshFor(s, order, drawn)
    case RemoveOrganizationAdmin(_, org, _, order, drawn) =>
      Elements(order) == LiveWorkspaces(s, org) && FreshFor(s, order, drawn)
    case _ => true
  }

  /** The transaction of a request whose gate let it through, on whatever state it finds. */
  function Transact(s: State, r: Request, isAdmin: bool): Outcome
    requires Possible(s, r) && Admitted(r, isAdmin)
  {
    match r
    case Onboard(_, _, _, _, _) => Onboarded(s, r)
    case CreateWorkspace(_, _, _, _, _, _) => Created(s, r)
    case DeleteWorkspace(_, w) => Deleted(s, w)
    case Invite(_, w, email, role, i, now) => Outcome(OK, Invited(s, w, email, role.value, i, now))
    case Revoke(_, w, i) => InviteRevoked(s, w, i)
    case Accept(_, _, _, _) => InviteAccepted(s, r)
    case UpdateRole(_, _, _, _, _) => RoleUpdated(s, r, isAdmin)
    case RemoveMember(_, w, m) => MemberRemoved(s, w, m, isAdmin)
    case AddOrganizationAdmin(_, _, _, _, _) => AdminAdded(s, r)
    case RemoveOrganizationAdmin(_, _, target, order, drawn) => Outcome(OK, DemoteAll(s, target, order, drawn))
  }

  /** A gate has let the request through, at this or any earlier moment.  The workspace an invitation
      is for exists then, and no row is ever erased. */
  ghost predicate MayTransact(s: State, r: Request, isAdmin: bool) {
    && Possible(s, r) && Admitted(r, isAdmin)
    && (r.Invite? ==> r.ws in s.workspaces)
  }

  /** Another ADMIN than `target` in every live workspace of the organization. */
  ghost predicate OthersAdminister(s: State, org: Id, target: Id) {
    forall w | w in LiveWorkspaces(s, org) :: exists p :: p != target && AdminIn(s, p, w)
  }

  /** The condition under which a transaction keeps every live workspace administered. */
  ghost predicate Unopposed(s: State, r: Request) {
    r.RemoveOrganizationAdmin? ==> OthersAdminister(s, r.org, r.target)
  }

  /** A request that nothing interrupts. */
  function Apply(s: State, r: Request): Outcome
    requires Possible(s, r)
  {
    match Gate(s, r)
    case Err(status) => Outcome(status, s)
    case Ok(isAdmin) => Transact(s, r, isAdmin)
  }

  // ---- what a step does to who is ADMIN --------------------------------------------------

  lemma AdminRowsOnly(s: State, t: State)
    requires s.members == t.members && s.roles == t.roles
    ensures forall q, v :: AdminIn(t, q, v) <==> AdminIn(s, q, v)
    ensures Sound(s) ==> OneRoleEach(t)
    ensures Sound(s) && s.workspaces.Keys <= t.workspaces.Keys ==> Sound(t)
  {
    forall q, v ensures AdminIn(t, q, v) <==> AdminIn(s, q, v) {
      AdminExists(s, q, v);
      AdminExists(t, q, v);
      assert forall m, r :: AdminBy(t, q, v, m, r) <==> AdminBy(s, q, v, m, r);
    }
    forall m | Sound(s) && m in t.members && t.members[m].active ensures exists r :: Sole(t, m, r) {
      var r: Id :| Sole(s, m, r);
      assert Sole(t, m, r);
    }
  }

  lemma NoMemberYet(s: State, t: State, w: Id, p: Id)
    requires Rows(s) && w !in s.workspaces && t.members == s.members
    ensures MembershipOf(t, w, p).None?
  {
  }

  lemma StillFresh(s: State, t: State, keys: seq<Id>, rows: map<Id, NewRows>)
    requires FreshFor(s, keys, rows) && t.members == s.members && t.roles == s.roles
    ensures FreshFor(t, keys, rows) && forall k | k in keys :: k in rows
  {
  }

  lemma InvitationsHoused(s: State)
    requires Housed(s)
    ensures forall i | i in s.invitations :: s.invitations[i].ws in s.workspaces
  {
  }

  lemma FoundedIsHoused(s: State, t: State, org: Id, w: Id)
    requires Housed(s) && w !in s.workspaces && t.invitations == s.invitations
    requires t.orgs == s.orgs[org := true] && t.workspaces == s.workspaces[w := Workspace(org, true)]
    ensures Housed(t)
  {
    forall o | LiveOrg(t, o) ensures LiveWorkspaces(t, o) != {} {
      if o == org {
        assert w in LiveWorkspaces(t, o);
      } else {
        HasElement(LiveWorkspaces(s, o));
        var v :| v in LiveWorkspaces(s, o);
        assert v in LiveWorkspaces(t, o);
      }
    }
  }

  /** Founding an organization, or a workspace in one, makes the listed profiles its ADMINs. */
  lemma FoundedEffect(s: State, org: Id, w: Id, profiles: seq<Id>, rows: map<Id, NewRows>)
    requires Inv(s) && w !in s.workspaces && profiles != [] && FreshFor(s, profiles, rows)
    ensures var t := JoinAll(WithWorkspace(s, org, w), w, profiles, rows);
            && Inv(t) && (forall q, v :: AdminIn(t, q, v) <==> AdminIn(s, q, v) || (v == w && q in profiles))
            && t.orgs == s.orgs[org := true] && t.workspaces == s.workspaces[w := Workspace(org, true)]
  {
    hide AdminIn, Rows, OneRoleEach, MembershipOf, FreshFor, JoinAll;
    var u := WithWorkspace(s, org, w);
    StillFresh(s, u, profiles, rows);
    var t := JoinAll(u, w, profiles, rows);
    AdminRowsOnly(s, u);
    forall p | p in profiles ensures MembershipOf(u, w, p).None? { NoMemberYet(s, u, w, p); }
    JoinAllEffect(u, w, profiles, rows);
    forall v | LiveWorkspace(t, v) ensures exists p :: AdminIn(t, p, v) {
      if v == w {
        assert AdminIn(t, profiles[0], w);
      } else {
        assert LiveWorkspace(s, v);
        var p: Id :| AdminIn(s, p, v);
        assert AdminIn(t, p, v);
      }
    }
    FoundedIsHoused(s, t, org, w);
  }

  /** One member is one turn of the joining loop. */
  lemma JoinOne(s: State, w: Id, p: Id, rows: NewRows)
    ensures JoinAll(s, w, [p], map[p := rows]) == WithMember(s, w, p, Admin, rows)
  {
    assert [p][1..] == [];
  }

  lemma OnboardKeeps(s: State, r: Request)
    requires Inv(s) && r.Onboard? && Possible(s, r)
    ensures Inv(Onboarded(s, r).state)
  {
    hide Inv, JoinAll, WithMember, BelongsSomewhere;
    FoundedEffect(s, r.org, r.ws, [r.actor], map[r.actor := r.rows]);
    JoinOne(WithWorkspace(s, r.org, r.ws), r.ws, r.actor, r.rows);
  }

  lemma CreateKeeps(s: State, r: Request)
    requires Inv(s) && r.CreateWorkspace? && Possible(s, r)
    ensures Inv(Created(s, r).state)
  {
    hide Inv, JoinAll, ListOrganizationAdmins;
    FoundedEffect(s, r.org, r.ws, [r.actor] + r.order, r.drawn);
  }

  lemma TombstoneKeepsAdmins(s: State, t: State, w: Id)
    requires Administered(s) && forall v | LiveWorkspace(t, v) :: LiveWorkspace(s, v)
    requires forall q, v :: AdminIn(t, q, v) <==> AdminIn(s, q, v)
    ensures Administered(t)
  {
    hide AdminIn;
    forall v | LiveWorkspace(t, v) ensures exists p :: AdminIn(t, p, v) {
      var p: Id :| AdminIn(s, p, v);
      assert AdminIn(t, p, v);
    }
  }

  /** The organization left without a live workspace is tombstoned with the last of them. */
  lemma EmptiedIsDead(s: State, w: Id)
    requires w in s.workspaces
    ensures var t, org := WithoutWorkspace(s, w), s.workspaces[w].org;
            && t.workspaces == s.workspaces[w := Workspace(org, false)] && t.invitations == s.invitations
            && t.members == s.members && t.roles == s.roles && t.emails == s.emails
            && (forall o | o != org :: LiveOrg(t, o) <==> LiveOrg(s, o))
            && (LiveOrg(t, org) <==> LiveOrg(s, org) && LiveWorkspaces(t, org) != {})
            && t.orgs.Keys == s.orgs.Keys
  {
    var t := WithoutWorkspace(s, w);
    var u := s.(workspaces := t.workspaces);
    assert LiveWorkspaces(t, s.workspaces[w].org) == LiveWorkspaces(u, s.workspaces[w].org);
  }

  lemma TombstoneKeepsHoused(s: State, w: Id)
    requires Housed(s) && LiveWorkspace(s, w)
    ensures Housed(WithoutWorkspace(s, w))
  {
    hide WithoutWorkspace, LiveOrg;
    EmptiedIsDead(s, w);
    var t, org := WithoutWorkspace(s, w), s.workspaces[w].org;
    forall o | LiveOrg(t, o) ensures LiveWorkspaces(t, o) != {} {
      if o != org {
        assert LiveWorkspaces(t, o) == LiveWorkspaces(s, o);
      }
    }
    forall v | LiveWorkspace(t, v) ensures LiveOrg(t, t.workspaces[v].org) {
      assert v in LiveWorkspaces(t, t.workspaces[v].org);
    }
    forall v | v in t.workspaces ensures t.workspaces[v].org in t.orgs {
      assert s.workspaces[v].org in s.orgs;
    }
  }

  lemma DeleteKeeps(s: State, w: Id)
    requires Inv(s)
    ensures Inv(Deleted(s, w).state)
  {
    hide LiveWorkspaces, Housed, LiveOrg;
    if LiveWorkspace(s, w) {
      var t := WithoutWorkspace(s, w);
      EmptiedIsDead(s, w);
      AdminRowsOnly(s, t);
      TombstoneKeepsAdmins(s, t, w);
      TombstoneKeepsHoused(s, w);
    }
  }

  lemma SameHousesHoused(s: State, t: State)
    requires Housed(s) && t.orgs == s.orgs && t.workspaces == s.workspaces
    requires forall i | i in t.invitations :: t.invitations[i].ws in s.workspaces
    ensures Housed(t)
  {
    assert forall o :: LiveWorkspaces(t, o) == LiveWorkspaces(s, o);
  }

  lemma InvitationsKeep(s: State, t: State)
    requires Inv(s) && t == s.(invitations := t.invitations)
    requires forall i | i in t.invitations :: t.invitations[i].ws in s.workspaces
    ensures Inv(t) && forall q, v :: AdminIn(t, q, v) <==> AdminIn(s, q, v)
  {
    hide Rows, OneRoleEach, AdminIn, Housed;
    AdminRowsOnly(s, t);
    TombstoneKeepsAdmins(s, t, 0);
    SameHousesHoused(s, t);
  }

  lemma InvitationStepsKeep(s: State, r: Request, isAdmin: bool)
    requires Inv(s) && (r.Invite? || r.Revoke?) && MayTransact(s, r, isAdmin)
    ensures var t := Transact(s, r, isAdmin).state; Inv(t) && forall q, v :: AdminIn(t, q, v) <==> AdminIn(s, q, v)
  {
    hide Rows, OneRoleEach, AdminIn, Administered;
    InvitationsKeep(s, Transact(s, r, isAdmin).state);
  }

  /** Accepting makes nobody cease to be ADMIN; who newly is one was invited as one. */
  lemma JoinedEffect(s: State, w: Id, p: Id, role: Role, rows: NewRows)
    requires Inv(s) && w in s.workspaces && FreshRows(s, rows)
    ensures var t := Joined(s, w, p, role, rows);
            && Sound(t) && SameHouses(s, t)
            && (forall q, v | AdminIn(s, q, v) :: AdminIn(t, q, v))
            && (forall q, v | AdminIn(t, q, v) && !AdminIn(s, q, v) :: q == p && v == w && role == Admin)
            && (MembershipOf(s, w, p).Some? ==> t == s)
  {
    hide AdminIn, Housed, Administered;
    match MembershipOf(s, w, p) {
      case None =>
        WithMemberEffect(s, w, p, role, rows);
        forall q, v { WithMemberAdmins(s, w, p, role, rows, q, v); }
      case Some(m) =>
        var only: Id :| Sole(s, m, only);
        SoleIsLiveRoles(s, w, m, only);
    }
  }

  lemma AcceptKeeps(s: State, r: Request)
    requires Inv(s) && r.Accept? && Possible(s, r)
    ensures var t := InviteAccepted(s, r).state; Inv(t) && forall q, v | AdminIn(s, q, v) :: AdminIn(t, q, v)
  {
    hide Rows, OneRoleEach, MembershipOf, AdminIn, Joined, Housed;
    var t := InviteAccepted(s, r).state;
    if r.invitation in s.invitations {
      var v := s.invitations[r.invitation];
      InvitationsHoused(s);
      JoinedEffect(s, v.ws, r.actor, v.role, r.rows);
      var u := if t.invitations[r.invitation].status == Accepted then Joined(s, v.ws, r.actor, v.role, r.rows) else s;
      if t != s {
        AdminRowsOnly(u, t);
        forall x | LiveWorkspace(t, x) ensures exists p :: AdminIn(t, p, x) {
          assert LiveWorkspace(s, x);
          var p: Id :| AdminIn(s, p, x);
          assert AdminIn(t, p, x);
        }
        SameHousesHoused(s, t);
      }
    }
  }

  /** When a member is not the last ADMIN, somebody else is one. */
  lemma AnotherAdmin(s: State, w: Id, m: Id)
    requires Rows(s) && IsActiveMember(s, w, m) && HasRole(s, w, m, Admin) && !IsLastAdmin(s, w, m)
    ensures exists p :: p != s.members[m].profile && AdminIn(s, p, w)
  {
    hide HasRole, AdminIn;
    var others := ActiveAdmins(s, w) - {m};
    assert ActiveAdmins(s, w) == others + {m};
    HasElement(others);
    var n: Id :| n in others;
    MemberIsAdmin(s, w, n);
    assert s.members[n] != s.members[m];
    assert AdminIn(s, s.members[n].profile, w);
  }

  /** What a change to one member's role in one workspace leaves administered. */
  lemma OneMemberKeeps(s: State, t: State, w: Id, p: Id, stays: bool)
    requires Administered(s) && t.workspaces == s.workspaces
    requires forall q, v :: AdminIn(t, q, v) <==> if q == p && v == w then stays else AdminIn(s, q, v)
    requires stays || !AdminIn(s, p, w) || exists q :: q != p && AdminIn(s, q, w)
    ensures Administered(t)
  {
    hide AdminIn;
    forall v | LiveWorkspace(t, v) ensures exists q :: AdminIn(t, q, v) {
      assert LiveWorkspace(s, v);
      var q: Id :| AdminIn(s, q, v);
      if q == p && v == w {
        if stays {
          assert AdminIn(t, p, w);
        } else {
          var other: Id :| other != p && AdminIn(s, other, w);
          assert AdminIn(t, other, w);
        }
      } else {
        assert AdminIn(t, q, v);
      }
    }
  }

  lemma SoleRoleHouses(s: State, w: Id, m: Id, role: Role, row: Id)
    ensures SameHouses(s, WithSoleRole(s, w, m, role, row))
  {
  }

  lemma UpdateRoleKeeps(s: State, r: Request, isAdmin: bool)
    requires Inv(s) && r.UpdateRole? && r.role.Some? && Possible(s, r)
    ensures Inv(RoleUpdated(s, r, isAdmin).state)
  {
    hide AdminIn, Rows, OneRoleEach, HasRole, WithSoleRole, MembershipOf, IsLastAdmin;
    if RoleUpdated(s, r, isAdmin).status == OK {
      var t, p := RoleUpdated(s, r, isAdmin).state, s.members[r.member].profile;
      WithSoleRoleEffect(s, r.ws, r.member, r.role.value, r.row);
      forall q, v { WithSoleRoleAdmins(s, r.ws, r.member, r.role.value, r.row, q, v); }
      MemberIsAdmin(s, r.ws, r.member);
      if r.role.value != Admin && HasRole(s, r.ws, r.member, Admin) {
        AnotherAdmin(s, r.ws, r.member);
      }
      SoleRoleHouses(s, r.ws, r.member, r.role.value, r.row);
      OneMemberKeeps(s, t, r.ws, p, r.role.value == Admin);
      SameHousesHoused(s, t);
    }
  }

  lemma RemoveMemberKeeps(s: State, w: Id, m: Id, isAdmin: bool)
    requires Inv(s)
    ensures Inv(MemberRemoved(s, w, m, isAdmin).state)
  {
    hide AdminIn, Rows, OneRoleEach, HasRole, MembershipOf, IsLastAdmin;
    if MemberRemoved(s, w, m, isAdmin).status == OK {
      var t, p := MemberRemoved(s, w, m, isAdmin).state, s.members[m].profile;
      DisabledEffect(s, w, m);
      forall q, v { DisabledAdmins(s, w, m, q, v); }
      MemberIsAdmin(s, w, m);
      if HasRole(s, w, m, Admin) {
        AnotherAdmin(s, w, m);
      }
      OneMemberKeeps(s, t, w, p, false);
      SameHousesHoused(s, t);
    }
  }

  lemma AddAdminKeeps(s: State, r: Request)
    requires Inv(s) && r.AddOrganizationAdmin? && Possible(s, r)
    ensures Inv(AdminAdded(s, r).state)
  {
    hide AdminIn, Rows, OneRoleEach, GrantAll, FreshRows, BelongsTo;
    if AdminAdded(s, r).status == OK {
      var t := AdminAdded(s, r).state;
      GrantAllEffect(s, r.target, r.order, r.drawn);
      forall v | LiveWorkspace(t, v) ensures exists p :: AdminIn(t, p, v) {
        assert LiveWorkspace(s, v);
        var p: Id :| AdminIn(s, p, v);
        assert AdminIn(t, p, v);
      }
      SameHousesHoused(s, t);
    }
  }

  /** The transaction of `removeOrganizationAdmin`, on whatever state it finds, keeps every live
      workspace administered if and only if each of the organization's has another ADMIN. */
  lemma DemotionKeepsIff(s: State, org: Id, target: Id, order: seq<Id>, drawn: map<Id, NewRows>)
    requires Inv(s) && Elements(order) == LiveWorkspaces(s, org) && FreshFor(s, order, drawn)
    ensures Inv(DemoteAll(s, target, order, drawn)) <==> OthersAdminister(s, org, target)
    ensures Sound(DemoteAll(s, target, order, drawn)) && Housed(DemoteAll(s, target, order, drawn))
  {
    hide AdminIn, Rows, OneRoleEach, DemoteAll, FreshRows;
    var t := DemoteAll(s, target, order, drawn);
    DemoteAllEffect(s, target, order, drawn);
    SameHousesHoused(s, t);
    assert forall w :: w in order <==> w in LiveWorkspaces(s, org) by {
      assert forall w :: w in order <==> w in Elements(order);
    }
    if OthersAdminister(s, org, target) {
      forall v | LiveWorkspace(t, v) ensures exists p :: AdminIn(t, p, v) {
        if v in LiveWorkspaces(s, org) {
          var p: Id :| p != target && AdminIn(s, p, v);
          assert AdminIn(t, p, v);
        } else {
          assert LiveWorkspace(s, v);
          var p: Id :| AdminIn(s, p, v);
          assert AdminIn(t, p, v);
        }
      }
    }
    if Administered(t) {
      forall w | w in LiveWorkspaces(s, org) ensures exists p :: p != target && AdminIn(s, p, w) {
        assert LiveWorkspace(t, w);
        var p: Id :| AdminIn(t, p, w);
        assert p != target && AdminIn(s, p, w);
      }
    }
  }

  /** The check that another organization admin exists is what keeps the workspaces administered. */
  lemma CheckMeansOthers(s: State, actor: Id, org: Id, target: Id)
    requires RemovalCheck(s, actor, org, target) == OK
    ensures OthersAdminister(s, org, target)
  {
    hide ListOrganizationAdmins, AdminIn, LiveWorkspaces;
    var admins := ListOrganizationAdmins(s, org);
    assert admins == (admins - {target}) + {target};
    HasElement(admins - {target});
    var other: Id :| other in admins - {target};
    ListedIsOrgAdmin(s, other, org);
  }

  /** Whatever has become of the actor's own roles since the gate was read, a transaction keeps the
      invariant: the tables sound, one live role for every active member, an ADMIN in every live
      workspace, and live organizations exactly those with a live workspace.  The one exception is
      the removal of an organization admin, whose guard stays outside: it does so if and only if every
      live workspace of the organization has another ADMIN. */
  lemma TransactionKeepsIff(s: State, r: Request, isAdmin: bool)
    requires Inv(s) && MayTransact(s, r, isAdmin)
    ensures Inv(Transact(s, r, isAdmin).state) <==> Unopposed(s, r)
  {
    hide Inv, Created, Onboarded, Deleted, Invited, InviteRevoked, InviteAccepted, RoleUpdated, MemberRemoved,
         AdminAdded, DemoteAll, OthersAdminister;
    match r {
      case Onboard(_, _, _, _, _) => OnboardKeeps(s, r);
      case CreateWorkspace(_, _, _, _, _, _) => CreateKeeps(s, r);
      case DeleteWorkspace(_, w) => DeleteKeeps(s, w);
      case Invite(_, _, _, _, _, _) => InvitationStepsKeep(s, r, isAdmin);
      case Revoke(_, _, _) => InvitationStepsKeep(s, r, isAdmin);
      case Accept(_, _, _, _) => AcceptKeeps(s, r);
      case UpdateRole(_, _, _, _, _) => UpdateRoleKeeps(s, r, isAdmin);
      case RemoveMember(_, w, m) => RemoveMemberKeeps(s, w, m, isAdmin);
      case AddOrganizationAdmin(_, _, _, _, _) => AddAdminKeeps(s, r);
      case RemoveOrganizationAdmin(_, org, target, order, drawn) => DemotionKeepsIff(s, org, target, order, drawn);
    }
  }

  lemma GateIsMemory(s: State, r: Request)
    requires Possible(s, r) && Gate(s, r).Ok?
    ensures MayTransact(s, r, Gate(s, r).value) && Unopposed(s, r)
  {
    hide Possible, HasRole, MembershipOf, ListOrganizationAdmins, OthersAdminister;
    if r.RemoveOrganizationAdmin? {
      CheckMeansOthers(s, r.actor, r.org, r.target);
    }
  }

  /** Every request that nothing interrupts keeps the invariant. */
  lemma StepKeepsInv(s: State, r: Request)
    requires Inv(s) && Possible(s, r)
    ensures Inv(Apply(s, r).state)
  {
    hide Inv, Possible, Transact, Gate, MayTransact, Unopposed;
    if Gate(s, r).Ok? {
      GateIsMemory(s, r);
      TransactionKeepsIff(s, r, Gate(s, r).value);
    }
  }

  /** A transaction, and whether its gate, read at any moment before, captured the actor as ADMIN. */
  datatype Transaction = Transaction(request: Request, isAdmin: bool)

  ghost predicate Runs(s: State, run: seq<Transaction>)
    decreases |run|
  {
    run == [] || (MayTransact(s, run[0].request, run[0].isAdmin) && Unopposed(s, run[0].request)
                  && Runs(Transact(s, run[0].request, run[0].isAdmin).state, run[1..]))
  }

  ghost function After(s: State, run: seq<Transaction>): State
    requires Runs(s, run)
    decreases |run|
  {
    if run == [] then s else After(Transact(s, run[0].request, run[0].isAdmin).state, run[1..])
  }

  /** Over any run of transactions, with gates read at any time before, every live workspace keeps an
      active ADMIN and every active member exactly one live role. */
  lemma {:induction false} EveryRunKeepsInv(s: State, run: seq<Transaction>)
    requires Inv(s) && Runs(s, run)
    ensures Inv(After(s, run))
    decreases |run|
  {
    hide Inv, Possible, Admitted, Transact, Unopposed;
    if run != [] {
      TransactionKeepsIff(s, run[0].request, run[0].isAdmin);
      EveryRunKeepsInv(Transact(s, run[0].request, run[0].isAdmin).state, run[1..]);
    }
  }

  function Empty(emails: map<Id, Option<string>>): State {
    State(emails, map[], map[], map[], map[], map[])
  }

  lemma EmptyHolds(emails: map<Id, Option<string>>)
    ensures Inv(Empty(emails))
  {
  }

  /** So from an empty directory on: a live workspace has an ADMIN and a live organization, and an active
      member of any workspace has a live role in it and no second one. */
  lemma EveryRunFromEmpty(emails: map<Id, Option<string>>, run: seq<Transaction>, w: Id, m: Id)
    requires Runs(Empty(emails), run)
    ensures var s := After(Empty(emails), run);
            && (LiveWorkspace(s, w) ==> LiveOrg(s, s.workspaces[w].org) && exists p :: AdminIn(s, p, w))
            && (m in s.members && s.members[m].active ==> |LiveRoles(s, s.members[m].ws, m)| == 1)
  {
    hide Runs, After, AdminIn;
    EmptyHolds(emails);
    EveryRunKeepsInv(Empty(emails), run);
    var s := After(Empty(emails), run);
    if m in s.members && s.members[m].active {
      var r: Id :| Sole(s, m, r);
      SoleIsLiveRoles(s, s.members[m].ws, m, r);
    }
  }

  // ---- managers, and organization admins -------------------------------------------------

  lemma GateIsAdmin(s: State, r: Request)
    requires Rows(s) && (r.Invite? || r.Revoke? || r.UpdateRole? || r.RemoveMember?)
    ensures Gate(s, r) == Ok(true) ==> AdminIn(s, r.actor, r.ws)
  {
    hide AdminIn, HasRole, HasMemberWithEmail;
    var m := ActiveMembership(s, r.ws, r.actor);
    if m.Some? {
      MemberIsAdmin(s, r.ws, m.value);
    }
  }

  /** No transaction of an actor captured as a mere manager changes who is ADMIN anywhere, or leaves a
      new invitation as ADMIN, however late it runs. */
  lemma ManagersChangeNoAdmin(s: State, r: Request)
    requires Inv(s) && MayTransact(s, r, false) && (r.Invite? || r.Revoke? || r.UpdateRole? || r.RemoveMember?)
    ensures var t := Transact(s, r, false).state;
            && (forall q, v :: AdminIn(t, q, v) <==> AdminIn(s, q, v))
            && (forall i | i in t.invitations && t.invitations[i].status == Pending && t.invitations[i].role == Admin ::
                  i in s.invitations && s.invitations[i] == t.invitations[i])
  {
    hide AdminIn, Rows, OneRoleEach, Administered, HasRole, WithSoleRole, MembershipOf, IsLastAdmin, ActiveMembers,
         Housed;
    if r.Invite? || r.Revoke? {
      InvitationStepsKeep(s, r, false);
    } else if Transact(s, r, false).status == OK {
      MemberIsAdmin(s, r.ws, r.member);
      if r.UpdateRole? {
        forall q, v { WithSoleRoleAdmins(s, r.ws, r.member, r.role.value, r.row, q, v); }
        SoleRoleHouses(s, r.ws, r.member, r.role.value, r.row);
      } else {
        forall q, v { DisabledAdmins(s, r.ws, r.member, q, v); }
      }
    }
  }

  /** So a request that nothing interrupts, by somebody who is not an ADMIN, changes no ADMIN. */
  lemma NonAdminsChangeNoAdmin(s: State, r: Request, q: Id, v: Id)
    requires Inv(s) && Possible(s, r) && (r.Invite? || r.Revoke? || r.UpdateRole? || r.RemoveMember?)
    requires !AdminIn(s, r.actor, r.ws)
    ensures AdminIn(Apply(s, r).state, q, v) <==> AdminIn(s, q, v)
  {
    hide AdminIn, Rows, OneRoleEach, Administered, Housed, Gate, Transact, Possible, MayTransact;
    GateIsAdmin(s, r);
    if Gate(s, r).Ok? {
      GateIsMemory(s, r);
      ManagersChangeNoAdmin(s, r);
    }
  }

  // ---- exactly when a member's role changes ----------------------------------------------

  /** The profile is ADMIN of the workspace and nobody else is. */
  ghost predicate OnlyAdmin(s: State, w: Id, p: Id) {
    AdminIn(s, p, w) && forall q | AdminIn(s, q, w) :: q == p
  }

  lemma AdminHasRow(s: State, q: Id, w: Id)
    requires AdminIn(s, q, w)
    ensures exists n :: IsActiveMember(s, w, n) && s.members[n].profile == q && HasRole(s, w, n, Admin)
  {
    var m: Id, r: Id :| m in s.members && r in s.roles && AdminBy(s, q, w, m, r);
    assert IsActiveMember(s, w, m) && HasRole(s, w, m, Admin);
  }

  lemma SubsetSize(a: set<Id>, b: set<Id>)
    requires a <= b
    ensures |a| <= |b|
  {
    assert b == a + (b - a);
  }

  /** The guard's count of member rows means what it should about people. */
  lemma CountMeansOnlyAdmin(s: State, w: Id, m: Id)
    requires Rows(s) && IsActiveMember(s, w, m)
    ensures IsLastAdmin(s, w, m) <==> OnlyAdmin(s, w, s.members[m].profile)
  {
    hide AdminIn, HasRole;
    var p := s.members[m].profile;
    MemberIsAdmin(s, w, m);
    if HasRole(s, w, m, Admin) && !IsLastAdmin(s, w, m) {
      AnotherAdmin(s, w, m);
    }
    if IsLastAdmin(s, w, m) {
      assert m in ActiveAdmins(s, w) && {m} <= ActiveAdmins(s, w);
      SubsetSize({m}, ActiveAdmins(s, w));
      SubsetSameSize({m}, ActiveAdmins(s, w));
      forall q | AdminIn(s, q, w) ensures q == p {
        AdminHasRow(s, q, w);
        var n: Id :| IsActiveMember(s, w, n) && s.members[n].profile == q && HasRole(s, w, n, Admin);
        assert n in ActiveAdmins(s, w);
      }
    }
  }

  /** At least a manager of a live workspace. */
  ghost predicate Manages(s: State, actor: Id, w: Id) {
    && LiveWorkspace(s, w)
    && exists m :: IsActiveMember(s, w, m) && s.members[m].profile == actor
                   && (HasRole(s, w, m, Admin) || HasRole(s, w, m, Manager))
  }

  lemma GateExactly(s: State, actor: Id, w: Id)
    requires Rows(s)
    ensures ManagerGate(s, actor, w).Ok? <==> Manages(s, actor, w)
    ensures ManagerGate(s, actor, w).Ok? ==>
              LiveWorkspace(s, w) && (ManagerGate(s, actor, w).value <==> AdminIn(s, actor, w))
    ensures ManagerGate(s, actor, w).Err? ==> ManagerGate(s, actor, w).status in {403, 404}
  {
    hide AdminIn, HasRole;
    var m := ActiveMembership(s, w, actor);
    if m.Some? {
      MemberIsAdmin(s, w, m.value);
    }
    if Manages(s, actor, w) {
      var n: Id :| IsActiveMember(s, w, n) && s.members[n].profile == actor
                   && (HasRole(s, w, n, Admin) || HasRole(s, w, n, Manager));
      assert s.members[n] == Member(w, actor, true);
      assert m == Some(n);
    }
  }

  lemma RolesOfSole(s: State, m: Id, only: Id, x: Role)
    requires Rows(s) && m in s.members && s.members[m].active && Sole(s, m, only)
    ensures HasRole(s, s.members[m].ws, m, x) <==> x == s.roles[only].role
  {
    assert s.roles[only] == Assignment(s.members[m].ws, m, s.roles[only].role, true);
  }

  lemma OtherRows(s: State, w: Id, target: Id, role: Role, row: Id, m: Id, x: Role, r: Id)
    requires Rows(s) && row !in s.roles && m != target && m in s.members
    ensures var t := WithSoleRole(s, w, target, role, row);
            (r in t.roles && t.roles[r] == Assignment(s.members[m].ws, m, x, true)) <==>
            (r in s.roles && s.roles[r] == Assignment(s.members[m].ws, m, x, true))
  {
    hide LiveRoles, HasRole;
  }

  lemma NewSole(s: State, w: Id, target: Id, role: Role, row: Id)
    requires Rows(s) && row !in s.roles && IsActiveMember(s, w, target) && WithSoleRole(s, w, target, role, row) != s
    ensures var t := WithSoleRole(s, w, target, role, row);
            Sole(t, target, row) && t.roles[row].role == role && t.members == s.members
  {
    hide LiveRoles, HasRole;
  }

  lemma KeptSole(s: State, w: Id, target: Id, role: Role, row: Id)
    requires row !in s.roles && WithSoleRole(s, w, target, role, row) == s
    ensures HasRole(s, w, target, role)
  {
    hide LiveRoles;
    assert row in WithSoleRole(s, w, target, role, row).roles || HasRole(s, w, target, role);
  }

  lemma SoleRoleRoles(s: State, w: Id, target: Id, role: Role, row: Id, m: Id, x: Role)
    requires Rows(s) && OneRoleEach(s) && row !in s.roles && IsActiveMember(s, w, target)
    requires m in s.members && s.members[m].active
    ensures HasRole(WithSoleRole(s, w, target, role, row), s.members[m].ws, m, x) <==>
            if m == target then x == role else HasRole(s, s.members[m].ws, m, x)
  {
    hide WithSoleRole, LiveRoles, Rows;
    var t := WithSoleRole(s, w, target, role, row);
    if m == target {
      var only: Id :| Sole(s, target, only);
      RolesOfSole(s, target, only, role);
      RolesOfSole(s, target, only, x);
      if t != s {
        assert Rows(t) && Sole(t, target, row) && t.roles[row].role == role && t.members == s.members by {
          WithSoleRoleEffect(s, w, target, role, row);
          NewSole(s, w, target, role, row);
        }
        RolesOfSole(t, target, row, x);
      } else {
        KeptSole(s, w, target, role, row);
      }
    } else {
      forall r { OtherRows(s, w, target, role, row, m, x, r); }
    }
  }

  /** A role change goes through if and only if the actor is at least a manager, the role is known,
      the target is a member, only an ADMIN makes or unmakes an ADMIN, and the only ADMIN is not
      demoted.  Then the target holds exactly the new role, and no other member's roles change. */
  lemma RoleUpdateExactly(s: State, r: Request)
    requires Inv(s) && r.UpdateRole? && Possible(s, r)
    ensures Apply(s, r).status == OK <==>
            && Manages(s, r.actor, r.ws) && r.role.Some? && IsActiveMember(s, r.ws, r.member)
            && (r.role.value == Admin || AdminIn(s, s.members[r.member].profile, r.ws) ==> AdminIn(s, r.actor, r.ws))
            && !(r.role.value != Admin && OnlyAdmin(s, r.ws, s.members[r.member].profile))
    ensures Apply(s, r).status == OK ==>
              forall m, x | m in s.members && s.members[m].active ::
                HasRole(Apply(s, r).state, s.members[m].ws, m, x) <==>
                if m == r.member then x == r.role.value else HasRole(s, s.members[m].ws, m, x)
    ensures Apply(s, r).status != OK ==> Apply(s, r).state == s
  {
    hide AdminIn, HasRole, OneRoleEach, Rows, WithSoleRole, ManagerGate, Manages, IsLastAdmin, OnlyAdmin;
    GateExactly(s, r.actor, r.ws);
    if IsActiveMember(s, r.ws, r.member) {
      CountMeansOnlyAdmin(s, r.ws, r.member);
      MemberIsAdmin(s, r.ws, r.member);
    }
    if Apply(s, r).status == OK {
      forall m, x | m in s.members && s.members[m].active {
        SoleRoleRoles(s, r.ws, r.member, r.role.value, r.row, m, x);
      }
    }
  }

  lemma TwoAtLeast(ids: set<Id>, a: Id, b: Id)
    requires a in ids && b in ids && a != b
    ensures |ids| >= 2
  {
    SubsetSize({a, b}, ids);
  }

  lemma NotAlone(s: State, w: Id, m: Id)
    requires Rows(s) && Administered(s) && LiveWorkspace(s, w) && IsActiveMember(s, w, m)
    requires !OnlyAdmin(s, w, s.members[m].profile)
    ensures |ActiveMembers(s, w)| > 1
  {
    hide AdminIn, HasRole, Rows;
    var q: Id :| AdminIn(s, q, w) && q != s.members[m].profile;
    AdminHasRow(s, q, w);
    var n: Id :| IsActiveMember(s, w, n) && s.members[n].profile == q && HasRole(s, w, n, Admin);
    TwoAtLeast(ActiveMembers(s, w), m, n);
  }

  /** A removal goes through if and only if the actor is at least a manager, the target is a member,
      only an ADMIN removes an ADMIN, and the target is not the only ADMIN; the further guard against
      removing the only member never decides anything.  Then exactly the target has left. */
  lemma RemovalExactly(s: State, r: Request)
    requires Inv(s) && r.RemoveMember?
    ensures Apply(s, r).status == OK <==>
            && Manages(s, r.actor, r.ws) && IsActiveMember(s, r.ws, r.member)
            && (AdminIn(s, s.members[r.member].profile, r.ws) ==> AdminIn(s, r.actor, r.ws))
            && !OnlyAdmin(s, r.ws, s.members[r.member].profile)
    ensures Apply(s, r).status == OK ==>
              forall w :: ActiveMembers(Apply(s, r).state, w) == ActiveMembers(s, w) - {r.member}
    ensures Apply(s, r).status != OK ==> Apply(s, r).state == s
  {
    hide AdminIn, HasRole, OneRoleEach, Rows, ManagerGate, Manages, IsLastAdmin, OnlyAdmin, Housed;
    GateExactly(s, r.actor, r.ws);
    if IsActiveMember(s, r.ws, r.member) {
      CountMeansOnlyAdmin(s, r.ws, r.member);
      MemberIsAdmin(s, r.ws, r.member);
      if ManagerGate(s, r.actor, r.ws).Ok? && !OnlyAdmin(s, r.ws, s.members[r.member].profile) {
        NotAlone(s, r.ws, r.member);
      }
    }
  }

  lemma NowMember(s: State, w: Id, p: Id, role: Role, rows: NewRows)
    ensures MembershipOf(WithMember(s, w, p, role, rows), w, p).Some?
  {
    assert rows.member in WithMember(s, w, p, role, rows).members;
  }

  /** A new member gets exactly the invited role; a member keeps its roles. */
  lemma JoinedExactly(s: State, w: Id, p: Id, role: Role, rows: NewRows)
    requires Inv(s) && w in s.workspaces && FreshRows(s, rows)
    ensures var t := Joined(s, w, p, role, rows);
            && MembershipOf(t, w, p).Some? && t.invitations == s.invitations
            && (MembershipOf(s, w, p).Some? ==> t.members == s.members && t.roles == s.roles)
            && (MembershipOf(s, w, p).None? ==>
                  && t.members == s.members[rows.member := Member(w, p, true)]
                  && t.roles == s.roles[rows.role := Assignment(w, rows.member, role, true)])
  {
    hide Inv, MembershipOf, LiveRoles, AdminIn;
    JoinedEffect(s, w, p, role, rows);
    if MembershipOf(s, w, p).None? {
      NowMember(s, w, p, role, rows);
    }
  }

  /** The invitation is pending, has not expired and was sent to the actor's address. */
  predicate Acceptable(s: State, r: Request)
    requires r.Accept?
  {
    && r.invitation in s.invitations
    && var v := s.invitations[r.invitation];
       v.status == Pending && r.now < v.expiresAt && r.actor in s.emails && s.emails[r.actor] == Some(v.email)
  }

  /** An acceptable invitation is accepted if and only if its workspace is live or the actor has no row
      in it.  It is answered 200 if and only if the workspace is live: into a deleted workspace the
      actor is joined all the same, or nothing changes, and the answer is 500.  A late attempt marks
      the invitation expired and nothing else. */
  lemma AcceptExactly(s: State, r: Request)
    requires Inv(s) && r.Accept? && Possible(s, r)
    ensures Apply(s, r).status == OK <==> Acceptable(s, r) && LiveWorkspace(s, s.invitations[r.invitation].ws)
    ensures Apply(s, r).status == 500 <==> Acceptable(s, r) && !LiveWorkspace(s, s.invitations[r.invitation].ws)
    ensures Acceptable(s, r) ==>
              var v := s.invitations[r.invitation];
              Apply(s, r).state ==
              if MembershipOf(s, v.ws, r.actor).None? || LiveWorkspace(s, v.ws)
              then Joined(s, v.ws, r.actor, v.role, r.rows).(
                     invitations := s.invitations[r.invitation := v.(status := Accepted)])
              else s
    ensures Apply(s, r).status == 410 ==>
              && r.invitation in s.invitations && s.invitations[r.invitation].expiresAt <= r.now
              && Apply(s, r).state == Mark(s, r.invitation, Expired)
    ensures !Acceptable(s, r) && Apply(s, r).status != 410 ==> Apply(s, r).state == s
  {
    hide Rows, OneRoleEach, Administered, AdminIn, MembershipOf, Joined;
    if r.invitation in s.invitations {
      var v := s.invitations[r.invitation];
      JoinedExactly(s, v.ws, r.actor, v.role, r.rows);
    }
  }

  /** Creating a workspace changes who is an organization admin, of any organization, not at all, even
      when the creator has ceased to be one since the gate. */
  lemma CreationKeepsOrgAdmins(s: State, r: Request, q: Id, org: Id)
    requires Inv(s) && r.CreateWorkspace? && Possible(s, r)
    ensures OrgAdmin(Created(s, r).state, q, org) <==> OrgAdmin(s, q, org)
  {
    hide AdminIn, Rows, OneRoleEach, Administered, ListOrganizationAdmins, JoinAll, FreshRows;
    if Created(s, r).status == OK {
      var t := Created(s, r).state;
      FoundedEffect(s, r.org, r.ws, [r.actor] + r.order, r.drawn);
      assert LiveWorkspaces(t, org) == LiveWorkspaces(s, org) + if org == r.org then {r.ws} else {};
      assert r.ws !in LiveWorkspaces(s, org);
      if org == r.org {
        assert LiveWorkspaces(s, org) != {};
        assert q in [r.actor] + r.order || q !in ListOrganizationAdmins(s, r.org) by {
          assert q in r.order <==> q in Elements(r.order);
        }
        ListedIsOrgAdmin(s, q, r.org);
      }
    }
  }

  /** Adding an organization admin adds the target and nobody else. */
  lemma AddingAddsExactly(s: State, r: Request, q: Id)
    requires Inv(s) && r.AddOrganizationAdmin? && Possible(s, r) && AdminAdded(s, r).status == OK
    ensures OrgAdmin(AdminAdded(s, r).state, q, r.org) <==> OrgAdmin(s, q, r.org) || q == r.target
  {
    hide AdminIn, Rows, OneRoleEach, GrantAll, FreshRows, BelongsTo;
    var t := AdminAdded(s, r).state;
    GrantAllEffect(s, r.target, r.order, r.drawn);
    assert forall w :: w in r.order <==> w in Elements(r.order);
    assert LiveWorkspaces(t, r.org) == LiveWorkspaces(s, r.org);
  }

  /** Removing one removes the target and nobody else. */
  lemma RemovingRemovesExactly(s: State, r: Request, q: Id)
    requires Inv(s) && r.RemoveOrganizationAdmin? && Possible(s, r)
    ensures OrgAdmin(DemoteAll(s, r.target, r.order, r.drawn), q, r.org) <==> OrgAdmin(s, q, r.org) && q != r.target
  {
    hide AdminIn, Rows, OneRoleEach, DemoteAll, FreshRows;
    var t := DemoteAll(s, r.target, r.order, r.drawn);
    DemoteAllEffect(s, r.target, r.order, r.drawn);
    assert forall w :: w in r.order <==> w in Elements(r.order);
    assert LiveWorkspaces(t, r.org) == LiveWorkspaces(s, r.org);
    if LiveWorkspaces(s, r.org) != {} {
      HasElement(LiveWorkspaces(s, r.org));
    }
  }
}
