/** What each request does to the directory: who holds which role in which workspace afterwards, what
    becomes of organizations, workspaces and invitations, and when a request goes through. */
module WorkspaceEffects {
  import opened Common
  import opened Membership
  import opened OrgAdmins
  import opened Workspaces

  // ---- who holds which role -------------------------------------------------------------

  /** An active membership joined with a live role. */
  predicate PlaysBy(s: State, p: Id, w: Id, x: Role, m: Id, r: Id) {
    && m in s.members && s.members[m] == Member(w, p, true)
    && r in s.roles && s.roles[r] == Assignment(w, m, x, true)
  }

  /** The profile holds the role in the workspace. */
  ghost predicate Plays(s: State, p: Id, w: Id, x: Role) {
    exists m, r :: PlaysBy(s, p, w, x, m, r)
  }

  /** The profile is an active member of the workspace. */
  predicate Belongs(s: State, p: Id, w: Id) { MembershipOf(s, w, p).Some? }

  lemma SameRows(s: State, t: State, q: Id, v: Id, x: Role)
    requires t.members == s.members && t.roles == s.roles
    ensures Plays(t, q, v, x) <==> Plays(s, q, v, x)
    ensures Belongs(t, q, v) <==> Belongs(s, q, v)
  {
    forall m, r ensures PlaysBy(t, q, v, x, m, r) <==> PlaysBy(s, q, v, x, m, r) {}
    assert Memberships(t, v, q) == Memberships(s, v, q);
  }

  lemma WithMemberBy(s: State, w: Id, p: Id, role: Role, rows: NewRows, q: Id, v: Id, x: Role, m: Id, r: Id)
    requires Rows(s) && FreshRows(s, rows) && MembershipOf(s, w, p).None?
    ensures PlaysBy(WithMember(s, w, p, role, rows), q, v, x, m, r) <==>
            if q == p && v == w then m == rows.member && r == rows.role && x == role else PlaysBy(s, q, v, x, m, r)
  {
  }

  lemma WithMemberPlays(s: State, w: Id, p: Id, role: Role, rows: NewRows, q: Id, v: Id, x: Role)
    requires Rows(s) && FreshRows(s, rows) && MembershipOf(s, w, p).None?
    ensures Plays(WithMember(s, w, p, role, rows), q, v, x) <==>
            if q == p && v == w then x == role else Plays(s, q, v, x)
  {
    hide Rows, WithMember, MembershipOf, PlaysBy;
    forall m, r { WithMemberBy(s, w, p, role, rows, q, v, x, m, r); }
    var t := WithMember(s, w, p, role, rows);
    assert q == p && v == w && x == role ==> PlaysBy(t, q, v, x, rows.member, rows.role);
  }

  lemma NewSoleBy(s: State, w: Id, k: Id, role: Role, row: Id, q: Id, v: Id, x: Role, m: Id, r: Id)
    requires Rows(s) && row !in s.roles && WithSoleRole(s, w, k, role, row) != s && IsActiveMember(s, w, k)
    ensures PlaysBy(WithSoleRole(s, w, k, role, row), q, v, x, m, r) <==>
            if q == s.members[k].profile && v == w then m == k && r == row && x == role
            else PlaysBy(s, q, v, x, m, r)
  {
    hide HasRole, LiveRoles;
  }

  lemma OldSoleBy(s: State, w: Id, k: Id, only: Id, x: Role, m: Id, r: Id)
    requires Rows(s) && IsActiveMember(s, w, k) && Sole(s, k, only)
    ensures PlaysBy(s, s.members[k].profile, w, x, m, r) <==> m == k && r == only && x == s.roles[only].role
  {
  }

  lemma SoleRolePlays(s: State, w: Id, k: Id, role: Role, row: Id, q: Id, v: Id, x: Role)
    requires Sound(s) && row !in s.roles && IsActiveMember(s, w, k)
    ensures Plays(WithSoleRole(s, w, k, role, row), q, v, x) <==>
            if q == s.members[k].profile && v == w then x == role else Plays(s, q, v, x)
  {
    hide Rows, WithSoleRole, PlaysBy, HasRole;
    var t := WithSoleRole(s, w, k, role, row);
    if t != s {
      forall m, r { NewSoleBy(s, w, k, role, row, q, v, x, m, r); }
      assert q == s.members[k].profile && v == w && x == role ==> PlaysBy(t, q, v, x, k, row);
    } else if q == s.members[k].profile && v == w {
      KeptSole(s, w, k, role, row);
      var only: Id :| Sole(s, k, only);
      RolesOfSole(s, k, only, role);
      forall m, r { OldSoleBy(s, w, k, only, x, m, r); }
      assert x == role ==> PlaysBy(s, q, v, x, k, only);
    }
  }

  lemma DisabledPlays(s: State, w: Id, k: Id, q: Id, v: Id, x: Role)
    requires Rows(s) && IsActiveMember(s, w, k)
    ensures Plays(Disabled(s, w, k), q, v, x) <==> Plays(s, q, v, x) && !(q == s.members[k].profile && v == w)
  {
    var t := Disabled(s, w, k);
    forall m, r ensures PlaysBy(t, q, v, x, m, r) <==>
                        PlaysBy(s, q, v, x, m, r) && !(q == s.members[k].profile && v == w) {}
    if m, r :| PlaysBy(s, q, v, x, m, r) && !(q == s.members[k].profile && v == w) {
      assert PlaysBy(t, q, v, x, m, r);
    }
  }

  lemma GrantPlays(s: State, p: Id, w: Id, rows: NewRows, q: Id, v: Id, x: Role)
    requires Sound(s) && FreshRows(s, rows)
    ensures Plays(Grant(s, p, w, rows), q, v, x) <==> if q == p && v == w then x == Admin else Plays(s, q, v, x)
  {
    hide Rows, OneRoleEach, Plays;
    match MembershipOf(s, w, p)
    case None => WithMemberPlays(s, w, p, Admin, rows, q, v, x);
    case Some(m) => SoleRolePlays(s, w, m, Admin, rows.role, q, v, x);
  }

  lemma DemotePlays(s: State, p: Id, w: Id, rows: NewRows, q: Id, v: Id, x: Role)
    requires Sound(s) && FreshRows(s, rows)
    ensures Plays(Demote(s, p, w, rows), q, v, x) <==>
            if q == p && v == w && Belongs(s, p, w) then x == Plain else Plays(s, q, v, x)
    ensures Demote(s, p, w, rows).members == s.members
  {
    hide Rows, OneRoleEach, Plays;
    match MembershipOf(s, w, p)
    case None =>
    case Some(m) => SoleRolePlays(s, w, m, Plain, rows.role, q, v, x);
  }

  /** Granting makes the profile ADMIN, and nothing else, in each listed workspace, a member of it or not. */
  lemma {:induction false} GrantAllPlays(
      s: State, p: Id, order: seq<Id>, rows: map<Id, NewRows>, q: Id, v: Id, x: Role)
    requires Sound(s) && FreshFor(s, order, rows) && Elements(order) <= s.workspaces.Keys
    ensures Plays(GrantAll(s, p, order, rows), q, v, x) <==>
            if q == p && v in order then x == Admin else Plays(s, q, v, x)
    decreases |order|
  {
    hide Plays, Sound, Grant, FreshRows;
    if order != [] {
      var t := Grant(s, p, order[0], rows[order[0]]);
      assert order[0] in Elements(order);
      GrantTurn(s, p, order[0], rows[order[0]]);
      FreshForRest(s, t, order, rows);
      assert Elements(order[1..]) <= Elements(order);
      GrantAllPlays(t, p, order[1..], rows, q, v, x);
      GrantPlays(s, p, order[0], rows[order[0]], q, v, x);
    }
  }

  lemma SameBelongs(s: State, t: State, p: Id, w: Id)
    requires t.members == s.members
    ensures Belongs(t, p, w) <==> Belongs(s, p, w)
  {
    assert Memberships(t, w, p) == Memberships(s, w, p);
  }

  /** Demoting leaves a member of the listed workspaces MEMBER, and nothing else, in each of them. */
  lemma {:induction false} DemoteAllPlays(
      s: State, p: Id, order: seq<Id>, rows: map<Id, NewRows>, q: Id, v: Id, x: Role)
    requires Sound(s) && FreshFor(s, order, rows) && Elements(order) <= s.workspaces.Keys
    ensures Plays(DemoteAll(s, p, order, rows), q, v, x) <==>
            if q == p && v in order && Belongs(s, p, v) then x == Plain else Plays(s, q, v, x)
    ensures DemoteAll(s, p, order, rows).members == s.members
    decreases |order|
  {
    hide Plays, Sound, Demote, FreshRows, Belongs;
    if order != [] {
      var t := Demote(s, p, order[0], rows[order[0]]);
      assert order[0] in Elements(order);
      DemoteTurn(s, p, order[0], rows[order[0]]);
      FreshForRest(s, t, order, rows);
      assert Elements(order[1..]) <= Elements(order);
      DemoteAllPlays(t, p, order[1..], rows, q, v, x);
      DemotePlays(s, p, order[0], rows[order[0]], q, v, x);
      SameBelongs(s, t, p, v);
    }
  }

  lemma {:induction false} JoinAllPlays(
      s: State, w: Id, profiles: seq<Id>, rows: map<Id, NewRows>, q: Id, v: Id, x: Role)
    requires Sound(s) && FreshFor(s, profiles, rows) && w in s.workspaces
    requires forall p | p in profiles :: MembershipOf(s, w, p).None?
    ensures Plays(JoinAll(s, w, profiles, rows), q, v, x) <==>
            if v == w && q in profiles then x == Admin else Plays(s, q, v, x)
    decreases |profiles|
  {
    hide Plays, Rows, OneRoleEach, FreshRows, MembershipOf;
    if profiles != [] {
      var p := profiles[0];
      var t := WithMember(s, w, p, Admin, rows[p]);
      WithMemberEffect(s, w, p, Admin, rows[p]);
      WithMemberPlays(s, w, p, Admin, rows[p], q, v, x);
      FreshForRest(s, t, profiles, rows);
      forall k | k in profiles[1..] ensures MembershipOf(t, w, k).None? {
        assert k in profiles && k != p;
        StillNoMember(s, w, p, rows[p], k);
      }
      JoinAllPlays(t, w, profiles[1..], rows, q, v, x);
    }
  }

  lemma JoinedPlays(s: State, w: Id, p: Id, role: Role, rows: NewRows, q: Id, v: Id, x: Role)
    requires Inv(s) && w in s.workspaces && FreshRows(s, rows)
    ensures Plays(Joined(s, w, p, role, rows), q, v, x) <==>
            if q == p && v == w && !Belongs(s, p, w) then x == role else Plays(s, q, v, x)
  {
    hide Plays, Housed, Administered, OneRoleEach, Rows, LiveRoles;
    JoinedEffect(s, w, p, role, rows);
    if !Belongs(s, p, w) {
      WithMemberPlays(s, w, p, role, rows, q, v, x);
    }
  }

  /** Who holds which role after a transaction that goes through, in terms of who held which before. */
  ghost predicate HoldsAfter(s: State, r: Request, q: Id, v: Id, x: Role) {
    match r
    case Onboard(actor, _, _, w, _) => if q == actor && v == w then x == Admin else Plays(s, q, v, x)
    case CreateWorkspace(actor, org, _, w, _, _) =>
      if v == w && (q == actor || OrgAdmin(s, q, org)) then x == Admin else Plays(s, q, v, x)
    case Accept(actor, i, _, _) =>
      if i in s.invitations && q == actor && v == s.invitations[i].ws && !Belongs(s, q, v)
      then x == s.invitations[i].role else Plays(s, q, v, x)
    case UpdateRole(_, w, k, role, _) =>
      if k in s.members && q == s.members[k].profile && v == w then Some(x) == role else Plays(s, q, v, x)
    case RemoveMember(_, w, k) => Plays(s, q, v, x) && !(k in s.members && q == s.members[k].profile && v == w)
    case AddOrganizationAdmin(_, org, target, _, _) =>
      if q == target && v in LiveWorkspaces(s, org) then x == Admin else Plays(s, q, v, x)
    case RemoveOrganizationAdmin(_, org, target, _, _) =>
      if q == target && v in LiveWorkspaces(s, org) && Belongs(s, q, v) then x == Plain else Plays(s, q, v, x)
    case _ => Plays(s, q, v, x)
  }

  lemma InOrder(order: seq<Id>, w: Id)
    ensures w in order <==> w in Elements(order)
  {
  }

  ghost predicate StillKeyed(profiles: seq<Id>, rows: map<Id, NewRows>) { forall k | k in profiles :: k in rows }

  lemma FoundedPlays(s: State, org: Id, w: Id, profiles: seq<Id>, rows: map<Id, NewRows>, q: Id, v: Id, x: Role)
    requires Inv(s) && w !in s.workspaces && FreshFor(s, profiles, rows)
    ensures var u := WithWorkspace(s, org, w);
            && StillKeyed(profiles, rows)
            && (Plays(JoinAll(u, w, profiles, rows), q, v, x) <==>
                if v == w && q in profiles then x == Admin else Plays(s, q, v, x))
  {
    hide Plays, Rows, OneRoleEach, FreshFor, MembershipOf, JoinAll, Housed, Administered;
    var u := WithWorkspace(s, org, w);
    StillFresh(s, u, profiles, rows);
    AdminRowsOnly(s, u);
    forall p | p in profiles ensures MembershipOf(u, w, p).None? { NoMemberYet(s, u, w, p); }
    JoinAllPlays(u, w, profiles, rows, q, v, x);
    SameRows(s, u, q, v, x);
  }

  lemma CreatedPlays(s: State, r: Request, q: Id, v: Id, x: Role)
    requires Inv(s) && r.CreateWorkspace? && Possible(s, r) && Created(s, r).status == OK
    ensures Plays(Created(s, r).state, q, v, x) <==> HoldsAfter(s, r, q, v, x)
  {
    hide Plays, Inv, JoinAll, ListOrganizationAdmins, OrgAdmin, WithWorkspace;
    FoundedPlays(s, r.org, r.ws, [r.actor] + r.order, r.drawn, q, v, x);
    ListedIsOrgAdmin(s, q, r.org);
    InOrder(r.order, q);
  }

  lemma OnboardedPlays(s: State, r: Request, q: Id, v: Id, x: Role)
    requires Inv(s) && r.Onboard? && Possible(s, r) && Onboarded(s, r).status == OK
    ensures Plays(Onboarded(s, r).state, q, v, x) <==> HoldsAfter(s, r, q, v, x)
  {
    hide Plays, Inv, JoinAll, WithMember, BelongsSomewhere, WithWorkspace;
    FoundedPlays(s, r.org, r.ws, [r.actor], map[r.actor := r.rows], q, v, x);
    JoinOne(WithWorkspace(s, r.org, r.ws), r.ws, r.actor, r.rows);
  }

  lemma AcceptedPlays(s: State, r: Request, q: Id, v: Id, x: Role)
    requires Inv(s) && r.Accept? && Possible(s, r) && InviteAccepted(s, r).status == OK
    ensures Plays(InviteAccepted(s, r).state, q, v, x) <==> HoldsAfter(s, r, q, v, x)
  {
    hide Plays, Rows, OneRoleEach, Administered, Joined, MembershipOf, Belongs;
    var i := s.invitations[r.invitation];
    InvitationsHoused(s);
    JoinedPlays(s, i.ws, r.actor, i.role, r.rows, q, v, x);
    SameRows(Joined(s, i.ws, r.actor, i.role, r.rows), InviteAccepted(s, r).state, q, v, x);
  }

  lemma LiveKeys(s: State, org: Id, order: seq<Id>)
    requires Elements(order) == LiveWorkspaces(s, org)
    ensures Elements(order) <= s.workspaces.Keys
  {
  }

  lemma OrganizationAdminPlays(s: State, r: Request, q: Id, v: Id, x: Role)
    requires Inv(s) && (r.AddOrganizationAdmin? || r.RemoveOrganizationAdmin?) && MayTransact(s, r, true)
    requires Transact(s, r, true).status == OK
    ensures Plays(Transact(s, r, true).state, q, v, x) <==> HoldsAfter(s, r, q, v, x)
  {
    hide Plays, Rows, OneRoleEach, Administered, Housed, GrantAll, DemoteAll, FreshFor, Belongs, LiveWorkspaces;
    LiveKeys(s, r.org, r.order);
    InOrder(r.order, v);
    if r.AddOrganizationAdmin? {
      GrantAllPlays(s, r.target, r.order, r.drawn, q, v, x);
    } else {
      DemoteAllPlays(s, r.target, r.order, r.drawn, q, v, x);
    }
  }

  lemma MemberRequestPlays(s: State, r: Request, isAdmin: bool, q: Id, v: Id, x: Role)
    requires Inv(s) && (r.UpdateRole? || r.RemoveMember?) && MayTransact(s, r, isAdmin)
    requires Transact(s, r, isAdmin).status == OK
    ensures Plays(Transact(s, r, isAdmin).state, q, v, x) <==> HoldsAfter(s, r, q, v, x)
  {
    hide Plays, Rows, OneRoleEach, Administered, Housed, HasRole, IsLastAdmin, WithSoleRole, Disabled;
    if r.UpdateRole? {
      SoleRolePlays(s, r.ws, r.member, r.role.value, r.row, q, v, x);
    } else {
      DisabledPlays(s, r.ws, r.member, q, v, x);
    }
  }

  lemma TableRequestPlays(s: State, r: Request, isAdmin: bool, q: Id, v: Id, x: Role)
    requires (r.DeleteWorkspace? || r.Invite? || r.Revoke?) && MayTransact(s, r, isAdmin)
    ensures Plays(Transact(s, r, isAdmin).state, q, v, x) <==> Plays(s, q, v, x)
  {
    hide Plays;
    SameRows(s, Transact(s, r, isAdmin).state, q, v, x);
  }

  /** After every transaction that goes through, whatever its gate captured, a profile holds a role in a
      workspace exactly when the request says so: the founder of an organization and the organization
      admins in a new workspace as ADMIN, who accepts an invitation as invited unless a member already,
      the target of a role change the new role, a removed member none, the target of an organization
      grant ADMIN in each live workspace, and of its withdrawal MEMBER.  Everybody else holds, and
      everywhere else, what they held. */
  lemma RolesAfter(s: State, r: Request, isAdmin: bool, q: Id, v: Id, x: Role)
    requires Inv(s) && MayTransact(s, r, isAdmin) && Transact(s, r, isAdmin).status == OK
    ensures Plays(Transact(s, r, isAdmin).state, q, v, x) <==> HoldsAfter(s, r, q, v, x)
  {
    hide Plays, Inv, Possible, Onboarded, Created, Deleted, Invited, InviteRevoked, InviteAccepted, RoleUpdated,
         MemberRemoved, AdminAdded, DemoteAll, Belongs, OrgAdmin;
    match r {
      case Onboard(_, _, _, _, _) => OnboardedPlays(s, r, q, v, x);
      case CreateWorkspace(_, _, _, _, _, _) => CreatedPlays(s, r, q, v, x);
      case Accept(_, _, _, _) => AcceptedPlays(s, r, q, v, x);
      case UpdateRole(_, _, _, _, _) => MemberRequestPlays(s, r, isAdmin, q, v, x);
      case RemoveMember(_, _, _) => MemberRequestPlays(s, r, isAdmin, q, v, x);
      case AddOrganizationAdmin(_, _, _, _, _) => OrganizationAdminPlays(s, r, q, v, x);
      case RemoveOrganizationAdmin(_, _, _, _, _) => OrganizationAdminPlays(s, r, q, v, x);
      case _ => TableRequestPlays(s, r, isAdmin, q, v, x);
    }
  }

  // ---- organizations, workspaces and invitations -----------------------------------------

  /** The organization and workspace tables: a request founds them, deletes a workspace, and with the last
      one its organization, or leaves them alone. */
  ghost predicate HousesAfter(s: State, t: State, r: Request) {
    match r
    case Onboard(_, _, org, w, _) =>
      t.orgs == s.orgs[org := true] && t.workspaces == s.workspaces[w := Workspace(org, true)]
    case CreateWorkspace(_, org, _, w, _, _) =>
      t.orgs == s.orgs[org := true] && t.workspaces == s.workspaces[w := Workspace(org, true)]
    case DeleteWorkspace(_, w) =>
      && w in s.workspaces && t.workspaces == s.workspaces[w := Workspace(s.workspaces[w].org, false)]
      && forall o :: LiveOrg(t, o) <==> LiveOrg(s, o) && (exists v :: LiveWorkspace(t, v) && t.workspaces[v].org == o)
    case _ => t.orgs == s.orgs && t.workspaces == s.workspaces
  }

  const FOURTEEN_DAYS: int := 1_209_600_000

  /** The invitations: a new one lives fourteen days and supersedes the pending ones to its address, a
      pending one is revoked or accepted, and no other changes. */
  ghost predicate InvitationsAfter(s: State, t: State, r: Request) {
    match r
    case Invite(_, w, email, role, id, now) =>
      && role.Some? && t.invitations.Keys == s.invitations.Keys + {id}
      && t.invitations[id] == Invitation(w, email, role.value, Pending, now + FOURTEEN_DAYS)
      && forall i | i in s.invitations && i != id ::
           var v := s.invitations[i];
           t.invitations[i] == if v.status == Pending && v.ws == w && v.email == email then v.(status := Revoked) else v
    case Revoke(_, w, id) =>
      && id in s.invitations && s.invitations[id].ws == w
      && t.invitations == if s.invitations[id].status == Pending
                          then s.invitations[id := s.invitations[id].(status := Revoked)] else s.invitations
    case Accept(_, id, _, _) =>
      id in s.invitations && t.invitations == s.invitations[id := s.invitations[id].(status := Accepted)]
    case _ => t.invitations == s.invitations
  }

  lemma SomeLeft(t: State, org: Id)
    ensures LiveWorkspaces(t, org) != {} <==> exists v :: LiveWorkspace(t, v) && t.workspaces[v].org == org
  {
    if LiveWorkspaces(t, org) != {} {
      HasElement(LiveWorkspaces(t, org));
      var v: Id :| v in LiveWorkspaces(t, org);
      assert LiveWorkspace(t, v);
    }
    if v: Id :| LiveWorkspace(t, v) && t.workspaces[v].org == org {
      assert v in LiveWorkspaces(t, org);
    }
  }

  lemma LiveHasOne(s: State, o: Id)
    requires Housed(s) && LiveOrg(s, o)
    ensures exists v :: LiveWorkspace(s, v) && s.workspaces[v].org == o
  {
    SomeLeft(s, o);
  }

  lemma DeletedHouses(s: State, r: Request)
    requires Inv(s) && r.DeleteWorkspace? && Deleted(s, r.ws).status == OK
    ensures HousesAfter(s, Deleted(s, r.ws).state, r)
    ensures var t := Deleted(s, r.ws).state; t.emails == s.emails && t.invitations == s.invitations
  {
    hide WithoutWorkspace, LiveOrg, LiveWorkspaces, Rows, OneRoleEach, Administered;
    EmptiedIsDead(s, r.ws);
    var t := WithoutWorkspace(s, r.ws);
    forall o ensures LiveOrg(t, o) <==> LiveOrg(s, o) && exists v :: LiveWorkspace(t, v) && t.workspaces[v].org == o {
      SomeLeft(t, o);
      if o != s.workspaces[r.ws].org && LiveOrg(s, o) {
        LiveHasOne(s, o);
        if v: Id :| LiveWorkspace(s, v) && s.workspaces[v].org == o {
          assert LiveWorkspace(t, v) && t.workspaces[v].org == o;
        }
      }
    }
  }

  lemma FoundedTables(s: State, org: Id, w: Id, profiles: seq<Id>, rows: map<Id, NewRows>)
    requires Inv(s) && w !in s.workspaces && profiles != [] && FreshFor(s, profiles, rows)
    ensures var t := JoinAll(WithWorkspace(s, org, w), w, profiles, rows);
            && t.orgs == s.orgs[org := true] && t.workspaces == s.workspaces[w := Workspace(org, true)]
            && t.emails == s.emails && t.invitations == s.invitations
  {
    hide Rows, OneRoleEach, MembershipOf, FreshFor, JoinAll, Housed, Administered;
    var u := WithWorkspace(s, org, w);
    StillFresh(s, u, profiles, rows);
    AdminRowsOnly(s, u);
    forall p | p in profiles ensures MembershipOf(u, w, p).None? { NoMemberYet(s, u, w, p); }
    JoinAllEffect(u, w, profiles, rows);
  }

  lemma FoundingTables(s: State, r: Request)
    requires Inv(s) && (r.Onboard? || r.CreateWorkspace?) && Possible(s, r)
    ensures var t := if r.Onboard? then Onboarded(s, r) else Created(s, r);
            t.status == OK ==>
              HousesAfter(s, t.state, r) && t.state.emails == s.emails && t.state.invitations == s.invitations
  {
    hide Inv, JoinAll, WithMember, BelongsSomewhere, ListOrganizationAdmins;
    if r.Onboard? {
      FoundedTables(s, r.org, r.ws, [r.actor], map[r.actor := r.rows]);
      JoinOne(WithWorkspace(s, r.org, r.ws), r.ws, r.actor, r.rows);
    } else {
      FoundedTables(s, r.org, r.ws, [r.actor] + r.order, r.drawn);
    }
  }

  lemma LoopTables(s: State, r: Request)
    requires Inv(s) && (r.AddOrganizationAdmin? || r.RemoveOrganizationAdmin?) && Possible(s, r)
    ensures SameHouses(s, Transact(s, r, true).state)
  {
    hide Rows, OneRoleEach, Administered, Housed, GrantAll, DemoteAll, FreshRows, BelongsTo;
    if r.AddOrganizationAdmin? {
      GrantAllEffect(s, r.target, r.order, r.drawn);
    } else {
      DemoteAllEffect(s, r.target, r.order, r.drawn);
    }
  }

  lemma AcceptTables(s: State, r: Request)
    requires Inv(s) && r.Accept? && Possible(s, r) && InviteAccepted(s, r).status == OK
    ensures var t := InviteAccepted(s, r).state;
            t.orgs == s.orgs && t.workspaces == s.workspaces && t.emails == s.emails && InvitationsAfter(s, t, r)
  {
    hide Rows, OneRoleEach, Administered, Joined, MembershipOf;
    var v := s.invitations[r.invitation];
    InvitationsHoused(s);
    JoinedEffect(s, v.ws, r.actor, v.role, r.rows);
  }

  lemma MemberTables(s: State, r: Request, isAdmin: bool)
    requires (r.UpdateRole? || r.RemoveMember?) && MayTransact(s, r, isAdmin)
    ensures SameHouses(s, Transact(s, r, isAdmin).state)
  {
    hide HasRole, IsLastAdmin, ActiveMembers, LiveRoles, Possible;
  }

  lemma InvitationTables(s: State, r: Request, isAdmin: bool)
    requires (r.Invite? || r.Revoke?) && MayTransact(s, r, isAdmin) && Transact(s, r, isAdmin).status == OK
    ensures var t := Transact(s, r, isAdmin).state; t == s.(invitations := t.invitations) && InvitationsAfter(s, t, r)
  {
  }

  /** The other tables after every transaction that goes through. */
  lemma TablesAfter(s: State, r: Request, isAdmin: bool)
    requires Inv(s) && MayTransact(s, r, isAdmin) && Transact(s, r, isAdmin).status == OK
    ensures var t := Transact(s, r, isAdmin).state;
            HousesAfter(s, t, r) && InvitationsAfter(s, t, r) && t.emails == s.emails
  {
    hide Inv, Possible, Onboarded, Created, Deleted, Invited, InviteRevoked, InviteAccepted, RoleUpdated,
         MemberRemoved, AdminAdded, DemoteAll, LiveOrg;
    match r {
      case Onboard(_, _, _, _, _) => FoundingTables(s, r);
      case CreateWorkspace(_, _, _, _, _, _) => FoundingTables(s, r);
      case DeleteWorkspace(_, _) => DeletedHouses(s, r);
      case Invite(_, _, _, _, _, _) => InvitationTables(s, r, isAdmin);
      case Revoke(_, _, _) => InvitationTables(s, r, isAdmin);
      case Accept(_, _, _, _) => AcceptTables(s, r);
      case UpdateRole(_, _, _, _, _) => MemberTables(s, r, isAdmin);
      case RemoveMember(_, _, _) => MemberTables(s, r, isAdmin);
      case AddOrganizationAdmin(_, _, _, _, _) => LoopTables(s, r);
      case RemoveOrganizationAdmin(_, _, _, _, _) => LoopTables(s, r);
    }
  }

  // ---- exactly when a request goes through -----------------------------------------------

  lemma SomewhereMeans(s: State, p: Id)
    ensures BelongsSomewhere(s, p) <==> exists w :: LiveWorkspace(s, w) && Belongs(s, p, w)
  {
    if BelongsSomewhere(s, p) {
      var m: Id :| m in s.members && s.members[m].profile == p && s.members[m].active
                   && LiveWorkspace(s, s.members[m].ws);
      assert s.members[m] == Member(s.members[m].ws, p, true);
      assert Belongs(s, p, s.members[m].ws);
    }
  }

  lemma BelongsToMeans(s: State, p: Id, org: Id)
    ensures BelongsTo(s, p, org) <==> exists w :: w in LiveWorkspaces(s, org) && Belongs(s, p, w)
  {
    if BelongsTo(s, p, org) {
      var m: Id :| m in s.members && s.members[m].profile == p && s.members[m].active
                   && s.members[m].ws in LiveWorkspaces(s, org);
      assert s.members[m] == Member(s.members[m].ws, p, true);
      assert Belongs(s, p, s.members[m].ws);
    }
  }

  /** An organization is founded by a profile that belongs to no live workspace, under a name. */
  lemma OnboardExactly(s: State, r: Request)
    requires r.Onboard? && Possible(s, r)
    ensures Apply(s, r).status == OK <==> r.named && forall w | LiveWorkspace(s, w) :: !Belongs(s, r.actor, w)
    ensures Apply(s, r).status == 409 <==> exists w :: LiveWorkspace(s, w) && Belongs(s, r.actor, w)
    ensures Apply(s, r).status != OK ==> Apply(s, r).state == s && Apply(s, r).status in {400, 409}
  {
    hide Belongs, LiveWorkspace, BelongsSomewhere, WithMember;
    SomewhereMeans(s, r.actor);
  }

  /** A workspace is created by an admin of its organization, under a name. */
  lemma CreateExactly(s: State, r: Request)
    requires Inv(s) && r.CreateWorkspace? && Possible(s, r)
    ensures Apply(s, r).status == OK <==> OrgAdmin(s, r.actor, r.org) && r.named
    ensures Apply(s, r).status == 403 <==> !OrgAdmin(s, r.actor, r.org)
    ensures Apply(s, r).status != OK ==> Apply(s, r).state == s && Apply(s, r).status in {400, 403}
  {
    hide ListOrganizationAdmins, AdminIn, JoinAll, Rows, OneRoleEach, Administered, FreshRows;
    ListedIsOrgAdmin(s, r.actor, r.org);
    if OrgAdmin(s, r.actor, r.org) {
      HasElement(LiveWorkspaces(s, r.org));
      var w: Id :| w in LiveWorkspaces(s, r.org);
      assert LiveWorkspace(s, w);
    }
  }

  /** A workspace is deleted by one of its ADMINs; a stranger to it is answered 404, another member 403. */
  lemma DeletionExactly(s: State, r: Request)
    requires Inv(s) && r.DeleteWorkspace?
    ensures Apply(s, r).status == OK <==> LiveWorkspace(s, r.ws) && AdminIn(s, r.actor, r.ws)
    ensures Apply(s, r).status == 404 <==> !(LiveWorkspace(s, r.ws) && Belongs(s, r.actor, r.ws))
    ensures Apply(s, r).status != OK ==> Apply(s, r).state == s && Apply(s, r).status in {403, 404}
  {
    hide AdminIn, HasRole, OneRoleEach, Rows, Administered, Housed, WithoutWorkspace;
    var m := ActiveMembership(s, r.ws, r.actor);
    if m.Some? {
      MemberIsAdmin(s, r.ws, m.value);
    } else if MembershipOf(s, r.ws, r.actor).None? {
      NotAdmin(s, r.actor, r.ws);
    }
  }

  /** Some active member of the workspace has the address. */
  ghost predicate Known(s: State, w: Id, email: string) {
    exists m :: IsActiveMember(s, w, m) && s.members[m].profile in s.emails
                && s.emails[s.members[m].profile] == Some(email)
  }

  /** An invitation is made by at least a manager, to an address that no member has, in a role that the
      actor may give. */
  lemma InviteExactly(s: State, r: Request)
    requires Inv(s) && r.Invite? && Possible(s, r)
    ensures Apply(s, r).status == OK <==>
            && Manages(s, r.actor, r.ws) && '@' in r.email && r.role.Some?
            && (r.role.value == Admin ==> AdminIn(s, r.actor, r.ws)) && !Known(s, r.ws, r.email)
    ensures Apply(s, r).status == 409 <==>
            && Manages(s, r.actor, r.ws) && '@' in r.email && r.role.Some?
            && (r.role.value == Admin ==> AdminIn(s, r.actor, r.ws)) && Known(s, r.ws, r.email)
    ensures Apply(s, r).status == 400 <==> Manages(s, r.actor, r.ws) && ('@' !in r.email || r.role.None?)
    ensures Apply(s, r).status != OK ==> Apply(s, r).state == s && Apply(s, r).status in {400, 403, 404, 409}
  {
    hide AdminIn, OneRoleEach, Rows, Administered, Housed, ManagerGate, Manages, Invited;
    GateExactly(s, r.actor, r.ws);
    if Known(s, r.ws, r.email) {
      var m: Id :| IsActiveMember(s, r.ws, m) && s.members[m].profile in s.emails
                   && s.emails[s.members[m].profile] == Some(r.email);
      assert m in ActiveMembers(s, r.ws);
    }
    if HasMemberWithEmail(s, r.ws, r.email) {
      var m: Id :| m in ActiveMembers(s, r.ws) && s.members[m].profile in s.emails
                   && s.emails[s.members[m].profile] == Some(r.email);
      assert IsActiveMember(s, r.ws, m);
    }
  }

  /** What a role change or a removal by at least a manager is answered when it does not go through: 404 for
      one who is no member, 403 for an ADMIN when the actor is none, 409 for the only ADMIN. */
  lemma MemberAnswers(s: State, r: Request)
    requires Inv(s) && (r.UpdateRole? || r.RemoveMember?) && Possible(s, r) && Manages(s, r.actor, r.ws)
    requires r.UpdateRole? ==> r.role.Some? && (r.role.value == Admin ==> AdminIn(s, r.actor, r.ws))
    ensures var status, member := Apply(s, r).status, IsActiveMember(s, r.ws, r.member);
            var p := if member then s.members[r.member].profile else 0;
            var denied := member && AdminIn(s, p, r.ws) && !AdminIn(s, r.actor, r.ws);
            && (status == 404 <==> !member) && (status == 403 <==> denied)
            && (status == 409 <==> && member && !denied && OnlyAdmin(s, r.ws, p)
                                   && (r.UpdateRole? ==> r.role.value != Admin))
  {
    hide AdminIn, HasRole, OneRoleEach, Rows, WithSoleRole, ManagerGate, Manages, IsLastAdmin, OnlyAdmin, Housed;
    GateExactly(s, r.actor, r.ws);
    if IsActiveMember(s, r.ws, r.member) {
      CountMeansOnlyAdmin(s, r.ws, r.member);
      MemberIsAdmin(s, r.ws, r.member);
      if r.RemoveMember? && !OnlyAdmin(s, r.ws, s.members[r.member].profile) {
        NotAlone(s, r.ws, r.member);
      }
    }
  }

  /** An invitation is revoked by at least a manager of its workspace; one that is no longer pending stays
      as it is. */
  lemma RevokeExactly(s: State, r: Request)
    requires Inv(s) && r.Revoke?
    ensures Apply(s, r).status == OK <==>
            && Manages(s, r.actor, r.ws) && r.invitation in s.invitations && s.invitations[r.invitation].ws == r.ws
    ensures Apply(s, r).status != OK ==> Apply(s, r).state == s && Apply(s, r).status in {403, 404}
  {
    hide AdminIn, OneRoleEach, Rows, Administered, Housed, ManagerGate, Manages;
    GateExactly(s, r.actor, r.ws);
  }

  lemma OrgAdminIsLive(s: State, p: Id, org: Id)
    requires Housed(s)
    ensures OrgAdmin(s, p, org) ==> LiveOrg(s, org)
  {
    if OrgAdmin(s, p, org) {
      SomeLeft(s, org);
      var w: Id :| LiveWorkspace(s, w) && s.workspaces[w].org == org;
    }
  }

  /** An organization admin is made by another, of a profile that belongs to the organization. */
  lemma AddAdminExactly(s: State, r: Request)
    requires Inv(s) && r.AddOrganizationAdmin? && Possible(s, r)
    ensures Apply(s, r).status == OK <==>
            && OrgAdmin(s, r.actor, r.org) && r.target in s.emails
            && exists w :: w in LiveWorkspaces(s, r.org) && Belongs(s, r.target, w)
    ensures Apply(s, r).status == 403 <==> LiveOrg(s, r.org) && !OrgAdmin(s, r.actor, r.org)
    ensures Apply(s, r).status == 400 <==>
            && OrgAdmin(s, r.actor, r.org) && r.target in s.emails
            && forall w | w in LiveWorkspaces(s, r.org) :: !Belongs(s, r.target, w)
    ensures Apply(s, r).status != OK ==> Apply(s, r).state == s && Apply(s, r).status in {400, 403, 404}
  {
    hide ListOrganizationAdmins, AdminIn, GrantAll, Rows, OneRoleEach, Administered, FreshRows, BelongsTo, Belongs;
    ListedIsOrgAdmin(s, r.actor, r.org);
    BelongsToMeans(s, r.target, r.org);
    OrgAdminIsLive(s, r.actor, r.org);
  }

  lemma InvHoused(s: State)
    requires Inv(s)
    ensures Housed(s)
  {
  }

  /** An organization admin is unmade by one, itself or another, while there is another left. */
  lemma RemoveAdminExactly(s: State, r: Request)
    requires Inv(s) && r.RemoveOrganizationAdmin? && Possible(s, r)
    ensures Apply(s, r).status == OK <==>
            && OrgAdmin(s, r.actor, r.org) && OrgAdmin(s, r.target, r.org)
            && exists p :: p != r.target && OrgAdmin(s, p, r.org)
    ensures Apply(s, r).status == 409 <==>
            && OrgAdmin(s, r.actor, r.org) && OrgAdmin(s, r.target, r.org)
            && forall p | OrgAdmin(s, p, r.org) :: p == r.target
    ensures Apply(s, r).status == 403 <==> LiveOrg(s, r.org) && !OrgAdmin(s, r.actor, r.org)
    ensures Apply(s, r).status != OK ==> Apply(s, r).state == s && Apply(s, r).status in {403, 404, 409}
  {
    hide ListOrganizationAdmins, OrgAdmin, DemoteAll, Inv, Possible, LiveOrg;
    var admins := ListOrganizationAdmins(s, r.org);
    forall p { ListedIsOrgAdmin(s, p, r.org); }
    InvHoused(s);
    OrgAdminIsLive(s, r.actor, r.org);
    if r.target in admins {
      if |admins| <= 1 {
        SubsetSize({r.target}, admins);
        SubsetSameSize({r.target}, admins);
      } else {
        assert admins == (admins - {r.target}) + {r.target};
        HasElement(admins - {r.target});
        var p: Id :| p in admins - {r.target};
        assert p != r.target && OrgAdmin(s, p, r.org);
      }
    }
  }
}
