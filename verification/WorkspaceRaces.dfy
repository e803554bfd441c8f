/** What the membership requests do when checks and transactions interleave, in states that requests
    reach from an empty directory. */
module WorkspaceRaces {
  import opened Common
  import opened Membership
  import opened OrgAdmins
  import opened Workspaces

  /** The check runs before the transaction.  When two organization admins, the only ADMINs of a
      workspace, are removed at once, both checks pass on the same state, and the workspace is left
      without an ADMIN. */
  lemma RemovalsRace(s: State, org: Id, w: Id, a: Id, b: Id, order: seq<Id>,
                     first: map<Id, NewRows>, second: map<Id, NewRows>)
    requires Inv(s) && a != b && w in LiveWorkspaces(s, org)
    requires OrgAdmin(s, a, org) && OrgAdmin(s, b, org) && forall p | AdminIn(s, p, w) :: p == a || p == b
    requires Elements(order) == LiveWorkspaces(s, org) && FreshFor(s, order, first)
    requires FreshFor(DemoteAll(s, a, order, first), order, second)
    ensures RemovalCheck(s, b, org, a) == OK && RemovalCheck(s, a, org, b) == OK
    ensures var t := DemoteAll(DemoteAll(s, a, order, first), b, order, second);
            LiveWorkspace(t, w) && forall p :: !AdminIn(t, p, w)
  {
    hide AdminIn, Rows, OneRoleEach, DemoteAll, FreshRows, ListOrganizationAdmins;
    ListedIsOrgAdmin(s, a, org);
    ListedIsOrgAdmin(s, b, org);
    TwoAtLeast(ListOrganizationAdmins(s, org), a, b);
    DemoteAllEffect(s, a, order, first);
    DemoteAllEffect(DemoteAll(s, a, order, first), b, order, second);
    assert forall v :: v in order <==> v in Elements(order);
  }

  // ---- what requests reach ----------------------------------------------------------------

  const EMAILS: map<Id, Option<string>> := map[1 := None, 2 := Some("b@x")]

  /** Requests, one after the other, lead from `s` to `t`. */
  ghost predicate Leads(s: State, requests: seq<Request>, t: State)
    decreases |requests|
  {
    if requests == [] then t == s
    else Possible(s, requests[0]) && Leads(Apply(s, requests[0]).state, requests[1..], t)
  }

  ghost predicate Reached(s: State) {
    exists requests :: Leads(Empty(EMAILS), requests, s)
  }

  lemma {:induction false} LeadsOn(s: State, requests: seq<Request>, t: State, r: Request)
    requires Leads(s, requests, t) && Possible(t, r)
    ensures Leads(s, requests + [r], Apply(t, r).state)
    decreases |requests|
  {
    hide Possible, Apply;
    if requests == [] {
      assert [r][1..] == [];
      assert requests + [r] == [r];
      assert Leads(Apply(t, r).state, [], Apply(t, r).state);
    } else {
      LeadsOn(Apply(s, requests[0]).state, requests[1..], t, r);
      assert (requests + [r])[1..] == requests[1..] + [r];
    }
  }

  lemma {:induction false} LeadsHolds(s: State, requests: seq<Request>, t: State)
    requires Inv(s) && Leads(s, requests, t)
    ensures Inv(t)
    decreases |requests|
  {
    hide Inv, Possible, Apply;
    if requests != [] {
      StepKeepsInv(s, requests[0]);
      LeadsHolds(Apply(s, requests[0]).state, requests[1..], t);
    }
  }

  lemma ReachedHolds(s: State)
    requires Reached(s)
    ensures Inv(s)
  {
    hide Inv, Leads, Empty;
    var requests :| Leads(Empty(EMAILS), requests, s);
    EmptyHolds(EMAILS);
    LeadsHolds(Empty(EMAILS), requests, s);
  }

  lemma ReachedEmpty()
    ensures Reached(Empty(EMAILS))
  {
    assert Leads(Empty(EMAILS), [], Empty(EMAILS));
  }

  ghost predicate Follows(s: State, r: Request, t: State) {
    Possible(s, r) && Apply(s, r) == Outcome(OK, t)
  }

  lemma ReachedNext(s: State, r: Request, t: State)
    requires Reached(s) && Follows(s, r, t)
    ensures Reached(t)
  {
    hide Leads, Possible, Apply;
    var requests :| Leads(Empty(EMAILS), requests, s);
    LeadsOn(Empty(EMAILS), requests, s, r);
  }

  lemma NoRows(s: State)
    requires s.members == map[] && s.roles == map[]
    ensures Sound(s) && forall p, w :: !AdminIn(s, p, w)
  {
  }

  lemma AdminIsMember(s: State, p: Id, w: Id)
    requires Rows(s) && AdminIn(s, p, w)
    ensures MembershipOf(s, w, p).Some? && HasRole(s, w, MembershipOf(s, w, p).value, Admin)
  {
    AdminHasRow(s, p, w);
    var n: Id :| IsActiveMember(s, w, n) && s.members[n].profile == p && HasRole(s, w, n, Admin);
    assert s.members[n] == Member(w, p, true);
  }

  /** Profile 1 has founded organization 0 with workspace 0. */
  lemma Onboarding() returns (s: State)
    ensures Reached(s) && s.emails == EMAILS && s.orgs == map[0 := true] && s.workspaces == map[0 := Workspace(0, true)]
    ensures s.members == map[11 := Member(0, 1, true)] && s.roles.Keys == {21} && s.invitations == map[]
    ensures forall p, w :: AdminIn(s, p, w) <==> p == 1 && w == 0
  {
    hide AdminIn, Reached;
    var r := Onboard(1, true, 0, 0, NewRows(11, 21));
    var e := WithWorkspace(Empty(EMAILS), 0, 0);
    s := WithMember(e, 0, 1, Admin, NewRows(11, 21));
    ReachedEmpty();
    assert Follows(Empty(EMAILS), r, s);
    ReachedNext(Empty(EMAILS), r, s);
    NoRows(e);
    forall p, w { WithMemberAdmins(e, 0, 1, Admin, NewRows(11, 21), p, w); }
  }

  /** An ADMIN invites an address that no member has. */
  lemma Inviting(s: State, w: Id, email: string, role: Role, i: Id) returns (t: State)
    requires Reached(s) && AdminIn(s, 1, w) && LiveWorkspace(s, w) && '@' in email && i !in s.invitations
    requires !HasMemberWithEmail(s, w, email)
    ensures Reached(t) && t == Invited(s, w, email, role, i, 0)
  {
    hide AdminIn, Rows, OneRoleEach, Administered, Housed, MembershipOf, HasRole, HasMemberWithEmail, Reached, Invited;
    ReachedHolds(s);
    AdminIsMember(s, 1, w);
    assert email != "";
    t := Invited(s, w, email, role, i, 0);
    var r := Invite(1, w, email, Some(role), i, 0);
    assert Follows(s, r, t);
    ReachedNext(s, r, t);
  }

  /** Profile 2 accepts. */
  lemma Accepting(s: State, i: Id, rows: NewRows) returns (t: State)
    requires Reached(s) && s.emails == EMAILS && i in s.invitations && FreshRows(s, rows)
    requires s.invitations[i].status == Pending && s.invitations[i].email == "b@x" && s.invitations[i].expiresAt > 0
    requires LiveWorkspace(s, s.invitations[i].ws) && MembershipOf(s, s.invitations[i].ws, 2).None?
    ensures Reached(t)
    ensures var v := s.invitations[i]; t == Mark(WithMember(s, v.ws, 2, v.role, rows), i, Accepted)
  {
    hide MembershipOf, Reached;
    var v, r := s.invitations[i], Accept(2, i, 0, rows);
    t := Mark(Joined(s, v.ws, 2, v.role, rows), i, Accepted);
    assert Follows(s, r, t);
    ReachedNext(s, r, t);
  }

  lemma NoSuchMember(s: State, w: Id)
    requires s.emails == EMAILS && forall m | m in s.members && s.members[m].ws == w :: s.members[m].profile != 2
    ensures MembershipOf(s, w, 2).None? && !HasMemberWithEmail(s, w, "b@x")
  {
  }

  /** Profile 2 joins a workspace it is not a member of, by invitation. */
  lemma Joining(s: State, w: Id, role: Role, i: Id, rows: NewRows) returns (t: State)
    requires Reached(s) && s.emails == EMAILS && AdminIn(s, 1, w) && LiveWorkspace(s, w)
    requires i !in s.invitations && FreshRows(s, rows)
    requires forall m | m in s.members && s.members[m].ws == w :: s.members[m].profile != 2
    ensures Reached(t) && t.emails == EMAILS && t.orgs == s.orgs && t.workspaces == s.workspaces
    ensures t.members == s.members[rows.member := Member(w, 2, true)] && t.roles.Keys == s.roles.Keys + {rows.role}
    ensures t.invitations.Keys == s.invitations.Keys + {i}
    ensures forall q, v :: AdminIn(t, q, v) <==> AdminIn(s, q, v) || (role == Admin && q == 2 && v == w)
  {
    hide AdminIn, Rows, OneRoleEach, Administered, Housed, MembershipOf, HasMemberWithEmail, Reached;
    NoSuchMember(s, w);
    ReachedHolds(s);
    var u := Inviting(s, w, "b@x", role, i);
    NoSuchMember(u, w);
    t := Accepting(u, i, rows);
    AdminRowsOnly(s, u);
    AdminRowsOnly(WithMember(u, w, 2, role, rows), t);
    forall q, v { WithMemberAdmins(u, w, 2, role, rows, q, v); }
  }

  /** Two requests after founding, an invitation as ADMIN and its acceptance, lead to a state the race
      needs: one organization, one workspace, two members, both ADMIN. */
  lemma RaceIsPossible() returns (s: State)
    ensures Reached(s) && Inv(s) && OrgAdmin(s, 1, 0) && OrgAdmin(s, 2, 0)
    ensures (forall p | AdminIn(s, p, 0) :: p == 1 || p == 2) && LiveWorkspaces(s, 0) == {0}
  {
    hide AdminIn, Inv, Reached;
    var f := Onboarding();
    s := Joining(f, 0, Admin, 31, NewRows(12, 22));
    ReachedHolds(s);
    assert 0 in LiveWorkspaces(s, 0);
  }

  // ---- an invitation that can no longer be accepted ---------------------------------------

  /** Organization 0 with workspaces 0 and 5, profile 1 ADMIN of both, profile 2 a member of workspace 5
      with invitation 32 to workspace 0 pending. */
  ghost predicate InvitedElsewhere(s: State) {
    && s.emails == EMAILS && s.orgs == map[0 := true]
    && s.workspaces == map[0 := Workspace(0, true), 5 := Workspace(0, true)]
    && s.members == map[11 := Member(0, 1, true), 12 := Member(5, 1, true), 13 := Member(5, 2, true)]
    && s.roles.Keys == {21, 22, 23} && AdminIn(s, 1, 0) && AdminIn(s, 1, 5)
    && 32 in s.invitations && s.invitations[32] == Invitation(0, "b@x", Plain, Pending, INVITATION_TTL)
  }

  const PROMOTE := AddOrganizationAdmin(1, 0, 2, [0, 5], map[0 := NewRows(14, 24), 5 := NewRows(15, 25)])
  const DROP := DeleteWorkspace(1, 0)

  lemma OnlyAdminListed(s: State)
    requires (forall p :: OrgAdmin(s, p, 0) <==> p == 1)
    ensures ListOrganizationAdmins(s, 0) == {1}
  {
    hide ListOrganizationAdmins, OrgAdmin;
    forall p ensures p in ListOrganizationAdmins(s, 0) <==> p == 1 { ListedIsOrgAdmin(s, p, 0); }
  }

  /** Profile 1 adds workspace 5. */
  lemma SecondWorkspace(f: State) returns (s: State)
    requires Reached(f) && f.emails == EMAILS && f.orgs == map[0 := true]
    requires f.workspaces == map[0 := Workspace(0, true)] && f.members == map[11 := Member(0, 1, true)]
    requires f.roles.Keys == {21} && f.invitations == map[] && forall p, w :: AdminIn(f, p, w) <==> p == 1 && w == 0
    ensures Reached(s) && s.emails == EMAILS && s.orgs == map[0 := true]
    ensures s.workspaces == map[0 := Workspace(0, true), 5 := Workspace(0, true)]
    ensures s.members == map[11 := Member(0, 1, true), 12 := Member(5, 1, true)] && s.roles.Keys == {21, 22}
    ensures s.invitations == map[] && AdminIn(s, 1, 0) && AdminIn(s, 1, 5)
  {
    hide AdminIn, Inv, Reached, ListOrganizationAdmins, JoinAll;
    var drawn: map<Id, NewRows> := map[1 := NewRows(12, 22)];
    var r := CreateWorkspace(1, 0, true, 5, [], drawn);
    assert 0 in LiveWorkspaces(f, 0);
    OnlyAdminListed(f);
    ReachedHolds(f);
    assert [1] + [] == [1];
    JoinOne(WithWorkspace(f, 0, 5), 5, 1, NewRows(12, 22));
    s := WithMember(WithWorkspace(f, 0, 5), 5, 1, Admin, NewRows(12, 22));
    assert Possible(f, r) && Apply(f, r) == Outcome(OK, s);
    ReachedNext(f, r, s);
    FoundedEffect(f, 0, 5, [1], drawn);
  }

  lemma InvitedRows(s: State, w: Id, email: string, role: Role, i: Id)
    ensures var t := Invited(s, w, email, role, i, 0);
            && t == s.(invitations := t.invitations) && i in t.invitations
            && t.invitations[i] == Invitation(w, email, role, Pending, INVITATION_TTL)
  {
  }

  lemma InvitedElsewhereIsReached() returns (s: State)
    ensures Reached(s) && InvitedElsewhere(s)
  {
    hide AdminIn, Reached, MembershipOf, HasMemberWithEmail, Rows, OneRoleEach, Invited;
    var f := Onboarding();
    var two := SecondWorkspace(f);
    var joined := Joining(two, 5, Plain, 31, NewRows(13, 23));
    NoSuchMember(joined, 0);
    s := Inviting(joined, 0, "b@x", Plain, 32);
    InvitedRows(joined, 0, "b@x", Plain, 32);
    AdminRowsOnly(joined, s);
  }

  lemma PromotionPossible(s: State)
    requires InvitedElsewhere(s)
    ensures Possible(s, PROMOTE) && BelongsTo(s, 2, 0) && LiveWorkspaces(s, 0) == {0, 5} && OrgAdmin(s, 1, 0)
  {
    hide AdminIn;
    assert 0 in LiveWorkspaces(s, 0) && s.members[13].profile == 2;
    assert Elements([0, 5]) == {0, 5};
  }

  lemma GrantedRows(s: State)
    requires Inv(s) && Possible(s, PROMOTE) && LiveWorkspaces(s, 0) == {0, 5} && AdminIn(s, 1, 0)
    ensures var t := GrantAll(s, 2, PROMOTE.order, PROMOTE.drawn);
            AdminIn(t, 1, 0) && AdminIn(t, 2, 0) && SameHouses(s, t)
  {
    hide AdminIn, Rows, OneRoleEach, GrantAll, FreshRows;
    GrantAllEffect(s, 2, PROMOTE.order, PROMOTE.drawn);
    assert 0 in PROMOTE.order;
  }

  /** Made an organization admin, profile 2 has joined workspace 0 past its invitation. */
  lemma Promoted(s: State) returns (t: State)
    requires Reached(s) && InvitedElsewhere(s)
    ensures Reached(t) && Follows(s, PROMOTE, t)
    ensures AdminIn(t, 1, 0) && AdminIn(t, 2, 0) && SameHouses(s, t)
  {
    hide AdminIn, Inv, GrantAll, ListOrganizationAdmins, LiveWorkspaces, FreshFor, BelongsTo, Possible, OrgAdmin,
         Reached;
    ReachedHolds(s);
    PromotionPossible(s);
    ListedIsOrgAdmin(s, 1, 0);
    t := Apply(s, PROMOTE).state;
    GrantedRows(s);
    ReachedNext(s, PROMOTE, t);
  }

  /** Nothing is changed. */
  ghost predicate Refused(s: State, r: Request, status: nat) {
    Possible(s, r) && Apply(s, r) == Outcome(status, s)
  }

  /** Accepting an invitation to a deleted workspace one has a row in answers 500. */
  predicate Stranded(u: State, i: Id, p: Id) {
    && i in u.invitations && u.invitations[i].status == Pending
    && p in u.emails && u.emails[p] == Some(u.invitations[i].email)
    && !LiveWorkspace(u, u.invitations[i].ws) && MembershipOf(u, u.invitations[i].ws, p).Some?
  }

  lemma StrandedAnswers500(u: State, i: Id, p: Id, now: int, rows: NewRows)
    requires Stranded(u, i, p) && now < u.invitations[i].expiresAt && FreshRows(u, rows)
    ensures Refused(u, Accept(p, i, now, rows), 500)
  {
    hide MembershipOf, Joined;
  }

  lemma SameMembership(s: State, t: State, w: Id, p: Id)
    requires s.members == t.members
    ensures MembershipOf(s, w, p).Some? <==> MembershipOf(t, w, p).Some?
  {
  }

  lemma Dropped(t: State) returns (u: State)
    requires Reached(t) && AdminIn(t, 1, 0) && AdminIn(t, 2, 0) && t.emails == EMAILS && LiveWorkspace(t, 0)
    requires 32 in t.invitations && t.invitations[32] == Invitation(0, "b@x", Plain, Pending, INVITATION_TTL)
    ensures Reached(u) && Follows(t, DROP, u) && Stranded(u, 32, 2) && u.invitations == t.invitations
  {
    hide AdminIn, OneRoleEach, Administered, HasRole, Rows, LiveWorkspaces, WithoutWorkspace, MembershipOf, Reached;
    ReachedHolds(t);
    AdminIsMember(t, 1, 0);
    AdminIsMember(t, 2, 0);
    u := WithoutWorkspace(t, 0);
    EmptiedIsDead(t, 0);
    SameMembership(t, u, 0, 2);
    assert Follows(t, DROP, u);
    ReachedNext(t, DROP, u);
  }

  /** An invitation can be left behind by a deleted workspace that its addressee has come to belong to
      by another way; accepting it then answers 500 and changes nothing. */
  lemma StrandedInvitationHappens(now: int) returns (u: State)
    requires now < INVITATION_TTL
    ensures Reached(u) && forall rows | FreshRows(u, rows) :: Refused(u, Accept(2, 32, now, rows), 500)
  {
    hide Inv, Apply, Stranded, Possible, Reached, AdminIn;
    var s := InvitedElsewhereIsReached();
    var t := Promoted(s);
    u := Dropped(t);
    forall rows | FreshRows(u, rows) {
      StrandedAnswers500(u, 32, 2, now, rows);
    }
  }
}
