/** The membership tables as the requests write them, row by row and in their loops. */
module WorkspaceStore {
  import opened Common
  import opened Membership
  import opened OrgAdmins
  import opened Workspaces

  class Directory {
    var emails: map<Id, Option<string>>
    var orgs: map<Id, bool>
    var workspaces: map<Id, Workspace>
    var members: map<Id, Member>
    var roles: map<Id, Assignment>
    var invitations: map<Id, Invitation>

    function Tables(): State
      reads this
    {
      State(emails, orgs, workspaces, members, roles, invitations)
    }

    constructor (profiles: map<Id, Option<string>>)
      ensures Tables() == State(profiles, map[], map[], map[], map[], map[])
    {
      emails, orgs, workspaces, members, roles, invitations := profiles, map[], map[], map[], map[], map[];
    }

    method InsertMember(w: Id, p: Id, role: Role, rows: NewRows)
      modifies `members, `roles
      ensures Tables() == WithMember(old(Tables()), w, p, role, rows)
    {
      members := members[rows.member := Member(w, p, true)];
      roles := roles[rows.role := Assignment(w, rows.member, role, true)];
    }

    /** `UPDATE role_assignments SET deleted_at = ... WHERE ...`, row by row. */
    method DeleteRoles(w: Id, m: Id)
      modifies `roles
      ensures roles == WithoutRoles(old(roles), w, m)
    {
      ghost var was := roles;
      var todo := roles.Keys;
      while todo != {}
        invariant todo <= was.Keys == roles.Keys
        invariant forall r | r in roles ::
                    roles[r] == if r in todo then was[r] else WithoutRoles(was, w, m)[r]
        decreases |todo|
      {
        HasElement(todo);
        var r :| r in todo;
        if roles[r].ws == w && roles[r].member == m {
          roles := roles[r := roles[r].(live := false)];
        }
        todo := todo - {r};
      }
    }

    /** `setSoleRoleAssignment`. */
    method SetSoleRole(w: Id, m: Id, role: Role, row: Id)
      modifies `roles
      ensures Tables() == WithSoleRole(old(Tables()), w, m, role, row)
    {
      if |LiveRoles(Tables(), w, m)| == 1 && HasRole(Tables(), w, m, role) {
        return;
      }
      DeleteRoles(w, m);
      roles := roles[row := Assignment(w, m, role, true)];
    }

    method CreateOrganizationOnboarding(r: Request) returns (status: nat)
      requires r.Onboard? && Possible(Tables(), r)
      modifies `orgs, `workspaces, `members, `roles
      ensures Outcome(status, Tables()) == Apply(old(Tables()), r)
    {
      if BelongsSomewhere(Tables(), r.actor) {
        return 409;
      }
      if !r.named {
        return 400;
      }
      orgs, workspaces := orgs[r.org := true], workspaces[r.ws := Workspace(r.org, true)];
      InsertMember(r.ws, r.actor, Admin, r.rows);
      status := OK;
    }

    /** The loop that makes each profile an ADMIN of the new workspace. */
    method JoinEach(w: Id, profiles: seq<Id>, drawn: map<Id, NewRows>)
      requires forall p | p in profiles :: p in drawn
      modifies `members, `roles
      ensures Tables() == JoinAll(old(Tables()), w, profiles, drawn)
    {
      hide WithMember;
      var i := 0;
      while i < |profiles|
        invariant i <= |profiles|
        invariant unchanged(`emails, `orgs, `workspaces, `invitations)
        invariant JoinAll(Tables(), w, profiles[i..], drawn) == JoinAll(old(Tables()), w, profiles, drawn)
      {
        assert profiles[i..][1..] == profiles[i + 1..];
        InsertMember(w, profiles[i], Admin, drawn[profiles[i]]);
        i := i + 1;
      }
    }

    method CreateWorkspace(r: Request) returns (status: nat)
      requires r.CreateWorkspace? && Possible(Tables(), r)
      modifies `orgs, `workspaces, `members, `roles
      ensures Outcome(status, Tables()) == Apply(old(Tables()), r)
    {
      if r.actor !in ListOrganizationAdmins(Tables(), r.org) {
        return 403;
      }
      if !r.named {
        return 400;
      }
      if !LiveOrg(Tables(), r.org) {
        return 404;
      }
      workspaces := workspaces[r.ws := Workspace(r.org, true)];
      assert Tables() == WithWorkspace(old(Tables()), r.org, r.ws);
      JoinEach(r.ws, [r.actor] + r.order, r.drawn);
      status := OK;
    }

    method GrantEach(p: Id, order: seq<Id>, drawn: map<Id, NewRows>)
      requires forall w | w in order :: w in drawn
      modifies `members, `roles
      ensures Tables() == GrantAll(old(Tables()), p, order, drawn)
    {
      hide WithMember, WithSoleRole;
      var i := 0;
      while i < |order|
        invariant i <= |order|
        invariant unchanged(`emails, `orgs, `workspaces, `invitations)
        invariant GrantAll(Tables(), p, order[i..], drawn) == GrantAll(old(Tables()), p, order, drawn)
      {
        assert order[i..][1..] == order[i + 1..];
        var w := order[i];
        var membership := MembershipOf(Tables(), w, p);
        if membership.Some? {
          SetSoleRole(w, membership.value, Admin, drawn[w].role);
        } else {
          InsertMember(w, p, Admin, drawn[w]);
        }
        i := i + 1;
      }
    }

    method AddOrganizationAdmin(r: Request) returns (status: nat)
      requires r.AddOrganizationAdmin? && Possible(Tables(), r)
      modifies `members, `roles
      ensures Outcome(status, Tables()) == Apply(old(Tables()), r)
    {
      hide ListOrganizationAdmins, BelongsTo, GrantAll;
      if !LiveOrg(Tables(), r.org) {
        return 404;
      }
      if r.actor !in ListOrganizationAdmins(Tables(), r.org) {
        return 403;
      }
      if r.target !in emails || LiveWorkspaces(Tables(), r.org) == {} {
        return 404;
      }
      if !BelongsTo(Tables(), r.target, r.org) {
        return 400;
      }
      GrantEach(r.target, r.order, r.drawn);
      status := OK;
    }

    method DemoteEach(p: Id, order: seq<Id>, drawn: map<Id, NewRows>)
      requires forall w | w in order :: w in drawn
      modifies `members, `roles
      ensures Tables() == DemoteAll(old(Tables()), p, order, drawn)
    {
      hide WithMember, WithSoleRole;
      var i := 0;
      while i < |order|
        invariant i <= |order|
        invariant unchanged(`emails, `orgs, `workspaces, `invitations)
        invariant DemoteAll(Tables(), p, order[i..], drawn) == DemoteAll(old(Tables()), p, order, drawn)
      {
        assert order[i..][1..] == order[i + 1..];
        var w := order[i];
        var membership := MembershipOf(Tables(), w, p);
        if membership.Some? {
          SetSoleRole(w, membership.value, Plain, drawn[w].role);
        }
        i := i + 1;
      }
    }

    method RemoveOrganizationAdmin(r: Request) returns (status: nat)
      requires r.RemoveOrganizationAdmin? && Possible(Tables(), r)
      modifies `members, `roles
      ensures Outcome(status, Tables()) == Apply(old(Tables()), r)
    {
      hide ListOrganizationAdmins, DemoteAll;
      status := RemovalCheck(Tables(), r.actor, r.org, r.target);
      if status == OK {
        DemoteEach(r.target, r.order, r.drawn);
      }
    }

    method DeleteWorkspace(r: Request) returns (status: nat)
      requires r.DeleteWorkspace?
      modifies `orgs, `workspaces
      ensures Outcome(status, Tables()) == Apply(old(Tables()), r)
    {
      hide MembershipOf, HasRole;
      var membership := ActiveMembership(Tables(), r.ws, r.actor);
      if membership.None? {
        return 404;
      }
      if !HasRole(Tables(), r.ws, membership.value, Admin) {
        return 403;
      }
      var org := workspaces[r.ws].org;
      workspaces := workspaces[r.ws := Workspace(org, false)];
      if LiveWorkspaces(Tables(), org) == {} && LiveOrg(Tables(), org) {
        orgs := orgs[org := false];
      }
      status := OK;
    }

    method AcceptWorkspaceInvitation(r: Request) returns (status: nat)
      requires r.Accept? && Possible(Tables(), r)
      modifies `members, `roles, `invitations
      ensures Outcome(status, Tables()) == Apply(old(Tables()), r)
    {
      hide MembershipOf;
      if r.invitation !in invitations {
        return 404;
      }
      var v := invitations[r.invitation];
      if v.status != Pending {
        return 409;
      }
      if v.expiresAt <= r.now {
        invitations := invitations[r.invitation := v.(status := Expired)];
        return 410;
      }
      if r.actor !in emails || emails[r.actor] != Some(v.email) {
        return 403;
      }
      var membership := ActiveMembership(Tables(), v.ws, r.actor);
      if membership != MembershipOf(Tables(), v.ws, r.actor) {
        return 500;
      }
      if membership.None? {
        InsertMember(v.ws, r.actor, v.role, r.rows);
      } else if LiveRoles(Tables(), v.ws, membership.value) == {} {
        roles := roles[r.rows.role := Assignment(v.ws, membership.value, v.role, true)];
      }
      invitations := invitations[r.invitation := v.(status := Accepted)];
      if !LiveWorkspace(Tables(), v.ws) {
        return 500;
      }
      status := OK;
    }

    method UpdateWorkspaceMemberRole(r: Request) returns (status: nat)
      requires r.UpdateRole? && Possible(Tables(), r)
      modifies `roles
      ensures Outcome(status, Tables()) == Apply(old(Tables()), r)
    {
      hide ManagerGate, HasRole, ActiveAdmins, WithSoleRole;
      var gate := ManagerGate(Tables(), r.actor, r.ws);
      if gate.Err? {
        return gate.status;
      }
      if r.role.None? {
        return 400;
      }
      if r.role.value == Admin && !gate.value {
        return 403;
      }
      if !IsActiveMember(Tables(), r.ws, r.member) {
        return 404;
      }
      if HasRole(Tables(), r.ws, r.member, Admin) && !gate.value {
        return 403;
      }
      if r.role.value != Admin && IsLastAdmin(Tables(), r.ws, r.member) {
        return 409;
      }
      SetSoleRole(r.ws, r.member, r.role.value, r.row);
      status := OK;
    }

    method RemoveWorkspaceMember(r: Request) returns (status: nat)
      requires r.RemoveMember?
      modifies `members, `roles
      ensures Outcome(status, Tables()) == Apply(old(Tables()), r)
    {
      hide ManagerGate, HasRole, ActiveAdmins, ActiveMembers, WithoutRoles;
      var gate := ManagerGate(Tables(), r.actor, r.ws);
      if gate.Err? {
        return gate.status;
      }
      if !IsActiveMember(Tables(), r.ws, r.member) {
        return 404;
      }
      if HasRole(Tables(), r.ws, r.member, Admin) && !gate.value {
        return 403;
      }
      if IsLastAdmin(Tables(), r.ws, r.member) || |ActiveMembers(Tables(), r.ws)| <= 1 {
        return 409;
      }
      members := members[r.member := members[r.member].(active := false)];
      DeleteRoles(r.ws, r.member);
      status := OK;
    }
  }
}
