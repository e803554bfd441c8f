/** Organization admins: the per-workspace check, the counting query that must agree with it, and
    the loops that grant and withdraw ADMIN across an organization. */
module OrgAdmins {
  import opened Common
  import opened Membership

  // ---- the check and the query ----------------------------------------------------------

  /** The loop of `isOrganizationAdmin`, which stops at the first workspace that says no. */
  predicate AdminInAll(s: State, p: Id, order: seq<Id>) {
    order == [] || (AdminIn(s, p, order[0]) && AdminInAll(s, p, order[1..]))
  }

  /** `isOrganizationAdmin`, given the ids of the organization's live workspaces in some order. */
  predicate IsOrganizationAdmin(s: State, p: Id, order: seq<Id>) {
    order != [] && AdminInAll(s, p, order)
  }

  /** ADMIN of every live workspace, of which there is at least one. */
  ghost predicate OrgAdmin(s: State, p: Id, org: Id) {
    LiveWorkspaces(s, org) != {} && forall w | w in LiveWorkspaces(s, org) :: AdminIn(s, p, w)
  }

  /** The workspaces that join with an ADMIN row of the profile: `COUNT(DISTINCT wu.workspace_id)`
      counts a workspace once however many rows say so. */
  function AdminWorkspaces(s: State, p: Id, org: Id): set<Id> {
    set m, r | m in s.members && r in s.roles
               && AdminBy(s, p, s.members[m].ws, m, r) && s.members[m].ws in LiveWorkspaces(s, org)
    :: s.members[m].ws
  }

  /** `listOrganizationAdminProfileIds`: the groups that are as many as the live workspaces. */
  function ListOrganizationAdmins(s: State, org: Id): set<Id> {
    set m | m in s.members && AdminWorkspaces(s, s.members[m].profile, org) != {}
            && |AdminWorkspaces(s, s.members[m].profile, org)| == |LiveWorkspaces(s, org)|
    :: s.members[m].profile
  }

  lemma {:induction false} AdminInAllMeansEach(s: State, p: Id, order: seq<Id>)
    ensures AdminInAll(s, p, order) <==> forall w | w in order :: AdminIn(s, p, w)
  {
    if order != [] {
      AdminInAllMeansEach(s, p, order[1..]);
      assert forall w | w in order :: w == order[0] || w in order[1..];
    }
  }

  lemma AdminWorkspacesAre(s: State, p: Id, org: Id)
    ensures AdminWorkspaces(s, p, org) == set w | w in LiveWorkspaces(s, org) && AdminIn(s, p, w)
  {
    hide LiveWorkspaces;
    forall w | w in LiveWorkspaces(s, org) && AdminIn(s, p, w) ensures w in AdminWorkspaces(s, p, org) {
      var m, r :| m in s.members && r in s.roles && AdminBy(s, p, w, m, r);
      assert s.members[m] == Member(w, p, true);
    }
    forall w | w in AdminWorkspaces(s, p, org) ensures w in LiveWorkspaces(s, org) && AdminIn(s, p, w) {
      var m, r :| m in s.members && r in s.roles && AdminBy(s, p, s.members[m].ws, m, r) && s.members[m].ws == w;
      assert AdminBy(s, p, w, m, r);
    }
  }

  lemma ListedMeansCounted(s: State, p: Id, org: Id)
    ensures p in ListOrganizationAdmins(s, org) <==>
            AdminWorkspaces(s, p, org) != {} && |AdminWorkspaces(s, p, org)| == |LiveWorkspaces(s, org)|
  {
    hide LiveWorkspaces;
    if AdminWorkspaces(s, p, org) != {} {
      HasElement(AdminWorkspaces(s, p, org));
      var w :| w in AdminWorkspaces(s, p, org);
      var m, r :| m in s.members && r in s.roles && AdminBy(s, p, s.members[m].ws, m, r) && s.members[m].ws == w;
      assert s.members[m].profile == p;
    }
  }

  /** In every state, with no live workspace and with duplicate rows too, the query lists exactly
      the profiles for which the loop says yes. */
  lemma CountingAgrees(s: State, p: Id, org: Id, order: seq<Id>)
    requires Elements(order) == LiveWorkspaces(s, org)
    ensures p in ListOrganizationAdmins(s, org) <==> IsOrganizationAdmin(s, p, order)
    ensures p in ListOrganizationAdmins(s, org) <==> OrgAdmin(s, p, org)
  {
    hide AdminWorkspaces, ListOrganizationAdmins, LiveWorkspaces, AdminIn;
    var live, mine := LiveWorkspaces(s, org), AdminWorkspaces(s, p, org);
    AdminInAllMeansEach(s, p, order);
    AdminWorkspacesAre(s, p, org);
    ListedMeansCounted(s, p, org);
    assert forall w :: w in order <==> w in Elements(order);
    assert order != [] <==> live != {} by {
      if order != [] { assert order[0] in order; }
    }
    assert mine <= live;
    if |mine| == |live| {
      SubsetSameSize(mine, live);
    }
    if OrgAdmin(s, p, org) {
      assert mine == live;
    }
  }

  lemma {:induction false} SomeOrder(ids: set<Id>)
    ensures exists order :: Elements(order) == ids && NoDuplicates(order)
  {
    if ids == {} {
      assert Elements([]) == {};
    } else {
      HasElement(ids);
      var id :| id in ids;
      SomeOrder(ids - {id});
      var rest :| Elements(rest) == ids - {id} && NoDuplicates(rest);
      assert Elements([id] + rest) == {id} + Elements(rest);
      assert forall i | 0 <= i < |rest| :: rest[i] in Elements(rest);
    }
  }

  lemma ListedIsOrgAdmin(s: State, p: Id, org: Id)
    ensures p in ListOrganizationAdmins(s, org) <==> OrgAdmin(s, p, org)
  {
    hide *;
    SomeOrder(LiveWorkspaces(s, org));
    var order :| Elements(order) == LiveWorkspaces(s, org);
    CountingAgrees(s, p, org, order);
  }

  // ---- the loops ------------------------------------------------------------------------

  /** One turn of `addOrganizationAdmin`: join the workspace if need be, then ADMIN and nothing else. */
  function Grant(s: State, p: Id, w: Id, rows: NewRows): State {
    match MembershipOf(s, w, p)
    case None => WithMember(s, w, p, Admin, rows)
    case Some(m) => WithSoleRole(s, w, m, Admin, rows.role)
  }

  /** One turn of `removeOrganizationAdmin`. */
  function Demote(s: State, p: Id, w: Id, rows: NewRows): State {
    match MembershipOf(s, w, p)
    case None => s
    case Some(m) => WithSoleRole(s, w, m, Plain, rows.role)
  }

  function GrantAll(s: State, p: Id, order: seq<Id>, rows: map<Id, NewRows>): State
    requires forall w | w in order :: w in rows
    decreases |order|
  {
    if order == [] then s else GrantAll(Grant(s, p, order[0], rows[order[0]]), p, order[1..], rows)
  }

  function DemoteAll(s: State, p: Id, order: seq<Id>, rows: map<Id, NewRows>): State
    requires forall w | w in order :: w in rows
    decreases |order|
  {
    if order == [] then s else DemoteAll(Demote(s, p, order[0], rows[order[0]]), p, order[1..], rows)
  }

  /** The loop of `createWorkspace`: every listed profile joins the workspace as ADMIN. */
  function JoinAll(s: State, w: Id, profiles: seq<Id>, rows: map<Id, NewRows>): State
    requires forall p | p in profiles :: p in rows
    decreases |profiles|
  {
    if profiles == [] then s
    else JoinAll(WithMember(s, w, profiles[0], Admin, rows[profiles[0]]), w, profiles[1..], rows)
  }

  /** The ids drawn for the turns of a loop are unused and pairwise different. */
  ghost predicate FreshFor(s: State, keys: seq<Id>, rows: map<Id, NewRows>) {
    && NoDuplicates(keys)
    && (forall k | k in keys :: k in rows && FreshRows(s, rows[k]))
    && (forall j, k | j in keys && k in keys && j != k ::
          rows[j].member != rows[k].member && rows[j].role != rows[k].role)
  }

  lemma FreshForRest(s: State, t: State, keys: seq<Id>, rows: map<Id, NewRows>)
    requires keys != [] && FreshFor(s, keys, rows)
    requires t.members.Keys <= s.members.Keys + {rows[keys[0]].member}
    requires t.roles.Keys <= s.roles.Keys + {rows[keys[0]].role}
    ensures FreshFor(t, keys[1..], rows) && keys[0] !in keys[1..]
  {
    var rest := keys[1..];
    assert forall i | 0 <= i < |rest| :: rest[i] == keys[i + 1];
    forall k | k in rest ensures k in keys && k != keys[0] {}
  }

  ghost predicate SameHouses(s: State, t: State) {
    s.emails == t.emails && s.orgs == t.orgs && s.workspaces == t.workspaces && s.invitations == t.invitations
  }

  ghost predicate Sound(s: State) { Rows(s) && OneRoleEach(s) }

  lemma GrantTurn(s: State, p: Id, w: Id, rows: NewRows)
    requires Sound(s) && FreshRows(s, rows) && w in s.workspaces
    ensures var t := Grant(s, p, w, rows);
            && Sound(t) && SameHouses(s, t)
            && t.members.Keys <= s.members.Keys + {rows.member} && t.roles.Keys <= s.roles.Keys + {rows.role}
            && forall q, v :: AdminIn(t, q, v) <==> AdminIn(s, q, v) || (q == p && v == w)
  {
    hide AdminIn, Rows, OneRoleEach;
    match MembershipOf(s, w, p) {
      case None =>
        WithMemberEffect(s, w, p, Admin, rows);
        forall q, v { WithMemberAdmins(s, w, p, Admin, rows, q, v); }
      case Some(m) =>
        WithSoleRoleEffect(s, w, m, Admin, rows.role);
        forall q, v { WithSoleRoleAdmins(s, w, m, Admin, rows.role, q, v); }
    }
  }

  lemma NotAdmin(s: State, p: Id, w: Id)
    requires MembershipOf(s, w, p).None?
    ensures !AdminIn(s, p, w)
  {
  }

  lemma DemoteTurn(s: State, p: Id, w: Id, rows: NewRows)
    requires Sound(s) && FreshRows(s, rows) && w in s.workspaces
    ensures var t := Demote(s, p, w, rows);
            && Sound(t) && SameHouses(s, t)
            && t.members.Keys <= s.members.Keys + {rows.member} && t.roles.Keys <= s.roles.Keys + {rows.role}
            && forall q, v :: AdminIn(t, q, v) <==> AdminIn(s, q, v) && !(q == p && v == w)
  {
    hide AdminIn, Rows, OneRoleEach;
    match MembershipOf(s, w, p) {
      case None => { NotAdmin(s, p, w); }
      case Some(m) =>
        WithSoleRoleEffect(s, w, m, Plain, rows.role);
        forall q, v { WithSoleRoleAdmins(s, w, m, Plain, rows.role, q, v); }
    }
  }

  /** After the loop the profile is ADMIN in exactly the listed workspaces more. */
  lemma {:induction false} GrantAllEffect(s: State, p: Id, order: seq<Id>, rows: map<Id, NewRows>)
    requires Sound(s) && FreshFor(s, order, rows) && Elements(order) <= s.workspaces.Keys
    ensures var t := GrantAll(s, p, order, rows);
            && Sound(t) && SameHouses(s, t)
            && forall q, v :: AdminIn(t, q, v) <==> AdminIn(s, q, v) || (q == p && v in order)
    decreases |order|
  {
    hide AdminIn, Sound, Grant, FreshRows;
    if order != [] {
      var t := Grant(s, p, order[0], rows[order[0]]);
      assert order[0] in Elements(order);
      GrantTurn(s, p, order[0], rows[order[0]]);
      FreshForRest(s, t, order, rows);
      assert Elements(order[1..]) <= Elements(order);
      GrantAllEffect(t, p, order[1..], rows);
    }
  }

  /** After the loop the profile is ADMIN in none of the listed workspaces, and nothing else about
      who is ADMIN has changed. */
  lemma {:induction false} DemoteAllEffect(s: State, p: Id, order: seq<Id>, rows: map<Id, NewRows>)
    requires Sound(s) && FreshFor(s, order, rows) && Elements(order) <= s.workspaces.Keys
    ensures var t := DemoteAll(s, p, order, rows);
            && Sound(t) && SameHouses(s, t)
            && forall q, v :: AdminIn(t, q, v) <==> AdminIn(s, q, v) && !(q == p && v in order)
    decreases |order|
  {
    hide AdminIn, Sound, Demote, FreshRows;
    if order != [] {
      var t := Demote(s, p, order[0], rows[order[0]]);
      assert order[0] in Elements(order);
      DemoteTurn(s, p, order[0], rows[order[0]]);
      FreshForRest(s, t, order, rows);
      assert Elements(order[1..]) <= Elements(order);
      DemoteAllEffect(t, p, order[1..], rows);
    }
  }

  lemma StillNoMember(s: State, w: Id, p: Id, rows: NewRows, q: Id)
    requires MembershipOf(s, w, q).None? && q != p && FreshRows(s, rows)
    ensures MembershipOf(WithMember(s, w, p, Admin, rows), w, q).None?
  {
  }

  lemma {:induction false} JoinAllEffect(s: State, w: Id, profiles: seq<Id>, rows: map<Id, NewRows>)
    requires Sound(s) && FreshFor(s, profiles, rows) && w in s.workspaces
    requires forall p | p in profiles :: MembershipOf(s, w, p).None?
    ensures var t := JoinAll(s, w, profiles, rows);
            && Sound(t) && SameHouses(s, t)
            && forall q, v :: AdminIn(t, q, v) <==> AdminIn(s, q, v) || (v == w && q in profiles)
    decreases |profiles|
  {
    hide AdminIn, Rows, OneRoleEach, FreshRows, MembershipOf;
    if profiles != [] {
      var p := profiles[0];
      var t := WithMember(s, w, p, Admin, rows[p]);
      WithMemberEffect(s, w, p, Admin, rows[p]);
      forall q, v ensures AdminIn(t, q, v) <==> AdminIn(s, q, v) || (q == p && v == w) {
        WithMemberAdmins(s, w, p, Admin, rows[p], q, v);
      }
      FreshForRest(s, t, profiles, rows);
      forall q | q in profiles[1..] ensures MembershipOf(t, w, q).None? {
        assert q in profiles && q != p;
        StillNoMember(s, w, p, rows[p], q);
      }
      JoinAllEffect(t, w, profiles[1..], rows);
    }
  }
}
