/** Workspace statuses and the missions that sit on them: the status rules of a workspace, the
    `status_type` copied onto every mission, the board column and My Missions reorders, and
    scheduled duplicates. */
module Statuses {
  import opened Common
  import BranchNames

  datatype StatusType = Draft | Execute | Review | Complete | Blocked | Cancelled

  datatype Status = Status(ws: Id, name: string, kind: StatusType, position: int, isDefault: bool, live: bool)

  datatype Mission = Mission(
    ws: Id,
    project: Id,
    status: Id,
    statusType: StatusType,
    position: int,
    assignee: Option<Id>,
    schedule: Option<Id>,
    live: bool)

  /** A personal slot in a My Missions column. */
  datatype Slot = Slot(status: Id, position: int)

  /** `projects` gives the workspace of each live project, `schedules` the configured next status. */
  datatype State = State(
    workspaces: set<Id>,
    projects: map<Id, Id>,
    schedules: map<Id, Option<Id>>,
    statuses: map<Id, Status>,
    missions: map<Id, Mission>,
    slots: map<(Id, Id), Slot>)

  // ---- queries --------------------------------------------------------------------------

  predicate LiveStatus(s: State, ws: Id, id: Id) {
    id in s.statuses && s.statuses[id].live && s.statuses[id].ws == ws
  }

  predicate LiveMission(s: State, m: Id) { m in s.missions && s.missions[m].live }

  function LiveStatuses(s: State, ws: Id): set<Id> {
    set id | id in s.statuses && LiveStatus(s, ws, id)
  }

  predicate NameTaken(s: State, ws: Id, name: string, except: Option<Id>) {
    exists id | id in s.statuses ::
      LiveStatus(s, ws, id) && except != Some(id)
      && BranchNames.Each(s.statuses[id].name, BranchNames.LowerChar) == BranchNames.Each(name, BranchNames.LowerChar)
  }

  predicate HasKind(s: State, ws: Id, kind: StatusType) {
    exists id | id in s.statuses :: LiveStatus(s, ws, id) && s.statuses[id].kind == kind
  }

  function Defaults(s: State, ws: Id): set<Id> {
    set id | id in s.statuses && LiveStatus(s, ws, id) && s.statuses[id].isDefault
  }

  function NextPosition(s: State, ws: Id): int {
    MaxOf({-1} + set id | id in LiveStatuses(s, ws) :: s.statuses[id].position) + 1
  }

  predicate InUse(s: State, status: Id) {
    exists m | m in s.missions :: s.missions[m].live && s.missions[m].status == status
  }

  function ColumnPositions(s: State, project: Id, status: Id, except: Option<Id>): set<int> {
    set m | m in s.missions && s.missions[m].live && s.missions[m].project == project
            && s.missions[m].status == status && except != Some(m)
    :: s.missions[m].position
  }

  /** `topBoardPosition`: 100 above the top of the column. */
  function TopPosition(s: State, project: Id, status: Id, except: Option<Id>): int {
    var taken := ColumnPositions(s, project, status, except);
    if taken == {} then 100 else MinOf(taken) - 100
  }

  // ---- what every state keeps -----------------------------------------------------------

  /** The statuses a workspace has exactly one of. */
  datatype Special = TheDefault | TheExecute | TheReview

  predicate Is(st: Status, special: Special) {
    match special
    case TheDefault => st.isDefault
    case TheExecute => st.kind == Execute
    case TheReview => st.kind == Review
  }

  predicate Holder(s: State, ws: Id, special: Special, id: Id) {
    LiveStatus(s, ws, id) && Is(s.statuses[id], special)
  }

  ghost predicate ExactlyOne(s: State, ws: Id, special: Special) {
    && (exists id :: Holder(s, ws, special, id))
    && (forall i, j | Holder(s, ws, special, i) && Holder(s, ws, special, j) :: i == j)
  }

  /** Exactly one default, one execute and one review status, and the default is a draft. */
  ghost predicate StatusesOk(s: State) {
    && (forall ws, special | ws in s.workspaces :: ExactlyOne(s, ws, special))
    && (forall id | id in s.statuses && s.statuses[id].live && s.statuses[id].isDefault :: s.statuses[id].kind == Draft)
    && (forall id | id in s.statuses :: s.statuses[id].ws in s.workspaces)
  }

  /** The mission is on a live status of its workspace and carries that status's type. */
  ghost predicate MissionOk(s: State, v: Mission) {
    && v.ws in s.workspaces
    && (v.live ==> LiveStatus(s, v.ws, v.status) && v.statusType == s.statuses[v.status].kind)
  }

  ghost predicate MissionsOk(s: State) {
    && (forall m | m in s.missions :: MissionOk(s, s.missions[m]))
    && (forall p | p in s.projects :: s.projects[p] in s.workspaces)
  }

  ghost predicate Inv(s: State) { StatusesOk(s) && MissionsOk(s) }

  lemma InvParts(s: State)
    requires Inv(s)
    ensures StatusesOk(s) && MissionsOk(s)
  {
  }

  lemma InvOf(s: State)
    requires StatusesOk(s) && MissionsOk(s)
    ensures Inv(s)
  {
  }

  lemma InvMission(s: State, m: Id)
    requires Inv(s) && m in s.missions
    ensures MissionOk(s, s.missions[m])
  {
  }

  lemma NotInv(s: State, m: Id)
    requires m in s.missions && !MissionOk(s, s.missions[m])
    ensures !Inv(s)
  {
  }

  // ---- the status requests --------------------------------------------------------------

  const SEED_COUNT: nat := 7

  /** `DEFAULT_STATUSES`. */
  function SeedRow(ws: Id, k: nat): Status
    requires k < SEED_COUNT
  {
    if k == 0 then Status(ws, "Backlog", Draft, 0, true, true)
    else if k == 1 then Status(ws, "Next Up", Draft, 1, false, true)
    else if k == 2 then Status(ws, "In Progress", Execute, 2, false, true)
    else if k == 3 then Status(ws, "In Review", Review, 3, false, true)
    else if k == 4 then Status(ws, "Done", Complete, 4, false, true)
    else if k == 5 then Status(ws, "Blocked", Blocked, 5, false, true)
    else Status(ws, "Cancelled", Cancelled, 6, false, true)
  }

  function SeedStatuses(statuses: map<Id, Status>, ws: Id, ids: seq<Id>): map<Id, Status>
    requires |ids| <= SEED_COUNT
  {
    if ids == [] then statuses
    else
      var k := |ids| - 1;
      SeedStatuses(statuses, ws, ids[..k])[ids[k] := SeedRow(ws, k)]
  }

  function WithoutDefaults(statuses: map<Id, Status>, ws: Id): map<Id, Status> {
    map id | id in statuses ::
      var st := statuses[id];
      if st.ws == ws && st.live && st.isDefault then st.(isDefault := false) else st
  }

  function CreateStatus(s: State, ws: Id, name: string, kind: Option<StatusType>, isDefault: bool, id: Id)
    : Result<State>
  {
    var trimmed := Trim(name);
    if trimmed == "" then Err(400)
    else if NameTaken(s, ws, trimmed, None) then Err(409)
    else if kind.None? then Err(400)
    else if kind.value in {Execute, Review} && HasKind(s, ws, kind.value) then Err(409)
    else if isDefault && kind.value != Draft then Err(400)
    else
      var statuses := if isDefault then WithoutDefaults(s.statuses, ws) else s.statuses;
      var st := Status(ws, trimmed, kind.value, NextPosition(s, ws), isDefault, true);
      Ok(s.(statuses := statuses[id := st]))
  }

  /** The new name, if the request has an acceptable one. */
  function Renamed(s: State, ws: Id, id: Id, name: Option<string>): Result<string>
    requires LiveStatus(s, ws, id)
  {
    if name.None? then Ok(s.statuses[id].name)
    else if Trim(name.value) == "" then Err(400)
    else if NameTaken(s, ws, Trim(name.value), Some(id)) then Err(409)
    else Ok(Trim(name.value))
  }

  function UpdateStatus(s: State, ws: Id, id: Id, name: Option<string>, isDefault: Option<bool>): Result<State> {
    if !LiveStatus(s, ws, id) then Err(404)
    else
      var st, renamed := s.statuses[id], Renamed(s, ws, id, name);
      if renamed.Err? then Err(renamed.status)
      else if isDefault == Some(true) && st.kind != Draft then Err(400)
      else if isDefault == Some(false) && st.isDefault then Err(409)
      else if isDefault == Some(true) then
        Ok(s.(statuses := WithoutDefaults(s.statuses, ws)[id := st.(name := renamed.value, isDefault := true)]))
      else Ok(s.(statuses := s.statuses[id := st.(name := renamed.value)]))
  }

  function DeleteStatus(s: State, ws: Id, id: Id): Result<State> {
    if !LiveStatus(s, ws, id) then Err(404)
    else if s.statuses[id].kind in {Execute, Review} then Err(409)
    else if s.statuses[id].isDefault then Err(409)
    else if InUse(s, id) then Err(409)
    else Ok(s.(statuses := s.statuses[id := s.statuses[id].(live := false)]))
  }

  // ---- the mission requests -------------------------------------------------------------

  /** `getWorkspaceStatus`: a live status of the workspace, or 400. */
  function StatusRow(s: State, ws: Id, id: Id): Result<Id> {
    if LiveStatus(s, ws, id) then Ok(id) else Err(400)
  }

  /** The default status; 409 when there is none. */
  function DefaultRow(s: State, ws: Id): (r: Result<Id>)
    ensures r.Ok? ==> LiveStatus(s, ws, r.value) && s.statuses[r.value].isDefault
  {
    if Defaults(s, ws) == {} then Err(409) else Ok(MinOf(Defaults(s, ws)))
  }

  function WithMission(s: State, id: Id, v: Mission): State {
    s.(missions := s.missions[id := v])
  }

  function CreateMission(s: State, project: Id, status: Option<Id>, assignee: Option<Id>, id: Id): Result<State> {
    if project !in s.projects then Err(404)
    else
      var ws := s.projects[project];
      var row := if status.Some? then StatusRow(s, ws, status.value) else DefaultRow(s, ws);
      if row.Err? then Err(row.status)
      else
        var v := Mission(ws, project, row.value, s.statuses[row.value].kind,
                         TopPosition(s, project, row.value, None), assignee, None, true);
        Ok(WithMission(s, id, v))
  }

  /** A mission moved onto a status: `status_id` and `status_type` are written together. */
  function OnStatus(s: State, v: Mission, status: Id, position: int): Mission
    requires status in s.statuses
  {
    v.(status := status, statusType := s.statuses[status].kind, position := position)
  }

  /** `createScheduledDuplicateIfNeeded` for a mission as it was before its status changed; `due` is
      whether a next due date can be computed. */
  function Duplicated(s: State, before: Mission, kind: StatusType, due: bool, copy: Id): Result<State> {
    if kind != Complete || before.schedule.None? || before.schedule.value !in s.schedules || !due then Ok(s)
    else
      var next := s.schedules[before.schedule.value];
      var row := if next.Some? && LiveStatus(s, before.ws, next.value) then Ok(next.value)
                 else DefaultRow(s, before.ws);
      if row.Err? then Err(row.status)
      else
        var position := TopPosition(s, before.project, row.value, None);
        Ok(WithMission(s, copy, OnStatus(s, before.(live := true), row.value, position)))
  }

  function PatchStatus(s: State, m: Id, status: Option<Id>, due: bool, copy: Id): Result<State> {
    if !LiveMission(s, m) then Err(404)
    else if status.None? then Ok(s)
    else
      var v := s.missions[m];
      var row := StatusRow(s, v.ws, status.value);
      if row.Err? then Err(row.status)
      else if row.value == v.status then Ok(WithMission(s, m, v.(statusType := s.statuses[row.value].kind)))
      else
        var moved := OnStatus(s, v, row.value, TopPosition(s, v.project, row.value, Some(m)));
        Duplicated(WithMission(s, m, moved), v, s.statuses[row.value].kind, due, copy)
  }

  /** The part of a project move that runs before its transaction: the status row it will write. */
  function MoveRead(s: State, m: Id, project: Id, status: Option<Id>): Result<Id> {
    if !LiveMission(s, m) then Err(404)
    else if project !in s.projects || s.projects[project] != s.missions[m].ws then Err(404)
    else StatusRow(s, s.missions[m].ws, if status.Some? then status.value else s.missions[m].status)
  }

  /** The transaction of a project move, with the row read before it. */
  function MoveWrite(s: State, m: Id, project: Id, status: Id, kind: StatusType): State
    requires m in s.missions
  {
    var v := s.missions[m];
    WithMission(s, m, v.(project := project, status := status, statusType := kind,
                         position := TopPosition(s, project, status, Some(m))))
  }

  /** A mission keeps its schedule row when it has one; `drawn` is the id of a new one. */
  function SetSchedule(s: State, m: Id, next: Option<Id>, drawn: Id): Result<State> {
    if !LiveMission(s, m) then Err(404)
    else if next.Some? && !LiveStatus(s, s.missions[m].ws, next.value) then Err(400)
    else
      var id := if s.missions[m].schedule.Some? then s.missions[m].schedule.value else drawn;
      Ok(WithMission(s, m, s.missions[m].(schedule := Some(id))).(schedules := s.schedules[id := next]))
  }

  /** The schedule row goes when no mission refers to it any more. */
  function ClearSchedule(s: State, m: Id): Result<State> {
    if !LiveMission(s, m) then Err(404)
    else if s.missions[m].schedule.None? then Ok(s)
    else
      var t := WithMission(s, m, s.missions[m].(schedule := None));
      if exists o | o in t.missions :: t.missions[o].schedule == s.missions[m].schedule then Ok(t)
      else Ok(t.(schedules := t.schedules - {s.missions[m].schedule.value}))
  }

  function Assign(s: State, m: Id, assignee: Option<Id>): Result<State> {
    if !LiveMission(s, m) then Err(404) else Ok(WithMission(s, m, s.missions[m].(assignee := assignee)))
  }

  function DeleteMission(s: State, m: Id): Result<State> {
    if !LiveMission(s, m) then Err(404) else Ok(WithMission(s, m, s.missions[m].(live := false)))
  }

  /** One turn of `reorderBoardColumn`. */
  function ColumnTurn(s: State, project: Id, status: Id, m: Id, i: nat, due: bool, copy: Id): (r: Result<State>)
    requires status in s.statuses
    ensures r.Ok? ==> r.value.statuses == s.statuses
  {
    if !LiveMission(s, m) || s.missions[m].project != project || s.missions[m].ws != s.statuses[status].ws then Err(404)
    else
      var v, position := s.missions[m], (i + 1) * 100;
      if v.status == status then Ok(WithMission(s, m, v.(position := position)))
      else Duplicated(WithMission(s, m, OnStatus(s, v, status, position)), v, s.statuses[status].kind, due, copy)
  }

  /** The turns from `i` on; the first error rolls everything back. */
  function ColumnTurns(s: State, project: Id, status: Id, order: seq<Id>, i: nat, due: set<Id>, copies: map<Id, Id>)
    : Result<State>
    requires status in s.statuses && i <= |order| && forall m | m in order :: m in copies
    decreases |order| - i
  {
    if i == |order| then Ok(s)
    else
      var turn := ColumnTurn(s, project, status, order[i], i, order[i] in due, copies[order[i]]);
      if turn.Err? then turn else ColumnTurns(turn.value, project, status, order, i + 1, due, copies)
  }

  function ReorderColumn(s: State, project: Id, status: Id, order: seq<Id>, due: set<Id>, copies: map<Id, Id>)
    : Result<State>
    requires forall m | m in order :: m in copies
  {
    if project !in s.projects then Err(404)
    else if !LiveStatus(s, s.projects[project], status) then Err(400)
    else if !NoDuplicates(order) then Err(400)
    else ColumnTurns(s, project, status, order, 0, due, copies)
  }

  /** One turn of `reorderWorkspaceMyMissionsTx`. */
  function MineTurn(s: State, actor: Id, status: Id, m: Id, i: nat): Result<State>
    requires status in s.statuses
  {
    if !LiveMission(s, m) || s.missions[m].ws != s.statuses[status].ws then Err(404)
    else if s.missions[m].assignee != Some(actor) then Err(403)
    else
      var v := s.missions[m];
      var moved := if v.status == status then v
                   else OnStatus(s, v, status, TopPosition(s, v.project, status, Some(m)));
      Ok(s.(missions := s.missions[m := moved], slots := s.slots[(actor, m) := Slot(status, (i + 1) * 100)]))
  }

  function MineTurns(s: State, actor: Id, status: Id, order: seq<Id>, i: nat): Result<State>
    requires status in s.statuses && i <= |order|
    decreases |order| - i
  {
    if i == |order| then Ok(s)
    else
      var turn := MineTurn(s, actor, status, order[i], i);
      if turn.Err? then turn else MineTurns(turn.value, actor, status, order, i + 1)
  }

  /** `actor` is the caller's membership in the status's workspace, if it has one. */
  function ReorderMine(s: State, actor: Option<Id>, status: Id, order: seq<Id>): Result<State> {
    if !NoDuplicates(order) then Err(400)
    else if status !in s.statuses || !s.statuses[status].live then Err(409)
    else if actor.None? then Err(403)
    else MineTurns(s, actor.value, status, order, 0)
  }

  // ---- the status requests keep the rules ------------------------------------------------

  function Seeded(s: State, ws: Id, ids: seq<Id>): State
    requires |ids| <= SEED_COUNT
  {
    s.(workspaces := s.workspaces + {ws}, statuses := SeedStatuses(s.statuses, ws, ids))
  }

  lemma {:induction false} SeedRowAt(statuses: map<Id, Status>, ws: Id, ids: seq<Id>, j: nat)
    requires j < |ids| <= SEED_COUNT && NoDuplicates(ids)
    ensures var t := SeedStatuses(statuses, ws, ids); ids[j] in t && t[ids[j]] == SeedRow(ws, j)
  {
    hide SeedRow;
    if j < |ids| - 1 {
      SeedRowAt(statuses, ws, ids[..|ids| - 1], j);
    }
  }

  lemma {:induction false} SeedKeys(statuses: map<Id, Status>, ws: Id, ids: seq<Id>)
    requires |ids| <= SEED_COUNT
    ensures SeedStatuses(statuses, ws, ids).Keys == statuses.Keys + Elements(ids)
  {
    hide SeedRow;
    if ids == [] {
      assert Elements(ids) == {};
    } else {
      var k := |ids| - 1;
      SeedKeys(statuses, ws, ids[..k]);
      assert ids == ids[..k] + [ids[k]];
      assert Elements(ids) == Elements(ids[..k]) + {ids[k]};
    }
  }

  lemma {:induction false} SeedKeepsOthers(statuses: map<Id, Status>, ws: Id, ids: seq<Id>, id: Id)
    requires |ids| <= SEED_COUNT && id in statuses && id !in ids
    ensures var t := SeedStatuses(statuses, ws, ids); id in t && t[id] == statuses[id]
  {
    hide SeedRow;
    if ids != [] {
      SeedKeepsOthers(statuses, ws, ids[..|ids| - 1], id);
    }
  }

  lemma SeededExactlyOne(t: State, ws: Id, ids: seq<Id>, special: Special)
    requires |ids| == SEED_COUNT && forall id | id in ids :: id in t.statuses
    requires forall id | id in t.statuses && t.statuses[id].ws == ws :: id in ids
    requires forall k | 0 <= k < |ids| :: t.statuses[ids[k]] == SeedRow(ws, k)
    ensures ExactlyOne(t, ws, special)
  {
    var k := match special case TheDefault => 0 case TheExecute => 2 case TheReview => 3;
    assert Holder(t, ws, special, ids[k]);
    forall id | Holder(t, ws, special, id) ensures id == ids[k] {
      assert id in ids;
      var j :| 0 <= j < |ids| && ids[j] == id;
    }
  }

  /** A workspace whose rows did not change keeps its holders. */
  lemma SameHolders(s: State, t: State, ws: Id, special: Special)
    requires ExactlyOne(s, ws, special)
    requires forall id :: Holder(t, ws, special, id) <==> Holder(s, ws, special, id)
    ensures ExactlyOne(t, ws, special)
  {
    var id: Id :| Holder(s, ws, special, id);
    assert Holder(t, ws, special, id);
  }

  /** A new workspace starts with its seven statuses: one default, one execute, one review. */
  lemma SeedingKeeps(s: State, ws: Id, ids: seq<Id>)
    requires Inv(s) && ws !in s.workspaces && |ids| == SEED_COUNT && NoDuplicates(ids)
    requires forall id | id in ids :: id !in s.statuses
    ensures Inv(Seeded(s, ws, ids))
  {
    hide SeedStatuses, LiveStatuses;
    var t := Seeded(s, ws, ids);
    SeedKeys(s.statuses, ws, ids);
    forall k | 0 <= k < |ids| ensures ids[k] in t.statuses && t.statuses[ids[k]] == SeedRow(ws, k) {
      SeedRowAt(s.statuses, ws, ids, k);
    }
    forall id | id in s.statuses ensures t.statuses[id] == s.statuses[id] && id !in Elements(ids) {
      SeedKeepsOthers(s.statuses, ws, ids, id);
    }
    forall v, special | v in t.workspaces ensures ExactlyOne(t, v, special) {
      if v == ws {
        SeededExactlyOne(t, ws, ids, special);
      } else {
        assert ExactlyOne(s, v, special);
        SameHolders(s, t, v, special);
      }
    }
    forall id | id in t.statuses && t.statuses[id].live && t.statuses[id].isDefault
      ensures t.statuses[id].kind == Draft
    {
      if id in Elements(ids) {
        var k :| 0 <= k < |ids| && ids[k] == id;
      }
    }
    forall m | m in t.missions ensures MissionOk(t, t.missions[m]) {
      assert MissionOk(s, s.missions[m]);
    }
  }

  /** The one holder is replaced by `id`. */
  lemma NewHolder(t: State, ws: Id, special: Special, id: Id)
    requires forall j :: Holder(t, ws, special, j) <==> j == id
    ensures ExactlyOne(t, ws, special)
  {
    assert Holder(t, ws, special, id);
  }

  /** Missions stay where they are when live statuses keep their workspace and type. */
  lemma StatusesChange(s: State, t: State)
    requires MissionsOk(s) && t.missions == s.missions && t.projects == s.projects && t.workspaces == s.workspaces
    requires forall id | id in s.statuses && s.statuses[id].live && InUse(s, id) ::
               id in t.statuses && t.statuses[id].live && t.statuses[id].ws == s.statuses[id].ws
               && t.statuses[id].kind == s.statuses[id].kind
    ensures MissionsOk(t)
  {
    forall m | m in t.missions ensures MissionOk(t, t.missions[m]) {
      assert MissionOk(s, s.missions[m]);
      assert s.missions[m].live ==> InUse(s, s.missions[m].status);
    }
  }

  lemma CreateStatusKeeps(s: State, ws: Id, name: string, kind: Option<StatusType>, isDefault: bool, id: Id)
    requires Inv(s) && ws in s.workspaces && id !in s.statuses
    ensures var r := CreateStatus(s, ws, name, kind, isDefault, id); r.Ok? ==> Inv(r.value)
  {
    hide NameTaken, NextPosition, Trim, Inv;
    InvParts(s);
    var r := CreateStatus(s, ws, name, kind, isDefault, id);
    if r.Ok? {
      var t := r.value;
      StatusesChange(s, t);
      forall v, special | v in t.workspaces ensures ExactlyOne(t, v, special) {
        assert ExactlyOne(s, v, special);
        if v == ws && special == TheDefault && isDefault {
          NewHolder(t, v, special, id);
        } else {
          SameHolders(s, t, v, special);
        }
      }
      InvOf(t);
    }
  }

  /** Making a status the default makes it the only one; no other update changes who holds what. */
  lemma UpdatedHolders(
      s: State, ws: Id, id: Id, name: Option<string>, isDefault: Option<bool>, v: Id, special: Special, j: Id)
    requires UpdateStatus(s, ws, id, name, isDefault).Ok?
    ensures Holder(UpdateStatus(s, ws, id, name, isDefault).value, v, special, j) <==>
            if v == ws && special == TheDefault && isDefault == Some(true) then j == id else Holder(s, v, special, j)
  {
    hide Renamed;
  }

  lemma UpdatedRows(s: State, ws: Id, id: Id, name: Option<string>, isDefault: Option<bool>)
    requires UpdateStatus(s, ws, id, name, isDefault).Ok?
    ensures var t := UpdateStatus(s, ws, id, name, isDefault).value;
            && t == s.(statuses := t.statuses) && t.statuses.Keys == s.statuses.Keys
            && (forall j | j in s.statuses ::
                  t.statuses[j].ws == s.statuses[j].ws && t.statuses[j].kind == s.statuses[j].kind
                  && t.statuses[j].live == s.statuses[j].live)
            && (forall j | j in s.statuses && t.statuses[j].isDefault ::
                  s.statuses[j].isDefault || s.statuses[j].kind == Draft)
  {
    hide Renamed;
  }

  lemma UpdateStatusKeeps(s: State, ws: Id, id: Id, name: Option<string>, isDefault: Option<bool>)
    requires Inv(s)
    ensures var r := UpdateStatus(s, ws, id, name, isDefault); r.Ok? ==> Inv(r.value)
  {
    hide UpdateStatus, Holder, Inv;
    InvParts(s);
    var r := UpdateStatus(s, ws, id, name, isDefault);
    if r.Ok? {
      var t := r.value;
      UpdatedRows(s, ws, id, name, isDefault);
      StatusesChange(s, t);
      forall v, special | v in t.workspaces ensures ExactlyOne(t, v, special) {
        assert ExactlyOne(s, v, special);
        forall j { UpdatedHolders(s, ws, id, name, isDefault, v, special, j); }
        if v == ws && special == TheDefault && isDefault == Some(true) {
          NewHolder(t, v, special, id);
        } else {
          SameHolders(s, t, v, special);
        }
      }
      InvOf(t);
    }
  }

  lemma DeleteStatusKeeps(s: State, ws: Id, id: Id)
    requires Inv(s)
    ensures var r := DeleteStatus(s, ws, id); r.Ok? ==> Inv(r.value)
  {
    hide Inv, InUse;
    InvParts(s);
    var r := DeleteStatus(s, ws, id);
    if r.Ok? {
      var t := r.value;
      StatusesChange(s, t);
      forall v, special | v in t.workspaces ensures ExactlyOne(t, v, special) {
        assert ExactlyOne(s, v, special);
        SameHolders(s, t, v, special);
      }
      InvOf(t);
    }
  }

  function Tombstoned(s: State, id: Id): State
    requires id in s.statuses
  {
    s.(statuses := s.statuses[id := s.statuses[id].(live := false)])
  }

  lemma UsedStays(s: State, id: Id)
    requires id in s.statuses && InUse(s, id)
    ensures !Inv(Tombstoned(s, id))
  {
    var m: Id :| m in s.missions && s.missions[m].live && s.missions[m].status == id;
    assert !MissionOk(Tombstoned(s, id), s.missions[m]);
  }

  lemma HolderStays(s: State, ws: Id, special: Special, id: Id)
    requires Inv(s) && Holder(s, ws, special, id)
    ensures !Inv(Tombstoned(s, id))
  {
    var t := Tombstoned(s, id);
    assert ws in s.workspaces && ExactlyOne(s, ws, special);
    forall j ensures !Holder(t, ws, special, j) {
      assert Holder(t, ws, special, j) ==> Holder(s, ws, special, j);
    }
    assert !ExactlyOne(t, ws, special);
  }

  /** The guards of a deletion are exact: it is refused precisely when it would break the rules. */
  lemma DeletionGuardsAreExact(s: State, ws: Id, id: Id)
    requires Inv(s) && LiveStatus(s, ws, id)
    ensures DeleteStatus(s, ws, id).Ok? <==> Inv(Tombstoned(s, id))
  {
    hide InUse, Inv;
    DeleteStatusKeeps(s, ws, id);
    if DeleteStatus(s, ws, id).Err? {
      if InUse(s, id) {
        UsedStays(s, id);
      } else {
        var special := if s.statuses[id].isDefault then TheDefault
                       else if s.statuses[id].kind == Execute then TheExecute else TheReview;
        assert Holder(s, ws, special, id);
        HolderStays(s, ws, special, id);
      }
    }
  }

  // ---- and so do the mission requests ----------------------------------------------------

  lemma StatusTables(s: State, t: State)
    requires StatusesOk(s) && t.statuses == s.statuses && t.workspaces == s.workspaces
    ensures StatusesOk(t)
  {
    forall v, special | v in t.workspaces ensures ExactlyOne(t, v, special) {
      assert ExactlyOne(s, v, special);
      SameHolders(s, t, v, special);
    }
  }

  lemma WithMissionKeeps(s: State, id: Id, v: Mission)
    requires Inv(s) && MissionOk(s, v)
    ensures Inv(WithMission(s, id, v))
  {
    var t := WithMission(s, id, v);
    StatusTables(s, t);
    forall m | m in t.missions ensures MissionOk(t, t.missions[m]) {
      assert m != id ==> MissionOk(s, s.missions[m]);
    }
  }

  lemma CreateMissionKeeps(s: State, project: Id, status: Option<Id>, assignee: Option<Id>, id: Id)
    requires Inv(s)
    ensures var r := CreateMission(s, project, status, assignee, id); r.Ok? ==> Inv(r.value)
  {
    hide StatusesOk, TopPosition;
    var r := CreateMission(s, project, status, assignee, id);
    if r.Ok? {
      WithMissionKeeps(s, id, r.value.missions[id]);
    }
  }

  lemma DuplicatedKeeps(s: State, before: Mission, kind: StatusType, due: bool, copy: Id)
    requires Inv(s) && before.ws in s.workspaces
    ensures var r := Duplicated(s, before, kind, due, copy);
            r.Ok? ==> Inv(r.value) && r.value.statuses == s.statuses && r.value.workspaces == s.workspaces
                      && r.value.projects == s.projects
                      && (forall m | m in s.missions && m != copy ::
                            m in r.value.missions && r.value.missions[m] == s.missions[m])
                      && r.value.missions.Keys <= s.missions.Keys + {copy}
  {
    hide StatusesOk, TopPosition;
    var r := Duplicated(s, before, kind, due, copy);
    if r.Ok? && r.value != s {
      WithMissionKeeps(s, copy, r.value.missions[copy]);
    }
  }

  /** A workspace never lacks the status a duplicate falls back on. */
  lemma DuplicateNeverFails(s: State, before: Mission, kind: StatusType, due: bool, copy: Id)
    requires StatusesOk(s) && before.ws in s.workspaces
    ensures Duplicated(s, before, kind, due, copy).Ok?
  {
    hide TopPosition;
    assert ExactlyOne(s, before.ws, TheDefault);
    var id: Id :| Holder(s, before.ws, TheDefault, id);
    assert id in Defaults(s, before.ws);
  }

  lemma PatchKeeps(s: State, m: Id, status: Option<Id>, due: bool, copy: Id)
    requires Inv(s)
    ensures var r := PatchStatus(s, m, status, due, copy); r.Ok? ==> Inv(r.value)
  {
    hide StatusesOk, TopPosition, Duplicated, Inv;
    var r := PatchStatus(s, m, status, due, copy);
    if r.Ok? && status.Some? {
      var v := s.missions[m];
      InvMission(s, m);
      if status.value == v.status {
        WithMissionKeeps(s, m, v.(statusType := s.statuses[v.status].kind));
      } else {
        var moved := OnStatus(s, v, status.value, TopPosition(s, v.project, status.value, Some(m)));
        WithMissionKeeps(s, m, moved);
        DuplicatedKeeps(WithMission(s, m, moved), v, s.statuses[status.value].kind, due, copy);
      }
    }
  }

  /** What the row read for a project move tells for good: rows stay, and keep workspace and type. */
  ghost predicate ReadOnce(s: State, m: Id, status: Id, kind: StatusType) {
    && m in s.missions && status in s.statuses
    && s.statuses[status].ws == s.missions[m].ws && s.statuses[status].kind == kind
  }

  /** The transaction of a project move keeps the rules if and only if the status it read before is
      still live, or the mission no longer is. */
  lemma MoveKeepsIff(s: State, m: Id, project: Id, status: Id, kind: StatusType)
    requires Inv(s) && ReadOnce(s, m, status, kind)
    ensures Inv(MoveWrite(s, m, project, status, kind)) <==> s.statuses[status].live || !s.missions[m].live
  {
    hide StatusesOk, TopPosition, Inv;
    var t := MoveWrite(s, m, project, status, kind);
    InvMission(s, m);
    if s.statuses[status].live || !s.missions[m].live {
      WithMissionKeeps(s, m, t.missions[m]);
    } else {
      assert !MissionOk(t, t.missions[m]);
      NotInv(t, m);
    }
  }

  /** And it is: reading and deleting race.  A status nobody uses is read for a move, deleted, and
      then written. */
  lemma MoveRaces(s: State, m: Id, project: Id, status: Id)
    requires Inv(s) && MoveRead(s, m, project, Some(status)) == Ok(status)
    requires s.statuses[status].kind !in {Execute, Review} && !s.statuses[status].isDefault && !InUse(s, status)
    ensures var deleted := DeleteStatus(s, s.missions[m].ws, status);
            && deleted.Ok? && m in deleted.value.missions
            && !Inv(MoveWrite(deleted.value, m, project, status, s.statuses[status].kind))
  {
    hide StatusesOk, InUse;
    DeleteStatusKeeps(s, s.missions[m].ws, status);
    MoveKeepsIff(DeleteStatus(s, s.missions[m].ws, status).value, m, project, status, s.statuses[status].kind);
  }

  lemma SchedulesAside(s: State, schedules: map<Id, Option<Id>>)
    requires Inv(s)
    ensures Inv(s.(schedules := schedules))
  {
    var t := s.(schedules := schedules);
    StatusTables(s, t);
    forall m | m in t.missions ensures MissionOk(t, t.missions[m]) {
      assert MissionOk(s, s.missions[m]);
    }
  }

  /** Schedules and assignees do not enter the rules. */
  lemma SchedulingKeeps(s: State, m: Id, next: Option<Id>, drawn: Id, assignee: Option<Id>)
    requires Inv(s)
    ensures SetSchedule(s, m, next, drawn).Ok? ==> Inv(SetSchedule(s, m, next, drawn).value)
    ensures ClearSchedule(s, m).Ok? ==> Inv(ClearSchedule(s, m).value)
    ensures Assign(s, m, assignee).Ok? ==> Inv(Assign(s, m, assignee).value)
  {
    hide Inv;
    if LiveMission(s, m) {
      var v := s.missions[m];
      InvMission(s, m);
      WithMissionKeeps(s, m, v.(assignee := assignee));
      var id := if v.schedule.Some? then v.schedule.value else drawn;
      WithMissionKeeps(s, m, v.(schedule := Some(id)));
      SchedulesAside(WithMission(s, m, v.(schedule := Some(id))), s.schedules[id := next]);
      var cleared := WithMission(s, m, v.(schedule := None));
      WithMissionKeeps(s, m, v.(schedule := None));
      if v.schedule.Some? {
        SchedulesAside(cleared, cleared.schedules - {v.schedule.value});
      }
    }
  }

  lemma DeleteMissionKeeps(s: State, m: Id)
    requires Inv(s)
    ensures var r := DeleteMission(s, m); r.Ok? ==> Inv(r.value)
  {
    hide StatusesOk, Inv;
    var r := DeleteMission(s, m);
    if r.Ok? {
      InvMission(s, m);
      WithMissionKeeps(s, m, s.missions[m].(live := false));
    }
  }
}
