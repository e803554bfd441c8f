/** What the two reorders leave behind, and what every run of status and mission requests keeps. */
module StatusRuns {
  import opened Common
  import opened Statuses

  // ---- the board column -----------------------------------------------------------------

  ghost predicate SameTables(s: State, t: State) {
    t.statuses == s.statuses && t.workspaces == s.workspaces && t.projects == s.projects && t.schedules == s.schedules
  }

  /** A live mission of the project, in the workspace of the status. */
  predicate OnBoard(s: State, project: Id, status: Id, m: Id)
    requires status in s.statuses
  {
    LiveMission(s, m) && s.missions[m].project == project && s.missions[m].ws == s.statuses[status].ws
  }

  /** The mission sits in the column, in the given slot, with the column's type. */
  predicate InSlot(s: State, status: Id, m: Id, i: nat)
    requires status in s.statuses
  {
    && LiveMission(s, m) && s.missions[m].status == status && s.missions[m].position == (i + 1) * 100
    && s.missions[m].statusType == s.statuses[status].kind
  }

  /** Ids drawn for the duplicates: unused, pairwise different. */
  ghost predicate FreshCopies(s: State, order: seq<Id>, i: nat, copies: map<Id, Id>) {
    && (forall m | m in order :: m in copies && copies[m] !in order)
    && (forall k | i <= k < |order| :: copies[order[k]] !in s.missions)
    && (forall j, k | 0 <= j < k < |order| :: copies[order[j]] != copies[order[k]])
  }

  lemma DuplicatedSchedules(s: State, before: Mission, kind: StatusType, due: bool, copy: Id)
    ensures var r := Duplicated(s, before, kind, due, copy); r.Ok? ==> r.value.schedules == s.schedules
  {
    hide TopPosition;
  }

  lemma ColumnTurnEffect(s: State, project: Id, status: Id, m: Id, i: nat, due: bool, copy: Id)
    requires Inv(s) && status in s.statuses && LiveStatus(s, s.statuses[status].ws, status) && copy != m
    requires copy !in s.missions
    ensures var r := ColumnTurn(s, project, status, m, i, due, copy);
            && (r.Ok? <==> OnBoard(s, project, status, m))
            && (r.Ok? ==>
                  && Inv(r.value) && SameTables(s, r.value) && InSlot(r.value, status, m, i)
                  && (forall n | n in s.missions && n != m ::
                        n in r.value.missions && r.value.missions[n] == s.missions[n])
                  && r.value.missions.Keys <= s.missions.Keys + {copy})
  {
    hide StatusesOk, TopPosition, Duplicated, Inv;
    if OnBoard(s, project, status, m) {
      var v, position := s.missions[m], (i + 1) * 100;
      InvMission(s, m);
      if v.status == status {
        WithMissionKeeps(s, m, v.(position := position));
      } else {
        var moved := WithMission(s, m, OnStatus(s, v, status, position));
        WithMissionKeeps(s, m, OnStatus(s, v, status, position));
        DuplicatedKeeps(moved, v, s.statuses[status].kind, due, copy);
        InvParts(moved);
        DuplicateNeverFails(moved, v, s.statuses[status].kind, due, copy);
        DuplicatedSchedules(moved, v, s.statuses[status].kind, due, copy);
      }
    }
  }

  lemma FreshCopiesRest(s: State, t: State, order: seq<Id>, i: nat, copies: map<Id, Id>)
    requires i < |order| && FreshCopies(s, order, i, copies)
    requires t.missions.Keys <= s.missions.Keys + {copies[order[i]]}
    ensures FreshCopies(t, order, i + 1, copies)
  {
    assert order[i] in order;
    forall k | i + 1 <= k < |order| ensures copies[order[k]] !in t.missions {
      assert order[k] in order;
    }
  }

  lemma OthersOnBoard(s: State, t: State, project: Id, status: Id, order: seq<Id>, i: nat, copy: Id)
    requires i < |order| && NoDuplicates(order) && copy !in order && status in s.statuses && t.statuses == s.statuses
    requires forall n | n in s.missions && n != order[i] :: n in t.missions && t.missions[n] == s.missions[n]
    requires t.missions.Keys <= s.missions.Keys + {copy}
    ensures forall k | i + 1 <= k < |order| ::
              OnBoard(t, project, status, order[k]) <==> OnBoard(s, project, status, order[k])
  {
  }

  /** The remaining turns succeed if and only if every remaining mission is on the board; then each is
      in its slot, and no other mission has changed. */
  lemma {:induction false} ColumnTurnsEffect(
      s: State, project: Id, status: Id, order: seq<Id>, i: nat, due: set<Id>, copies: map<Id, Id>)
    requires Inv(s) && status in s.statuses && LiveStatus(s, s.statuses[status].ws, status)
    requires i <= |order| && NoDuplicates(order) && FreshCopies(s, order, i, copies)
    ensures var r := ColumnTurns(s, project, status, order, i, due, copies);
            && (r.Ok? <==> forall k | i <= k < |order| :: OnBoard(s, project, status, order[k]))
            && (r.Ok? ==>
                  && Inv(r.value) && SameTables(s, r.value)
                  && (forall k | i <= k < |order| :: InSlot(r.value, status, order[k], k))
                  && (forall n | n in s.missions && n !in order[i..] ::
                        n in r.value.missions && r.value.missions[n] == s.missions[n]))
    decreases |order| - i
  {
    hide Inv, ColumnTurn, StatusesOk, MissionsOk;
    if i < |order| {
      ColumnTurnEffect(s, project, status, order[i], i, order[i] in due, copies[order[i]]);
      var turn := ColumnTurn(s, project, status, order[i], i, order[i] in due, copies[order[i]]);
      if turn.Ok? {
        var t := turn.value;
        assert order[i..] == [order[i]] + order[i + 1..];
        FreshCopiesRest(s, t, order, i, copies);
        ColumnTurnsEffect(t, project, status, order, i + 1, due, copies);
        OthersOnBoard(s, t, project, status, order, i, copies[order[i]]);
        assert order[i] !in order[i + 1..];
      }
    }
  }

  /** A board reorder succeeds if and only if the project exists, the status is live in its workspace,
      and the list is of distinct live missions of the project.  Then the listed missions are in the
      column at 100, 200, ... in order, with the column's type, and no other mission has changed. */
  lemma ReorderColumnExactly(s: State, project: Id, status: Id, order: seq<Id>, due: set<Id>, copies: map<Id, Id>)
    requires Inv(s) && FreshCopies(s, order, 0, copies)
    ensures var r := ReorderColumn(s, project, status, order, due, copies);
            && (r.Ok? <==>
                  && project in s.projects && LiveStatus(s, s.projects[project], status) && NoDuplicates(order)
                  && forall k | 0 <= k < |order| :: OnBoard(s, project, status, order[k]))
            && (r.Ok? ==>
                  && Inv(r.value) && SameTables(s, r.value)
                  && (forall k | 0 <= k < |order| :: InSlot(r.value, status, order[k], k))
                  && (forall n | n in s.missions && n !in order ::
                        n in r.value.missions && r.value.missions[n] == s.missions[n]))
  {
    hide Inv, ColumnTurns, FreshCopies;
    assert order[0..] == order;
    if project in s.projects && LiveStatus(s, s.projects[project], status) && NoDuplicates(order) {
      ColumnTurnsEffect(s, project, status, order, 0, due, copies);
    }
  }

  // ---- My Missions ----------------------------------------------------------------------

  predicate IsMine(s: State, actor: Id, status: Id, m: Id)
    requires status in s.statuses
  {
    LiveMission(s, m) && s.missions[m].ws == s.statuses[status].ws && s.missions[m].assignee == Some(actor)
  }

  /** The mission is in the column with its type and the actor's slot is set; if it was in the column
      already, its board position is what it was. */
  predicate Slotted(s: State, t: State, actor: Id, status: Id, m: Id, i: nat)
    requires status in t.statuses && m in s.missions
  {
    && LiveMission(t, m) && t.missions[m].status == status && t.missions[m].statusType == t.statuses[status].kind
    && (actor, m) in t.slots && t.slots[(actor, m)] == Slot(status, (i + 1) * 100)
    && (s.missions[m].status == status ==> t.missions[m] == s.missions[m])
  }

  lemma SlotsAside(s: State, t: State)
    requires Inv(s) && t == s.(slots := t.slots)
    ensures Inv(t)
  {
    StatusTables(s, t);
    forall m | m in t.missions ensures MissionOk(t, t.missions[m]) {
      assert MissionOk(s, s.missions[m]);
    }
  }

  lemma MineTurnEffect(s: State, actor: Id, status: Id, m: Id, i: nat)
    requires Inv(s) && status in s.statuses && LiveStatus(s, s.statuses[status].ws, status)
    ensures var r := MineTurn(s, actor, status, m, i);
            && (r.Ok? <==> IsMine(s, actor, status, m))
            && (r.Ok? ==>
                  && Inv(r.value) && SameTables(s, r.value) && Slotted(s, r.value, actor, status, m, i)
                  && r.value.missions.Keys == s.missions.Keys
                  && (forall n | n in s.missions && n != m :: r.value.missions[n] == s.missions[n])
                  && (forall key | key in s.slots && key != (actor, m) ::
                        key in r.value.slots && r.value.slots[key] == s.slots[key]))
  {
    hide StatusesOk, TopPosition, Inv;
    if IsMine(s, actor, status, m) {
      var t := MineTurn(s, actor, status, m, i).value;
      InvMission(s, m);
      WithMissionKeeps(s, m, t.missions[m]);
      SlotsAside(WithMission(s, m, t.missions[m]), t);
    }
  }

  lemma {:induction false} MineTurnsEffect(s: State, actor: Id, status: Id, order: seq<Id>, i: nat)
    requires Inv(s) && status in s.statuses && LiveStatus(s, s.statuses[status].ws, status)
    requires i <= |order| && NoDuplicates(order)
    ensures var r := MineTurns(s, actor, status, order, i);
            && (r.Ok? <==> forall k | i <= k < |order| :: IsMine(s, actor, status, order[k]))
            && (r.Ok? ==>
                  && Inv(r.value) && SameTables(s, r.value) && r.value.missions.Keys == s.missions.Keys
                  && (forall k | i <= k < |order| ::
                        order[k] in s.missions && Slotted(s, r.value, actor, status, order[k], k))
                  && (forall n | n in s.missions && n !in order[i..] :: r.value.missions[n] == s.missions[n])
                  && (forall n | (actor, n) in s.slots && n !in order[i..] ::
                        (actor, n) in r.value.slots && r.value.slots[(actor, n)] == s.slots[(actor, n)]))
    decreases |order| - i
  {
    hide Inv, MineTurn, StatusesOk, MissionsOk;
    if i < |order| {
      MineTurnEffect(s, actor, status, order[i], i);
      var turn := MineTurn(s, actor, status, order[i], i);
      if turn.Ok? {
        assert order[i..] == [order[i]] + order[i + 1..];
        assert order[i] !in order[i + 1..];
        MineTurnsEffect(turn.value, actor, status, order, i + 1);
      }
    }
  }

  /** A My Missions reorder succeeds if and only if the list is duplicate-free, the status is live, the
      caller is a member there, and every listed mission is live, there, and assigned to the caller.
      Then every listed mission is in the column, the caller's slots read 100, 200, ... in order, the
      board positions of missions already in the column are untouched, and so are other missions. */
  lemma ReorderMineExactly(s: State, actor: Option<Id>, status: Id, order: seq<Id>)
    requires Inv(s)
    ensures var r := ReorderMine(s, actor, status, order);
            && (r.Ok? <==>
                  && NoDuplicates(order) && status in s.statuses && s.statuses[status].live && actor.Some?
                  && forall k | 0 <= k < |order| :: IsMine(s, actor.value, status, order[k]))
            && (r.Ok? ==>
                  && Inv(r.value) && SameTables(s, r.value)
                  && (forall k | 0 <= k < |order| ::
                        order[k] in s.missions && Slotted(s, r.value, actor.value, status, order[k], k))
                  && (forall n | n in s.missions && n !in order ::
                        n in r.value.missions && r.value.missions[n] == s.missions[n]))
  {
    hide Inv, MineTurns;
    assert order[0..] == order;
    if NoDuplicates(order) && status in s.statuses && s.statuses[status].live && actor.Some? {
      MineTurnsEffect(s, actor.value, status, order, 0);
    }
  }

  // ---- whole runs -----------------------------------------------------------------------

  datatype Request =
    | Seed(ws: Id, ids: seq<Id>)
    | AddProject(project: Id, ws: Id)
    | AddStatus(ws: Id, name: string, kind: Option<StatusType>, isDefault: bool, id: Id)
    | ChangeStatus(ws: Id, id: Id, newName: Option<string>, newDefault: Option<bool>)
    | DropStatus(ws: Id, id: Id)
    | AddMission(project: Id, choice: Option<Id>, assignee: Option<Id>, id: Id)
    | Patch(m: Id, choice: Option<Id>, dueNext: bool, copy: Id)
    | Move(m: Id, project: Id, status: Id, written: StatusType)
    | DropMission(m: Id)
    | Plan(m: Id, next: Option<Id>, drawn: Id)
    | Unplan(m: Id)
    | GiveTo(m: Id, assignee: Option<Id>)
    | Column(project: Id, status: Id, order: seq<Id>, due: set<Id>, copies: map<Id, Id>)
    | Mine(actor: Option<Id>, status: Id, order: seq<Id>)

  /** Drawn ids are unused; a move writes a row it once read, which nothing deleted since. */
  ghost predicate Possible(s: State, r: Request) {
    match r
    case Seed(ws, ids) =>
      ws !in s.workspaces && |ids| == SEED_COUNT && NoDuplicates(ids) && forall id | id in ids :: id !in s.statuses
    case AddProject(project, ws) => project !in s.projects && ws in s.workspaces
    case AddStatus(ws, _, _, _, id) => ws in s.workspaces && id !in s.statuses
    case AddMission(_, _, _, id) => id !in s.missions
    case Patch(_, _, _, copy) => copy !in s.missions
    case Plan(_, _, drawn) => drawn !in s.schedules
    case Move(m, _, status, kind) => ReadOnce(s, m, status, kind) && s.statuses[status].live
    case Column(_, _, order, _, copies) => FreshCopies(s, order, 0, copies)
    case _ => true
  }

  function Attempt(s: State, r: Request): Result<State>
    requires Possible(s, r)
  {
    match r
    case Seed(ws, ids) => Ok(Seeded(s, ws, ids))
    case AddProject(project, ws) => Ok(s.(projects := s.projects[project := ws]))
    case AddStatus(ws, name, kind, isDefault, id) => CreateStatus(s, ws, name, kind, isDefault, id)
    case ChangeStatus(ws, id, name, isDefault) => UpdateStatus(s, ws, id, name, isDefault)
    case DropStatus(ws, id) => DeleteStatus(s, ws, id)
    case AddMission(project, status, assignee, id) => CreateMission(s, project, status, assignee, id)
    case Patch(m, status, due, copy) => PatchStatus(s, m, status, due, copy)
    case Move(m, project, status, kind) => Ok(MoveWrite(s, m, project, status, kind))
    case DropMission(m) => DeleteMission(s, m)
    case Plan(m, next, drawn) => SetSchedule(s, m, next, drawn)
    case Unplan(m) => ClearSchedule(s, m)
    case GiveTo(m, assignee) => Assign(s, m, assignee)
    case Column(project, status, order, due, copies) => ReorderColumn(s, project, status, order, due, copies)
    case Mine(actor, status, order) => ReorderMine(s, actor, status, order)
  }

  /** A refused request changes nothing. */
  function Step(s: State, r: Request): State
    requires Possible(s, r)
  {
    var attempt := Attempt(s, r);
    if attempt.Ok? then attempt.value else s
  }

  lemma AddProjectKeeps(s: State, project: Id, ws: Id)
    requires Inv(s) && ws in s.workspaces
    ensures Inv(s.(projects := s.projects[project := ws]))
  {
    var t := s.(projects := s.projects[project := ws]);
    StatusTables(s, t);
    forall m | m in t.missions ensures MissionOk(t, t.missions[m]) {
      assert MissionOk(s, s.missions[m]);
    }
  }

  lemma StepKeepsInv(s: State, r: Request)
    requires Inv(s) && Possible(s, r)
    ensures Inv(Step(s, r))
  {
    hide Inv, CreateStatus, UpdateStatus, DeleteStatus, CreateMission, PatchStatus, MoveWrite, DeleteMission,
         SetSchedule, ClearSchedule, Assign,
         ReorderColumn, ReorderMine, Seeded, FreshCopies;
    match r {
      case Seed(ws, ids) => SeedingKeeps(s, ws, ids);
      case AddProject(project, ws) => AddProjectKeeps(s, project, ws);
      case AddStatus(ws, name, kind, isDefault, id) => CreateStatusKeeps(s, ws, name, kind, isDefault, id);
      case ChangeStatus(ws, id, name, isDefault) => UpdateStatusKeeps(s, ws, id, name, isDefault);
      case DropStatus(ws, id) => DeleteStatusKeeps(s, ws, id);
      case AddMission(project, status, assignee, id) => CreateMissionKeeps(s, project, status, assignee, id);
      case Patch(m, status, due, copy) => PatchKeeps(s, m, status, due, copy);
      case Move(m, project, status, kind) => MoveKeepsIff(s, m, project, status, kind);
      case DropMission(m) => DeleteMissionKeeps(s, m);
      case Plan(m, next, drawn) => SchedulingKeeps(s, m, next, drawn, None);
      case Unplan(m) => SchedulingKeeps(s, m, None, 0, None);
      case GiveTo(m, assignee) => SchedulingKeeps(s, m, None, 0, assignee);
      case Column(project, status, order, due, copies) => ReorderColumnExactly(s, project, status, order, due, copies);
      case Mine(actor, status, order) => ReorderMineExactly(s, actor, status, order);
    }
  }

  ghost predicate Runs(s: State, requests: seq<Request>)
    decreases |requests|
  {
    requests == [] || (Possible(s, requests[0]) && Runs(Step(s, requests[0]), requests[1..]))
  }

  ghost function After(s: State, requests: seq<Request>): State
    requires Runs(s, requests)
    decreases |requests|
  {
    if requests == [] then s else After(Step(s, requests[0]), requests[1..])
  }

  /** Over any run, each live mission points at a live status of its workspace and carries its type,
      and every workspace keeps exactly one default (of type draft), one execute and one review. */
  lemma {:induction false} EveryRunKeepsInv(s: State, requests: seq<Request>)
    requires Inv(s) && Runs(s, requests)
    ensures Inv(After(s, requests))
    decreases |requests|
  {
    hide Inv, Possible, Step;
    if requests != [] {
      StepKeepsInv(s, requests[0]);
      EveryRunKeepsInv(Step(s, requests[0]), requests[1..]);
    }
  }

  const EMPTY := State({}, map[], map[], map[], map[], map[])

  lemma EmptyHolds()
    ensures Inv(EMPTY)
  {
  }

  /** One live status of the workspace is the default, the execute or the review one, and no other. */
  ghost predicate SoleHolder(s: State, ws: Id, special: Special, h: Id) {
    forall id :: Holder(s, ws, special, id) <==> id == h
  }

  lemma HolderHasRow(s: State, ws: Id, special: Special, h: Id)
    requires Holder(s, ws, special, h)
    ensures h in s.statuses && s.statuses[h].live && (special == TheDefault ==> s.statuses[h].isDefault)
  {
  }

  lemma HasSoleHolder(s: State, ws: Id, special: Special)
    requires Inv(s) && ws in s.workspaces
    ensures exists h :: h in s.statuses && SoleHolder(s, ws, special, h)
                        && (special == TheDefault ==> s.statuses[h].kind == Draft)
  {
    hide Holder;
    assert ExactlyOne(s, ws, special);
    var h: Id :| Holder(s, ws, special, h);
    assert SoleHolder(s, ws, special, h);
    HolderHasRow(s, ws, special, h);
  }

  /** So from an empty database on, a workspace has one default, one execute and one review status, and the
      default is a draft; and a live mission is on a live status of its workspace, whose type it carries. */
  lemma EveryRunFromEmpty(requests: seq<Request>, ws: Id, special: Special, m: Id)
    requires Runs(EMPTY, requests)
    ensures var s := After(EMPTY, requests);
            && (ws in s.workspaces ==>
                  exists h :: h in s.statuses && SoleHolder(s, ws, special, h)
                              && (special == TheDefault ==> s.statuses[h].kind == Draft))
            && (m in s.missions && s.missions[m].live ==>
                  && LiveStatus(s, s.missions[m].ws, s.missions[m].status)
                  && s.missions[m].statusType == s.statuses[s.missions[m].status].kind)
  {
    hide Runs, After, Inv;
    EmptyHolds();
    EveryRunKeepsInv(EMPTY, requests);
    var s := After(EMPTY, requests);
    if ws in s.workspaces {
      HasSoleHolder(s, ws, special);
    }
    if m in s.missions {
      InvMission(s, m);
    }
  }
}
