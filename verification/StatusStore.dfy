/** The status and mission tables as the requests write them. */
module StatusStore {
  import opened Common
  import opened Statuses

  class Board {
    var workspaces: set<Id>
    var projects: map<Id, Id>
    var schedules: map<Id, Option<Id>>
    var statuses: map<Id, Status>
    var missions: map<Id, Mission>
    var slots: map<(Id, Id), Slot>

    function Tables(): State
      reads this
    {
      State(workspaces, projects, schedules, statuses, missions, slots)
    }

    constructor ()
      ensures Tables() == State({}, map[], map[], map[], map[], map[])
      ensures Inv(Tables())
    {
      workspaces, projects, schedules, statuses, missions, slots := {}, map[], map[], map[], map[], map[];
    }

    /** `seedWorkspaceStatuses`. */
    method SeedWorkspaceStatuses(ws: Id, ids: seq<Id>)
      requires |ids| == SEED_COUNT
      modifies `workspaces, `statuses
      ensures Tables() == Seeded(old(Tables()), ws, ids)
    {
      workspaces := workspaces + {ws};
      assert ids[..0] == [];
      for k := 0 to SEED_COUNT
        invariant workspaces == old(workspaces) + {ws}
        invariant statuses == SeedStatuses(old(statuses), ws, ids[..k])
      {
        assert ids[..k + 1][..k] == ids[..k];
        statuses := statuses[ids[k] := SeedRow(ws, k)];
      }
      assert ids[..SEED_COUNT] == ids;
    }

    /** `clearWorkspaceDefaultStatuses`, row by row. */
    method ClearDefaults(ws: Id)
      modifies `statuses
      ensures statuses == WithoutDefaults(old(statuses), ws)
    {
      ghost var was := statuses;
      var todo := statuses.Keys;
      while todo != {}
        invariant todo <= was.Keys == statuses.Keys
        invariant forall id | id in statuses ::
                    statuses[id] == if id in todo then was[id] else WithoutDefaults(was, ws)[id]
        decreases |todo|
      {
        HasElement(todo);
        var id :| id in todo;
        var st := statuses[id];
        if st.ws == ws && st.live && st.isDefault {
          statuses := statuses[id := st.(isDefault := false)];
        }
        todo := todo - {id};
      }
    }

    method CreateWorkspaceStatus(ws: Id, name: string, kind: Option<StatusType>, isDefault: bool, id: Id)
        returns (r: Result<()>)
      modifies `statuses
      ensures var spec := CreateStatus(old(Tables()), ws, name, kind, isDefault, id);
              && (spec.Ok? ==> r.Ok? && Tables() == spec.value)
              && (spec.Err? ==> r == Err(spec.status) && Tables() == old(Tables()))
    {
      hide NameTaken, NextPosition, Trim, WithoutDefaults;
      var trimmed := Trim(name);
      if trimmed == "" {
        return Err(400);
      }
      if NameTaken(Tables(), ws, trimmed, None) {
        return Err(409);
      }
      if kind.None? {
        return Err(400);
      }
      if kind.value in {Execute, Review} && HasKind(Tables(), ws, kind.value) {
        return Err(409);
      }
      if isDefault && kind.value != Draft {
        return Err(400);
      }
      var position := NextPosition(Tables(), ws);
      if isDefault {
        ClearDefaults(ws);
      }
      statuses := statuses[id := Status(ws, trimmed, kind.value, position, isDefault, true)];
      r := Ok(());
    }

    method UpdateWorkspaceStatus(ws: Id, id: Id, name: Option<string>, isDefault: Option<bool>)
        returns (r: Result<()>)
      modifies `statuses
      ensures var spec := UpdateStatus(old(Tables()), ws, id, name, isDefault);
              && (spec.Ok? ==> r.Ok? && Tables() == spec.value)
              && (spec.Err? ==> r == Err(spec.status) && Tables() == old(Tables()))
    {
      hide Renamed, WithoutDefaults;
      if !LiveStatus(Tables(), ws, id) {
        return Err(404);
      }
      var st, renamed := statuses[id], Renamed(Tables(), ws, id, name);
      if renamed.Err? {
        return Err(renamed.status);
      }
      if isDefault.Some? {
        if isDefault.value {
          if st.kind != Draft {
            return Err(400);
          }
          ClearDefaults(ws);
          statuses := statuses[id := st.(name := renamed.value, isDefault := true)];
          return Ok(());
        } else if st.isDefault {
          return Err(409);
        }
      }
      statuses := statuses[id := st.(name := renamed.value)];
      r := Ok(());
    }

    method DeleteWorkspaceStatus(ws: Id, id: Id) returns (r: Result<()>)
      modifies `statuses
      ensures var spec := DeleteStatus(old(Tables()), ws, id);
              && (spec.Ok? ==> r.Ok? && Tables() == spec.value)
              && (spec.Err? ==> r == Err(spec.status) && Tables() == old(Tables()))
    {
      if !LiveStatus(Tables(), ws, id) {
        return Err(404);
      }
      if statuses[id].kind in {Execute, Review} || statuses[id].isDefault || InUse(Tables(), id) {
        return Err(409);
      }
      statuses := statuses[id := statuses[id].(live := false)];
      r := Ok(());
    }

    /** `createScheduledDuplicateIfNeeded`. */
    method CreateScheduledDuplicate(before: Mission, kind: StatusType, due: bool, copy: Id) returns (r: Result<()>)
      modifies `missions
      ensures var spec := Duplicated(old(Tables()), before, kind, due, copy);
              && (spec.Ok? ==> r.Ok? && Tables() == spec.value)
              && (spec.Err? ==> r == Err(spec.status) && Tables() == old(Tables()))
    {
      hide TopPosition, DefaultRow;
      if kind != Complete || before.schedule.None? || before.schedule.value !in schedules || !due {
        return Ok(());
      }
      var next, target := schedules[before.schedule.value], 0;
      if next.Some? && LiveStatus(Tables(), before.ws, next.value) {
        target := next.value;
      } else {
        var fallback := DefaultRow(Tables(), before.ws);
        if fallback.Err? {
          return Err(fallback.status);
        }
        target := fallback.value;
      }
      var position := TopPosition(Tables(), before.project, target, None);
      missions := missions[copy := OnStatus(Tables(), before.(live := true), target, position)];
      r := Ok(());
    }

    /** The loop of `reorderBoardColumn`; on an error the transaction restores the missions. */
    method ReorderBoardColumn(project: Id, status: Id, order: seq<Id>, due: set<Id>, copies: map<Id, Id>)
        returns (r: Result<()>)
      requires forall m | m in order :: m in copies
      modifies `missions
      ensures var spec := ReorderColumn(old(Tables()), project, status, order, due, copies);
              && (spec.Ok? ==> r.Ok? && Tables() == spec.value)
              && (spec.Err? ==> r == Err(spec.status) && Tables() == old(Tables()))
    {
      hide Duplicated, OnStatus;
      if project !in projects {
        return Err(404);
      }
      if !LiveStatus(Tables(), projects[project], status) || !NoDuplicates(order) {
        return Err(400);
      }
      var before, i := missions, 0;
      while i < |order|
        invariant i <= |order|
        invariant unchanged(`workspaces, `projects, `schedules, `statuses, `slots)
        invariant ColumnTurns(Tables(), project, status, order, i, due, copies) ==
                  ColumnTurns(old(Tables()), project, status, order, 0, due, copies)
      {
        var m, position := order[i], (i + 1) * 100;
        if !LiveMission(Tables(), m) || missions[m].project != project || missions[m].ws != statuses[status].ws {
          missions := before;
          return Err(404);
        }
        var v := missions[m];
        if v.status == status {
          missions := missions[m := v.(position := position)];
        } else {
          missions := missions[m := OnStatus(Tables(), v, status, position)];
          var copied := CreateScheduledDuplicate(v, statuses[status].kind, m in due, copies[m]);
          if copied.Err? {
            missions := before;
            return Err(copied.status);
          }
        }
        i := i + 1;
      }
      r := Ok(());
    }

    /** The loop of `reorderWorkspaceMyMissionsTx`. */
    method ReorderMyMissions(actor: Option<Id>, status: Id, order: seq<Id>) returns (r: Result<()>)
      modifies `missions, `slots
      ensures var spec := ReorderMine(old(Tables()), actor, status, order);
              && (spec.Ok? ==> r.Ok? && Tables() == spec.value)
              && (spec.Err? ==> r == Err(spec.status) && Tables() == old(Tables()))
    {
      hide TopPosition, OnStatus;
      if !NoDuplicates(order) {
        return Err(400);
      }
      if status !in statuses || !statuses[status].live {
        return Err(409);
      }
      if actor.None? {
        return Err(403);
      }
      var before, slotsBefore, i := missions, slots, 0;
      while i < |order|
        invariant i <= |order|
        invariant unchanged(`workspaces, `projects, `schedules, `statuses)
        invariant MineTurns(Tables(), actor.value, status, order, i) ==
                  MineTurns(old(Tables()), actor.value, status, order, 0)
      {
        ghost var turn := MineTurn(Tables(), actor.value, status, order[i], i);
        var m := order[i];
        if !LiveMission(Tables(), m) || missions[m].ws != statuses[status].ws {
          missions, slots := before, slotsBefore;
          return Err(404);
        }
        if missions[m].assignee != Some(actor.value) {
          missions, slots := before, slotsBefore;
          return Err(403);
        }
        var v := missions[m];
        assert missions[m := v] == missions;
        if v.status != status {
          missions := missions[m := OnStatus(Tables(), v, status, TopPosition(Tables(), v.project, status, Some(m)))];
        }
        slots := slots[(actor.value, m) := Slot(status, (i + 1) * 100)];
        assert turn == Ok(Tables());
        i := i + 1;
      }
      r := Ok(());
    }

    /** The mission part of `patchMissionFieldsTx`. */
    method PatchMissionStatus(m: Id, status: Option<Id>, due: bool, copy: Id) returns (r: Result<()>)
      modifies `missions
      ensures var spec := PatchStatus(old(Tables()), m, status, due, copy);
              && (spec.Ok? ==> r.Ok? && Tables() == spec.value)
              && (spec.Err? ==> r == Err(spec.status) && Tables() == old(Tables()))
    {
      hide TopPosition, Duplicated;
      if !LiveMission(Tables(), m) {
        return Err(404);
      }
      if status.None? {
        return Ok(());
      }
      var before, v := missions, missions[m];
      if !LiveStatus(Tables(), v.ws, status.value) {
        return Err(400);
      }
      if status.value == v.status {
        missions := missions[m := v.(statusType := statuses[v.status].kind)];
        return Ok(());
      }
      var position := TopPosition(Tables(), v.project, status.value, Some(m));
      missions := missions[m := OnStatus(Tables(), v, status.value, position)];
      r := CreateScheduledDuplicate(v, statuses[status.value].kind, due, copy);
      if r.Err? {
        missions := before;
      }
    }

    method CreateMissionRow(project: Id, status: Option<Id>, assignee: Option<Id>, id: Id) returns (r: Result<()>)
      modifies `missions
      ensures var spec := CreateMission(old(Tables()), project, status, assignee, id);
              && (spec.Ok? ==> r.Ok? && Tables() == spec.value)
              && (spec.Err? ==> r == Err(spec.status) && Tables() == old(Tables()))
    {
      hide TopPosition, DefaultRow;
      if project !in projects {
        return Err(404);
      }
      var ws := projects[project];
      var row := if status.Some? then StatusRow(Tables(), ws, status.value) else DefaultRow(Tables(), ws);
      if row.Err? {
        return Err(row.status);
      }
      var position := TopPosition(Tables(), project, row.value, None);
      missions := missions[id := Mission(ws, project, row.value, statuses[row.value].kind, position, assignee, None,
                                         true)];
      r := Ok(());
    }
  }
}
