/** What each status and mission request does, row by row, in terms of the rows it found. */
module StatusEffects {
  import opened Common
  import opened Statuses
  import opened StatusRuns

  // ---- a place on the board -------------------------------------------------------------

  predicate InColumn(s: State, project: Id, status: Id, n: Id) {
    LiveMission(s, n) && s.missions[n].project == project && s.missions[n].status == status
  }

  predicate Others(s: State, project: Id, status: Id, except: Option<Id>, n: Id) {
    InColumn(s, project, status, n) && except != Some(n)
  }

  /** 100 above the highest of the other live missions in the column; 100 in an empty one. */
  ghost predicate OnTop(s: State, project: Id, status: Id, except: Option<Id>, p: int) {
    && (forall n | Others(s, project, status, except, n) :: p <= s.missions[n].position - 100)
    && (if exists n :: Others(s, project, status, except, n)
        then exists n :: Others(s, project, status, except, n) && p == s.missions[n].position - 100
        else p == 100)
  }

  lemma TopPositionExactly(s: State, project: Id, status: Id, except: Option<Id>)
    ensures OnTop(s, project, status, except, TopPosition(s, project, status, except))
  {
    var taken := ColumnPositions(s, project, status, except);
    assert forall n | Others(s, project, status, except, n) :: s.missions[n].position in taken;
    if taken != {} {
      var n: Id :| n in s.missions && Others(s, project, status, except, n) && s.missions[n].position == MinOf(taken);
    }
  }

  /** Only the column counts. */
  lemma SameColumn(s: State, t: State, project: Id, status: Id, except: Option<Id>, also: Option<Id>, p: int)
    requires OnTop(s, project, status, except, p)
    requires forall n :: Others(t, project, status, also, n) <==> Others(s, project, status, except, n)
    requires forall n | n in t.missions && Others(s, project, status, except, n) ::
               t.missions[n].position == s.missions[n].position
    ensures OnTop(t, project, status, also, p)
  {
    if n: Id :| Others(s, project, status, except, n) && p == s.missions[n].position - 100 {
      assert Others(t, project, status, also, n);
    }
  }

  // ---- the scheduled duplicate ----------------------------------------------------------

  predicate CopyDue(s: State, before: Mission, kind: StatusType, due: bool) {
    kind == Complete && due && before.schedule.Some? && before.schedule.value in s.schedules
  }

  /** The copy of a mission: on the status its schedule names while that is live, else on the default; on
      top of that column; otherwise as the mission was. */
  ghost predicate IsCopy(t: State, before: Mission, copy: Id) {
    && copy in t.missions && before.schedule.Some? && before.schedule.value in t.schedules
    && var c, next := t.missions[copy], t.schedules[before.schedule.value];
       && c.status in t.statuses
       && c == before.(live := true, status := c.status, statusType := t.statuses[c.status].kind,
                       position := c.position)
       && (if next.Some? && LiveStatus(t, before.ws, next.value) then c.status == next.value
           else Holder(t, before.ws, TheDefault, c.status))
       && OnTop(t, before.project, c.status, Some(copy), c.position)
  }

  /** A duplicate is made exactly when the schedule calls for one, and nothing else changes. */
  lemma DuplicatedExactly(s: State, before: Mission, kind: StatusType, due: bool, copy: Id)
    requires StatusesOk(s) && before.ws in s.workspaces && copy !in s.missions
    ensures var r := Duplicated(s, before, kind, due, copy);
            && r.Ok? && r.value == s.(missions := r.value.missions)
            && (forall n | n in s.missions :: n in r.value.missions && r.value.missions[n] == s.missions[n])
            && r.value.missions.Keys == s.missions.Keys + (if CopyDue(s, before, kind, due) then {copy} else {})
            && (CopyDue(s, before, kind, due) ==> IsCopy(r.value, before, copy))
  {
    hide TopPosition, OnTop, StatusesOk;
    DuplicateNeverFails(s, before, kind, due, copy);
    var r := Duplicated(s, before, kind, due, copy);
    if CopyDue(s, before, kind, due) {
      var status := r.value.missions[copy].status;
      TopPositionExactly(s, before.project, status, None);
      SameColumn(s, r.value, before.project, status, None, Some(copy), TopPosition(s, before.project, status, None));
    }
  }

  // ---- a mission changes its status -----------------------------------------------------

  /** What a change of status leaves: the mission on the status with its type and otherwise as it was,
      no other mission changed, and a duplicate exactly when its schedule calls for one. */
  ghost predicate MovedTo(s: State, t: State, m: Id, status: Id, due: bool, copy: Id)
    requires m in s.missions && status in s.statuses
  {
    && t == s.(missions := t.missions)
    && m in t.missions
    && t.missions[m] ==
       s.missions[m].(status := status, statusType := s.statuses[status].kind, position := t.missions[m].position)
    && (forall n | n in s.missions && n != m :: n in t.missions && t.missions[n] == s.missions[n])
    && var copied := s.missions[m].status != status && CopyDue(s, s.missions[m], s.statuses[status].kind, due);
       && t.missions.Keys == s.missions.Keys + (if copied then {copy} else {})
       && (copied ==> IsCopy(t, s.missions[m], copy))
  }

  /** The write of the mission followed by its duplicate. */
  lemma WrittenThenCopied(s: State, m: Id, status: Id, position: int, due: bool, copy: Id)
    requires Inv(s) && LiveMission(s, m) && LiveStatus(s, s.missions[m].ws, status) && copy !in s.missions
    requires s.missions[m].status != status
    ensures var v := s.missions[m];
            var r := Duplicated(WithMission(s, m, OnStatus(s, v, status, position)), v, s.statuses[status].kind, due,
                                copy);
            && r.Ok? && MovedTo(s, r.value, m, status, due, copy) && r.value.missions[m].position == position
  {
    hide TopPosition, OnTop, StatusesOk, MissionsOk, Duplicated, IsCopy;
    InvMission(s, m);
    InvParts(s);
    var v, t := s.missions[m], WithMission(s, m, OnStatus(s, s.missions[m], status, position));
    StatusTables(s, t);
    DuplicatedExactly(t, v, s.statuses[status].kind, due, copy);
  }

  lemma StaysOn(s: State, m: Id, status: Id, position: int, due: bool, copy: Id)
    requires Inv(s) && LiveMission(s, m) && s.missions[m].status == status
    ensures status in s.statuses && s.missions[m].statusType == s.statuses[status].kind
    ensures MovedTo(s, WithMission(s, m, s.missions[m].(position := position)), m, status, due, copy)
  {
    hide StatusesOk, IsCopy;
    InvMission(s, m);
    assert s.missions.Keys + {m} == s.missions.Keys;
  }

  /** A status change by PATCH succeeds if and only if the mission is live and the status, if one is
      asked for, is live in its workspace.  The mission is then on that status, with its type; on top
      of the column if the status is another one, where it was if not; no other mission has changed,
      and the only new one is the duplicate that the schedule calls for. */
  lemma PatchExactly(s: State, m: Id, status: Option<Id>, due: bool, copy: Id)
    requires Inv(s) && copy !in s.missions
    ensures var r := PatchStatus(s, m, status, due, copy);
            && (r.Ok? <==> LiveMission(s, m) && (status.Some? ==> LiveStatus(s, s.missions[m].ws, status.value)))
            && (r.Err? ==> r.status == if LiveMission(s, m) then 400 else 404)
            && (r.Ok? && status.None? ==> r.value == s)
            && (r.Ok? && status.Some? ==>
                  && MovedTo(s, r.value, m, status.value, due, copy)
                  && if status.value == s.missions[m].status
                     then r.value.missions[m].position == s.missions[m].position
                     else OnTop(s, s.missions[m].project, status.value, Some(m), r.value.missions[m].position))
  {
    hide TopPosition, OnTop, StatusesOk, MissionsOk, Duplicated, MovedTo;
    if LiveMission(s, m) && status.Some? && LiveStatus(s, s.missions[m].ws, status.value) {
      var v := s.missions[m];
      if status.value == v.status {
        StaysOn(s, m, v.status, v.position, due, copy);
      } else {
        var position := TopPosition(s, v.project, status.value, Some(m));
        TopPositionExactly(s, v.project, status.value, Some(m));
        WrittenThenCopied(s, m, status.value, position, due, copy);
      }
    }
  }

  /** One turn of a board reorder: the mission is in its slot, and arriving from another column is a
      change of status like any other. */
  lemma ColumnTurnExactly(s: State, project: Id, status: Id, m: Id, i: nat, due: bool, copy: Id)
    requires Inv(s) && status in s.statuses && s.statuses[status].live && copy !in s.missions
    ensures var r := ColumnTurn(s, project, status, m, i, due, copy);
            && (r.Ok? <==> OnBoard(s, project, status, m)) && (r.Err? ==> r == Err(404))
            && (r.Ok? ==> MovedTo(s, r.value, m, status, due, copy) && r.value.missions[m].position == (i + 1) * 100)
  {
    hide TopPosition, OnTop, StatusesOk, MissionsOk, Duplicated;
    if OnBoard(s, project, status, m) {
      if s.missions[m].status == status {
        StaysOn(s, m, status, (i + 1) * 100, due, copy);
      } else {
        WrittenThenCopied(s, m, status, (i + 1) * 100, due, copy);
      }
    }
  }

  /** One turn of a My Missions reorder: the caller's slot is set, and only a mission that arrives from
      another status changes: it goes on top of its board column. */
  lemma MineTurnExactly(s: State, actor: Id, status: Id, m: Id, i: nat)
    requires Inv(s) && status in s.statuses && s.statuses[status].live
    ensures var r := MineTurn(s, actor, status, m, i);
            && (r.Ok? <==> IsMine(s, actor, status, m))
            && (r.Err? ==>
                  r.status == if LiveMission(s, m) && s.missions[m].ws == s.statuses[status].ws then 403 else 404)
            && (r.Ok? ==>
                  var t := r.value;
                  && t == s.(missions := t.missions, slots := s.slots[(actor, m) := Slot(status, (i + 1) * 100)])
                  && MovedTo(s, t.(slots := s.slots), m, status, false, m)
                  && if s.missions[m].status == status then t.missions[m].position == s.missions[m].position
                     else OnTop(s, s.missions[m].project, status, Some(m), t.missions[m].position))
  {
    hide TopPosition, OnTop, StatusesOk, MissionsOk;
    if IsMine(s, actor, status, m) {
      var v := s.missions[m];
      if v.status == status {
        StaysOn(s, m, status, v.position, false, m);
      } else {
        TopPositionExactly(s, v.project, status, Some(m));
      }
    }
  }

  lemma {:induction false} ColumnTurnsAnswer(
      s: State, project: Id, status: Id, order: seq<Id>, i: nat, due: set<Id>, copies: map<Id, Id>)
    requires Inv(s) && status in s.statuses && LiveStatus(s, s.statuses[status].ws, status)
    requires i <= |order| && NoDuplicates(order) && FreshCopies(s, order, i, copies)
    ensures var r := ColumnTurns(s, project, status, order, i, due, copies); r.Err? ==> r == Err(404)
    decreases |order| - i
  {
    hide Inv, ColumnTurn, StatusesOk, MissionsOk;
    if i < |order| {
      ColumnTurnEffect(s, project, status, order[i], i, order[i] in due, copies[order[i]]);
      ColumnTurnExactly(s, project, status, order[i], i, order[i] in due, copies[order[i]]);
      var turn := ColumnTurn(s, project, status, order[i], i, order[i] in due, copies[order[i]]);
      if turn.Ok? {
        FreshCopiesRest(s, turn.value, order, i, copies);
        ColumnTurnsAnswer(turn.value, project, status, order, i + 1, due, copies);
      }
    }
  }

  /** What a refused board reorder is answered: 404 for an unknown project or mission, 400 for a status that
      is not live there or a mission listed twice. */
  lemma ColumnAnswers(s: State, project: Id, status: Id, order: seq<Id>, due: set<Id>, copies: map<Id, Id>)
    requires Inv(s) && FreshCopies(s, order, 0, copies) && ReorderColumn(s, project, status, order, due, copies).Err?
    ensures ReorderColumn(s, project, status, order, due, copies).status ==
            if project !in s.projects then 404
            else if LiveStatus(s, s.projects[project], status) && NoDuplicates(order) then 404
            else 400
  {
    hide Inv, FreshCopies;
    if project in s.projects && LiveStatus(s, s.projects[project], status) && NoDuplicates(order) {
      ColumnTurnsAnswer(s, project, status, order, 0, due, copies);
    }
  }

  /** What a refused My Missions reorder is answered before it looks at the missions: 400 for one listed twice,
      409 for a status that is not live, 403 for a caller who is no member there. */
  lemma MineAnswers(s: State, actor: Option<Id>, status: Id, order: seq<Id>)
    ensures var r, live := ReorderMine(s, actor, status, order), status in s.statuses && s.statuses[status].live;
            && (!NoDuplicates(order) ==> r == Err(400))
            && (NoDuplicates(order) && !live ==> r == Err(409))
            && (NoDuplicates(order) && live && actor == None ==> r == Err(403))
  {
  }

  // ---- missions and schedules -----------------------------------------------------------

  lemma HasDefault(s: State, ws: Id)
    requires StatusesOk(s) && ws in s.workspaces
    ensures Defaults(s, ws) != {}
  {
    assert ExactlyOne(s, ws, TheDefault);
    var id: Id :| Holder(s, ws, TheDefault, id);
    assert id in Defaults(s, ws);
  }

  /** A mission is created in a live project: on the live status asked for, else on the default; on top of
      that column, assigned as asked, without a schedule. */
  lemma CreateMissionExactly(s: State, project: Id, status: Option<Id>, assignee: Option<Id>, id: Id)
    requires Inv(s) && id !in s.missions
    ensures var r := CreateMission(s, project, status, assignee, id);
            && (r.Ok? <==> project in s.projects && (status.Some? ==> LiveStatus(s, s.projects[project], status.value)))
            && (r.Err? ==> r.status == if project in s.projects then 400 else 404)
            && (r.Ok? ==>
                  && r.value == s.(missions := s.missions[id := r.value.missions[id]])
                  && var v := r.value.missions[id];
                     && v.status in s.statuses
                     && v == Mission(s.projects[project], project, v.status, s.statuses[v.status].kind, v.position,
                                     assignee, None, true)
                     && (if status.Some? then v.status == status.value
                         else Holder(s, s.projects[project], TheDefault, v.status))
                     && OnTop(s, project, v.status, None, v.position))
  {
    hide TopPosition, OnTop, StatusesOk;
    if project in s.projects {
      var ws := s.projects[project];
      InvParts(s);
      HasDefault(s, ws);
      var row := if status.Some? then StatusRow(s, ws, status.value) else DefaultRow(s, ws);
      if row.Ok? {
        TopPositionExactly(s, project, row.value, None);
      }
    }
  }

  /** A project move reads the status asked for, or the mission's own, within one workspace; and its
      write puts the mission on top of that column of the other project and changes nothing else. */
  lemma MoveExactly(s: State, m: Id, project: Id, status: Option<Id>)
    requires Inv(s)
    ensures var r := MoveRead(s, m, project, status);
            && (r.Ok? <==> LiveMission(s, m) && project in s.projects && s.projects[project] == s.missions[m].ws
                           && (status.Some? ==> LiveStatus(s, s.missions[m].ws, status.value)))
            && (r.Ok? ==>
                  && r.value == (if status.Some? then status.value else s.missions[m].status)
                  && r.value in s.statuses
                  && var t := MoveWrite(s, m, project, r.value, s.statuses[r.value].kind);
                     && m in t.missions && t == s.(missions := s.missions[m := t.missions[m]])
                     && t.missions[m] == s.missions[m].(
                          project := project, status := r.value, statusType := s.statuses[r.value].kind,
                          position := t.missions[m].position)
                     && OnTop(s, project, r.value, Some(m), t.missions[m].position))
  {
    hide TopPosition, OnTop, StatusesOk;
    if LiveMission(s, m) {
      InvMission(s, m);
      TopPositionExactly(s, project, if status.Some? then status.value else s.missions[m].status, Some(m));
    }
  }

  /** A schedule is set on a live mission when its next status is live there: in the row the mission has,
      or in a new one. */
  lemma SetScheduleExactly(s: State, m: Id, next: Option<Id>, drawn: Id, n: Id)
    ensures var r := SetSchedule(s, m, next, drawn);
            && (r.Ok? <==> LiveMission(s, m) && (next.Some? ==> LiveStatus(s, s.missions[m].ws, next.value)))
            && (r.Err? ==> r.status == if LiveMission(s, m) then 400 else 404)
            && (r.Ok? ==>
                  var t, id := r.value, s.missions[m].schedule;
                  && t == s.(missions := t.missions, schedules := t.schedules) && t.missions.Keys == s.missions.Keys
                  && (id.Some? ==> t.missions == s.missions && t.schedules == s.schedules[id.value := next])
                  && (id.None? ==>
                        && t.missions[m] == s.missions[m].(schedule := Some(drawn))
                        && t.schedules == s.schedules[drawn := next])
                  && (n in s.missions && n != m ==> t.missions[n] == s.missions[n]))
  {
    if LiveMission(s, m) && s.missions[m].schedule.Some? {
      assert s.missions[m := s.missions[m]] == s.missions;
    }
  }

  /** Clearing it takes the row away exactly when no other mission row refers to it. */
  lemma ClearScheduleExactly(s: State, m: Id, n: Id, id: Id)
    ensures var r := ClearSchedule(s, m);
            && (r.Ok? <==> LiveMission(s, m)) && (r.Err? ==> r == Err(404))
            && (r.Ok? ==>
                  var t := r.value;
                  && t == s.(missions := t.missions, schedules := t.schedules) && t.missions.Keys == s.missions.Keys
                  && t.missions[m] == s.missions[m].(schedule := None)
                  && (n in s.missions && n != m ==> t.missions[n] == s.missions[n])
                  && (id in s.schedules ==>
                        (id !in t.schedules <==>
                           s.missions[m].schedule == Some(id)
                           && forall o | o in s.missions && o != m :: s.missions[o].schedule != Some(id)))
                  && (id in t.schedules ==> id in s.schedules && t.schedules[id] == s.schedules[id]))
  {
    if LiveMission(s, m) && s.missions[m].schedule.None? {
      assert s.missions[m := s.missions[m].(schedule := None)] == s.missions;
    }
  }

  /** Assigning changes the assignee of the one live mission, deleting takes the one live mission away. */
  lemma AssignAndDeleteExactly(s: State, m: Id, assignee: Option<Id>)
    ensures Assign(s, m, assignee) ==
            if m in s.missions && s.missions[m].live
            then Ok(s.(missions := s.missions[m := s.missions[m].(assignee := assignee)])) else Err(404)
    ensures var r := DeleteMission(s, m);
            && (r.Ok? <==> LiveMission(s, m)) && (r.Err? ==> r == Err(404))
            && (r.Ok? ==>
                  && r.value == s.(missions := r.value.missions) && r.value.missions.Keys == s.missions.Keys
                  && forall n | n in s.missions ::
                       r.value.missions[n] == s.missions[n].(live := s.missions[n].live && n != m))
  {
  }
}
