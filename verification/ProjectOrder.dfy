/** Reordering the projects of a workspace (`reorderProjects`). */
module ProjectOrder {
  import opened Common
  import opened TwoPhase

  datatype Project = Project(workspaceId: Id, position: Option<int>, revision: nat, deleted: bool)

  type Table = map<Id, Project>

  predicate Live(t: Table, id: Id) {
    id in t && !t[id].deleted
  }

  /** The live rows of one workspace, as the unique index sees them. */
  function Group(t: Table, ws: Id): Slots {
    map id | id in t && !t[id].deleted && t[id].workspaceId == ws :: t[id].position
  }

  /** The unique index on (workspace, position) over live rows. */
  ghost predicate UniqueIndex(t: Table) {
    forall ws :: Distinct(Group(t, ws))
  }

  /** The checks made before anything is written; `denied` holds, per workspace, the status with
      which the permission gate refuses the caller. */
  function Check(t: Table, ordered: seq<Id>, denied: map<Id, nat>): Result<Id> {
    if ordered == [] || !NoDuplicates(ordered) then Err(400)
    else if exists i | 0 <= i < |ordered| :: !Live(t, ordered[i]) then Err(400)
    else
      var ws := t[ordered[0]].workspaceId;
      if exists i | 0 <= i < |ordered| :: t[ordered[i]].workspaceId != ws then Err(400)
      else if ws in denied then Err(denied[ws])
      else if |ordered| != |Group(t, ws)| then Err(400)
      else Ok(ws)
  }

  /** The rows a reorder moves: those not already at their place in the list, counted from 1. */
  function Changed(ordered: seq<Id>, s: Slots): (ups: seq<Write>)
    requires forall id | id in ordered :: id in s
    ensures |ups| <= |ordered|
  {
    Moves(ordered, Numbered(ordered, 1), s)
  }

  /** The largest position in use, null counting as 0; parking begins above it by the number of
      moved rows plus one. */
  function MaxPosition(s: Slots): (m: int)
    ensures 0 <= m
    ensures forall id | id in s && s[id].Some? :: s[id].value <= m
  {
    var used := (set id | id in s :: if s[id].Some? then s[id].value else 0) + {0};
    var m := MaxOf(used);
    assert forall id | id in s && s[id].Some? :: s[id].value in used;
    m
  }

  /** A list that passes the checks names exactly the live projects of its workspace. */
  lemma CheckedListIsTheGroup(t: Table, ordered: seq<Id>, denied: map<Id, nat>)
    requires Check(t, ordered, denied).Ok?
    ensures var s := Group(t, Check(t, ordered, denied).value);
            && (forall id | id in ordered :: id in s)
            && (forall id | id in s :: id in ordered)
  {
    var s := Group(t, Check(t, ordered, denied).value);
    forall i | 0 <= i < |ordered| ensures ordered[i] in s {
      assert Live(t, ordered[i]);
    }
    ElementCount(ordered);
    assert |s| == |s.Keys|;
    SubsetSameSize(Elements(ordered), s.Keys);
    forall id | id in s ensures id in ordered {
      assert id in Elements(ordered);
    }
  }

  /** The checks pass for a workspace exactly when the list is of its live projects, each once, all of them
      and at least one, and the caller is not denied it. */
  lemma CheckExactly(t: Table, ordered: seq<Id>, denied: map<Id, nat>, ws: Id)
    ensures Check(t, ordered, denied) == Ok(ws) <==>
            && ordered != [] && NoDuplicates(ordered) && ws !in denied
            && forall id :: id in ordered <==> Live(t, id) && t[id].workspaceId == ws
  {
    if Check(t, ordered, denied) == Ok(ws) {
      CheckedListIsTheGroup(t, ordered, denied);
    } else if ordered != [] && NoDuplicates(ordered)
              && forall id :: id in ordered <==> Live(t, id) && t[id].workspaceId == ws {
      ElementCount(ordered);
      assert forall id :: id in Elements(ordered) <==> id in ordered;
      assert Elements(ordered) == Group(t, ws).Keys;
      assert forall i | 0 <= i < |ordered| :: ordered[i] in ordered;
      assert |Group(t, ws)| == |Group(t, ws).Keys|;
    }
  }

  /** A list of different live projects of one workspace is refused as the gate of that workspace says,
      and for being incomplete only after that; any other list is a bad request. */
  lemma CheckRefuses(t: Table, ordered: seq<Id>, denied: map<Id, nat>)
    requires Check(t, ordered, denied).Err?
    ensures if ordered != [] && NoDuplicates(ordered)
               && exists ws :: ws in denied && forall id | id in ordered :: Live(t, id) && t[id].workspaceId == ws
            then ordered[0] in t && t[ordered[0]].workspaceId in denied
                 && Check(t, ordered, denied) == Err(denied[t[ordered[0]].workspaceId])
            else Check(t, ordered, denied) == Err(400)
  {
    assert ordered != [] ==> ordered[0] in ordered;
    assert forall i | 0 <= i < |ordered| :: ordered[i] in ordered;
  }

  /** The moves of a checked reorder meet the two-pass conditions, with every target clear. */
  lemma ReorderIsClear(t: Table, ordered: seq<Id>, denied: map<Id, nat>)
    requires UniqueIndex(t) && Check(t, ordered, denied).Ok?
    ensures var s := Group(t, Check(t, ordered, denied).value);
            && (forall id | id in ordered :: id in s)
            && var ups := Changed(ordered, s);
            && WellFormed(s, ups, MaxPosition(s) + |ups| + 1)
            && TargetsClear(s, ups)
  {
    var s, target := Group(t, Check(t, ordered, denied).value), Numbered(ordered, 1);
    CheckedListIsTheGroup(t, ordered, denied);
    NumberedRange(ordered, 1);
    forall k | 0 <= k < |ordered| ensures target[ordered[k]] == 1 + k {
      NumberedAt(ordered, 1, k);
    }
    MovesShape(ordered, target, s);
    MovesClear(ordered, target, s);
    ParkingAboveTargets(ordered, target, s, 1, MaxPosition(s));
  }

  /** The table after the first `m` UPDATEs: positions follow the plan, and a row's revision
      goes up by one with its final write. */
  ghost function TableAt(t: Table, ws: Id, ups: seq<Write>, base: int, m: nat): Table {
    map id | id in t ::
      if id !in Group(t, ws) then t[id]
      else t[id].(position := SlotAt(Group(t, ws), ups, base, m, id),
                  revision := t[id].revision + Settled(ups, m, id))
  }

  lemma TableStep(t: Table, ws: Id, ups: seq<Write>, base: int, m: nat)
    requires WellFormed(Group(t, ws), ups, base) && m < 2 * |ups|
    ensures var w, now := PlanWrite(ups, base, m), TableAt(t, ws, ups, base, m);
            && w.id in t && w.id in now
            && TableAt(t, ws, ups, base, m + 1) ==
               now[w.id := now[w.id].(position := Some(w.position),
                                      revision := t[w.id].revision + (if m < |ups| then 0 else 1))]
  {
    hide WellFormed, SlotAt, Settled;
    var s, w := Group(t, ws), PlanWrite(ups, base, m);
    SlotsStep(s, ups, base, m);
    assert w.id in t;
  }

  lemma TableGroup(t: Table, ws: Id, ups: seq<Write>, base: int, m: nat)
    ensures Group(TableAt(t, ws, ups, base, m), ws) == StateAt(Group(t, ws), ups, base, m)
  {
  }

  lemma TableStart(t: Table, ws: Id, ups: seq<Write>, base: int)
    ensures TableAt(t, ws, ups, base, 0) == t
  {
  }

  /** The table a checked reorder leaves. */
  ghost predicate Reordered(t: Table, ordered: seq<Id>, u: Table) {
    && u.Keys == t.Keys
    && (forall k | 0 <= k < |ordered| && ordered[k] in t ::
          u[ordered[k]] ==
            (if t[ordered[k]].position == Some(k + 1) then t[ordered[k]]
             else t[ordered[k]].(position := Some(k + 1), revision := t[ordered[k]].revision + 1)))
    && (forall id | id in t && id !in ordered :: u[id] == t[id])
  }

  lemma MoveOf(ordered: seq<Id>, s: Slots, k: nat)
    requires NoDuplicates(ordered) && (forall id | id in ordered :: id in s) && k < |ordered|
    ensures var i := IndexOf(Changed(ordered, s), ordered[k]);
            && (i == -1 <==> s[ordered[k]] == Some(k + 1))
            && (i >= 0 ==> Changed(ordered, s)[i].position == k + 1)
  {
    NumberedAt(ordered, 1, k);
    MovesIndex(ordered, Numbered(ordered, 1), s, ordered[k]);
    MovesShape(ordered, Numbered(ordered, 1), s);
  }

  lemma CheckedNoDuplicates(t: Table, ordered: seq<Id>, denied: map<Id, nat>)
    requires Check(t, ordered, denied).Ok?
    ensures NoDuplicates(ordered)
  {
  }

  lemma PlanReorders(t: Table, ordered: seq<Id>, denied: map<Id, nat>)
    requires UniqueIndex(t) && Check(t, ordered, denied).Ok?
    ensures var ws := Check(t, ordered, denied).value;
            && (forall id | id in ordered :: id in Group(t, ws))
            && var ups := Changed(ordered, Group(t, ws));
            Reordered(t, ordered, TableAt(t, ws, ups, MaxPosition(Group(t, ws)) + |ups| + 1, 2 * |ups|))
  {
    hide Check, Changed, UniqueIndex, MaxPosition;
    CheckedListIsTheGroup(t, ordered, denied);
    var s := Group(t, Check(t, ordered, denied).value);
    var ups := Changed(ordered, s);
    CheckedNoDuplicates(t, ordered, denied);
    forall k | 0 <= k < |ordered|
      ensures var i := IndexOf(ups, ordered[k]);
              && (i == -1 <==> s[ordered[k]] == Some(k + 1))
              && (i >= 0 ==> ups[i].position == k + 1)
    {
      MoveOf(ordered, s, k);
    }
    forall id | id in s ensures id in ordered {}
  }

  /** Before its final write a row still has its original revision. */
  lemma UnsettledRevision(t: Table, ws: Id, ups: seq<Write>, base: int, m: nat)
    requires WellFormed(Group(t, ws), ups, base) && m < 2 * |ups|
    ensures var id := PlanWrite(ups, base, m).id;
            id in t && TableAt(t, ws, ups, base, m)[id].revision == t[id].revision
  {
    IndexOfOnce(ups, if m < |ups| then m else m - |ups|);
  }

  ghost predicate EachUnique(snapshots: seq<Table>) {
    forall k | 0 <= k < |snapshots| :: UniqueIndex(snapshots[k])
  }

  class ProjectStore {
    var projects: Table

    constructor (rows: Table)
      ensures projects == rows
    {
      projects := rows;
    }

    /** One `UPDATE projects SET position = ?` on a live row of the workspace, refused by the
        unique index when another live row of the workspace holds the position. */
    method UpdatePosition(ws: Id, w: Write, revision: nat) returns (ok: bool)
      requires UniqueIndex(projects) && w.id in Group(projects, ws)
      modifies this
      ensures UniqueIndex(projects)
      ensures ok <==> old(Free(Group(projects, ws), w))
      ensures ok ==> projects ==
                     old(projects)[w.id := old(projects)[w.id].(position := Some(w.position), revision := revision)]
      ensures !ok ==> projects == old(projects)
    {
      var s := Group(projects, ws);
      ok := forall other | other in s :: other != w.id ==> s[other] != Some(w.position);
      if ok {
        ghost var before := projects;
        projects := projects[w.id := projects[w.id].(position := Some(w.position), revision := revision)];
        forall g ensures Distinct(Group(projects, g)) {
          assert Distinct(Group(before, g));
          assert Group(projects, g) ==
                 if g == ws then Group(before, g)[w.id := Some(w.position)] else Group(before, g);
        }
      }
    }

    /** Write `m` of the plan; parking leaves the revision alone, the final write raises it. */
    method WriteRow(ghost t0: Table, ws: Id, ups: seq<Write>, base: int, m: nat)
      requires WellFormed(Group(t0, ws), ups, base) && m < 2 * |ups|
      requires UniqueIndex(projects) && projects == TableAt(t0, ws, ups, base, m)
      requires Free(StateAt(Group(t0, ws), ups, base, m), PlanWrite(ups, base, m))
      modifies this
      ensures UniqueIndex(projects) && projects == TableAt(t0, ws, ups, base, m + 1)
    {
      TableGroup(t0, ws, ups, base, m);
      TableStep(t0, ws, ups, base, m);
      var w := PlanWrite(ups, base, m);
      UnsettledRevision(t0, ws, ups, base, m);
      var revision := if m < |ups| then projects[w.id].revision else projects[w.id].revision + 1;
      var ok := UpdatePosition(ws, w, revision);
      assert ok;
    }

    /** Both passes. */
    method WriteAll(ws: Id, ups: seq<Write>, base: int) returns (ghost snapshots: seq<Table>)
      requires UniqueIndex(projects)
      requires WellFormed(Group(projects, ws), ups, base) && TargetsClear(Group(projects, ws), ups)
      modifies this
      ensures UniqueIndex(projects) && projects == TableAt(old(projects), ws, ups, base, 2 * |ups|)
      ensures EachUnique(snapshots) && |snapshots| == 2 * |ups|
      ensures ups != [] ==> snapshots[2 * |ups| - 1] == projects
    {
      hide UniqueIndex, TableAt, Group, WellFormed, TargetsClear, StateAt, Free;
      ghost var t0, n := projects, |ups|;
      snapshots := [];
      TableStart(t0, ws, ups, base);
      for i := 0 to |ups|
        invariant UniqueIndex(projects) && projects == TableAt(t0, ws, ups, base, i)
        invariant EachUnique(snapshots) && |snapshots| == i
      {
        ParkingFree(Group(t0, ws), ups, base, i);
        WriteRow(t0, ws, ups, base, i);
        snapshots := snapshots + [projects];
      }
      for j := 0 to |ups|
        invariant UniqueIndex(projects) && projects == TableAt(t0, ws, ups, base, n + j)
        invariant EachUnique(snapshots) && |snapshots| == n + j
        invariant j > 0 ==> snapshots[n + j - 1] == projects
      {
        FinalFree(Group(t0, ws), ups, base, j);
        assert PlanWrite(ups, base, |ups| + j) == ups[j];
        WriteRow(t0, ws, ups, base, |ups| + j);
        snapshots := snapshots + [projects];
      }
    }

    /** The listed projects end at 1, 2, 3, ... in list order, a project that was already in
        place keeps its revision, nothing else changes, and the unique index holds after every
        single UPDATE (`snapshots`); a refused request changes nothing. */
    method ReorderProjects(ordered: seq<Id>, denied: map<Id, nat>)
      returns (r: Result<Id>, ghost snapshots: seq<Table>)
      requires UniqueIndex(projects)
      modifies this
      ensures r == Check(old(projects), ordered, denied)
      ensures r.Err? ==> projects == old(projects) && snapshots == []
      ensures r.Ok? ==> Reordered(old(projects), ordered, projects)
      ensures UniqueIndex(projects) && EachUnique(snapshots)
      ensures if snapshots == [] then projects == old(projects)
              else snapshots[|snapshots| - 1] == projects
    {
      hide Check, Reordered, UniqueIndex, TableAt, Group, WellFormed, TargetsClear;
      r, snapshots := Check(projects, ordered, denied), [];
      if r.Err? { return; }
      var current := Group(projects, r.value);
      ReorderIsClear(projects, ordered, denied);
      PlanReorders(projects, ordered, denied);
      var ups := Changed(ordered, current);
      var base := MaxPosition(current) + |ups| + 1;
      TableStart(projects, r.value, ups, base);
      snapshots := WriteAll(r.value, ups, base);
    }
  }
}
