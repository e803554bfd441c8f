/** The objective operations as they run: single-row UPDATEs, INSERTs and soft deletes on the
    `objectives` table, proved against the functions of `Objectives`. */
module ObjectiveStore {
  import opened Common
  import opened TwoPhase
  import opened Objectives

  function RowAt(row: Objective, slot: Option<int>, raise: nat): Objective {
    row.(position := if slot.Some? then slot.value else row.position, revision := row.revision + raise)
  }

  /** The rows after the first `k` UPDATEs of a two-pass renumbering: positions follow the plan,
      and a row's revision goes up with its final write. */
  ghost function RowsAt(t: Table, m: Id, ups: seq<Write>, base: int, k: nat): Table {
    map o | o in t ::
      if o !in Group(t, m) then t[o] else RowAt(t[o], SlotAt(Group(t, m), ups, base, k, o), Settled(ups, k, o))
  }

  lemma RowsStart(t: Table, m: Id, ups: seq<Write>, base: int)
    ensures RowsAt(t, m, ups, base, 0) == t
  {
  }

  lemma RowsGroup(t: Table, m: Id, ups: seq<Write>, base: int, k: nat)
    ensures Group(RowsAt(t, m, ups, base, k), m) == StateAt(Group(t, m), ups, base, k)
  {
  }

  lemma RowsStep(t: Table, m: Id, ups: seq<Write>, base: int, k: nat)
    requires WellFormed(Group(t, m), ups, base) && k < 2 * |ups|
    ensures var w, now := PlanWrite(ups, base, k), RowsAt(t, m, ups, base, k);
            && w.id in t && w.id in now && now[w.id].revision == t[w.id].revision
            && RowsAt(t, m, ups, base, k + 1) ==
               now[w.id := now[w.id].(position := w.position,
                                      revision := t[w.id].revision + (if k < |ups| then 0 else 1))]
  {
    hide WellFormed, SlotAt, Settled;
    SlotsStep(Group(t, m), ups, base, k);
  }

  lemma GroupSlots(t: Table, m: Id)
    ensures forall o | o in Group(t, m) :: o in t && Group(t, m)[o] == Some(t[o].position)
  {
  }

  /** Writing the moves of a list leaves what `Reposition` computes. */
  lemma RowsEnd(t: Table, m: Id, order: seq<Id>, target: map<Id, int>, base: int)
    requires NoDuplicates(order) && target.Keys == Elements(order)
    requires forall id | id in order :: id in Group(t, m)
    ensures var ups := Moves(order, target, Group(t, m));
            RowsAt(t, m, ups, base, 2 * |ups|) == Reposition(t, target)
  {
    hide Moves, IndexOf, Group;
    var s := Group(t, m);
    var ups := Moves(order, target, s);
    MovesShape(order, target, s);
    GroupSlots(t, m);
    assert forall o :: o in order <==> o in Elements(order);
    forall o | o in t
      ensures RowsAt(t, m, ups, base, 2 * |ups|)[o] == Reposition(t, target)[o]
    {
      if o in s {
        MovesIndex(order, target, s, o);
      }
    }
  }

  /** Parking begins above every position in use and every target, by the number of moves plus one. */
  function ParkingBase(t: Table, m: Id, ups: seq<Write>): (base: int)
    ensures forall o | o in Group(t, m) :: t[o].position < base
    ensures forall i | 0 <= i < |ups| :: ups[i].position < base
  {
    var used := Positions(t, m) + set i | 0 <= i < |ups| :: ups[i].position;
    assert forall o | o in Group(t, m) :: t[o].position in used;
    assert forall i | 0 <= i < |ups| :: ups[i].position in used;
    (if used == {} then 0 else MaxOf(used)) + |ups| + 1
  }

  lemma MovesFit(t: Table, m: Id, order: seq<Id>, target: map<Id, int>)
    requires UniqueIndex(t) && NoDuplicates(order) && target.Keys == Elements(order) && InjectiveOn(order, target)
    requires forall id | id in order :: id in Group(t, m)
    ensures var s := Group(t, m);
            var ups := Moves(order, target, s);
            && WellFormed(s, ups, ParkingBase(t, m, ups))
            && (TargetsClear(s, ups) <==> NoUnlistedOnTarget(order, target, s))
  {
    hide TargetsClear, NoUnlistedOnTarget;
    var s := Group(t, m);
    assert Distinct(s);
    MovesShape(order, target, s);
    MovesClear(order, target, s);
  }

  /** What a transaction does to the rows: commit the result, or report and roll back. */
  ghost predicate Commits(spec: Result<Table>, error: Option<nat>, before: Table, after: Table) {
    match spec
    case Ok(t) => error == None && after == t
    case Err(status) => error == Some(status) && after == before
  }

  lemma FutureRows(t: Table, m: Id, order: seq<Id>)
    requires FutureList(t, m, order)
    ensures var ups := FutureMoves(t, m, order);
            RowsAt(t, m, ups, NextPosition(t, m) + |ups|, 2 * |ups|) ==
            Reposition(t, Numbered(order, LowestOf(t, order)))
  {
    hide RowsAt, Group, Moves, Reposition, LiveIn, NextPosition, LowestOf, Numbered, InjectiveOn, CheckFutures,
         RowAt, SlotAt, Settled;
    FutureTargets(t, m, order);
    RowsEnd(t, m, order, Numbered(order, LowestOf(t, order)), NextPosition(t, m) + |FutureMoves(t, m, order)|);
  }

  lemma ValidIndex(t: Table)
    requires Valid(t)
    ensures UniqueIndex(t)
  {
  }

  lemma FutureWriteFacts(db: Db, m: Id, order: seq<Id>)
    requires Valid(db.objectives) && m in db.missions && FutureList(db.objectives, m, order)
    ensures var t, ups := db.objectives, FutureMoves(db.objectives, m, order);
            var base := NextPosition(t, m) + |ups|;
            && UniqueIndex(t) && WellFormed(Group(t, m), ups, base)
            && ReorderFuture(db, m, order) ==
               if TargetsClear(Group(t, m), ups) then Ok(RowsAt(t, m, ups, base, 2 * |ups|)) else Err(500)
  {
    hide *;
    FutureMovesClear(db.objectives, m, order);
    ReorderFutureOutcome(db, m, order);
    FutureRows(db.objectives, m, order);
    ValidIndex(db.objectives);
  }

  /** Distinct positions make the first future objective unique. */
  lemma FirstIsUnique(t: Table, m: Id, f: Id)
    requires UniqueIndex(t) && f in Futures(t, m)
    requires forall g | g in Futures(t, m) :: t[f].position <= t[g].position
    ensures f == NextFuture(t, m)
  {
    var s := Group(t, m);
    assert Distinct(s);
    assert s[f] == s[NextFuture(t, m)];
  }

  /** The targets of a rotation are distinct and held by no row that stays. */
  lemma RotationFits(t: Table, m: Id, id: Id, d: int, order: seq<Id>)
    requires UniqueIndex(t) && LiveIn(t, m, id) && d < t[id].position
    requires exists o :: LiveIn(t, m, o) && t[o].position == d
    requires Elements(order) == RotationTargets(t, m, id, d).Keys
    ensures var target := RotationTargets(t, m, id, d);
            && (forall o | o in order :: o in target && o in Group(t, m))
            && InjectiveOn(order, target)
            && NoUnlistedOnTarget(order, target, Group(t, m))
  {
    var target, s := RotationTargets(t, m, id, d), Group(t, m);
    assert Distinct(s);
    forall o | o in order ensures o in target { assert o in Elements(order); }
    forall a, b | a in order && b in order && a != b ensures target[a] != target[b] {
      assert s[a] != s[b];
    }
    forall x, o | x in s && x !in order && o in order ensures s[x] != Some(target[o]) {
      assert x !in Elements(order);
      assert s[x] != s[id];
    }
  }

  lemma {:induction false} FailedPrefix(db: Db, m: Id, texts: seq<string>, ids: seq<Id>, k: nat)
    requires |ids| == |texts| && k <= |texts| && InsertAll(db, m, texts[..k], ids[..k]).Err?
    ensures InsertAll(db, m, texts, ids) == InsertAll(db, m, texts[..k], ids[..k])
    decreases |texts|
  {
    var n := |texts| - 1;
    if k == |texts| {
      assert texts[..k] == texts && ids[..k] == ids;
    } else {
      assert texts[..n][..k] == texts[..k] && ids[..n][..k] == ids[..k];
      FailedPrefix(db, m, texts[..n], ids[..n], k);
    }
  }

  class Store {
    var missions: set<Id>
    var objectives: Table

    constructor ()
      ensures missions == {} && objectives == map[]
    {
      missions, objectives := {}, map[];
    }

    ghost function State(): Db
      reads this
    {
      Db(missions, objectives)
    }

    /** One `UPDATE objectives SET position = ?`, refused by the unique index. */
    method UpdatePosition(m: Id, w: Write, revision: nat) returns (ok: bool)
      requires UniqueIndex(objectives) && w.id in Group(objectives, m)
      modifies `objectives
      ensures UniqueIndex(objectives)
      ensures ok <==> old(Free(Group(objectives, m), w))
      ensures objectives ==
              if ok then old(objectives)[w.id := old(objectives)[w.id].(position := w.position, revision := revision)]
              else old(objectives)
    {
      var s := Group(objectives, m);
      ok := forall other | other in s :: other != w.id ==> s[other] != Some(w.position);
      if ok {
        ghost var before := objectives;
        objectives := objectives[w.id := objectives[w.id].(position := w.position, revision := revision)];
        forall g ensures Distinct(Group(objectives, g)) {
          assert Distinct(Group(before, g));
          assert Group(objectives, g) ==
                 if g == m then Group(before, g)[w.id := Some(w.position)] else Group(before, g);
        }
      }
    }

    /** Write `k` of the plan, unless the index refuses it. */
    method WriteRow(ghost t0: Table, m: Id, ups: seq<Write>, base: int, k: nat) returns (ok: bool)
      requires WellFormed(Group(t0, m), ups, base) && k < 2 * |ups|
      requires UniqueIndex(objectives) && objectives == RowsAt(t0, m, ups, base, k)
      modifies `objectives
      ensures UniqueIndex(objectives)
      ensures ok <==> Free(StateAt(Group(t0, m), ups, base, k), PlanWrite(ups, base, k))
      ensures ok ==> objectives == RowsAt(t0, m, ups, base, k + 1)
    {
      RowsGroup(t0, m, ups, base, k);
      RowsStep(t0, m, ups, base, k);
      var w := PlanWrite(ups, base, k);
      var revision := objectives[w.id].revision + (if k < |ups| then 0 else 1);
      ok := UpdatePosition(m, w, revision);
    }

    /** Both passes; the first refused write rolls everything back. */
    method WriteAll(m: Id, ups: seq<Write>, base: int) returns (ok: bool)
      requires UniqueIndex(objectives) && WellFormed(Group(objectives, m), ups, base)
      modifies `objectives
      ensures ok <==> TargetsClear(old(Group(objectives, m)), ups)
      ensures objectives == if ok then RowsAt(old(objectives), m, ups, base, 2 * |ups|) else old(objectives)
    {
      hide UniqueIndex, RowsAt, Group, WellFormed, TargetsClear, StateAt, Free;
      var before, n := objectives, |ups|;
      ghost var s := Group(before, m);
      RowsStart(before, m, ups, base);
      for i := 0 to n
        invariant UniqueIndex(objectives) && objectives == RowsAt(before, m, ups, base, i)
      {
        ParkingFree(s, ups, base, i);
        ok := WriteRow(before, m, ups, base, i);
        assert ok;
      }
      for j := 0 to n
        invariant UniqueIndex(objectives) && objectives == RowsAt(before, m, ups, base, n + j)
        invariant forall i | 0 <= i < j :: Free(StateAt(s, ups, base, n + i), ups[i])
      {
        assert PlanWrite(ups, base, n + j) == ups[j];
        ok := WriteRow(before, m, ups, base, n + j);
        if !ok {
          if TargetsClear(s, ups) { FinalFree(s, ups, base, j); }
          objectives := before;
          return;
        }
      }
      if !TargetsClear(s, ups) { var j := Collision(s, ups, base); }
      ok := true;
    }

    /** `applyObjectivePositionUpdates`: the listed rows take their targets in two passes. */
    method ApplyObjectivePositionUpdates(m: Id, order: seq<Id>, target: map<Id, int>) returns (ok: bool)
      requires UniqueIndex(objectives)
      requires NoDuplicates(order) && target.Keys == Elements(order) && InjectiveOn(order, target)
      requires forall id | id in order :: id in Group(objectives, m)
      modifies `objectives
      ensures ok <==> old(NoUnlistedOnTarget(order, target, Group(objectives, m)))
      ensures objectives == if ok then Reposition(old(objectives), target) else old(objectives)
    {
      hide UniqueIndex, InjectiveOn, RowsAt, Reposition, WellFormed, TargetsClear, NoUnlistedOnTarget, Group, Moves;
      var ups := Moves(order, target, Group(objectives, m));
      var base := ParkingBase(objectives, m, ups);
      MovesFit(objectives, m, order, target);
      RowsEnd(objectives, m, order, target, base);
      ok := WriteAll(m, ups, base);
    }

    /** `insertObjective`. */
    method InsertObjective(m: Id, requested: ObjectiveState, text: string, newId: Id) returns (error: Option<nat>)
      modifies `objectives
      ensures Commits(Insert(old(State()), m, requested, text, newId), error, old(objectives), objectives)
    {
      if m !in missions { return Some(404); }
      var state := if requested == Draft && Drafts(objectives, m) != {} then Future else requested;
      if Trim(text) == "" && !Editable(state) { return Some(400); }
      var position := NextPosition(objectives, m);
      objectives := objectives[newId := Objective(m, position, state, Trim(text), 1, false)];
      error := None;
    }

    method DropDrafts(drafts: set<Id>)
      requires forall d | d in drafts :: d in objectives
      modifies `objectives
      ensures objectives == DeleteRows(old(objectives), drafts)
    {
      var t0, todo := objectives, drafts;
      while todo != {}
        invariant todo <= drafts && objectives == DeleteRows(t0, drafts - todo)
        decreases |todo|
      {
        HasElement(todo);
        var d :| d in todo;
        objectives := objectives[d := objectives[d].(deleted := true, revision := t0[d].revision + 1)];
        todo := todo - {d};
      }
    }

    /** The `ORDER BY position LIMIT 1` query over the future objectives. */
    method FirstFuture(m: Id) returns (next: Id)
      requires UniqueIndex(objectives) && Futures(objectives, m) != {}
      ensures next == NextFuture(objectives, m)
    {
      var futures := Futures(objectives, m);
      NextFutureExists(objectives, m);
      next :| next in futures && forall g | g in futures :: objectives[next].position <= objectives[g].position;
      FirstIsUnique(objectives, m, next);
    }

    /** Drops the (blank) drafts one by one and promotes the first future objective. */
    method PromoteNext(m: Id, drafts: set<Id>)
      requires UniqueIndex(objectives) && drafts == Drafts(objectives, m) && Futures(objectives, m) != {}
      modifies `objectives
      ensures var t, next := old(objectives), NextFuture(old(objectives), m);
              objectives == DeleteRows(t, drafts)[next := t[next].(state := Draft, revision := t[next].revision + 1)]
    {
      hide UniqueIndex;
      var t0 := objectives;
      var next := FirstFuture(m);
      DropDrafts(drafts);
      assert next !in drafts;
      objectives := objectives[next := objectives[next].(state := Draft, revision := t0[next].revision + 1)];
    }

    /** `ensureDraftSlotAfterObjectiveLeavesQueue`. */
    method EnsureDraftSlotAfterLeaving(m: Id, newId: Id) returns (error: Option<nat>)
      requires UniqueIndex(objectives)
      modifies `objectives
      ensures Commits(EnsureDraftSlot(old(State()), m, newId), error, old(objectives), objectives)
    {
      var drafts, futures := Drafts(objectives, m), Futures(objectives, m);
      error := None;
      if exists d | d in drafts :: Trim(objectives[d].instruction) != "" {
        return;
      }
      if futures != {} {
        PromoteNext(m, drafts);
      } else if drafts == {} {
        error := InsertObjective(m, Draft, "", newId);
      }
    }

    /** The other drafts are sent back to the queue one by one. */
    method RequeueDrafts(others: set<Id>)
      requires forall o | o in others :: o in objectives
      modifies `objectives
      ensures objectives == Requeue(old(objectives), others)
    {
      var t0, todo := objectives, others;
      while todo != {}
        invariant todo <= others && objectives == Requeue(t0, others - todo)
        decreases |todo|
      {
        HasElement(todo);
        var d :| d in todo;
        objectives := objectives[d := objectives[d].(state := Future, revision := t0[d].revision + 1)];
        todo := todo - {d};
      }
    }

    /** The part of an update to `draft` that touches other rows: the other drafts go back to the
        queue, then a future objective is rotated into the first of their slots. */
    method Prepare(id: Id, body: Body)
      requires Valid(objectives) && id in objectives && !objectives[id].deleted && body.state == Some(Draft)
      modifies `objectives
      ensures objectives == Prepared(old(objectives), id, body)
    {
      hide Requeue, Reposition, RotationTargets, UniqueIndex, Group;
      var t0, m, others := objectives, objectives[id].missionId, OtherDrafts(objectives, objectives[id].missionId, id);
      DemoteKeepsUnique(t0, m, id) by { assert Valid(t0); }
      RequeueDrafts(others);
      if t0[id].state == Future && others != {} {
        var slot := DraftSlot(t0, m, id);
        if t0[id].position > slot {
          var target := RotationTargets(t0, m, id, slot);
          var order := Enumerate(target.Keys);
          RotationFits(t0, m, id, slot, order) by { assert Valid(t0); }
          var ok := ApplyObjectivePositionUpdates(m, order, target);
          assert ok;
        }
      }
    }

    /** `updateObjectiveTx`. */
    method UpdateObjective(id: Id, body: Body, newId: Id) returns (error: Option<nat>)
      requires Valid(objectives)
      modifies `objectives
      ensures Commits(Update(old(State()), id, body, newId), error, old(objectives), objectives)
    {
      if id !in objectives || objectives[id].deleted { return Some(404); }
      var t0, existing := objectives, objectives[id];
      if BadRequest(existing, body) { return Some(400); }
      if body == Body(None, None, None, false) { return None; }
      if body.state == Some(Draft) {
        Prepare(id, body);
      }
      PreparedFacts(t0, id, body);
      if body.position.Some? && Taken(objectives, existing.missionId, id, body.position.value) {
        objectives := t0;
        return Some(500);
      }
      PatchKeepsValid(t0, id, body);
      objectives := objectives[id := Patched(objectives[id], existing, body)];
      error := None;
      if StartsExecuting(existing, body) {
        error := EnsureDraftSlotAfterLeaving(existing.missionId, newId);
        if error.Some? { objectives := t0; }
      }
    }

    /** `deleteObjective`. */
    method DeleteObjective(id: Id) returns (error: Option<nat>)
      modifies `objectives
      ensures Commits(Delete(old(State()), id), error, old(objectives), objectives)
    {
      if id !in objectives || objectives[id].deleted { return Some(404); }
      objectives := objectives[id := objectives[id].(deleted := true, revision := objectives[id].revision + 1)];
      error := None;
    }

    /** The objective part of `createMissionTx`. */
    method CreateMissionWith(m: Id, title: string, texts: seq<string>, ids: seq<Id>) returns (error: Option<nat>)
      requires |ids| == |texts|
      modifies this
      ensures match CreateMission(old(State()), m, title, texts, ids)
              case Ok(db) => error == None && State() == db
              case Err(status) => error == Some(status) && State() == old(State())
    {
      hide Trim, Insert;
      if Trim(if texts != [] then texts[0] else title) == "" { return Some(400); }
      var missions0, objectives0 := missions, objectives;
      missions := missions + {m};
      error := None;
      for i := 0 to |texts|
        invariant missions == missions0 + {m} && error == None
        invariant InsertAll(Db(missions, objectives0), m, texts[..i], ids[..i]) == Ok(objectives)
      {
        assert texts[..i + 1][..i] == texts[..i] && ids[..i + 1][..i] == ids[..i];
        if Trim(texts[i]) == "" {
          error := Some(400);
        } else {
          error := InsertObjective(m, Draft, texts[i], ids[i]);
        }
        if error.Some? {
          FailedPrefix(Db(missions, objectives0), m, texts, ids, i + 1);
          missions, objectives := missions0, objectives0;
          return;
        }
      }
      assert texts[..|texts|] == texts && ids[..|texts|] == ids;
    }

    method MovesOfFutures(m: Id, order: seq<Id>) returns (ups: seq<Write>)
      requires FutureList(objectives, m, order)
      ensures ups == FutureMoves(objectives, m, order)
    {
      hide Moves, LowestOf, Group;
      FutureTargets(objectives, m, order);
      ups := Moves(order, Numbered(order, LowestOf(objectives, order)), Group(objectives, m));
    }

    /** Its two passes; parking begins above the positions in use alone. */
    method RenumberFutures(m: Id, order: seq<Id>) returns (error: Option<nat>)
      requires Valid(objectives) && m in missions && FutureList(objectives, m, order)
      modifies `objectives
      ensures Commits(ReorderFuture(old(State()), m, order), error, old(objectives), objectives)
    {
      hide Valid, RowsAt, WellFormed, TargetsClear, Group, Moves, ReorderFuture, LiveIn, NextPosition, LowestOf,
           Numbered, UniqueIndex, FutureList, InjectiveOn;
      FutureWriteFacts(State(), m, order);
      var ups := MovesOfFutures(m, order);
      var ok := WriteAll(m, ups, NextPosition(objectives, m) + |ups|);
      error := if ok then None else Some(500);
    }

    /** `reorderFutureObjectives`. */
    method ReorderFutureObjectives(m: Id, order: seq<Id>) returns (error: Option<nat>)
      requires Valid(objectives)
      modifies `objectives
      ensures Commits(ReorderFuture(old(State()), m, order), error, old(objectives), objectives)
    {
      if !NoDuplicates(order) { return Some(400); }
      if m !in missions { return Some(404); }
      var bad := CheckFutures(objectives, m, order);
      if bad.Some? { return bad; }
      CheckedFutures(objectives, m, order);
      if order == [] { return None; }
      assert FutureList(objectives, m, order);
      error := RenumberFutures(m, order);
    }
  }
}
