/** The objective queue of a mission: ordering, the draft slot, and the operations that keep it. */
module Objectives {
  import opened Common
  import opened TwoPhase

  datatype ObjectiveState =
    Future | Draft | Submitted | Launching | Executing | PendingDelivery | Complete

  /** `instruction` is stored trimmed; a soft-deleted row stays in the table. */
  datatype Objective = Objective(
    missionId: Id, position: int, state: ObjectiveState, instruction: string,
    revision: nat, deleted: bool)

  type Table = map<Id, Objective>

  /** The live missions and every objective row. */
  datatype Db = Db(missions: set<Id>, objectives: Table)

  predicate LiveIn(t: Table, m: Id, id: Id) {
    id in t && !t[id].deleted && t[id].missionId == m
  }

  function Group(t: Table, m: Id): Slots {
    map id | id in t && !t[id].deleted && t[id].missionId == m :: Some(t[id].position)
  }

  /** The unique index on (mission, position) over live rows. */
  ghost predicate UniqueIndex(t: Table) {
    forall m :: Distinct(Group(t, m))
  }

  function InState(t: Table, m: Id, state: ObjectiveState): set<Id> {
    set id | id in t && !t[id].deleted && t[id].missionId == m && t[id].state == state
  }

  function Drafts(t: Table, m: Id): set<Id> { InState(t, m, Draft) }

  function Futures(t: Table, m: Id): set<Id> { InState(t, m, Future) }

  ghost predicate AtMostOneDraft(t: Table, m: Id) {
    forall a, b | a in Drafts(t, m) && b in Drafts(t, m) :: a == b
  }

  /** What every operation keeps of the objective rows. */
  ghost predicate Valid(t: Table) {
    UniqueIndex(t) && forall m :: AtMostOneDraft(t, m)
  }

  /** A live objective belongs to a live mission. */
  ghost predicate Attached(db: Db) {
    forall id | id in db.objectives && !db.objectives[id].deleted ::
      db.objectives[id].missionId in db.missions
  }

  function Positions(t: Table, m: Id): set<int> {
    set id | id in t && !t[id].deleted && t[id].missionId == m :: t[id].position
  }

  function NextPosition(t: Table, m: Id): (p: int)
    ensures forall id | LiveIn(t, m, id) :: t[id].position < p
  {
    assert forall id | LiveIn(t, m, id) :: t[id].position in Positions(t, m);
    if Positions(t, m) == {} then 0 else MaxOf(Positions(t, m)) + 1
  }

  predicate Editable(state: ObjectiveState) { state == Draft || state == Future }

  // ---- insert ---------------------------------------------------------------------------

  /** A second draft is queued as `future`; a new row goes last. */
  function Insert(db: Db, m: Id, requested: ObjectiveState, text: string, newId: Id): Result<Table> {
    if m !in db.missions then Err(404)
    else
      var t := db.objectives;
      var state := if requested == Draft && Drafts(t, m) != {} then Future else requested;
      if Trim(text) == "" && !Editable(state) then Err(400)
      else Ok(t[newId := Objective(m, NextPosition(t, m), state, Trim(text), 1, false)])
  }

  lemma InsertKeepsValid(db: Db, m: Id, requested: ObjectiveState, text: string, newId: Id)
    requires Valid(db.objectives) && newId !in db.objectives
    ensures var r := Insert(db, m, requested, text, newId); r.Ok? ==> Valid(r.value)
  {
    var t, r := db.objectives, Insert(db, m, requested, text, newId);
    if r.Ok? {
      forall g ensures Distinct(Group(r.value, g)) && AtMostOneDraft(r.value, g) {
        assert Distinct(Group(t, g)) && AtMostOneDraft(t, g);
        if g != m {
          assert Group(r.value, g) == Group(t, g);
        } else {
          assert Group(r.value, m) == Group(t, m)[newId := Some(NextPosition(t, m))];
          forall id | id in Group(t, m) ensures Group(t, m)[id] != Some(NextPosition(t, m)) {
            assert LiveIn(t, m, id);
          }
        }
        forall id | id in Drafts(r.value, g) && id != newId ensures id in Drafts(t, g) {}
      }
    }
  }

  // ---- the draft slot -------------------------------------------------------------------

  lemma NextFutureExists(t: Table, m: Id)
    requires Futures(t, m) != {}
    ensures exists f :: f in Futures(t, m) && forall g | g in Futures(t, m) :: t[f].position <= t[g].position
  {
    var ps := set g | g in Futures(t, m) :: t[g].position;
    HasElement(Futures(t, m));
    var f0 :| f0 in Futures(t, m);
    assert t[f0].position in ps;
    var least := MinOf(ps);
    var f :| f in Futures(t, m) && t[f].position == least;
    forall g | g in Futures(t, m) ensures t[f].position <= t[g].position {
      assert t[g].position in ps;
    }
  }

  /** The future objective that comes first. */
  ghost function NextFuture(t: Table, m: Id): (f: Id)
    requires Futures(t, m) != {}
    ensures f in Futures(t, m)
    ensures forall g | g in Futures(t, m) :: t[f].position <= t[g].position
  {
    NextFutureExists(t, m);
    var f :| f in Futures(t, m) && forall g | g in Futures(t, m) :: t[f].position <= t[g].position;
    f
  }

  function DeleteRows(t: Table, ids: set<Id>): Table {
    map id | id in t ::
      if id in ids then t[id].(deleted := true, revision := t[id].revision + 1) else t[id]
  }

  /** After an objective leaves the queue: keep a draft that has text; otherwise drop the blank
      drafts and promote the first future objective; with no future objective, make sure one
      (blank) draft exists. */
  ghost function EnsureDraftSlot(db: Db, m: Id, newId: Id): Result<Table> {
    var t := db.objectives;
    if exists d | d in Drafts(t, m) :: Trim(t[d].instruction) != "" then Ok(t)
    else if Futures(t, m) != {} then
      var f := NextFuture(t, m);
      var rest := DeleteRows(t, Drafts(t, m));
      Ok(rest[f := t[f].(state := Draft, revision := t[f].revision + 1)])
    else if Drafts(t, m) == {} then Insert(db, m, Draft, "", newId)
    else Ok(t)
  }

  lemma PromotedFuture(t: Table, m: Id, f: Id)
    requires Valid(t) && f in Futures(t, m)
    ensures var u := DeleteRows(t, Drafts(t, m))[f := t[f].(state := Draft, revision := t[f].revision + 1)];
            Valid(u) && Drafts(u, m) == {f}
  {
    var u := DeleteRows(t, Drafts(t, m))[f := t[f].(state := Draft, revision := t[f].revision + 1)];
    forall g ensures Distinct(Group(u, g)) && AtMostOneDraft(u, g) {
      assert Distinct(Group(t, g)) && AtMostOneDraft(t, g);
      forall id | id in Group(u, g) ensures id in Group(t, g) && Group(u, g)[id] == Group(t, g)[id] {}
      if g != m {
        assert Drafts(u, g) == Drafts(t, g);
      }
    }
  }

  lemma EnsureDraftSlotWorks(db: Db, m: Id, newId: Id)
    requires Valid(db.objectives) && newId !in db.objectives && m in db.missions
    ensures var r := EnsureDraftSlot(db, m, newId);
            && r.Ok? && Valid(r.value)
            && |Drafts(r.value, m)| == 1
  {
    hide Trim, UniqueIndex, NextPosition;
    var t, r := db.objectives, EnsureDraftSlot(db, m, newId);
    assert AtMostOneDraft(t, m);
    if exists d | d in Drafts(t, m) :: Trim(t[d].instruction) != "" {
      var d :| d in Drafts(t, m);
      assert Drafts(t, m) == {d};
    } else if Futures(t, m) != {} {
      PromotedFuture(t, m, NextFuture(t, m));
    } else if Drafts(t, m) == {} {
      InsertKeepsValid(db, m, Draft, "", newId);
      assert Drafts(r.value, m) == {newId};
    } else {
      HasElement(Drafts(t, m));
      var d :| d in Drafts(t, m);
      assert Drafts(t, m) == {d};
    }
  }

  /** What it may lose and choose: only blank drafts of the mission are deleted, so no text is; no
      position or text changes; and a queued objective that becomes the draft is the first in line. */
  lemma EnsureDraftSlotSpares(db: Db, m: Id, newId: Id, o: Id)
    requires Valid(db.objectives) && newId !in db.objectives && m in db.missions && o in db.objectives
    ensures var t, u := db.objectives, EnsureDraftSlot(db, m, newId).value;
            && o in u && u[o].missionId == t[o].missionId
            && u[o].position == t[o].position && u[o].instruction == t[o].instruction
            && (u[o].deleted && !t[o].deleted ==> o in Drafts(t, m) && Trim(t[o].instruction) == "")
            && (u[o].state != t[o].state ==>
                  && o in Futures(t, m) && u[o].state == Draft
                  && forall f | f in Futures(t, m) :: t[o].position <= t[f].position)
  {
    hide Trim, NextPosition;
    EnsureDraftSlotWorks(db, m, newId);
  }

  // ---- renumbering ----------------------------------------------------------------------

  /** Rows whose target differs from their position take it and their revision goes up. */
  function Reposition(t: Table, target: map<Id, int>): Table {
    map o | o in t ::
      if o in target && target[o] != t[o].position
      then t[o].(position := target[o], revision := t[o].revision + 1)
      else t[o]
  }

  lemma RepositionedGroup(t: Table, m: Id, order: seq<Id>, target: map<Id, int>, g: Id)
    requires target.Keys == Elements(order) && forall id | id in order :: id in Group(t, m)
    ensures var u := Reposition(t, target);
            && Drafts(u, g) == Drafts(t, g) && Group(u, g).Keys == Group(t, g).Keys
            && (g != m ==> Group(u, g) == Group(t, g))
            && forall id | id in Group(t, m) ::
                 Group(u, m)[id] == if id in order then Some(target[id]) else Group(t, m)[id]
  {
    assert forall id :: id in order <==> id in Elements(order);
  }

  lemma TargetsApart(s: Slots, u: Slots, order: seq<Id>, target: map<Id, int>)
    requires Distinct(s) && u.Keys == s.Keys && (forall id | id in order :: id in target)
    requires InjectiveOn(order, target) && NoUnlistedOnTarget(order, target, s)
    requires forall id | id in s :: u[id] == if id in order then Some(target[id]) else s[id]
    ensures Distinct(u)
  {
  }

  lemma RepositionKeepsValid(t: Table, m: Id, order: seq<Id>, target: map<Id, int>)
    requires Valid(t) && target.Keys == Elements(order) && InjectiveOn(order, target)
    requires forall id | id in order :: id in Group(t, m)
    requires NoUnlistedOnTarget(order, target, Group(t, m))
    ensures Valid(Reposition(t, target))
  {
    hide Group, Reposition, Drafts, InjectiveOn, NoUnlistedOnTarget;
    var u := Reposition(t, target);
    forall g ensures Distinct(Group(u, g)) && AtMostOneDraft(u, g) {
      assert Distinct(Group(t, g)) && AtMostOneDraft(t, g);
      RepositionedGroup(t, m, order, target, g);
      if g == m {
        TargetsApart(Group(t, m), Group(u, m), order, target);
      }
    }
  }

  /** Repositioning is what the two-pass write of the listed rows leaves. */
  lemma RepositionIsRenumbered(t: Table, m: Id, order: seq<Id>, target: map<Id, int>)
    requires NoDuplicates(order) && target.Keys == Elements(order)
    requires forall id | id in order :: id in Group(t, m)
    ensures Group(Reposition(t, target), m) == Renumbered(Group(t, m), Moves(order, target, Group(t, m)))
  {
    hide Group, Reposition, Moves;
    var s, u := Group(t, m), Group(Reposition(t, target), m);
    var ups := Moves(order, target, s);
    RepositionedGroup(t, m, order, target, m);
    forall id | id in s ensures u[id] == Renumbered(s, ups)[id] {
      MovesRenumber(order, target, s, id);
    }
  }

  /** The first listed id that is not a future objective of the mission, as an error. */
  function CheckFutures(t: Table, m: Id, order: seq<Id>): Option<nat> {
    if order == [] then None
    else if !LiveIn(t, m, order[0]) then Some(404)
    else if t[order[0]].state != Future then Some(400)
    else CheckFutures(t, m, order[1..])
  }

  lemma {:induction false} CheckedFutures(t: Table, m: Id, order: seq<Id>)
    ensures CheckFutures(t, m, order).None? <==>
            forall id | id in order :: LiveIn(t, m, id) && t[id].state == Future
  {
    if order != [] {
      CheckedFutures(t, m, order[1..]);
      assert order == [order[0]] + order[1..];
    }
  }

  function LowestOf(t: Table, order: seq<Id>): (p: int)
    requires order != [] && forall id | id in order :: id in t
    ensures forall id | id in order :: p <= t[id].position
    ensures exists id :: id in order && t[id].position == p
  {
    var ps := set id | id in order :: t[id].position;
    assert forall id | id in order :: t[id].position in ps;
    assert order[0] in order;
    MinOf(ps)
  }

  /** `reorderFutureObjectives`: the listed rows are numbered consecutively from the lowest
      position among them; the unique index refuses this when an unlisted row is in the way. */
  ghost function ReorderFuture(db: Db, m: Id, order: seq<Id>): Result<Table> {
    var t := db.objectives;
    if !NoDuplicates(order) then Err(400)
    else if m !in db.missions then Err(404)
    else if CheckFutures(t, m, order).Some? then Err(CheckFutures(t, m, order).value)
    else if order == [] then Ok(t)
    else
      CheckedFutures(t, m, order);
      var target := Numbered(order, LowestOf(t, order));
      if NoUnlistedOnTarget(order, target, Group(t, m)) then Ok(Reposition(t, target)) else Err(500)
  }

  /** A list that passes the checks. */
  ghost predicate FutureList(t: Table, m: Id, order: seq<Id>) {
    && order != [] && NoDuplicates(order)
    && forall id | id in order :: id in t && LiveIn(t, m, id) && t[id].state == Future && id in Group(t, m)
  }

  lemma FutureTargets(t: Table, m: Id, order: seq<Id>)
    requires FutureList(t, m, order)
    ensures CheckFutures(t, m, order).None?
    ensures var first := LowestOf(t, order);
            var target := Numbered(order, first);
            && target.Keys == Elements(order) && InjectiveOn(order, target)
            && (forall k | 0 <= k < |order| :: order[k] in target && target[order[k]] == first + k)
            && first < NextPosition(t, m)
  {
    var first := LowestOf(t, order);
    CheckedFutures(t, m, order);
    NumberedRange(order, first);
    forall k | 0 <= k < |order|
      ensures order[k] in Numbered(order, first) && Numbered(order, first)[order[k]] == first + k
    {
      NumberedAt(order, first, k);
    }
  }

  ghost predicate RangeFree(t: Table, m: Id, order: seq<Id>, first: int) {
    forall id | LiveIn(t, m, id) && id !in order :: !(first <= t[id].position < first + |order|)
  }

  lemma RangeMeansTargets(t: Table, m: Id, order: seq<Id>, target: map<Id, int>, first: int)
    requires target.Keys == Elements(order)
    requires forall k | 0 <= k < |order| :: order[k] in target && target[order[k]] == first + k
    ensures NoUnlistedOnTarget(order, target, Group(t, m)) <==> RangeFree(t, m, order, first)
  {
    var s := Group(t, m);
    if !RangeFree(t, m, order, first) {
      var id :| LiveIn(t, m, id) && id !in order && first <= t[id].position < first + |order|;
      assert s[id] == Some(target[order[t[id].position - first]]);
    }
    if RangeFree(t, m, order, first) {
      forall id, o | id in s && id !in order && o in order ensures s[id] != Some(target[o]) {
        var k :| 0 <= k < |order| && order[k] == o;
        assert LiveIn(t, m, id);
      }
    }
  }

  /** For a list that passes the checks the outcome depends on the range alone. */
  lemma ReorderFutureOutcome(db: Db, m: Id, order: seq<Id>)
    requires m in db.missions && FutureList(db.objectives, m, order)
    ensures var t, first := db.objectives, LowestOf(db.objectives, order);
            ReorderFuture(db, m, order) ==
            if RangeFree(t, m, order, first) then Ok(Reposition(t, Numbered(order, first))) else Err(500)
  {
    var t, first := db.objectives, LowestOf(db.objectives, order);
    FutureTargets(t, m, order);
    RangeMeansTargets(t, m, order, Numbered(order, first), first);
  }

  lemma RangeFreeReposition(t: Table, m: Id, order: seq<Id>)
    requires Valid(t) && FutureList(t, m, order) && RangeFree(t, m, order, LowestOf(t, order))
    ensures var first := LowestOf(t, order);
            var u := Reposition(t, Numbered(order, first));
            && Valid(u)
            && (forall k | 0 <= k < |order| :: order[k] in t && u[order[k]].position == first + k)
            && (forall id | id in t && id !in order :: u[id] == t[id])
  {
    hide LowestOf, CheckFutures, RangeFree, Valid, Group, Numbered, InjectiveOn, NoUnlistedOnTarget, LiveIn;
    var first := LowestOf(t, order);
    FutureTargets(t, m, order);
    RangeMeansTargets(t, m, order, Numbered(order, first), first);
    RepositionKeepsValid(t, m, order, Numbered(order, first));
  }

  /** The reorder goes through exactly when no unlisted live objective of the mission sits in the
      range the listed ones are numbered into; then the k-th listed objective is at the k-th place
      of that range, nothing else changed, and the result is valid again. */
  lemma ReorderFutureExactly(db: Db, m: Id, order: seq<Id>)
    requires Valid(db.objectives) && m in db.missions && FutureList(db.objectives, m, order)
    ensures var t, first, r := db.objectives, LowestOf(db.objectives, order), ReorderFuture(db, m, order);
            && (r.Ok? <==> RangeFree(t, m, order, first))
            && (r.Ok? ==>
                  && Valid(r.value) && r.value.Keys == t.Keys
                  && (forall k | 0 <= k < |order| :: order[k] in t && r.value[order[k]].position == first + k)
                  && (forall id | id in t && id !in order :: r.value[id] == t[id]))
            && (r.Err? ==> r == Err(500))
  {
    hide Valid, LiveIn, Group, RangeFree, LowestOf, ReorderFuture;
    var t, first := db.objectives, LowestOf(db.objectives, order);
    ReorderFutureOutcome(db, m, order);
    if RangeFree(t, m, order, first) {
      RangeFreeReposition(t, m, order);
    }
  }

  ghost function FutureMoves(t: Table, m: Id, order: seq<Id>): (ups: seq<Write>)
    requires FutureList(t, m, order)
  {
    FutureTargets(t, m, order);
    Moves(order, Numbered(order, LowestOf(t, order)), Group(t, m))
  }

  lemma GroupBelow(t: Table, m: Id)
    requires Valid(t)
    ensures Distinct(Group(t, m))
    ensures forall id | id in Group(t, m) :: Group(t, m)[id].Some? && Group(t, m)[id].value < NextPosition(t, m)
  {
    forall id | id in Group(t, m) ensures t[id].position < NextPosition(t, m) {
      assert LiveIn(t, m, id);
    }
  }

  /** The moves meet the two-pass conditions; their targets are clear exactly when the range is
      free, and the two passes then leave what `Reposition` computes. */
  lemma FutureMovesClear(t: Table, m: Id, order: seq<Id>)
    requires Valid(t) && FutureList(t, m, order)
    ensures var s, ups, first := Group(t, m), FutureMoves(t, m, order), LowestOf(t, order);
            && WellFormed(s, ups, NextPosition(t, m) + |ups|)
            && (TargetsClear(s, ups) <==> RangeFree(t, m, order, first))
            && Group(Reposition(t, Numbered(order, first)), m) == Renumbered(s, ups)
  {
    hide RangeFree, Renumbered, TargetsClear, LowestOf, Reposition, Valid, Group, Distinct, NoUnlistedOnTarget,
         InjectiveOn, LiveIn;
    var first := LowestOf(t, order);
    var target, s, top := Numbered(order, first), Group(t, m), NextPosition(t, m) - 1;
    FutureTargets(t, m, order);
    GroupBelow(t, m);
    MovesShape(order, target, s);
    MovesClear(order, target, s);
    RangeMeansTargets(t, m, order, target, first);
    ParkingAboveTargets(order, target, s, first, top);
    RepositionIsRenumbered(t, m, order, target);
  }

  /** The UPDATEs behind it: parking above every position, then the targets.  They are all
      accepted exactly when the reorder succeeds, and leave its result. */
  lemma ReorderFutureWrites(db: Db, m: Id, order: seq<Id>)
    requires Valid(db.objectives) && m in db.missions && FutureList(db.objectives, m, order)
    ensures var t, r := db.objectives, ReorderFuture(db, m, order);
            var s, ups := Group(t, m), FutureMoves(t, m, order);
            Run(s, Plan(ups, NextPosition(t, m) + |ups|)) == if r.Ok? then Some(Group(r.value, m)) else None
  {
    hide *;
    var t := db.objectives;
    var s, ups := Group(t, m), FutureMoves(t, m, order);
    FutureMovesClear(t, m, order);
    ReorderFutureOutcome(db, m, order);
    TwoPassRenumbering(s, ups, NextPosition(t, m) + |ups|);
  }

  // ---- update ---------------------------------------------------------------------------

  /** A PATCH body; `other` stands for the columns that do not matter here (title, agent, ...). */
  datatype Body = Body(
    state: Option<ObjectiveState>, instruction: Option<string>, position: Option<int>, other: bool)

  predicate Locked(state: ObjectiveState) {
    state == Executing || state == PendingDelivery || state == Complete
  }

  predicate BadRequest(existing: Objective, body: Body) {
    || (body.instruction.Some? && Locked(existing.state))
    || (body.instruction.Some? && Trim(body.instruction.value) == "" &&
        !Editable(if body.state.Some? then body.state.value else existing.state))
    || (existing.state == Complete && body.state == Some(Future))
    || (body.position.Some? && body.position.value < 0)
  }

  function OtherDrafts(t: Table, m: Id, id: Id): set<Id> { Drafts(t, m) - {id} }

  function Requeue(t: Table, ids: set<Id>): Table {
    map o | o in t ::
      if o in ids then t[o].(state := Future, revision := t[o].revision + 1) else t[o]
  }

  /** Every other draft of the mission goes back to the future queue. */
  function Demote(t: Table, m: Id, id: Id): Table { Requeue(t, OtherDrafts(t, m, id)) }

  function DraftSlot(t: Table, m: Id, id: Id): (d: int)
    requires OtherDrafts(t, m, id) != {}
    ensures exists o :: o in OtherDrafts(t, m, id) && t[o].position == d
    ensures forall o | o in OtherDrafts(t, m, id) :: d <= t[o].position
  {
    var ps := set o | o in OtherDrafts(t, m, id) :: t[o].position;
    HasElement(OtherDrafts(t, m, id));
    assert forall o | o in OtherDrafts(t, m, id) :: t[o].position in ps;
    assert ps != {};
    MinOf(ps)
  }

  /** The objective takes slot `d`; those from `d` up to its old place move one down the list. */
  function RotationTargets(t: Table, m: Id, id: Id, d: int): map<Id, int>
    requires id in t
  {
    map o | o in t && !t[o].deleted && t[o].missionId == m && (o == id || d <= t[o].position < t[id].position) ::
      if o == id then d else t[o].position + 1
  }

  /** Whether a PATCH makes a queued objective the draft ahead of the present one. */
  predicate Rotates(t: Table, id: Id, body: Body)
    requires id in t
  {
    && body.state == Some(Draft) && t[id].state == Future
    && OtherDrafts(t, t[id].missionId, id) != {}
    && t[id].position > DraftSlot(t, t[id].missionId, id)
  }

  /** The rows after demotion and rotation, before the objective's own UPDATE. */
  function Prepared(t: Table, id: Id, body: Body): Table
    requires id in t
  {
    var m := t[id].missionId;
    if body.state != Some(Draft) then t
    else if Rotates(t, id, body) then
      Reposition(Demote(t, m, id), RotationTargets(t, m, id, DraftSlot(t, m, id)))
    else Demote(t, m, id)
  }

  function Patched(row: Objective, existing: Objective, body: Body): Objective {
    row.(state := if body.state.Some? then body.state.value else row.state,
         instruction := if body.instruction.Some? then Trim(body.instruction.value) else row.instruction,
         position := if body.position.Some? then body.position.value else row.position,
         revision := existing.revision + 1)
  }

  predicate Taken(t: Table, m: Id, id: Id, position: int) {
    exists o | o in t :: o != id && LiveIn(t, m, o) && t[o].position == position
  }

  /** Leaving the queue for execution. */
  predicate StartsExecuting(existing: Objective, body: Body) {
    && body.state == Some(Executing)
    && existing.state in {Draft, Future, Submitted, Launching}
  }

  /** `updateObjectiveTx`. */
  ghost function Update(db: Db, id: Id, body: Body, newId: Id): Result<Table> {
    var t := db.objectives;
    if id !in t || t[id].deleted then Err(404)
    else if BadRequest(t[id], body) then Err(400)
    else if body == Body(None, None, None, false) then Ok(t)
    else
      var m, ready := t[id].missionId, Prepared(t, id, body);
      if body.position.Some? && Taken(ready, m, id, body.position.value) then Err(500)
      else
        var patched := ready[id := Patched(ready[id], t[id], body)];
        if StartsExecuting(t[id], body) then EnsureDraftSlot(Db(db.missions, patched), m, newId)
        else Ok(patched)
  }

  lemma DemoteKeepsUnique(t: Table, m: Id, id: Id)
    requires UniqueIndex(t)
    ensures UniqueIndex(Demote(t, m, id))
    ensures forall g :: Group(Demote(t, m, id), g) == Group(t, g)
  {
    forall g ensures Group(Demote(t, m, id), g) == Group(t, g) && Distinct(Group(t, g)) {}
  }

  lemma RotatedSlot(t: Table, m: Id, id: Id, d: int, o: Id)
    requires LiveIn(t, m, id) && o in Group(t, m)
    ensures var u := Reposition(t, RotationTargets(t, m, id, d));
            o in Group(u, m) &&
            Group(u, m)[o] == Some(if o == id then d
                                   else if d <= t[o].position < t[id].position then t[o].position + 1
                                   else t[o].position)
  {
  }

  lemma RotationFrame(t: Table, m: Id, id: Id, d: int)
    requires LiveIn(t, m, id)
    ensures var u := Reposition(t, RotationTargets(t, m, id, d));
            && Group(u, m).Keys == Group(t, m).Keys
            && (forall g | g != m :: Group(u, g) == Group(t, g))
            && u.Keys == t.Keys
            && forall o | o in t ::
                 u[o].deleted == t[o].deleted && u[o].missionId == t[o].missionId && u[o].state == t[o].state
  {
    var u := Reposition(t, RotationTargets(t, m, id, d));
    forall g | g != m ensures Group(u, g) == Group(t, g) {}
  }

  /** Positions after the rotation: the objective at `d`, the overtaken rows one further on, all
      others where they were.  They stay distinct. */
  lemma RotationDistinct(t: Table, m: Id, id: Id, d: int)
    requires UniqueIndex(t) && LiveIn(t, m, id) && d < t[id].position
    requires exists o :: LiveIn(t, m, o) && t[o].position == d
    ensures UniqueIndex(Reposition(t, RotationTargets(t, m, id, d)))
  {
    hide Reposition, RotationTargets;
    var u, s := Reposition(t, RotationTargets(t, m, id, d)), Group(t, m);
    RotationFrame(t, m, id, d);
    assert Distinct(s);
    forall a, b | a in s && b in s && a != b ensures Group(u, m)[a] != Group(u, m)[b] {
      RotatedSlot(t, m, id, d, a);
      RotatedSlot(t, m, id, d, b);
      assert s[a] != s[b] && (a != id ==> s[a] != s[id]) && (b != id ==> s[b] != s[id]);
      assert s[a] == Some(t[a].position) && s[b] == Some(t[b].position) && s[id] == Some(t[id].position);
    }
    forall g ensures Distinct(Group(u, g)) {
      assert Distinct(Group(t, g));
    }
  }

  lemma DemotedFacts(t: Table, m: Id, id: Id)
    ensures var u := Demote(t, m, id);
            && u.Keys == t.Keys && Drafts(u, m) <= {id} && (forall g | g != m :: Drafts(u, g) == Drafts(t, g))
            && forall o | o in t ::
                 u[o].deleted == t[o].deleted && u[o].missionId == t[o].missionId && u[o].position == t[o].position
  {
  }

  lemma SlotStaysHeld(t: Table, m: Id, id: Id)
    requires OtherDrafts(t, m, id) != {}
    ensures exists o :: LiveIn(Demote(t, m, id), m, o) && Demote(t, m, id)[o].position == DraftSlot(t, m, id)
  {
    var o: Id :| o in OtherDrafts(t, m, id) && t[o].position == DraftSlot(t, m, id);
    assert LiveIn(Demote(t, m, id), m, o);
  }

  lemma SameDrafts(t: Table, u: Table)
    requires u.Keys == t.Keys && forall o | o in t ::
               u[o].deleted == t[o].deleted && u[o].missionId == t[o].missionId && u[o].state == t[o].state
    ensures forall g :: Drafts(u, g) == Drafts(t, g)
  {
  }

  lemma SameRotation(t: Table, m: Id, id: Id, d: int)
    requires id in t && t[id].missionId == m
    ensures RotationTargets(t, m, id, d) == RotationTargets(Demote(t, m, id), m, id, d)
  {
  }

  lemma PreparedFacts(t: Table, id: Id, body: Body)
    requires Valid(t) && id in t && !t[id].deleted
    ensures var u, m := Prepared(t, id, body), t[id].missionId;
            && UniqueIndex(u) && u.Keys == t.Keys
            && (forall o | o in t :: u[o].deleted == t[o].deleted && u[o].missionId == t[o].missionId)
            && (forall g | g != m :: Drafts(u, g) == Drafts(t, g))
            && (if body.state == Some(Draft) then Drafts(u, m) <= {id} else u == t)
  {
    hide Reposition, RotationTargets, Demote, UniqueIndex, Drafts, Group;
    assert UniqueIndex(t);
    var m := t[id].missionId;
    DemoteKeepsUnique(t, m, id);
    DemotedFacts(t, m, id);
    if Rotates(t, id, body) {
      var d, t1 := DraftSlot(t, m, id), Demote(t, m, id);
      SameRotation(t, m, id, d);
      SlotStaysHeld(t, m, id);
      RotationDistinct(t1, m, id, d);
      RotationFrame(t1, m, id, d);
      SameDrafts(t1, Reposition(t1, RotationTargets(t1, m, id, d)));
    }
  }

  /** The objective's own UPDATE on prepared rows. */
  lemma PatchKeepsValid(t: Table, id: Id, body: Body)
    requires Valid(t) && id in t && !t[id].deleted
    requires body.position.Some? ==> !Taken(Prepared(t, id, body), t[id].missionId, id, body.position.value)
    ensures var ready := Prepared(t, id, body);
            && id in ready
            && Valid(ready[id := Patched(ready[id], t[id], body)])
  {
    hide Prepared;
    var ready, m := Prepared(t, id, body), t[id].missionId;
    PreparedFacts(t, id, body);
    var u := ready[id := Patched(ready[id], t[id], body)];
    forall g ensures Distinct(Group(u, g)) && AtMostOneDraft(u, g) {
      assert Distinct(Group(ready, g)) && AtMostOneDraft(t, g);
      if g != m {
        assert Group(u, g) == Group(ready, g);
        assert Drafts(u, g) == Drafts(ready, g);
      } else {
        forall o | o in Group(u, m) && o != id
          ensures Group(u, m)[o] == Group(ready, m)[o] && Group(u, m)[o] != Group(u, m)[id]
        {
          assert LiveIn(ready, m, o);
          assert Group(ready, m)[o] != Group(ready, m)[id];
        }
        assert Drafts(u, m) <= Drafts(ready, m) + {id};
        assert body.state.Some? && body.state != Some(Draft) ==> id !in Drafts(u, m);
        assert body.state.None? ==> Drafts(u, m) == Drafts(ready, m);
      }
    }
  }

  lemma EnsureKeepsAttached(db: Db, m: Id, newId: Id)
    requires Attached(db)
    ensures var r := EnsureDraftSlot(db, m, newId); r.Ok? ==> Attached(Db(db.missions, r.value))
  {
  }

  lemma UpdateKeepsValid(db: Db, id: Id, body: Body, newId: Id)
    requires Valid(db.objectives) && Attached(db) && newId !in db.objectives
    ensures var r := Update(db, id, body, newId); r.Ok? ==> Valid(r.value) && Attached(Db(db.missions, r.value))
  {
    hide Prepared, EnsureDraftSlot, Valid;
    var t, r := db.objectives, Update(db, id, body, newId);
    if r.Ok? && body != Body(None, None, None, false) {
      var ready := Prepared(t, id, body);
      PreparedFacts(t, id, body) by { assert Valid(t); }
      PatchKeepsValid(t, id, body);
      var patched := ready[id := Patched(ready[id], t[id], body)];
      if StartsExecuting(t[id], body) {
        EnsureDraftSlotWorks(Db(db.missions, patched), t[id].missionId, newId);
        EnsureKeepsAttached(Db(db.missions, patched), t[id].missionId, newId);
      }
    }
  }

  lemma OnlyElement(s: set<Id>, d: Id)
    requires |s| == 1 && d in s
    ensures s == {d}
  {
    assert |s - {d}| == 0;
    assert s == (s - {d}) + {d};
  }

  /** Right after an objective leaves the queue for execution it is the one executing, and its mission
      has exactly one live draft objective, which is another. */
  lemma ExecutingLeavesOneDraft(db: Db, id: Id, body: Body, newId: Id)
    requires Valid(db.objectives) && Attached(db) && newId !in db.objectives
    requires Update(db, id, body, newId).Ok?
    requires StartsExecuting(db.objectives[id], body)
    ensures var u, m := Update(db, id, body, newId).value, db.objectives[id].missionId;
            && LiveIn(u, m, id) && u[id].state == Executing
            && exists d :: Drafts(u, m) == {d} && d != id
  {
    hide Prepared, EnsureDraftSlot, Valid, Trim;
    var t, m := db.objectives, db.objectives[id].missionId;
    var ready := Prepared(t, id, body);
    PreparedFacts(t, id, body);
    PatchKeepsValid(t, id, body);
    var patched := Db(db.missions, ready[id := Patched(ready[id], t[id], body)]);
    EnsureDraftSlotWorks(patched, m, newId);
    EnsureDraftSlotSpares(patched, m, newId, id);
    var drafts := Drafts(EnsureDraftSlot(patched, m, newId).value, m);
    HasElement(drafts);
    var d: Id :| d in drafts;
    OnlyElement(drafts, d);
  }

  const PROMOTE: Body := Body(Some(Draft), None, None, false)

  /** Where a promotion moves one row of the mission. */
  function PromotedPosition(t: Table, id: Id, o: Id): int
    requires id in t && o in t && OtherDrafts(t, t[id].missionId, id) != {}
  {
    var d := DraftSlot(t, t[id].missionId, id);
    if o == id then d
    else if d <= t[o].position < t[id].position then t[o].position + 1
    else t[o].position
  }

  lemma OneOtherDraft(t: Table, m: Id, id: Id, o: Id)
    requires AtMostOneDraft(t, m) && OtherDrafts(t, m, id) != {}
    ensures o in OtherDrafts(t, m, id) ==> t[o].position == DraftSlot(t, m, id)
  {
  }

  lemma PromotionRow(t: Table, id: Id, o: Id)
    requires Valid(t) && id in t && !t[id].deleted && Rotates(t, id, PROMOTE) && o in t
    ensures var m, row := t[id].missionId, Prepared(t, id, PROMOTE)[o];
            && (LiveIn(t, m, o) ==> row.position == PromotedPosition(t, id, o))
            && (!LiveIn(t, m, o) ==> row == t[o])
            && (LiveIn(t, m, o) && !(DraftSlot(t, m, id) <= t[o].position <= t[id].position) ==> row == t[o])
            && (o == id ==> row == t[o].(position := row.position, revision := row.revision))
  {
    OneOtherDraft(t, t[id].missionId, id, o);
  }

  /** Making a future objective at position p the draft while the lowest other draft is at
      d < p: it ends at d as the draft, that old draft directly after it at d + 1, the rows between
      one place further on; every other row, of the mission outside [d, p] or not live in it, is
      untouched. */
  lemma PromotionEffect(db: Db, id: Id, newId: Id)
    requires Valid(db.objectives) && id in db.objectives && !db.objectives[id].deleted
    requires Rotates(db.objectives, id, PROMOTE)
    ensures var t, m := db.objectives, db.objectives[id].missionId;
            var d, r := DraftSlot(t, m, id), Update(db, id, PROMOTE, newId);
            && r.Ok? && Valid(r.value) && r.value.Keys == t.Keys
            && r.value[id] == t[id].(state := Draft, position := d, revision := t[id].revision + 1)
            && (forall o | LiveIn(t, m, o) :: r.value[o].position == PromotedPosition(t, id, o))
            && (forall o | o in t && !LiveIn(t, m, o) :: r.value[o] == t[o])
            && (forall o | LiveIn(t, m, o) && !(d <= t[o].position <= t[id].position) :: r.value[o] == t[o])
  {
    hide Prepared, Valid, DraftSlot;
    var t := db.objectives;
    PatchKeepsValid(t, id, PROMOTE);
    PreparedFacts(t, id, PROMOTE);
    forall o | o in t
      ensures var m, row := t[id].missionId, Prepared(t, id, PROMOTE)[o];
              && (LiveIn(t, m, o) ==> row.position == PromotedPosition(t, id, o))
              && (!LiveIn(t, m, o) ==> row == t[o])
              && (LiveIn(t, m, o) && !(DraftSlot(t, m, id) <= t[o].position <= t[id].position) ==> row == t[o])
              && (o == id ==> row == t[o].(position := row.position, revision := row.revision))
    {
      PromotionRow(t, id, o);
    }
  }

  /** A promotion keeps the relative order of all other rows and puts the objective directly
      before the draft it replaces. */
  lemma PromotionKeepsOrder(t: Table, id: Id, a: Id, b: Id)
    requires Valid(t) && id in t && !t[id].deleted && Rotates(t, id, PROMOTE)
    requires LiveIn(t, t[id].missionId, a) && LiveIn(t, t[id].missionId, b) && a != id && b != id
    ensures PromotedPosition(t, id, a) < PromotedPosition(t, id, b) <==> t[a].position < t[b].position
    ensures t[a].position == DraftSlot(t, t[id].missionId, id) ==>
              PromotedPosition(t, id, a) == PromotedPosition(t, id, id) + 1
  {
    var s := Group(t, t[id].missionId);
    assert Distinct(s);
    assert s[a] != s[id] && s[b] != s[id];
  }

  // ---- other operations -----------------------------------------------------------------

  function Delete(db: Db, id: Id): Result<Table> {
    if id !in db.objectives || db.objectives[id].deleted then Err(404)
    else Ok(DeleteRows(db.objectives, {id}))
  }

  /** The objectives of a new mission: each is requested as a draft, so the first becomes the
      draft and the others queue behind it. */
  function InsertAll(db: Db, m: Id, texts: seq<string>, ids: seq<Id>): Result<Table>
    requires |ids| == |texts|
  {
    if texts == [] then Ok(db.objectives)
    else
      var n := |texts| - 1;
      var before := InsertAll(db, m, texts[..n], ids[..n]);
      if before.Err? then before
      else if Trim(texts[n]) == "" then Err(400)
      else Insert(Db(db.missions, before.value), m, Draft, texts[n], ids[n])
  }

  /** `createMissionTx`, its objective part: without objectives a title must describe the work. */
  function CreateMission(db: Db, m: Id, title: string, texts: seq<string>, ids: seq<Id>): Result<Db>
    requires |ids| == |texts|
  {
    if Trim(if texts != [] then texts[0] else title) == "" then Err(400)
    else
      var missions := db.missions + {m};
      var r := InsertAll(Db(missions, db.objectives), m, texts, ids);
      if r.Err? then Err(r.status) else Ok(Db(missions, r.value))
  }

  function DeleteMission(db: Db, m: Id): Result<Db> {
    if m !in db.missions then Err(404)
    else
      var owned := set id | id in db.objectives && !db.objectives[id].deleted && db.objectives[id].missionId == m;
      Ok(Db(db.missions - {m}, DeleteRows(db.objectives, owned)))
  }

  lemma DeleteKeepsValid(t: Table, ids: set<Id>)
    requires Valid(t)
    ensures Valid(DeleteRows(t, ids))
  {
    var u := DeleteRows(t, ids);
    forall g ensures Distinct(Group(u, g)) && AtMostOneDraft(u, g) {
      assert Distinct(Group(t, g)) && AtMostOneDraft(t, g);
      assert forall o | o in Group(u, g) :: o in Group(t, g) && Group(u, g)[o] == Group(t, g)[o];
      assert Drafts(u, g) <= Drafts(t, g);
    }
  }

  lemma InsertedKeys(db: Db, m: Id, requested: ObjectiveState, text: string, newId: Id)
    ensures var r := Insert(db, m, requested, text, newId); r.Ok? ==> r.value.Keys == db.objectives.Keys + {newId}
  {
  }

  lemma LastElement(ids: seq<Id>)
    requires NoDuplicates(ids)
    ensures ids == [] ==> Elements(ids) == {}
    ensures ids != [] ==>
              var n := |ids| - 1;
              && NoDuplicates(ids[..n]) && ids[n] !in Elements(ids[..n])
              && Elements(ids) == Elements(ids[..n]) + {ids[n]}
  {
    if ids != [] {
      assert ids == ids[..|ids| - 1] + [ids[|ids| - 1]];
    }
  }

  lemma InsertAttached(db: Db, m: Id, requested: ObjectiveState, text: string, newId: Id)
    requires Attached(db)
    ensures var r := Insert(db, m, requested, text, newId); r.Ok? ==> Attached(Db(db.missions, r.value))
  {
  }

  lemma {:induction false} InsertAllKeepsValid(db: Db, m: Id, texts: seq<string>, ids: seq<Id>)
    requires |ids| == |texts| && NoDuplicates(ids) && (forall id | id in ids :: id !in db.objectives)
    requires Valid(db.objectives) && Attached(db) && m in db.missions
    ensures var r := InsertAll(db, m, texts, ids);
            r.Ok? ==>
              && Valid(r.value) && Attached(Db(db.missions, r.value))
              && r.value.Keys == db.objectives.Keys + Elements(ids)
  {
    hide Valid, Attached, Insert, Trim, Elements, NoDuplicates;
    LastElement(ids);
    if texts != [] {
      var n := |texts| - 1;
      InsertAllKeepsValid(db, m, texts[..n], ids[..n]);
      var before := InsertAll(db, m, texts[..n], ids[..n]);
      if before.Ok? {
        InsertKeepsValid(Db(db.missions, before.value), m, Draft, texts[n], ids[n]);
        InsertAttached(Db(db.missions, before.value), m, Draft, texts[n], ids[n]);
        InsertedKeys(Db(db.missions, before.value), m, Draft, texts[n], ids[n]);
      }
    }
  }

  // ---- runs -----------------------------------------------------------------------------

  datatype Op =
    | OpCreateMission(m: Id, title: string, texts: seq<string>, ids: seq<Id>)
    | OpDeleteMission(m: Id)
    | OpCreateObjective(m: Id, state: ObjectiveState, text: string, newId: Id)
    | OpUpdateObjective(id: Id, body: Body, newId: Id)
    | OpDeleteObjective(id: Id)
    | OpReorderFuture(m: Id, order: seq<Id>)

  /** New row identifiers are unused, and there is one per new row. */
  ghost predicate FreshIds(db: Db, op: Op) {
    match op
    case OpCreateMission(m, _, texts, ids) =>
      m !in db.missions && |ids| == |texts| && NoDuplicates(ids) && forall id | id in ids :: id !in db.objectives
    case OpCreateObjective(_, _, _, newId) => newId !in db.objectives
    case OpUpdateObjective(_, _, newId) => newId !in db.objectives
    case _ => true
  }

  function WithRows(db: Db, r: Result<Table>): Result<Db> {
    if r.Err? then Err(r.status) else Ok(Db(db.missions, r.value))
  }

  ghost function Attempt(db: Db, op: Op): Result<Db>
    requires FreshIds(db, op)
  {
    match op
    case OpCreateMission(m, title, texts, ids) => CreateMission(db, m, title, texts, ids)
    case OpDeleteMission(m) => DeleteMission(db, m)
    case OpCreateObjective(m, state, text, newId) => WithRows(db, Insert(db, m, state, text, newId))
    case OpUpdateObjective(id, body, newId) => WithRows(db, Update(db, id, body, newId))
    case OpDeleteObjective(id) => WithRows(db, Delete(db, id))
    case OpReorderFuture(m, order) => WithRows(db, ReorderFuture(db, m, order))
  }

  /** A failed operation is rolled back. */
  ghost function Step(db: Db, op: Op): Db
    requires FreshIds(db, op)
  {
    var r := Attempt(db, op);
    if r.Ok? then r.value else db
  }

  ghost predicate RunFresh(db: Db, ops: seq<Op>)
    decreases |ops|
  {
    ops != [] ==> FreshIds(db, ops[0]) && RunFresh(Step(db, ops[0]), ops[1..])
  }

  ghost function RunOps(db: Db, ops: seq<Op>): Db
    requires RunFresh(db, ops)
    decreases |ops|
  {
    if ops == [] then db else RunOps(Step(db, ops[0]), ops[1..])
  }

  lemma ReorderKeepsValid(db: Db, m: Id, order: seq<Id>)
    requires Valid(db.objectives) && Attached(db)
    ensures var r := ReorderFuture(db, m, order); r.Ok? ==> Valid(r.value) && Attached(Db(db.missions, r.value))
  {
    if ReorderFuture(db, m, order).Ok? && order != [] {
      CheckedFutures(db.objectives, m, order);
      assert FutureList(db.objectives, m, order);
      ReorderFutureExactly(db, m, order);
    }
  }

  lemma DeleteMissionKeeps(db: Db, m: Id)
    requires Valid(db.objectives) && Attached(db)
    ensures var r := DeleteMission(db, m); r.Ok? ==> Valid(r.value.objectives) && Attached(r.value)
  {
    hide Valid;
    var owned := set id | id in db.objectives && !db.objectives[id].deleted && db.objectives[id].missionId == m;
    DeleteKeepsValid(db.objectives, owned);
  }

  lemma StepKeepsValid(db: Db, op: Op)
    requires Valid(db.objectives) && Attached(db) && FreshIds(db, op)
    ensures Valid(Step(db, op).objectives) && Attached(Step(db, op))
  {
    hide Valid, Update, ReorderFuture, Insert, InsertAll;
    match op
    case OpCreateMission(m, title, texts, ids) =>
      InsertAllKeepsValid(Db(db.missions + {m}, db.objectives), m, texts, ids);
    case OpDeleteMission(m) =>
      DeleteMissionKeeps(db, m);
    case OpCreateObjective(m, state, text, newId) =>
      InsertKeepsValid(db, m, state, text, newId);
      InsertAttached(db, m, state, text, newId);
    case OpUpdateObjective(id, body, newId) =>
      UpdateKeepsValid(db, id, body, newId);
    case OpDeleteObjective(id) =>
      DeleteKeepsValid(db.objectives, {id});
    case OpReorderFuture(m, order) =>
      ReorderKeepsValid(db, m, order);
  }

  /** Over any run of the operations every mission keeps at most one live draft objective and pairwise
      distinct live positions. */
  lemma {:induction false} EveryRunValid(db: Db, ops: seq<Op>)
    requires Valid(db.objectives) && Attached(db) && RunFresh(db, ops)
    ensures Valid(RunOps(db, ops).objectives) && Attached(RunOps(db, ops))
    decreases |ops|
  {
    hide Valid, Attached, FreshIds, Step;
    if ops != [] {
      StepKeepsValid(db, ops[0]);
      EveryRunValid(Step(db, ops[0]), ops[1..]);
    }
  }

  lemma EmptyStoreValid()
    ensures Valid(map[]) && Attached(Db({}, map[]))
  {
  }

  lemma TwoLiveRows(db: Db, a: Id, b: Id)
    requires Valid(db.objectives) && Attached(db) && a in db.objectives && b in db.objectives && a != b
    requires var t := db.objectives; !t[a].deleted && !t[b].deleted && t[a].missionId == t[b].missionId
    ensures var t := db.objectives;
            && t[a].position != t[b].position && !(t[a].state == Draft && t[b].state == Draft)
            && t[a].missionId in db.missions
  {
    var t, m := db.objectives, db.objectives[a].missionId;
    assert Distinct(Group(t, m)) && AtMostOneDraft(t, m);
    assert Group(t, m)[a] == Some(t[a].position) && Group(t, m)[b] == Some(t[b].position);
    assert t[a].state == Draft ==> a in Drafts(t, m);
    assert t[b].state == Draft ==> b in Drafts(t, m);
  }

  /** So whatever is done to an empty store: two live objectives of one mission have different positions
      and are not both its draft, and their mission is live. */
  lemma EveryRunFromEmpty(ops: seq<Op>, a: Id, b: Id)
    requires RunFresh(Db({}, map[]), ops)
    ensures var db := RunOps(Db({}, map[]), ops);
            var t := db.objectives;
            a in t && b in t && a != b && !t[a].deleted && !t[b].deleted && t[a].missionId == t[b].missionId ==>
              && t[a].position != t[b].position && !(t[a].state == Draft && t[b].state == Draft)
              && t[a].missionId in db.missions
  {
    hide RunOps, RunFresh, Valid, Attached;
    EmptyStoreValid();
    EveryRunValid(Db({}, map[]), ops);
    var db := RunOps(Db({}, map[]), ops);
    var t := db.objectives;
    if a in t && b in t && a != b && !t[a].deleted && !t[b].deleted && t[a].missionId == t[b].missionId {
      TwoLiveRows(db, a, b);
    }
  }
}
