/** What each request does to the objective rows, row by row, in terms of the rows it found. */
module ObjectiveEffects {
  import opened Common
  import opened TwoPhase
  import opened Objectives

  // ---- the draft slot -------------------------------------------------------------------

  ghost predicate AllBlank(t: Table, ids: set<Id>) {
    forall d | d in ids && d in t :: Trim(t[d].instruction) == ""
  }

  /** In front of the other objectives in `queue`. */
  ghost predicate FirstOf(t: Table, queue: set<Id>, o: Id) {
    o in t && o in queue && forall f | f in queue && f in t :: t[o].position <= t[f].position
  }

  lemma OnlyFirst(t: Table, m: Id, o: Id)
    requires Valid(t) && FirstOf(t, Futures(t, m), o)
    ensures o == NextFuture(t, m)
  {
    var f, s := NextFuture(t, m), Group(t, m);
    assert Distinct(s);
    assert s[o] == Some(t[o].position) && s[f] == Some(t[f].position);
  }

  lemma PromotedRow(t: Table, m: Id, f: Id, o: Id)
    requires f in Futures(t, m) && o in t
    ensures var u := DeleteRows(t, Drafts(t, m))[f := t[f].(state := Draft, revision := t[f].revision + 1)];
            && u.Keys == t.Keys
            && u[o] == t[o].(deleted := t[o].deleted || o in Drafts(t, m),
                             state := if o == f then Draft else t[o].state,
                             revision := t[o].revision + (if o in Drafts(t, m) || o == f then 1 else 0))
  {
  }

  lemma BlankStaysBlank()
    ensures Trim("") == ""
  {
  }

  /** The draft slot row by row.  When every draft is blank, the first objective in the queue becomes
      the draft and the blank ones are deleted; a blank draft is added at the end only when there is
      neither a draft nor a queue.  Nothing else changes. */
  lemma DraftSlotExactly(db: Db, m: Id, newId: Id, o: Id)
    requires Valid(db.objectives) && newId !in db.objectives && m in db.missions && o in db.objectives
    ensures var t, u := db.objectives, EnsureDraftSlot(db, m, newId).value;
            var blank, queue := AllBlank(t, Drafts(t, m)), Futures(t, m);
            var drops, promotes := blank && queue != {} && o in Drafts(t, m), blank && FirstOf(t, queue, o);
            && u.Keys == t.Keys + (if Drafts(t, m) == {} && queue == {} then {newId} else {})
            && u[o] == t[o].(deleted := t[o].deleted || drops,
                             state := if promotes then Draft else t[o].state,
                             revision := t[o].revision + (if drops || promotes then 1 else 0))
            && (newId in u ==> u[newId] == Objective(m, NextPosition(t, m), Draft, "", 1, false))
  {
    hide Valid, UniqueIndex, NextPosition;
    var t, queue := db.objectives, Futures(db.objectives, m);
    if AllBlank(t, Drafts(t, m)) && queue != {} {
      PromotedRow(t, m, NextFuture(t, m), o);
      if FirstOf(t, queue, o) { OnlyFirst(t, m, o); }
    } else if AllBlank(t, Drafts(t, m)) {
      BlankStaysBlank();
      assert !FirstOf(t, queue, o);
    }
  }

  // ---- update ---------------------------------------------------------------------------

  /** Where an objective of the mission ends up before the position of the request itself is written. */
  function PlaceAfter(t: Table, id: Id, body: Body, o: Id): int
    requires id in t && o in t
  {
    if Rotates(t, id, body) && LiveIn(t, t[id].missionId, o) then PromotedPosition(t, id, o) else t[o].position
  }

  lemma PreparedRow(t: Table, id: Id, body: Body, o: Id)
    requires Valid(t) && id in t && !t[id].deleted && o in t
    ensures var demoted := body.state == Some(Draft) && o in OtherDrafts(t, t[id].missionId, id);
            var moved := PlaceAfter(t, id, body, o) != t[o].position;
            && o in Prepared(t, id, body)
            && Prepared(t, id, body)[o] ==
               t[o].(state := if demoted then Future else t[o].state, position := PlaceAfter(t, id, body, o),
                     revision := t[o].revision + (if demoted then 1 else 0) + (if moved then 1 else 0))
  {
    if OtherDrafts(t, t[id].missionId, id) != {} {
      OneOtherDraft(t, t[id].missionId, id, o);
    }
  }

  /** The rows between the objective's own UPDATE and the draft slot. */
  lemma PatchedRow(t: Table, id: Id, body: Body, o: Id)
    requires Valid(t) && id in t && !t[id].deleted && o in t
    ensures var ready := Prepared(t, id, body);
            id in ready && o in ready &&
            var u := ready[id := Patched(ready[id], t[id], body)];
            var demoted := body.state == Some(Draft) && o in OtherDrafts(t, t[id].missionId, id);
            var place := PlaceAfter(t, id, body, o);
            && (o == id ==>
                  u[o] == t[id].(
                    state := if body.state.Some? then body.state.value else t[id].state,
                    instruction := if body.instruction.Some? then Trim(body.instruction.value) else t[id].instruction,
                    position := if body.position.Some? then body.position.value else place,
                    revision := t[id].revision + 1))
            && (o != id ==>
                  u[o] == t[o].(state := if demoted then Future else t[o].state, position := place,
                                revision := t[o].revision + (if demoted then 1 else 0)
                                            + (if place != t[o].position then 1 else 0)))
  {
    hide Prepared, Valid, PlaceAfter, Trim;
    PreparedRow(t, id, body, o);
    PreparedRow(t, id, body, id);
  }

  /** Nothing is prepared unless a draft is asked for. */
  lemma PreparedKeys(t: Table, id: Id, body: Body)
    requires id in t
    ensures Prepared(t, id, body).Keys == t.Keys
    ensures body.state != Some(Draft) ==> Prepared(t, id, body) == t && !Rotates(t, id, body)
  {
  }

  /** The queue and the drafts that the draft slot looks at when `id` starts executing. */
  lemma LeftBehind(t: Table, id: Id, row: Objective)
    requires id in t && !t[id].deleted && row.state == Executing && row.missionId == t[id].missionId && !row.deleted
    ensures var m, u := t[id].missionId, t[id := row];
            && Drafts(u, m) == OtherDrafts(t, m, id) && Futures(u, m) == Futures(t, m) - {id}
            && (AllBlank(u, Drafts(u, m)) <==> AllBlank(t, OtherDrafts(t, m, id)))
            && (forall o :: FirstOf(u, Futures(u, m), o) <==> FirstOf(t, Futures(t, m) - {id}, o))
  {
    hide Trim;
  }

  const NOTHING: Body := Body(None, None, None, false)

  ghost predicate Started(db: Db, newId: Id) {
    Valid(db.objectives) && Attached(db) && newId !in db.objectives
  }

  lemma PlaceOfItself(t: Table, id: Id, body: Body)
    requires id in t && !t[id].deleted
    ensures PlaceAfter(t, id, body, id) ==
            if Rotates(t, id, body) then DraftSlot(t, t[id].missionId, id) else t[id].position
  {
  }

  /** The rows of an update that starts an execution, the objective's own among them. */
  lemma ExecutingRows(db: Db, id: Id, body: Body, newId: Id, o: Id)
    requires Started(db, newId) && Update(db, id, body, newId).Ok?
    requires StartsExecuting(db.objectives[id], body) && o in db.objectives
    ensures var t, u, m := db.objectives, Update(db, id, body, newId).value, db.objectives[id].missionId;
            var row := Patched(t[id], t[id], body);
            var drafts, queue := OtherDrafts(t, m, id), Futures(t, m) - {id};
            var blank := AllBlank(t, drafts);
            var drops, promotes := blank && queue != {} && o in drafts, blank && FirstOf(t, queue, o);
            && u.Keys == t.Keys + (if drafts == {} && queue == {} then {newId} else {})
            && (o == id ==> u[o] == row)
            && (o != id ==>
                  u[o] == t[o].(deleted := t[o].deleted || drops, state := if promotes then Draft else t[o].state,
                                revision := t[o].revision + (if drops || promotes then 1 else 0)))
            && (newId in u ==> u[newId] == Objective(m, NextPosition(t[id := row], m), Draft, "", 1, false))
  {
    hide Valid, UniqueIndex, Trim, Prepared, EnsureDraftSlot, AllBlank, NextPosition, Drafts, Futures;
    var t, m := db.objectives, db.objectives[id].missionId;
    PreparedKeys(t, id, body);
    PatchKeepsValid(t, id, body);
    var row := Patched(t[id], t[id], body);
    LeftBehind(t, id, row);
    DraftSlotExactly(Db(db.missions, t[id := row]), m, newId, o);
    assert id !in OtherDrafts(t, m, id);
  }

  /** The objective itself after an accepted update: the state and the position asked for, the text asked
      for without surrounding space, and what the request does not mention as it was, but for the
      place it is rotated to. */
  lemma UpdateExactly(db: Db, id: Id, body: Body, newId: Id)
    requires Started(db, newId) && body != NOTHING && Update(db, id, body, newId).Ok?
    ensures var t, u := db.objectives, Update(db, id, body, newId).value;
            && id in t && id in u
            && u[id] == t[id].(
                 state := if body.state.Some? then body.state.value else t[id].state,
                 instruction := if body.instruction.Some? then Trim(body.instruction.value) else t[id].instruction,
                 position := if body.position.Some? then body.position.value
                             else if Rotates(t, id, body) then DraftSlot(t, t[id].missionId, id)
                             else t[id].position,
                 revision := t[id].revision + 1)
  {
    hide Valid, Attached, Trim, Prepared, EnsureDraftSlot, Rotates, PlaceAfter;
    var t, u := db.objectives, Update(db, id, body, newId).value;
    PlaceOfItself(t, id, body);
    PatchedRow(t, id, body, id);
    PreparedKeys(t, id, body);
    if StartsExecuting(t[id], body) {
      ExecutingRows(db, id, body, newId, id);
    }
  }

  /** Every other row, when the update starts no execution. */
  lemma UpdateSpares(db: Db, id: Id, body: Body, newId: Id, o: Id)
    requires Started(db, newId) && body != NOTHING && Update(db, id, body, newId).Ok?
    requires !StartsExecuting(db.objectives[id], body) && o in db.objectives && o != id
    ensures var t, u := db.objectives, Update(db, id, body, newId).value;
            var demoted := body.state == Some(Draft) && o in OtherDrafts(t, t[id].missionId, id);
            var overtaken := && Rotates(t, id, body) && LiveIn(t, t[id].missionId, o)
                             && DraftSlot(t, t[id].missionId, id) <= t[o].position < t[id].position;
            && u.Keys == t.Keys
            && u[o] == t[o].(
                 state := if demoted then Future else t[o].state,
                 position := t[o].position + (if overtaken then 1 else 0),
                 revision := t[o].revision + (if demoted then 1 else 0) + (if overtaken then 1 else 0))
  {
    hide Valid, Attached, Trim, Prepared, EnsureDraftSlot;
    PatchedRow(db.objectives, id, body, o);
    PreparedKeys(db.objectives, id, body);
  }

  lemma UpdatesLive(db: Db, id: Id, body: Body, newId: Id)
    requires Update(db, id, body, newId).Ok?
    ensures id in db.objectives && !db.objectives[id].deleted
  {
  }

  /** Every other row, when the update starts an execution.  With text in another draft of the mission
      nothing changes; otherwise the first queued objective becomes the draft and the blank drafts are
      deleted; and with nothing queued and no other draft, a blank draft is added at the end. */
  lemma ExecutingSpares(db: Db, id: Id, body: Body, newId: Id, o: Id)
    requires Started(db, newId) && Update(db, id, body, newId).Ok?
    requires StartsExecuting(db.objectives[id], body) && o in db.objectives && o != id
    ensures var t, u, m := db.objectives, Update(db, id, body, newId).value, db.objectives[id].missionId;
            var drafts, queue := OtherDrafts(t, m, id), Futures(t, m) - {id};
            var blank := AllBlank(t, drafts);
            var drops, promotes := blank && queue != {} && o in drafts, blank && FirstOf(t, queue, o);
            && u.Keys == t.Keys + (if drafts == {} && queue == {} then {newId} else {})
            && u[o] == t[o].(deleted := t[o].deleted || drops, state := if promotes then Draft else t[o].state,
                             revision := t[o].revision + (if drops || promotes then 1 else 0))
            && (newId in u ==>
                  && u[newId] == Objective(m, u[newId].position, Draft, "", 1, false)
                  && (LiveIn(t, m, o) ==> u[o].position < u[newId].position)
                  && u[id].position < u[newId].position)
  {
    hide Valid, Attached, Update, AllBlank, FirstOf, Futures, OtherDrafts, Trim;
    UpdatesLive(db, id, body, newId);
    ExecutingRows(db, id, body, newId, o);
    ExecutingRows(db, id, body, newId, id);
    var t, m := db.objectives, db.objectives[id].missionId;
    var w := t[id := Patched(t[id], t[id], body)];
    assert LiveIn(w, m, id) && (LiveIn(t, m, o) ==> LiveIn(w, m, o));
  }

  /** Another live objective of the mission ends up at position p. */
  ghost predicate Blocked(t: Table, id: Id, body: Body, p: int)
    requires id in t
  {
    exists o :: o != id && LiveIn(t, t[id].missionId, o) && PlaceAfter(t, id, body, o) == p
  }

  lemma BlockedMeansTaken(t: Table, id: Id, body: Body, p: int)
    requires Valid(t) && id in t && !t[id].deleted
    ensures Taken(Prepared(t, id, body), t[id].missionId, id, p) <==> Blocked(t, id, body, p)
  {
    hide Valid, Prepared, PlaceAfter;
    var ready, m := Prepared(t, id, body), t[id].missionId;
    PreparedKeys(t, id, body);
    if Taken(ready, m, id, p) {
      var o: Id :| o in ready && o != id && LiveIn(ready, m, o) && ready[o].position == p;
      PreparedRow(t, id, body, o);
      assert LiveIn(t, m, o);
    }
    if Blocked(t, id, body, p) {
      var o: Id :| o != id && LiveIn(t, m, o) && PlaceAfter(t, id, body, o) == p;
      PreparedRow(t, id, body, o);
      assert LiveIn(ready, m, o);
    }
  }

  /** A well-formed update of a live objective fails only for a taken position. */
  lemma UpdateOutcome(db: Db, id: Id, body: Body, newId: Id)
    requires Started(db, newId) && id in db.objectives && !db.objectives[id].deleted
    requires !BadRequest(db.objectives[id], body) && body != NOTHING
    ensures var t, r := db.objectives, Update(db, id, body, newId);
            if body.position.Some? && Blocked(t, id, body, body.position.value) then r == Err(500) else r.Ok?
  {
    hide Valid, UniqueIndex, Prepared, EnsureDraftSlot, Blocked, Taken, BadRequest;
    var t := db.objectives;
    PreparedKeys(t, id, body);
    if body.position.Some? { BlockedMeansTaken(t, id, body, body.position.value); }
    if StartsExecuting(t[id], body) && !(body.position.Some? && Blocked(t, id, body, body.position.value)) {
      PatchKeepsValid(t, id, body);
      EnsureDraftSlotWorks(Db(db.missions, t[id := Patched(t[id], t[id], body)]), t[id].missionId, newId);
    }
  }

  /** What an update answers.  The text of an objective is fixed once its execution has begun and is blank
      only in the queue, a complete objective does not go back to it, and no position is negative or
      taken. */
  lemma UpdateAnswers(db: Db, id: Id, body: Body, newId: Id)
    requires Started(db, newId)
    ensures var t, r := db.objectives, Update(db, id, body, newId);
            var live := id in t && !t[id].deleted;
            var bad := live &&
              (|| (body.instruction.Some? && t[id].state in {Executing, PendingDelivery, Complete})
               || (body.instruction.Some? && Trim(body.instruction.value) == "" &&
                   (if body.state.Some? then body.state.value else t[id].state) !in {Draft, Future})
               || (t[id].state == Complete && body.state == Some(Future))
               || (body.position.Some? && body.position.value < 0));
            var taken := live && body.position.Some? && Blocked(t, id, body, body.position.value);
            && (r == Err(404) <==> !live) && (r == Err(400) <==> bad) && (r == Err(500) <==> !bad && taken)
            && (r.Ok? <==> live && !bad && !taken)
            && (r.Ok? && body == NOTHING ==> r.value == t)
  {
    hide Valid, Attached, Trim, Prepared, EnsureDraftSlot, Blocked, Taken;
    var t := db.objectives;
    if id in t && !t[id].deleted && !BadRequest(t[id], body) && body != NOTHING {
      UpdateOutcome(db, id, body, newId);
    }
  }

  lemma DraftBefore(t: Table, m: Id, id: Id, d: Id)
    requires d != id && LiveIn(t, m, d) && t[d].state == Draft
    ensures OtherDrafts(t, m, id) != {} && DraftSlot(t, m, id) <= t[d].position
  {
    assert d in OtherDrafts(t, m, id);
  }

  /** An objective is rotated forward when it is made the draft from the queue and another draft of its
      mission stands before it; and it leaves the queue for execution from any state before that. */
  lemma WhenRowsFollow(t: Table, id: Id, body: Body)
    requires id in t
    ensures Rotates(t, id, body) <==>
            && body.state == Some(Draft) && t[id].state == Future
            && exists d :: d != id && LiveIn(t, t[id].missionId, d) && t[d].state == Draft
                           && t[d].position < t[id].position
    ensures StartsExecuting(t[id], body) <==>
            body.state == Some(Executing) && t[id].state !in {Executing, PendingDelivery, Complete}
  {
    var m := t[id].missionId;
    if d: Id :| d != id && LiveIn(t, m, d) && t[d].state == Draft && t[d].position < t[id].position {
      DraftBefore(t, m, id, d);
    }
    if OtherDrafts(t, m, id) != {} {
      var d: Id :| d in OtherDrafts(t, m, id) && t[d].position == DraftSlot(t, m, id);
      assert LiveIn(t, m, d);
    }
  }

  // ---- insertion and deletion -----------------------------------------------------------

  /** The position a new objective gets: right after the last live one of its mission, from 0. */
  lemma NextPositionExactly(t: Table, m: Id)
    ensures if forall o :: !LiveIn(t, m, o) then NextPosition(t, m) == 0
            else exists o :: LiveIn(t, m, o) && t[o].position == NextPosition(t, m) - 1
  {
    assert forall o | LiveIn(t, m, o) :: t[o].position in Positions(t, m);
    if Positions(t, m) != {} {
      var o: Id :| o in t && !t[o].deleted && t[o].missionId == m && t[o].position == MaxOf(Positions(t, m));
      assert LiveIn(t, m, o);
    }
  }

  /** An accepted insertion adds one row at the end of the mission: with the text trimmed, in the state
      asked for, but queued when a second draft is asked for; and it is accepted for a live mission
      unless the text is blank outside the queue. */
  lemma InsertExactly(db: Db, m: Id, requested: ObjectiveState, text: string, newId: Id)
    requires newId !in db.objectives
    ensures var t, r := db.objectives, Insert(db, m, requested, text, newId);
            && (r == Err(404) <==> m !in db.missions)
            && (r.Ok? <==> m in db.missions && (Trim(text) != "" || requested in {Draft, Future}))
            && (r.Err? ==> r.status in {404, 400})
            && (r.Ok? ==>
                  && r.value.Keys == t.Keys + {newId} && (forall o | o in t :: r.value[o] == t[o])
                  && r.value[newId] ==
                     Objective(m, r.value[newId].position,
                               if requested == Draft && (exists d :: LiveIn(t, m, d) && t[d].state == Draft)
                               then Future else requested,
                               Trim(text), 1, false)
                  && (forall o | LiveIn(t, m, o) :: t[o].position < r.value[newId].position)
                  && (r.value[newId].position == 0
                      || exists o :: LiveIn(t, m, o) && t[o].position == r.value[newId].position - 1))
  {
    hide Trim, NextPosition;
    var t := db.objectives;
    NextPositionExactly(t, m);
    HasElement(Drafts(t, m));
    if Drafts(t, m) != {} {
      var d: Id :| d in Drafts(t, m);
      assert LiveIn(t, m, d);
    }
    if d: Id :| LiveIn(t, m, d) && t[d].state == Draft {
      assert d in Drafts(t, m);
    }
  }

  /** A deletion marks the one row and gives it a new revision, for a live row only. */
  lemma DeleteExactly(db: Db, id: Id, o: Id)
    ensures var t, r := db.objectives, Delete(db, id);
            && (r.Ok? <==> id in t && !t[id].deleted) && (r.Err? ==> r == Err(404))
            && (r.Ok? ==>
                  && r.value.Keys == t.Keys
                  && r.value[id] == t[id].(deleted := true, revision := t[id].revision + 1)
                  && (o in t && o != id ==> r.value[o] == t[o]))
  {
  }

  /** Deleting a mission marks every live objective of it and no other row. */
  lemma DeleteMissionExactly(db: Db, m: Id, o: Id)
    ensures var t, r := db.objectives, DeleteMission(db, m);
            && (r.Ok? <==> m in db.missions) && (r.Err? ==> r == Err(404))
            && (r.Ok? ==>
                  && r.value.missions == db.missions - {m} && r.value.objectives.Keys == t.Keys
                  && !LiveIn(r.value.objectives, m, o)
                  && (LiveIn(t, m, o) ==>
                        r.value.objectives[o] == t[o].(deleted := true, revision := t[o].revision + 1))
                  && (o in t && !LiveIn(t, m, o) ==> r.value.objectives[o] == t[o]))
  {
  }

  // ---- a new mission --------------------------------------------------------------------

  lemma PrefixOf(texts: seq<string>, ids: seq<Id>)
    requires |ids| == |texts| > 0
    ensures var n := |texts| - 1;
            forall k | 0 <= k < n :: texts[..n][k] == texts[k] && ids[..n][k] == ids[k]
  {
  }

  /** The first k rows of a new mission are in place and there is nothing else in it. */
  ghost predicate QueueOf(t: Table, u: Table, m: Id, texts: seq<string>, ids: seq<Id>)
    requires |ids| == |texts|
  {
    && u.Keys == t.Keys + Elements(ids) && (forall o | o in t :: u[o] == t[o])
    && forall k | 0 <= k < |ids| :: ids[k] in u &&
         u[ids[k]] == Objective(m, k, if k == 0 then Draft else Future, Trim(texts[k]), 1, false)
  }

  lemma OnlyTheQueue(t: Table, u: Table, m: Id, texts: seq<string>, ids: seq<Id>)
    requires |ids| == |texts| && QueueOf(t, u, m, texts, ids) && forall o :: !LiveIn(t, m, o)
    requires forall id | id in ids :: id !in t
    ensures NextPosition(u, m) == |ids| && (Drafts(u, m) == {} <==> ids == [])
  {
    hide Trim, NextPosition;
    NextPositionExactly(u, m);
    forall o | LiveIn(u, m, o) ensures exists k :: 0 <= k < |ids| && ids[k] == o && u[o].position == k {
      assert !LiveIn(t, m, o);
      assert o in Elements(ids);
      var k :| 0 <= k < |ids| && ids[k] == o;
    }
    if ids != [] {
      assert LiveIn(u, m, ids[|ids| - 1]);
      assert ids[0] in Drafts(u, m);
    }
    if Drafts(u, m) != {} {
      HasElement(Drafts(u, m));
      var d: Id :| d in Drafts(u, m);
      assert LiveIn(u, m, d);
    }
  }

  lemma EmptyQueue(t: Table, m: Id)
    ensures QueueOf(t, t, m, [], [])
  {
  }

  lemma LastInserted(db: Db, u: Table, m: Id, texts: seq<string>, ids: seq<Id>)
    requires |ids| == |texts| > 0 && NoDuplicates(ids) && (forall id | id in ids :: id !in db.objectives)
    requires m in db.missions && forall o :: !LiveIn(db.objectives, m, o)
    requires var n := |texts| - 1; QueueOf(db.objectives, u, m, texts[..n], ids[..n]) && Trim(texts[n]) != ""
    ensures var n := |texts| - 1;
            var r := Insert(Db(db.missions, u), m, Draft, texts[n], ids[n]);
            r.Ok? && QueueOf(db.objectives, r.value, m, texts, ids)
  {
    hide Trim, NextPosition, Drafts, LiveIn;
    var n := |texts| - 1;
    LastElement(ids);
    OnlyTheQueue(db.objectives, u, m, texts[..n], ids[..n]);
  }

  lemma {:induction false} InsertedAll(db: Db, m: Id, texts: seq<string>, ids: seq<Id>)
    requires |ids| == |texts| && NoDuplicates(ids) && (forall id | id in ids :: id !in db.objectives)
    requires m in db.missions && forall o :: !LiveIn(db.objectives, m, o)
    ensures var r := InsertAll(db, m, texts, ids);
            && (r.Ok? <==> forall k | 0 <= k < |texts| :: Trim(texts[k]) != "")
            && (r.Ok? ==> QueueOf(db.objectives, r.value, m, texts, ids))
            && (r.Err? ==> r == Err(400))
  {
    hide Trim, NextPosition, Insert, QueueOf, LiveIn, Drafts;
    LastElement(ids);
    if texts == [] {
      EmptyQueue(db.objectives, m);
    } else {
      var n, t := |texts| - 1, db.objectives;
      PrefixOf(texts, ids);
      InsertedAll(db, m, texts[..n], ids[..n]);
      if InsertAll(db, m, texts[..n], ids[..n]).Ok? && Trim(texts[n]) != "" {
        LastInserted(db, InsertAll(db, m, texts[..n], ids[..n]).value, m, texts, ids);
      }
    }
  }

  /** A mission is created exactly when each of its objectives has text, or it has none and its title has;
      the objectives are then its queue in the order given, the first one the draft. */
  lemma CreateMissionExactly(db: Db, m: Id, title: string, texts: seq<string>, ids: seq<Id>)
    requires Attached(db) && m !in db.missions && |ids| == |texts| && NoDuplicates(ids)
    requires forall id | id in ids :: id !in db.objectives
    ensures var r := CreateMission(db, m, title, texts, ids);
            && (r.Ok? <==> (texts == [] ==> Trim(title) != "") && forall k | 0 <= k < |texts| :: Trim(texts[k]) != "")
            && (r.Ok? ==>
                  && r.value.missions == db.missions + {m}
                  && QueueOf(db.objectives, r.value.objectives, m, texts, ids))
            && (r.Err? ==> r == Err(400))
  {
    hide Trim, QueueOf, InsertAll;
    InsertedAll(Db(db.missions + {m}, db.objectives), m, texts, ids);
  }

  // ---- the reorder of the queue ---------------------------------------------------------

  /** Only a list of different queued objectives of a live mission is accepted, and a listed objective
      changes in nothing but its position and, when it moves, its revision. */
  lemma ReorderedRow(db: Db, m: Id, order: seq<Id>, o: Id)
    requires Valid(db.objectives) && ReorderFuture(db, m, order).Ok?
    ensures var t, u := db.objectives, ReorderFuture(db, m, order).value;
            && m in db.missions && NoDuplicates(order)
            && (forall id | id in order :: LiveIn(t, m, id) && t[id].state == Future)
            && u.Keys == t.Keys
            && (o in t ==>
                  u[o] == t[o].(position := u[o].position,
                                revision := t[o].revision + (if u[o].position != t[o].position then 1 else 0)))
  {
    hide NoUnlistedOnTarget, Group, LowestOf, Numbered;
    CheckedFutures(db.objectives, m, order);
  }

  /** A list is refused for its first objective that is not live in the mission, or not queued. */
  lemma {:induction false} RefusedForTheFirst(t: Table, m: Id, order: seq<Id>, k: nat)
    requires k < |order| && forall i | 0 <= i < k :: LiveIn(t, m, order[i]) && t[order[i]].state == Future
    requires !(LiveIn(t, m, order[k]) && t[order[k]].state == Future)
    ensures CheckFutures(t, m, order) == Some(if LiveIn(t, m, order[k]) then 400 else 404)
  {
    if k > 0 {
      assert forall i | 0 <= i < k - 1 :: order[1..][i] == order[i + 1];
      RefusedForTheFirst(t, m, order[1..], k - 1);
    }
  }

  lemma {:induction false} CheckStatuses(t: Table, m: Id, order: seq<Id>)
    ensures CheckFutures(t, m, order) in {None, Some(400), Some(404)}
  {
    if order != [] {
      CheckStatuses(t, m, order[1..]);
    }
  }

  /** What a reorder of the queue is answered otherwise: 400 for an objective listed twice, 404 for an unknown
      mission, and 500 only when the list was good. */
  lemma ReorderAnswers(db: Db, m: Id, order: seq<Id>)
    ensures var t, r := db.objectives, ReorderFuture(db, m, order);
            && (!NoDuplicates(order) ==> r == Err(400))
            && (NoDuplicates(order) && m !in db.missions ==> r == Err(404))
            && (NoDuplicates(order) && m in db.missions && order == [] ==> r == Ok(t))
            && (r == Err(500) ==>
                  && NoDuplicates(order) && m in db.missions
                  && forall id | id in order :: LiveIn(t, m, id) && t[id].state == Future)
  {
    hide NoUnlistedOnTarget, Group, LowestOf, Numbered;
    CheckedFutures(db.objectives, m, order);
    if order != [] {
      CheckStatuses(db.objectives, m, order);
    }
  }
}
