/** Renumbering rows under a uniqueness constraint.

    A group of live rows (the projects of a workspace, the objectives of a mission) holds
    positions, possibly null, and the database refuses any single UPDATE that would give two
    rows of the group the same non-null position.  The repository renumbers a group with two
    passes of single-row UPDATEs: first every changed row is parked above the used range, then
    each one is written to its target. */
module TwoPhase {
  import opened Common

  type Slots = map<Id, Option<int>>

  /** One `UPDATE ... SET position = ? WHERE id = ?`. */
  datatype Write = Write(id: Id, position: int)

  /** The unique index: non-null positions are pairwise distinct. */
  ghost predicate Distinct(s: Slots) {
    forall a, b | a in s && b in s && a != b && s[a].Some? :: s[a] != s[b]
  }

  ghost predicate Free(s: Slots, w: Write) {
    forall other | other in s && other != w.id :: s[other] != Some(w.position)
  }

  /** One UPDATE: an unknown row is left alone, a taken position aborts. */
  ghost function Apply(s: Slots, w: Write): Option<Slots> {
    if w.id !in s then Some(s)
    else if Free(s, w) then Some(s[w.id := Some(w.position)])
    else None
  }

  /** A list of UPDATEs in one transaction; the first refused one aborts it. */
  ghost function Run(s: Slots, ws: seq<Write>): Option<Slots> {
    if ws == [] then Some(s)
    else
      var before := Run(s, ws[..|ws| - 1]);
      if before.None? then None else Apply(before.value, ws[|ws| - 1])
  }

  /** Write `m` of the two passes: first row `m` is parked, then row `m - n` goes to its target. */
  function PlanWrite(ups: seq<Write>, base: int, m: nat): Write
    requires m < 2 * |ups|
  {
    if m < |ups| then Write(ups[m].id, base + m) else ups[m - |ups|]
  }

  function Plan(ups: seq<Write>, base: int): seq<Write> {
    seq(2 * |ups|, m requires 0 <= m < 2 * |ups| => PlanWrite(ups, base, m))
  }

  /** Where a row stands in the list, or -1. */
  ghost function IndexOf(ups: seq<Write>, id: Id): (r: int)
    ensures -1 <= r < |ups|
    ensures r >= 0 ==> ups[r].id == id
    ensures r == -1 ==> forall i | 0 <= i < |ups| :: ups[i].id != id
  {
    if ups == [] then -1
    else if ups[|ups| - 1].id == id then |ups| - 1
    else IndexOf(ups[..|ups| - 1], id)
  }

  ghost predicate Once(ups: seq<Write>) {
    forall i, j | 0 <= i < j < |ups| :: ups[i].id != ups[j].id
  }

  /** The rows to move exist, each is moved once, and the parking range starts above every
      position in use and every target. */
  ghost predicate WellFormed(s: Slots, ups: seq<Write>, base: int) {
    && Distinct(s)
    && Once(ups)
    && (forall i | 0 <= i < |ups| :: ups[i].id in s && ups[i].position < base)
    && (forall id | id in s && s[id].Some? :: s[id].value < base)
  }

  /** No row outside the list sits on a target, and no two targets coincide. */
  ghost predicate TargetsClear(s: Slots, ups: seq<Write>) {
    && (forall i, j | 0 <= i < j < |ups| :: ups[i].position != ups[j].position)
    && (forall i, id | 0 <= i < |ups| && id in s && IndexOf(ups, id) == -1 ::
          s[id] != Some(ups[i].position))
  }

  /** The position of one row after the first `m` writes of the plan. */
  ghost function SlotAt(s: Slots, ups: seq<Write>, base: int, m: nat, id: Id): Option<int>
    requires id in s
  {
    var i := IndexOf(ups, id);
    if i == -1 || m <= i then s[id]
    else if m <= |ups| + i then Some(base + i)
    else Some(ups[i].position)
  }

  ghost function StateAt(s: Slots, ups: seq<Write>, base: int, m: nat): Slots {
    map id | id in s :: SlotAt(s, ups, base, m, id)
  }

  /** The group once the whole plan is written: listed rows on their targets, others untouched. */
  ghost function Renumbered(s: Slots, ups: seq<Write>): Slots {
    map id | id in s ::
      var i := IndexOf(ups, id); if i == -1 then s[id] else Some(ups[i].position)
  }

  /** Whether the final write of a row is among the first `m` writes (1) or not (0). */
  ghost function Settled(ups: seq<Write>, m: nat, id: Id): nat {
    var i := IndexOf(ups, id);
    if i >= 0 && m > |ups| + i then 1 else 0
  }

  lemma IndexOfOnce(ups: seq<Write>, i: nat)
    requires Once(ups) && i < |ups|
    ensures IndexOf(ups, ups[i].id) == i
  {
  }

  /** Write `m` of the plan moves its own row and no other. */
  lemma SlotsStep(s: Slots, ups: seq<Write>, base: int, m: nat)
    requires WellFormed(s, ups, base) && m < 2 * |ups|
    ensures var w := PlanWrite(ups, base, m);
            && w.id in s && SlotAt(s, ups, base, m + 1, w.id) == Some(w.position)
            && Settled(ups, m, w.id) == 0 && Settled(ups, m + 1, w.id) == (if m < |ups| then 0 else 1)
    ensures forall id | id in s && id != PlanWrite(ups, base, m).id ::
              && SlotAt(s, ups, base, m + 1, id) == SlotAt(s, ups, base, m, id)
              && Settled(ups, m + 1, id) == Settled(ups, m, id)
  {
    hide IndexOf;
    var i := if m < |ups| then m else m - |ups|;
    IndexOfOnce(ups, i);
    forall id | id in s && id != PlanWrite(ups, base, m).id
      ensures SlotAt(s, ups, base, m + 1, id) == SlotAt(s, ups, base, m, id)
      ensures Settled(ups, m + 1, id) == Settled(ups, m, id)
    {
      assert IndexOf(ups, id) != i;
    }
  }

  /** Write `m` of the plan turns the closed form for `m` into the one for `m + 1`. */
  lemma StateStep(s: Slots, ups: seq<Write>, base: int, m: nat)
    requires WellFormed(s, ups, base) && m < 2 * |ups|
    ensures var w := PlanWrite(ups, base, m);
            && w.id in s
            && StateAt(s, ups, base, m + 1) == StateAt(s, ups, base, m)[w.id := Some(w.position)]
  {
    hide WellFormed, SlotAt;
    SlotsStep(s, ups, base, m);
  }

  /** A run of the plan that is not refused follows the closed form. */
  lemma {:induction false} RunFollowsState(s: Slots, ups: seq<Write>, base: int, m: nat)
    requires WellFormed(s, ups, base) && m <= 2 * |ups|
    ensures var r := Run(s, Plan(ups, base)[..m]); r.Some? ==> r.value == StateAt(s, ups, base, m)
  {
    if m == 0 {
      assert StateAt(s, ups, base, 0) == s;
    } else {
      RunFollowsState(s, ups, base, m - 1);
      StateStep(s, ups, base, m - 1);
      assert Plan(ups, base)[..m][..m - 1] == Plan(ups, base)[..m - 1];
    }
  }

  /** Parking never meets an occupied position. */
  lemma ParkingFree(s: Slots, ups: seq<Write>, base: int, m: nat)
    requires WellFormed(s, ups, base) && m < |ups|
    ensures Free(StateAt(s, ups, base, m), PlanWrite(ups, base, m))
  {
  }

  /** With clear targets the final pass never does either. */
  lemma FinalFree(s: Slots, ups: seq<Write>, base: int, j: nat)
    requires WellFormed(s, ups, base) && TargetsClear(s, ups) && j < |ups|
    ensures Free(StateAt(s, ups, base, |ups| + j), ups[j])
  {
    var t := StateAt(s, ups, base, |ups| + j);
    forall other | other in t && other != ups[j].id ensures t[other] != Some(ups[j].position) {
      var i := IndexOf(ups, other);
      if i != -1 {
        assert i != j;
      }
    }
  }

  lemma SameTargetCollides(s: Slots, ups: seq<Write>, base: int, i: nat, k: nat)
    requires WellFormed(s, ups, base) && i < k < |ups| && ups[i].position == ups[k].position
    ensures !Free(StateAt(s, ups, base, |ups| + k), ups[k])
  {
    IndexOfOnce(ups, i);
    assert StateAt(s, ups, base, |ups| + k)[ups[i].id] == Some(ups[k].position);
  }

  lemma UnlistedCollides(s: Slots, ups: seq<Write>, base: int, i: nat, id: Id)
    requires WellFormed(s, ups, base) && i < |ups| && id in s && IndexOf(ups, id) == -1
    requires s[id] == Some(ups[i].position)
    ensures !Free(StateAt(s, ups, base, |ups| + i), ups[i])
  {
    hide WellFormed;
    assert StateAt(s, ups, base, |ups| + i)[id] == Some(ups[i].position);
  }

  /** With a target that is not clear, some final write meets it. */
  lemma Collision(s: Slots, ups: seq<Write>, base: int) returns (j: nat)
    requires WellFormed(s, ups, base) && !TargetsClear(s, ups)
    ensures j < |ups| && !Free(StateAt(s, ups, base, |ups| + j), ups[j])
  {
    hide StateAt, Free, IndexOf, WellFormed;
    if i, k :| 0 <= i < k < |ups| && ups[i].position == ups[k].position {
      j := k;
      SameTargetCollides(s, ups, base, i, k);
    } else {
      var i, id :| 0 <= i < |ups| && id in s && IndexOf(ups, id) == -1 && s[id] == Some(ups[i].position);
      j := i;
      UnlistedCollides(s, ups, base, i, id);
    }
  }

  lemma PlanFree(s: Slots, ups: seq<Write>, base: int, m: nat)
    requires WellFormed(s, ups, base) && TargetsClear(s, ups) && m < 2 * |ups|
    ensures Free(StateAt(s, ups, base, m), PlanWrite(ups, base, m))
  {
    hide WellFormed, TargetsClear, StateAt, Free;
    if m < |ups| {
      ParkingFree(s, ups, base, m);
    } else {
      FinalFree(s, ups, base, m - |ups|);
    }
  }

  lemma {:induction false} PlanAccepted(s: Slots, ups: seq<Write>, base: int, m: nat)
    requires WellFormed(s, ups, base) && TargetsClear(s, ups) && m <= 2 * |ups|
    ensures Run(s, Plan(ups, base)[..m]).Some?
  {
    hide WellFormed, TargetsClear, StateAt, Free;
    if m > 0 {
      PlanAccepted(s, ups, base, m - 1);
      RunFollowsState(s, ups, base, m - 1);
      PlanFree(s, ups, base, m - 1);
      assert Plan(ups, base)[..m][..m - 1] == Plan(ups, base)[..m - 1];
    }
  }

  /** A run that has been refused stays refused. */
  lemma {:induction false} RefusedPrefix(s: Slots, ws: seq<Write>, k: nat)
    requires k <= |ws| && Run(s, ws[..k]).None?
    ensures Run(s, ws).None?
    decreases |ws|
  {
    if k == |ws| {
      assert ws[..k] == ws;
    } else {
      assert ws[..|ws| - 1][..k] == ws[..k];
      RefusedPrefix(s, ws[..|ws| - 1], k);
    }
  }

  /** Whatever the list of UPDATEs, one that is not refused leaves the positions distinct after
      every single write in it. */
  lemma {:induction false} EveryWriteDistinct(s: Slots, ws: seq<Write>, k: nat)
    requires Distinct(s) && k <= |ws|
    requires Run(s, ws).Some?
    ensures Run(s, ws[..k]).Some? && Distinct(Run(s, ws[..k]).value)
    decreases |ws|
  {
    if k == |ws| {
      assert ws[..k] == ws;
      if k > 0 {
        EveryWriteDistinct(s, ws[..k - 1], k - 1);
        assert ws[..k - 1][..k - 1] == ws[..k - 1];
      }
    } else {
      assert ws[..|ws| - 1][..k] == ws[..k];
      EveryWriteDistinct(s, ws[..|ws| - 1], k);
    }
  }

  /** A write onto a taken position aborts the run there. */
  lemma RefusedWrite(s: Slots, ws: seq<Write>, m: nat, t: Slots)
    requires m < |ws| && ws[m].id in t && !Free(t, ws[m])
    requires var r := Run(s, ws[..m]); r.Some? ==> r.value == t
    ensures Run(s, ws).None?
  {
    assert ws[..m + 1][..m] == ws[..m];
    assert Run(s, ws[..m + 1]).None?;
    RefusedPrefix(s, ws, m + 1);
  }

  lemma StateKeys(s: Slots, ups: seq<Write>, base: int, m: nat)
    ensures StateAt(s, ups, base, m).Keys == s.Keys
  {
  }

  lemma RejectedUnlessClear(s: Slots, ups: seq<Write>, base: int)
    requires WellFormed(s, ups, base) && !TargetsClear(s, ups)
    ensures Run(s, Plan(ups, base)).None?
  {
    hide WellFormed, TargetsClear, StateAt, Free, Run;
    var j := Collision(s, ups, base);
    var m := |ups| + j;
    RunFollowsState(s, ups, base, m);
    StateStep(s, ups, base, m);
    StateKeys(s, ups, base, m);
    RefusedWrite(s, Plan(ups, base), m, StateAt(s, ups, base, m));
  }

  lemma EndIsRenumbered(s: Slots, ups: seq<Write>, base: int)
    ensures StateAt(s, ups, base, 2 * |ups|) == Renumbered(s, ups)
  {
  }

  /** The two-pass renumbering is accepted by the unique index exactly when the targets are
      clear; then every listed row has its target and no other row moved. */
  lemma TwoPassRenumbering(s: Slots, ups: seq<Write>, base: int)
    requires WellFormed(s, ups, base)
    ensures Run(s, Plan(ups, base)).Some? <==> TargetsClear(s, ups)
    ensures TargetsClear(s, ups) ==> Run(s, Plan(ups, base)) == Some(Renumbered(s, ups))
  {
    hide WellFormed, TargetsClear, Run, StateAt, Renumbered;
    if TargetsClear(s, ups) {
      var n := 2 * |ups|;
      assert Plan(ups, base)[..n] == Plan(ups, base);
      PlanAccepted(s, ups, base, n);
      RunFollowsState(s, ups, base, n);
      EndIsRenumbered(s, ups, base);
    } else {
      RejectedUnlessClear(s, ups, base);
    }
  }

  // ---- which rows a request moves -------------------------------------------------------

  /** The rows of `order` that are not yet on their target, in that order. */
  function Moves(order: seq<Id>, target: map<Id, int>, s: Slots): (ups: seq<Write>)
    requires forall id | id in order :: id in s && id in target
    ensures |ups| <= |order|
  {
    if order == [] then []
    else
      var n := |order| - 1;
      var rest := Moves(order[..n], target, s);
      var id := order[n];
      if s[id] == Some(target[id]) then rest else rest + [Write(id, target[id])]
  }

  lemma {:induction false} MovesShape(order: seq<Id>, target: map<Id, int>, s: Slots)
    requires NoDuplicates(order) && forall id | id in order :: id in s && id in target
    ensures var ups := Moves(order, target, s);
            && Once(ups)
            && forall i | 0 <= i < |ups| :: ups[i].id in order && ups[i].position == target[ups[i].id]
  {
    if order != [] {
      var n := |order| - 1;
      MovesShape(order[..n], target, s);
      assert order[n] !in order[..n];
    }
  }

  lemma {:induction false} MovesIndex(order: seq<Id>, target: map<Id, int>, s: Slots, id: Id)
    requires NoDuplicates(order) && forall id | id in order :: id in s && id in target
    ensures IndexOf(Moves(order, target, s), id) == -1 <==> id !in order || s[id] == Some(target[id])
  {
    if order != [] {
      var n := |order| - 1;
      var rest, ups := Moves(order[..n], target, s), Moves(order, target, s);
      MovesIndex(order[..n], target, s, id);
      assert order == order[..n] + [order[n]];
      assert order[n] !in order[..n];
      if ups != rest {
        assert ups[..|ups| - 1] == rest;
      }
    }
  }

  ghost predicate InjectiveOn(order: seq<Id>, target: map<Id, int>)
    requires forall id | id in order :: id in target
  {
    forall a, b | a in order && b in order && a != b :: target[a] != target[b]
  }

  /** No row outside the list already holds one of the targets. */
  ghost predicate NoUnlistedOnTarget(order: seq<Id>, target: map<Id, int>, s: Slots)
    requires forall id | id in order :: id in target
  {
    forall id, o | id in s && id !in order && o in order :: s[id] != Some(target[o])
  }

  /** With distinct targets, the moves of a list clash with the rest of the group exactly when a
      row outside the list sits on a target; rows already in place never matter. */
  lemma MovesClear(order: seq<Id>, target: map<Id, int>, s: Slots)
    requires NoDuplicates(order) && (forall id | id in order :: id in s && id in target)
    requires Distinct(s) && InjectiveOn(order, target)
    ensures TargetsClear(s, Moves(order, target, s)) <==> NoUnlistedOnTarget(order, target, s)
  {
    hide Moves, IndexOf;
    var ups := Moves(order, target, s);
    MovesShape(order, target, s);
    if NoUnlistedOnTarget(order, target, s) {
      forall i, id | 0 <= i < |ups| && id in s && IndexOf(ups, id) == -1
        ensures s[id] != Some(ups[i].position)
      {
        MovesIndex(order, target, s, id);
        IndexOfOnce(ups, i);
      }
    }
    if TargetsClear(s, ups) {
      forall id, o | id in s && id !in order && o in order ensures s[id] != Some(target[o]) {
        MovesIndex(order, target, s, id);
        MovesIndex(order, target, s, o);
      }
    }
  }

  /** Afterwards every listed row is on its target and the others are where they were. */
  lemma MovesRenumber(order: seq<Id>, target: map<Id, int>, s: Slots, id: Id)
    requires NoDuplicates(order) && (forall id | id in order :: id in s && id in target) && id in s
    ensures Renumbered(s, Moves(order, target, s))[id] == if id in order then Some(target[id]) else s[id]
  {
    MovesShape(order, target, s);
    MovesIndex(order, target, s, id);
  }

  /** Consecutive targets in list order, from `first`. */
  function Numbered(order: seq<Id>, first: int): (target: map<Id, int>)
    ensures target.Keys == Elements(order)
  {
    if order == [] then map[]
    else
      var n := |order| - 1;
      Numbered(order[..n], first)[order[n] := first + n]
  }

  lemma {:induction false} NumberedAt(order: seq<Id>, first: int, k: nat)
    requires NoDuplicates(order) && k < |order|
    ensures order[k] in Numbered(order, first) && Numbered(order, first)[order[k]] == first + k
  {
    var n := |order| - 1;
    if k < n {
      NumberedAt(order[..n], first, k);
    }
  }

  lemma {:induction false} NumberedRange(order: seq<Id>, first: int)
    requires NoDuplicates(order)
    ensures forall id | id in order ::
              id in Numbered(order, first) && first <= Numbered(order, first)[id] < first + |order|
    ensures InjectiveOn(order, Numbered(order, first))
  {
    if order != [] {
      var n := |order| - 1;
      NumberedRange(order[..n], first);
      assert order == order[..n] + [order[n]];
      assert order[n] !in order[..n];
    }
  }

  /** Counting: of the listed rows those already in place push the largest position in use up to
      at least their number, so parking `|moves|` above it begins beyond every target, however
      sparse or null the positions are. */
  lemma {:induction false} ParkingAboveTargets(order: seq<Id>, target: map<Id, int>, s: Slots, first: int, top: int)
    requires forall id | id in order :: id in s && id in target
    requires forall k | 0 <= k < |order| :: target[order[k]] == first + k
    requires first - 1 <= top && forall id | id in s && s[id].Some? :: s[id].value <= top
    ensures first + |order| - 1 <= top + |Moves(order, target, s)|
  {
    if order != [] {
      var n := |order| - 1;
      ParkingAboveTargets(order[..n], target, s, first, top);
      assert s[order[n]] == Some(first + n) ==> first + n <= top;
    }
  }
}
