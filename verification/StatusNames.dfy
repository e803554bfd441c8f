/** The statuses of a workspace: what each request writes, and that no two live ones share a name. */
module StatusNames {
  import opened Common
  import BranchNames
  import opened Statuses
  import opened StatusRuns

  /** Equal but for the case of ASCII letters. */
  predicate SameName(a: string, b: string) {
    |a| == |b| && forall k | 0 <= k < |a| :: BranchNames.LowerChar(a[k]) == BranchNames.LowerChar(b[k])
  }

  /** Some live status of the workspace, other than `except`, has the name. */
  ghost predicate Named(s: State, ws: Id, name: string, except: Option<Id>) {
    exists id :: LiveStatus(s, ws, id) && except != Some(id) && SameName(s.statuses[id].name, name)
  }

  lemma SameLowered(a: string, b: string)
    ensures SameName(a, b) <==> BranchNames.Each(a, BranchNames.LowerChar) == BranchNames.Each(b, BranchNames.LowerChar)
  {
    var x, y := BranchNames.Each(a, BranchNames.LowerChar), BranchNames.Each(b, BranchNames.LowerChar);
    if x == y {
      forall k | 0 <= k < |a| ensures BranchNames.LowerChar(a[k]) == BranchNames.LowerChar(b[k]) {
        assert x[k] == y[k];
      }
    }
  }

  lemma TakenMeansNamed(s: State, ws: Id, name: string, except: Option<Id>)
    ensures NameTaken(s, ws, name, except) <==> Named(s, ws, name, except)
  {
    forall id | id in s.statuses { SameLowered(s.statuses[id].name, name); }
    if Named(s, ws, name, except) {
      var id: Id :| LiveStatus(s, ws, id) && except != Some(id) && SameName(s.statuses[id].name, name);
      assert id in s.statuses;
    }
  }

  /** One after the last live status of the workspace, from 0. */
  ghost predicate IsLast(s: State, ws: Id, p: int) {
    && (forall id | LiveStatus(s, ws, id) :: s.statuses[id].position < p)
    && (p == 0 || exists id :: LiveStatus(s, ws, id) && s.statuses[id].position == p - 1)
  }

  lemma NextPositionExactly(s: State, ws: Id)
    requires forall id | LiveStatus(s, ws, id) :: s.statuses[id].position >= 0
    ensures IsLast(s, ws, NextPosition(s, ws))
  {
    var taken := {-1} + set id | id in LiveStatuses(s, ws) :: s.statuses[id].position;
    assert forall id | LiveStatus(s, ws, id) :: id in LiveStatuses(s, ws) && s.statuses[id].position in taken;
    if MaxOf(taken) != -1 {
      var id: Id :| id in LiveStatuses(s, ws) && s.statuses[id].position == MaxOf(taken);
      assert LiveStatus(s, ws, id);
    }
  }

  lemma SpecialsAreThere(s: State, ws: Id)
    requires Inv(s) && ws in s.workspaces
    ensures HasKind(s, ws, Execute) && HasKind(s, ws, Review)
  {
    assert ExactlyOne(s, ws, TheExecute) && ExactlyOne(s, ws, TheReview);
    var e: Id :| Holder(s, ws, TheExecute, e);
    var v: Id :| Holder(s, ws, TheReview, v);
  }

  /** The other statuses: the workspace's default loses its flag when there is a new one. */
  ghost predicate OtherStatuses(s: State, t: State, ws: Id, id: Id, newDefault: bool) {
    && t == s.(statuses := t.statuses) && t.statuses.Keys == s.statuses.Keys + {id}
    && forall j | j in s.statuses && j != id ::
         t.statuses[j] ==
         if newDefault && LiveStatus(s, ws, j) then s.statuses[j].(isDefault := false) else s.statuses[j]
  }

  /** A status is created exactly when its name is neither blank nor taken, its type is neither execute nor
      review (the workspace has those), and it is the default only as a draft.  It goes last. */
  lemma CreateStatusExactly(s: State, ws: Id, name: string, kind: Option<StatusType>, isDefault: bool, id: Id)
    requires Inv(s) && ws in s.workspaces && id !in s.statuses
    ensures var r := CreateStatus(s, ws, name, kind, isDefault, id);
            && (r.Ok? <==> Trim(name) != "" && !Named(s, ws, Trim(name), None)
                           && kind.Some? && kind.value !in {Execute, Review}
                           && (isDefault ==> kind == Some(Draft)))
            && (r.Err? ==> r.status == if Trim(name) == "" || (!Named(s, ws, Trim(name), None)
                                            && kind !in {Some(Execute), Some(Review)}) then 400 else 409)
            && (r.Ok? ==>
                  && OtherStatuses(s, r.value, ws, id, isDefault)
                  && r.value.statuses[id] == Status(ws, Trim(name), kind.value, NextPosition(s, ws), isDefault, true))
  {
    hide Inv, NameTaken, Named, HasKind, NextPosition, Trim;
    TakenMeansNamed(s, ws, Trim(name), None);
    SpecialsAreThere(s, ws);
  }

  /** A status is updated exactly when it is live, the new name is neither blank nor taken, it becomes the
      default only as a draft, and the default keeps being it. */
  lemma UpdateStatusExactly(s: State, ws: Id, id: Id, name: Option<string>, isDefault: Option<bool>)
    ensures var r := UpdateStatus(s, ws, id, name, isDefault);
            && (r.Ok? <==>
                  && LiveStatus(s, ws, id)
                  && (name.Some? ==> Trim(name.value) != "" && !Named(s, ws, Trim(name.value), Some(id)))
                  && (isDefault == Some(true) ==> s.statuses[id].kind == Draft)
                  && (isDefault == Some(false) ==> !s.statuses[id].isDefault))
            && (r.Err? ==> r.status in {400, 404, 409} && (r.status == 404 <==> !LiveStatus(s, ws, id)))
            && (r.Ok? ==>
                  && OtherStatuses(s, r.value, ws, id, isDefault == Some(true))
                  && r.value.statuses[id] == s.statuses[id].(
                       name := if name.Some? then Trim(name.value) else s.statuses[id].name,
                       isDefault := s.statuses[id].isDefault || isDefault == Some(true)))
  {
    hide NameTaken, Named, Trim;
    if name.Some? {
      TakenMeansNamed(s, ws, Trim(name.value), Some(id));
    }
  }

  /** A deletion takes the one live status away, and only when no mission is on it and it is none of the
      statuses a workspace must have. */
  lemma DeleteStatusExactly(s: State, ws: Id, id: Id)
    ensures var r := DeleteStatus(s, ws, id);
            && (r.Ok? <==>
                  && LiveStatus(s, ws, id) && !s.statuses[id].isDefault && s.statuses[id].kind !in {Execute, Review}
                  && forall m | LiveMission(s, m) :: s.missions[m].status != id)
            && (r.Err? ==> r.status == if LiveStatus(s, ws, id) then 409 else 404)
            && (r.Ok? ==>
                  && OtherStatuses(s, r.value, ws, id, false)
                  && r.value.statuses[id] == s.statuses[id].(live := false))
  {
    if m: Id :| LiveMission(s, m) && s.missions[m].status == id {
      assert m in s.missions;
    }
    if InUse(s, id) {
      var m: Id :| m in s.missions && s.missions[m].live && s.missions[m].status == id;
      assert LiveMission(s, m);
    }
  }

  // ---- names over runs ------------------------------------------------------------------

  /** No two live statuses of a workspace have the same name, and positions count from 0. */
  ghost predicate NamesDiffer(s: State) {
    && (forall ws, i, j | LiveStatus(s, ws, i) && LiveStatus(s, ws, j) && i != j ::
          !SameName(s.statuses[i].name, s.statuses[j].name))
    && (forall id | id in s.statuses :: s.statuses[id].position >= 0)
  }

  lemma SeedNamesDiffer(ws: Id, j: nat, k: nat)
    requires j < SEED_COUNT && k < SEED_COUNT && j != k
    ensures !SameName(SeedRow(ws, j).name, SeedRow(ws, k).name)
  {
    var a, b := SeedRow(ws, j).name, SeedRow(ws, k).name;
    assert |a| == |b| ==> BranchNames.LowerChar(a[0]) != BranchNames.LowerChar(b[0])
                          || BranchNames.LowerChar(a[1]) != BranchNames.LowerChar(b[1]);
  }

  lemma SeedPlace(ws: Id, k: nat)
    requires k < SEED_COUNT
    ensures SeedRow(ws, k).ws == ws && SeedRow(ws, k).position >= 0
  {
  }

  lemma SeedingDiffers(s: State, ws: Id, ids: seq<Id>)
    requires Inv(s) && NamesDiffer(s) && ws !in s.workspaces && |ids| == SEED_COUNT && NoDuplicates(ids)
    requires forall id | id in ids :: id !in s.statuses
    ensures NamesDiffer(Seeded(s, ws, ids))
  {
    hide SeedStatuses, SeedRow, SameName, MissionsOk;
    var t := Seeded(s, ws, ids);
    SeedKeys(s.statuses, ws, ids);
    forall k | 0 <= k < |ids|
      ensures ids[k] in t.statuses && t.statuses[ids[k]] == SeedRow(ws, k) && SeedRow(ws, k).ws == ws
              && SeedRow(ws, k).position >= 0
    {
      SeedRowAt(s.statuses, ws, ids, k);
      SeedPlace(ws, k);
    }
    forall id | id in s.statuses ensures t.statuses[id] == s.statuses[id] && id !in ids {
      SeedKeepsOthers(s.statuses, ws, ids, id);
    }
    forall v, i, j | LiveStatus(t, v, i) && LiveStatus(t, v, j) && i != j
      ensures !SameName(t.statuses[i].name, t.statuses[j].name)
    {
      if v == ws {
        var a :| 0 <= a < |ids| && ids[a] == i;
        var b :| 0 <= b < |ids| && ids[b] == j;
        SeedNamesDiffer(ws, a, b);
      } else {
        assert i in s.statuses && j in s.statuses;
        assert LiveStatus(s, v, i) && LiveStatus(s, v, j);
      }
    }
  }

  const SEEDS: seq<(string, StatusType)> :=
    [("Backlog", Draft), ("Next Up", Draft), ("In Progress", Execute), ("In Review", Review), ("Done", Complete),
     ("Blocked", Blocked), ("Cancelled", Cancelled)]

  /** The statuses of a new workspace, in order; the first is the default. */
  lemma SeededExactly(statuses: map<Id, Status>, ws: Id, ids: seq<Id>, k: nat)
    requires k < |ids| == |SEEDS| && NoDuplicates(ids)
    ensures var t := SeedStatuses(statuses, ws, ids);
            ids[k] in t && t[ids[k]] == Status(ws, SEEDS[k].0, SEEDS[k].1, k, k == 0, true)
  {
    hide SeedStatuses;
    SeedRowAt(statuses, ws, ids, k);
  }

  lemma SameNameBack(a: string, b: string)
    ensures SameName(a, b) <==> SameName(b, a)
  {
  }

  /** Writing one status under a name that no other live status of its workspace has. */
  lemma WritingDiffers(s: State, t: State, ws: Id, id: Id, newDefault: bool)
    requires NamesDiffer(s) && OtherStatuses(s, t, ws, id, newDefault) && t.statuses[id].position >= 0
    requires t.statuses[id].ws == ws
    requires t.statuses[id].live ==> !Named(s, ws, t.statuses[id].name, Some(id))
    ensures NamesDiffer(t)
  {
    hide SameName;
    forall v, i, j | LiveStatus(t, v, i) && LiveStatus(t, v, j) && i != j
      ensures !SameName(t.statuses[i].name, t.statuses[j].name)
    {
      SameNameBack(t.statuses[i].name, t.statuses[j].name);
      assert i != id ==> LiveStatus(s, v, i) && t.statuses[i].name == s.statuses[i].name;
      assert j != id ==> LiveStatus(s, v, j) && t.statuses[j].name == s.statuses[j].name;
    }
  }

  lemma NotNamed(s: State, ws: Id, name: string, id: Id)
    requires !Named(s, ws, name, None)
    ensures !Named(s, ws, name, Some(id))
  {
  }

  lemma OwnName(s: State, ws: Id, id: Id)
    requires NamesDiffer(s) && LiveStatus(s, ws, id)
    ensures !Named(s, ws, s.statuses[id].name, Some(id))
  {
  }

  lemma StatusRequestDiffers(s: State, r: Request)
    requires Inv(s) && NamesDiffer(s) && Possible(s, r) && (r.AddStatus? || r.ChangeStatus? || r.DropStatus?)
    ensures NamesDiffer(Step(s, r))
  {
    hide Inv, Named, CreateStatus, UpdateStatus, DeleteStatus, OtherStatuses, Trim, NextPosition, SameName;
    var t := Step(s, r);
    if t != s {
      match r
      case AddStatus(ws, name, kind, isDefault, id) =>
        CreateStatusExactly(s, ws, name, kind, isDefault, id);
        NextPositionExactly(s, ws);
        NotNamed(s, ws, Trim(name), id);
        WritingDiffers(s, t, ws, id, isDefault);
      case ChangeStatus(ws, id, name, isDefault) =>
        UpdateStatusExactly(s, ws, id, name, isDefault);
        OwnName(s, ws, id);
        WritingDiffers(s, t, ws, id, isDefault == Some(true));
      case DropStatus(ws, id) =>
        DeleteStatusExactly(s, ws, id);
        WritingDiffers(s, t, ws, id, false);
    }
  }

  /** The other requests leave the statuses alone. */
  lemma StatusesStay(s: State, r: Request)
    requires Inv(s) && Possible(s, r) && !r.Seed? && !r.AddStatus? && !r.ChangeStatus? && !r.DropStatus?
    ensures Step(s, r).statuses == s.statuses
  {
    hide Inv, TopPosition, ReorderColumn, ReorderMine;
    match r
    case Column(project, status, order, due, copies) => ReorderColumnExactly(s, project, status, order, due, copies);
    case Mine(actor, status, order) => ReorderMineExactly(s, actor, status, order);
    case _ =>
  }

  lemma SameStatusesDiffer(s: State, t: State)
    requires NamesDiffer(s) && t.statuses == s.statuses
    ensures NamesDiffer(t)
  {
    assert forall ws, i :: LiveStatus(t, ws, i) <==> LiveStatus(s, ws, i);
  }

  lemma StepDiffers(s: State, r: Request)
    requires Inv(s) && NamesDiffer(s) && Possible(s, r)
    ensures NamesDiffer(Step(s, r))
  {
    hide Inv, NamesDiffer, Seeded, CreateStatus, UpdateStatus, DeleteStatus, CreateMission, PatchStatus, MoveWrite,
         DeleteMission, SetSchedule, ClearSchedule, Assign, ReorderColumn, ReorderMine, FreshCopies;
    if r.Seed? {
      SeedingDiffers(s, r.ws, r.ids);
    } else if r.AddStatus? || r.ChangeStatus? || r.DropStatus? {
      StatusRequestDiffers(s, r);
    } else {
      StatusesStay(s, r);
      SameStatusesDiffer(s, Step(s, r));
    }
  }

  lemma {:induction false} RunsKeepNames(s: State, requests: seq<Request>)
    requires Inv(s) && NamesDiffer(s) && Runs(s, requests)
    ensures NamesDiffer(After(s, requests))
    decreases |requests|
  {
    hide Inv, NamesDiffer, Possible, Step, Seeded;
    if requests != [] {
      var r := requests[0];
      StepKeepsInv(s, r);
      StepDiffers(s, r);
      RunsKeepNames(Step(s, r), requests[1..]);
    }
  }

  /** In no run from an empty database do two live statuses of a workspace have names that differ in at most
      the case of their letters. */
  lemma EveryRunKeepsNames(requests: seq<Request>, ws: Id, i: Id, j: Id)
    requires Runs(EMPTY, requests)
    ensures var s := After(EMPTY, requests);
            LiveStatus(s, ws, i) && LiveStatus(s, ws, j) && i != j ==>
              !SameName(s.statuses[i].name, s.statuses[j].name)
  {
    hide Runs, After, Inv;
    EmptyHolds();
    RunsKeepNames(EMPTY, requests);
  }
}
