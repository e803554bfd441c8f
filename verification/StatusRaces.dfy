/** A project move racing the deletion of the status it read, from an empty database. */
module StatusRaces {
  import opened Common
  import opened Statuses
  import opened StatusRuns

  lemma {:induction false} RunThen(s: State, a: seq<Request>, r: Request)
    requires Runs(s, a) && Possible(After(s, a), r)
    ensures Runs(s, a + [r]) && After(s, a + [r]) == Step(After(s, a), r)
    decreases |a|
  {
    hide Possible, Step;
    if a == [] {
      assert [r][1..] == [];
      assert Runs(Step(s, r), []) && After(Step(s, r), []) == Step(s, r);
    } else {
      RunThen(Step(s, a[0]), a[1..], r);
      assert (a + [r])[1..] == a[1..] + [r];
    }
  }

  ghost predicate Reached(s: State) {
    exists steps :: Runs(EMPTY, steps) && After(EMPTY, steps) == s
  }

  lemma ReachedEmpty()
    ensures Reached(EMPTY)
  {
    assert Runs(EMPTY, []) && After(EMPTY, []) == EMPTY;
  }

  lemma ReachedNext(s: State, r: Request)
    requires Reached(s) && Possible(s, r)
    ensures Reached(Step(s, r))
  {
    hide Possible, Step, Runs, After;
    var steps :| Runs(EMPTY, steps) && After(EMPTY, steps) == s;
    RunThen(EMPTY, steps, r);
  }

  lemma ReachedIsValid(s: State)
    requires Reached(s)
    ensures Inv(s)
  {
    hide Runs, After;
    var steps :| Runs(EMPTY, steps) && After(EMPTY, steps) == s;
    EveryRunKeepsInv(EMPTY, steps);
  }

  const IDS: seq<Id> := [1, 2, 3, 4, 5, 6, 7]

  /** The statuses of a new workspace. */
  lemma SeededRows(t: map<Id, Status>)
    requires t == SeedStatuses(map[], 0, IDS)
    ensures t.Keys == {1, 2, 3, 4, 5, 6, 7}
    ensures t[1] == SeedRow(0, 0) && t[2] == SeedRow(0, 1)
  {
    SeedKeys(map[], 0, IDS);
    SeedRowAt(map[], 0, IDS, 0);
    SeedRowAt(map[], 0, IDS, 1);
    assert IDS[0] == 1 && IDS[1] == 2;
  }

  lemma OnDefault(s: State)
    requires 100 in s.projects && s.projects[100] == 0 && 1 in s.statuses && s.statuses[1] == SeedRow(0, 0)
    ensures var r := CreateMission(s, 100, Some(1), None, 50);
            && r.Ok? && 50 in r.value.missions && r.value.missions == s.missions[50 := r.value.missions[50]]
            && r.value.missions[50].ws == 0 && r.value.missions[50].live && r.value.missions[50].status == 1
            && r.value == s.(missions := r.value.missions)
  {
    hide TopPosition;
  }

  /** A workspace, two projects, a mission on the default status: a move to another status reads it;
      the status is unused and deleted; the move then writes a live mission onto it. */
  lemma MoveRaceHappens() returns (s: State, deleted: State)
    ensures Reached(s) && MoveRead(s, 50, 101, Some(2)) == Ok(2)
    ensures DeleteStatus(s, 0, 2) == Ok(deleted) && 50 in deleted.missions
    ensures !Inv(MoveWrite(deleted, 50, 101, 2, s.statuses[2].kind))
  {
    hide Reached, SeedStatuses, Inv, TopPosition, CreateMission;
    ReachedEmpty();
    ReachedNext(EMPTY, Seed(0, IDS));
    var a := Step(EMPTY, Seed(0, IDS));
    SeededRows(a.statuses);
    ReachedNext(a, AddProject(100, 0));
    var b := Step(a, AddProject(100, 0));
    ReachedNext(b, AddProject(101, 0));
    var c := Step(b, AddProject(101, 0));
    OnDefault(c);
    ReachedNext(c, AddMission(100, Some(1), None, 50));
    s := Step(c, AddMission(100, Some(1), None, 50));
    ReachedIsValid(s);
    assert !InUse(s, 2);
    MoveRaces(s, 50, 101, 2);
    deleted := DeleteStatus(s, 0, 2).value;
  }
}
