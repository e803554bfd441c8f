/** The reorder of queued objectives that the unique index refuses, in a store that is reached. */
module ObjectiveGaps {
  import opened Common
  import opened Objectives

  /** A mission without objectives, then three queued ones. */
  const QUEUEING: seq<Op> := [
    OpCreateMission(1, "t", [], []),
    OpCreateObjective(1, Future, "", 11), OpCreateObjective(1, Future, "", 12), OpCreateObjective(1, Future, "", 13)]

  const QUEUED: Table := map[
    11 := Objective(1, 0, Future, "", 1, false),
    12 := Objective(1, 1, Future, "", 1, false),
    13 := Objective(1, 2, Future, "", 1, false)]

  lemma Queue(t: Table, id: Id, last: int)
    requires if Positions(t, 1) == {} then last == -1
             else last in Positions(t, 1) && forall p | p in Positions(t, 1) :: p <= last
    ensures Insert(Db({1}, t), 1, Future, "", id) == Ok(t[id := Objective(1, last + 1, Future, "", 1, false)])
  {
  }

  const ONE: Table := map[11 := Objective(1, 0, Future, "", 1, false)]

  const TWO: Table := ONE[12 := Objective(1, 1, Future, "", 1, false)]

  lemma QueueOne(t: Table, id: Id, u: Table)
    requires Insert(Db({1}, t), 1, Future, "", id) == Ok(u) && id !in t
    ensures FreshIds(Db({1}, t), OpCreateObjective(1, Future, "", id))
    ensures Step(Db({1}, t), OpCreateObjective(1, Future, "", id)) == Db({1}, u)
  {
    hide Insert;
  }

  lemma Inserts()
    ensures Insert(Db({1}, map[]), 1, Future, "", 11) == Ok(ONE)
    ensures Insert(Db({1}, ONE), 1, Future, "", 12) == Ok(TWO)
    ensures Insert(Db({1}, TWO), 1, Future, "", 13) == Ok(QUEUED)
  {
    hide Insert;
    Queue(map[], 11, -1);
    assert Positions(ONE, 1) == {0} by { assert ONE[11].position == 0; }
    Queue(ONE, 12, 0);
    assert Positions(TWO, 1) == {0, 1} by { assert TWO[11].position == 0 && TWO[12].position == 1; }
    Queue(TWO, 13, 1);
  }

  lemma Founding()
    ensures FreshIds(Db({}, map[]), QUEUEING[0]) && Step(Db({}, map[]), QUEUEING[0]) == Db({1}, map[])
  {
  }

  lemma Queueing()
    ensures RunFresh(Db({}, map[]), QUEUEING) && RunOps(Db({}, map[]), QUEUEING) == Db({1}, QUEUED)
  {
    hide Insert, Step, FreshIds;
    Inserts();
    Founding();
    QueueOne(map[], 11, ONE);
    QueueOne(ONE, 12, TWO);
    QueueOne(TWO, 13, QUEUED);
    var ops := QUEUEING;
    assert ops[1..][1..] == ops[2..] && ops[2..][1..] == ops[3..] && ops[3..][1..] == [];
  }

  /** Listing the first and the last of three queued objectives is refused: the second is in the way. */
  lemma GapIsRefused()
    ensures RunFresh(Db({}, map[]), QUEUEING)
    ensures ReorderFuture(RunOps(Db({}, map[]), QUEUEING), 1, [11, 13]) == Err(500)
  {
    hide RunOps, RunFresh;
    Queueing();
    assert 11 in QUEUED && 13 in QUEUED;
    var order: seq<Id> := [11, 13];
    assert LowestOf(QUEUED, order) == 0 by { assert order[0] in order; }
    assert LiveIn(QUEUED, 1, 12) && 12 !in order && QUEUED[12].position == 1;
    ReorderFutureOutcome(Db({1}, QUEUED), 1, order);
  }
}
