/** Landing unguarded is exactly what loses rows: a guarded landing is safe for good, and after any other
    some continuation, in which nothing further goes unguarded, leaves a client without a row. */
module HubRaces {
  import opened Common
  import opened ChangeFeed
  import opened RealtimeHub

  // ---- continuations whose landings are guarded -------------------------------------------

  /** `t` follows from `s` by steps whose landings are all guarded. */
  ghost predicate Reaches(s: State, t: State) {
    exists steps :: Runs(s, steps) && AllGuarded(s, steps) && After(s, steps) == t
  }

  lemma ReachesItself(s: State)
    ensures Reaches(s, s)
  {
    assert Runs(s, []) && AllGuarded(s, []) && After(s, []) == s;
  }

  lemma {:induction false} RunsOn(s: State, a: seq<Step>, b: seq<Step>)
    requires Runs(s, a) && AllGuarded(s, a) && Runs(After(s, a), b) && AllGuarded(After(s, a), b)
    ensures Runs(s, a + b) && AllGuarded(s, a + b) && After(s, a + b) == After(After(s, a), b)
    decreases |a|
  {
    hide Enabled, Next, Guarded;
    if a == [] {
      assert a + b == b;
    } else {
      RunsOn(Next(s, a[0]), a[1..], b);
      assert (a + b)[1..] == a[1..] + b;
    }
  }

  lemma ReachesOn(s: State, t: State, u: State)
    requires Reaches(s, t) && Reaches(t, u)
    ensures Reaches(s, u)
  {
    hide Runs, After, AllGuarded;
    var a :| Runs(s, a) && AllGuarded(s, a) && After(s, a) == t;
    var b :| Runs(t, b) && AllGuarded(t, b) && After(t, b) == u;
    RunsOn(s, a, b);
  }

  lemma ReachesThen(s: State, t: State, step: Step)
    requires Reaches(s, t) && Enabled(t, step) && Guarded(t, step)
    ensures Reaches(s, Next(t, step))
  {
    hide Enabled, Next, Guarded;
    var u := Next(t, step);
    assert [step][1..] == [];
    assert Runs(u, []) && AllGuarded(u, []) && After(u, []) == u;
    assert Runs(t, [step]) && AllGuarded(t, [step]) && After(t, [step]) == u;
    ReachesOn(s, t, u);
  }

  lemma ReachesKeeps(s: State, t: State)
    requires Inv(s) && Reaches(s, t)
    ensures Inv(t)
  {
    hide Inv, Runs, After, AllGuarded;
    var steps :| Runs(s, steps) && AllGuarded(s, steps) && After(s, steps) == t;
    RunKeeps(s, steps);
  }

  /** Whatever happens from here, as long as every landing is guarded, no client misses a row. */
  ghost predicate Safe(s: State) {
    forall t | Reaches(s, t) :: NoMiss(t)
  }

  lemma LosesARow(s: State, t: State)
    requires Reaches(s, t) && !NoMiss(t)
    ensures !Safe(s)
  {
  }

  // ---- a landing that passes over a row a client lacks --------------------------------------

  lemma LackIsAMiss(s: State, k: Id)
    requires k in s.clients && s.clients[k].catchUp.Ended?
    requires !Covered(s.feed, s.clients[k].start, s.cursor, s.clients[k].sent)
    ensures !NoMiss(s)
  {
  }

  lemma PassingOverLoses(s: State, k: Id)
    requires k in s.clients && ReadOut(s.clients[k])
    requires !Covered(s.feed, s.clients[k].start, s.cursor, Due(s.clients[k]))
    ensures !Safe(s)
  {
    hide Covered, Reaches, NoMiss, Safe;
    ReachesItself(s);
    if s.clients[k].catchUp.Ended? {
      LackIsAMiss(s, k);
      LosesARow(s, s);
    } else {
      var t := Next(s, CatchUpSend(k));
      ReachesThen(s, s, CatchUpSend(k));
      LackIsAMiss(t, k);
      LosesARow(s, t);
    }
  }

  // ---- a landing below where another poll began ---------------------------------------------

  /** A moving poll that began furthest on. */
  ghost predicate Furthest(polls: map<Id, Poll>, q: Id) {
    && q in polls && Moving(polls[q])
    && forall r | r in polls && Moving(polls[r]) :: polls[r].from <= polls[q].from
  }

  lemma SomeFurthest(polls: map<Id, Poll>, q: Id)
    requires q in polls && Moving(polls[q])
    ensures exists r :: Furthest(polls, r)
  {
    var froms: set<int> := set r | r in polls && Moving(polls[r]) :: polls[r].from;
    assert polls[q].from in froms;
    var most := MaxOf(froms);
    var r: Id :| r in polls && Moving(polls[r]) && polls[r].from == most;
    forall o | o in polls && Moving(polls[o]) ensures polls[o].from <= most {
      assert polls[o].from in froms;
    }
    assert Furthest(polls, r);
  }

  lemma FreshId(ids: set<Id>)
    ensures exists k: Id :: k !in ids
  {
    if ids == {} {
      assert 0 !in ids;
    } else {
      var all: set<int> := set k | k in ids;
      HasElement(ids);
      var k: Id :| k in ids;
      assert k in all;
      var next: Id := MaxOf(all) + 1;
      assert next !in all;
      assert next !in ids;
    }
  }

  ghost predicate PollRows(s: State, poll: Poll)
    requires poll.Fetched?
  {
    forall n | n in SeqNos(poll.rows) :: n > poll.from
  }

  /** The row at which the other poll began is missing from what it broadcasts. */
  lemma SkippedRow(s: State, q: Id, late: Id, low: nat)
    requires q in s.polls && s.polls[q].Fetched? && s.polls[q].rows != [] && s.polls[q].from > low
    requires PollRows(s, s.polls[q]) && s.polls[q].from in SeqNos(s.feed)
    requires late in s.clients && s.clients[late] == Client(low, Ended, {})
    ensures !NoMiss(Landed(s, q))
  {
    var rows, from, t := s.polls[q].rows, s.polls[q].from, Landed(s, q);
    assert rows[|rows| - 1].seqNo in SeqNos(rows);
    var i :| 0 <= i < |s.feed| && s.feed[i].seqNo == from;
    assert t.feed[i].seqNo == from && low < from <= t.cursor;
    assert t.clients[late].sent == {} + SeqNos(rows);
    LackIsAMiss(t, late);
  }

  lemma LastIsMost(feed: Feed, from: nat, row: Row)
    requires Ascending(feed) && from in SeqNos(feed) && row.seqNo > MaxSeq(feed)
    ensures MaxSeq(feed + [row]) == row.seqNo > from
  {
  }

  lemma LandsBeyond(s: State, q: Id)
    requires q in s.polls && s.polls[q].Fetched? && s.polls[q].rows != [] && PollRows(s, s.polls[q])
    ensures Landed(s, q).cursor > s.polls[q].from
  {
    var rows := s.polls[q].rows;
    assert rows[|rows| - 1].seqNo in SeqNos(rows);
  }

  /** What is left to do once the late client has joined: a row, the query if it has not answered, and
      the landing. */
  lemma OvertakingLoses(s: State, q: Id, late: Id, low: nat) returns (t: State)
    requires Ascending(s.feed) && Furthest(s.polls, q) && s.polls[q].from > low
    requires s.polls[q].from in SeqNos(s.feed) && (s.polls[q].Fetched? ==> PollRows(s, s.polls[q]))
    requires late in s.clients && s.clients[late] == Client(low, Ended, {})
    ensures Reaches(s, t) && !NoMiss(t)
  {
    hide Reaches, NoMiss, Limited, Above, SeqNos, Landed, Ascending;
    ReachesItself(s);
    var u := s;
    if s.polls[q].Begun? {
      var row := Row(MaxSeq(s.feed) + 1, 0);
      var a := Next(s, Append(row));
      ReachesThen(s, s, Append(row));
      SeqNosGrow(s.feed, row);
      FetchCovers(a.feed, s.polls[q].from);
      LastIsMost(s.feed, s.polls[q].from, row);
      u := Next(a, PollFetch(q));
      ReachesThen(s, a, PollFetch(q));
    }
    LandsBeyond(u, q);
    assert Guarded(u, PollFinish(q));
    t := Next(u, PollFinish(q));
    ReachesThen(s, u, PollFinish(q));
    SkippedRow(u, q, late, low);
  }

  lemma MovingBegan(s: State, q: Id)
    requires Inv(s) && q in s.polls && Moving(s.polls[q])
    ensures Ascending(s.feed) && (s.polls[q].from > 0 ==> s.polls[q].from in SeqNos(s.feed))
    ensures s.polls[q].Fetched? ==> PollRows(s, s.polls[q])
  {
    assert PollOk(s, s.polls[q]);
  }

  /** A client joins where the landing left the cursor, below where the other poll began. */
  lemma LandingBelowLoses(s: State, p: Id, q: Id)
    requires Inv(s) && Enabled(s, PollFinish(p)) && q in s.polls && q != p && Moving(s.polls[q])
    requires s.polls[q].from > Landed(s, p).cursor
    ensures !Safe(Next(s, PollFinish(p)))
  {
    hide Inv, ClientOk, Reaches, NoMiss, Safe, SeqNos, Landed, Covered;
    var t := Landed(s, p);
    LandedFrame(s, p);
    SomeFurthest(t.polls, q);
    var r: Id :| Furthest(t.polls, r);
    MovingBegan(s, r);
    FreshId(t.clients.Keys);
    var late: Id :| late !in t.clients.Keys;
    var u := Next(t, Connect(late, None));
    ReachesItself(t);
    ReachesThen(t, t, Connect(late, None));
    var v := OvertakingLoses(u, r, late, t.cursor);
    ReachesOn(t, u, v);
    LosesARow(t, v);
  }

  // ---- the guard is exact -----------------------------------------------------------------

  lemma IdleFrame(s: State, p: Id)
    requires Enabled(s, PollFinish(p)) && s.polls[p].Idle?
    ensures var t := Landed(s, p); t.feed == s.feed && t.clients == s.clients && t.cursor == s.polls[p].max
  {
  }

  /** From any state the invariant allows: the landing of a poll is safe if and only if it is guarded.  A
      landing that is not has a continuation, all of whose landings are guarded, in which a connected
      client misses a row. */
  lemma LandingIsSafeIff(s: State, p: Id)
    requires Inv(s) && Enabled(s, PollFinish(p))
    ensures Safe(Next(s, PollFinish(p))) <==> Guarded(s, PollFinish(p))
  {
    hide Inv, Reaches, NoMiss, Covered, Landed, ReadOut, Due;
    var t := Next(s, PollFinish(p));
    if Guarded(s, PollFinish(p)) {
      StepKeepsIff(s, PollFinish(p));
      forall u | Reaches(t, u) ensures NoMiss(u) {
        ReachesKeeps(t, u);
        InvMeansNoMiss(u);
      }
    } else if q :| q in s.polls && q != p && Moving(s.polls[q]) && s.polls[q].from > Landed(s, p).cursor {
      LandingBelowLoses(s, p, q);
    } else {
      var k :| k in s.clients && ReadOut(s.clients[k])
               && !Covered(s.feed, s.clients[k].start, s.polls[p].max, Due(s.clients[k]));
      IdleFrame(s, p);
      PassingOverLoses(t, k);
    }
  }

  // ---- both happen ----------------------------------------------------------------------

  const ONE := Row(1, 0)
  const TWO := Row(2, 0)

  lemma FirstRows()
    ensures Limited(Above([ONE], 0), BATCH_LIMIT) == [ONE]
    ensures Limited(Above([ONE, TWO], 0), BATCH_LIMIT) == [ONE, TWO]
    ensures SeqNos([ONE, TWO]) == {1, 2}
  {
    var rows := [ONE, TWO];
    assert rows[0].seqNo == 1 && rows[1].seqNo == 2;
  }

  lemma StartedHolds()
    ensures Inv(Started([])) && Reaches(Started([]), Started([]))
  {
    hide Reaches;
    ReachesItself(Started([]));
  }

  lemma NoLanding(s: State, step: Step)
    requires Enabled(s, step) && !step.PollFinish?
    ensures Guarded(s, step)
  {
  }

  /** Two polls overlap and a row is appended between their queries. */
  lemma Overlapping() returns (s: State)
    ensures Reaches(Started([]), s) && s.feed == [ONE, TWO] && s.cursor == 0 && s.clients.Keys == {1}
    ensures s.polls == map[10 := Fetched(0, [ONE]), 11 := Fetched(0, [ONE, TWO])]
  {
    hide Reaches, Above, Limited, SeqNos, Guarded;
    var start := Started([]);
    FirstRows();
    StartedHolds();
    NoLanding(start, Connect(1, None));
    ReachesThen(start, start, Connect(1, None));
    var a := Next(start, Connect(1, None));
    NoLanding(a, Append(ONE));
    ReachesThen(start, a, Append(ONE));
    var b := Next(a, Append(ONE));
    assert b.feed == [ONE];
    NoLanding(b, PollBegin(10));
    ReachesThen(start, b, PollBegin(10));
    var c := Next(b, PollBegin(10));
    NoLanding(c, PollBegin(11));
    ReachesThen(start, c, PollBegin(11));
    var d := Next(c, PollBegin(11));
    NoLanding(d, PollFetch(10));
    ReachesThen(start, d, PollFetch(10));
    var e := Next(d, PollFetch(10));
    NoLanding(e, Append(TWO));
    ReachesThen(start, e, Append(TWO));
    var f := Next(e, Append(TWO));
    assert f.feed == [ONE, TWO];
    NoLanding(f, PollFetch(11));
    ReachesThen(start, f, PollFetch(11));
    s := Next(f, PollFetch(11));
  }

  /** From a fresh hub: the later query lands first, and the other then moves the cursor from 2 back to 1.
      That alone is safe; with a third poll begun in between, at 2, it is not. */
  lemma StaleLandingHappens() returns (alone: State, s: State)
    ensures Reaches(Started([]), alone) && Enabled(alone, PollFinish(10))
    ensures Landed(alone, 10).cursor == 1 && alone.cursor == 2 && Safe(Next(alone, PollFinish(10)))
    ensures Enabled(alone, PollBegin(12)) && s == Next(alone, PollBegin(12)) && Reaches(Started([]), s)
    ensures Enabled(s, PollFinish(10)) && !Safe(Next(s, PollFinish(10)))
  {
    hide Reaches, Above, Limited, SeqNos, Inv, Safe;
    var start := Started([]);
    var o := Overlapping();
    ReachesThen(start, o, PollFinish(11));
    alone := Next(o, PollFinish(11));
    StartedHolds();
    ReachesKeeps(start, alone);
    LandingIsSafeIff(alone, 10);
    assert 1 in o.clients && 1 in alone.clients;
    s := Next(alone, PollBegin(12));
    ReachesThen(start, alone, PollBegin(12));
    ReachesKeeps(start, s);
    assert 12 in s.polls && s.polls[12] == Begun(2);
    LandingIsSafeIff(s, 10);
  }

  /** From a fresh hub: a poll begins without subscribers over a row and awaits, and a client joins. */
  lemma IdleLandingHappens() returns (s: State)
    ensures Reaches(Started([]), s) && Enabled(s, PollFinish(10)) && s.polls[10].Idle?
    ensures !Safe(Next(s, PollFinish(10)))
  {
    hide Reaches, Inv, Safe;
    var start := Started([]);
    StartedHolds();
    ReachesThen(start, start, Append(ONE));
    var a := Next(start, Append(ONE));
    ReachesThen(start, a, PollBegin(10));
    var b := Next(a, PollBegin(10));
    ReachesThen(start, b, Connect(3, None));
    s := Next(b, Connect(3, None));
    ReachesKeeps(start, s);
    assert s.feed[0].seqNo == 1;
    assert !Covered(s.feed, s.clients[3].start, s.polls[10].max, Due(s.clients[3]));
    LandingIsSafeIff(s, 10);
  }
}
