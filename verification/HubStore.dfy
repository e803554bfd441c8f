/** The hub as it runs: the code between two `await`s, and whole calls that nothing interrupts. */
module HubStore {
  import opened Common
  import opened ChangeFeed
  import opened RealtimeHub

  /** The rows a catch-up at cursor `at` still has to send, and how many there are. */
  ghost function Owed(feed: Feed, at: int): set<nat> {
    SeqNos(Above(feed, NormalizedAfter(Finite(at as real))))
  }

  ghost function Left(feed: Feed, at: int): nat {
    |feed| - FirstAbove(feed, NormalizedAfter(Finite(at as real)))
  }

  function Page(feed: Feed, at: int): Batch {
    ReadChangesAfter(feed, Finite(at as real), DEFAULT_LIMIT)
  }

  lemma NoneLeft()
    ensures SeqNos([]) == {}
  {
  }

  lemma SeqNosConcat(a: seq<Row>, b: seq<Row>)
    ensures SeqNos(a + b) == SeqNos(a) + SeqNos(b)
  {
    forall n | n in SeqNos(b) ensures n in SeqNos(a + b) {
      var i :| 0 <= i < |b| && b[i].seqNo == n;
      assert (a + b)[|a| + i] == b[i];
    }
    forall n | n in SeqNos(a) ensures n in SeqNos(a + b) {
      var i :| 0 <= i < |a| && a[i].seqNo == n;
      assert (a + b)[i] == a[i];
    }
  }

  lemma Split(feed: Feed, k: nat, n: nat)
    requires k + n <= |feed|
    ensures SeqNos(feed[k..]) == SeqNos(feed[k..k + n]) + SeqNos(feed[k + n..])
  {
    hide SeqNos;
    SeqNosConcat(feed[k..k + n], feed[k + n..]);
    assert feed[k..] == feed[k..k + n] + feed[k + n..];
  }

  /** What a catch-up owes is the page it reads next and what it owes after that page. */
  lemma PageThenRest(feed: Feed, at: int)
    requires Ascending(feed)
    ensures var batch := Page(feed, at);
            && Owed(feed, at) == SeqNos(batch.changes) + Owed(feed, batch.cursor)
            && Left(feed, at) == |batch.changes| + Left(feed, batch.cursor)
            && (batch.hasMore ==> batch.changes != [])
            && (!batch.hasMore ==> Owed(feed, batch.cursor) == {})
  {
    hide ReadChangesAfter, SeqNos, Ascending;
    PageSpan(feed, Finite(at as real), DEFAULT_LIMIT);
    var batch, k := Page(feed, at), FirstAbove(feed, NormalizedAfter(Finite(at as real)));
    Split(feed, k, |batch.changes|);
    assert feed[|feed|..] == [];
    NoneLeft();
  }

  class Hub {
    var feed: Feed
    var cursor: nat
    var clients: map<Id, Client>
    var suspended: map<Id, Poll>

    function State(): State
      reads this
    {
      RealtimeHub.State(feed, cursor, clients, suspended)
    }

    constructor (rows: Feed)
      ensures State() == Started(rows)
    {
      feed, cursor, clients, suspended := rows, MaxSeq(rows), map[], map[];
    }

    method AddClient(k: Id, after: Option<int>)
      requires k !in clients
      modifies `clients
      ensures State() == Next(old(State()), Connect(k, after))
      ensures old(Inv(State())) ==> Inv(State())
    {
      hide Inv;
      ghost var s := State();
      if Inv(s) {
        ConnectKeeps(s, k, after);
      }
      var joined := Client(cursor, Ended, {});
      if after.Some? && after.value < cursor {
        joined := joined.(start := after.value, catchUp := AtTop(after.value));
      }
      clients := clients[k := joined];
    }

    method RemoveClient(k: Id)
      requires k in clients
      modifies `clients
      ensures State() == Next(old(State()), Disconnect(k))
      ensures old(Inv(State())) ==> Inv(State())
    {
      hide Inv;
      ghost var s := State();
      if Inv(s) {
        DisconnectKeeps(s, k);
      }
      clients := clients - {k};
    }

    /** `broadcast` of a change event: one send per subscriber. */
    method SendToAll(rows: seq<Row>)
      modifies `clients
      ensures clients == Broadcast(old(clients), rows)
    {
      ghost var before := clients;
      var todo := clients.Keys;
      while todo != {}
        invariant todo <= before.Keys == clients.Keys
        invariant forall k | k in clients ::
                    clients[k] == if k in todo then before[k] else before[k].(sent := before[k].sent + SeqNos(rows))
        decreases |todo|
      {
        HasElement(todo);
        var k :| k in todo;
        clients := clients[k := clients[k].(sent := clients[k].sent + SeqNos(rows))];
        todo := todo - {k};
      }
    }

    /** The part of `poll` after its query has answered. */
    method LandPoll(p: Id)
      requires p in suspended && !suspended[p].Begun?
      modifies `cursor, `clients, `suspended
      ensures State() == Next(old(State()), PollFinish(p))
      ensures old(Inv(State())) ==> (Inv(State()) <==> old(Guarded(State(), PollFinish(p))))
    {
      hide Inv, Guarded;
      ghost var s := State();
      if Inv(s) {
        LandingKeepsIff(s, p);
      }
      var poll := suspended[p];
      suspended := suspended - {p};
      match poll
      case Idle(max) => cursor := max;
      case Fetched(_, rows) =>
        if rows != [] {
          cursor := rows[|rows| - 1].seqNo;
          SendToAll(rows);
        }
    }

    /** A whole poll that nothing interrupts. */
    method Poll(p: Id)
      requires p !in suspended
      modifies `cursor, `clients, `suspended
      ensures var s1 := Next(old(State()), PollBegin(p));
              State() == Next(if old(clients) == map[] then s1 else Next(s1, PollFetch(p)), PollFinish(p))
    {
      hide Limited, Above, MaxSeq, Landed;
      if clients == map[] {
        suspended := suspended[p := Idle(MaxSeq(feed))];
      } else {
        suspended := suspended[p := Fetched(cursor, Limited(Above(feed, cursor), BATCH_LIMIT))];
      }
      assert State() == if old(clients) == map[] then Next(old(State()), PollBegin(p))
                        else Next(Next(old(State()), PollBegin(p)), PollFetch(p));
      LandPoll(p);
    }

    /** A whole catch-up that nothing interrupts: the client is sent exactly the rows above its
        cursor, and nobody else is touched. */
    method SendCatchUp(k: Id)
      requires Ascending(feed) && k in clients && clients[k].catchUp.AtTop?
      modifies `clients
      ensures clients == old(clients)[k := old(clients)[k].(
                catchUp := Ended, sent := old(clients)[k].sent + Owed(feed, old(clients)[k].catchUp.cursor))]
    {
      hide Page, Owed, Left, SeqNos, Ascending;
      ghost var before, all := clients, Owed(feed, clients[k].catchUp.cursor);
      var at, running := clients[k].catchUp.cursor, true;
      ghost var done: set<nat> := {};
      while running
        invariant k in clients && clients == before[k := clients[k]]
        invariant clients[k] == before[k].(sent := before[k].sent + done,
                                           catchUp := if running then AtTop(at) else Ended)
        invariant done + (if running then Owed(feed, at) else {}) == all
        decreases running, Left(feed, at)
      {
        PageThenRest(feed, at);
        NoneLeft();
        var batch := Page(feed, at);
        done := done + SeqNos(batch.changes);
        running := batch.changes != [] && batch.hasMore;
        clients := clients[k := PageSent(clients[k], batch)];
        at := batch.cursor;
      }
    }
  }
}
