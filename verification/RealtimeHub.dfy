/** The realtime hub: broadcast polling and per-client catch-up over the change feed, interleaved
    at every `await`.

    A poll reads the hub cursor, awaits a query, and only then moves the cursor and broadcasts; a
    catch-up awaits each page.  Nothing stops two polls from being in flight at once. */
module RealtimeHub {
  import opened Common
  import opened ChangeFeed

  /** A catch-up is at the top of its loop, waiting to send a page it has read, or over. */
  datatype CatchUp = Ended | AtTop(cursor: int) | Reading(batch: Batch)

  /** A subscriber: where its feed starts, its catch-up, and what it was sent. */
  datatype Client = Client(start: int, catchUp: CatchUp, sent: set<nat>)

  /** A poll in flight: begun with subscribers, its rows fetched, or begun with none. */
  datatype Poll = Begun(from: nat) | Fetched(from: nat, rows: seq<Row>) | Idle(max: nat)

  datatype State = State(feed: Feed, cursor: nat, clients: map<Id, Client>, polls: map<Id, Poll>)

  datatype Step =
    | Append(row: Row)
    | Connect(k: Id, after: Option<int>)
    | Disconnect(k: Id)
    | PollBegin(p: Id)
    | PollFetch(p: Id)
    | PollFinish(p: Id)
    | CatchUpRead(k: Id)
    | CatchUpSend(k: Id)

  const DEFAULT_LIMIT: Number := Finite(500.0)

  predicate Enabled(s: State, step: Step) {
    match step
    case Append(row) => row.seqNo > MaxSeq(s.feed)
    case Connect(k, _) => k !in s.clients
    case Disconnect(k) => k in s.clients
    case PollBegin(p) => p !in s.polls
    case PollFetch(p) => p in s.polls && s.polls[p].Begun?
    case PollFinish(p) => p in s.polls && !s.polls[p].Begun?
    case CatchUpRead(k) => k in s.clients && s.clients[k].catchUp.AtTop?
    case CatchUpSend(k) => k in s.clients && s.clients[k].catchUp.Reading?
  }

  /** `addClient`: a subscriber that is behind the cursor starts a catch-up. */
  function Joined(s: State, after: Option<int>): Client {
    if after.Some? && after.value < s.cursor then Client(after.value, AtTop(after.value), {})
    else Client(s.cursor, Ended, {})
  }

  function Broadcast(clients: map<Id, Client>, rows: seq<Row>): map<Id, Client> {
    map k | k in clients :: clients[k].(sent := clients[k].sent + SeqNos(rows))
  }

  /** The tail of a poll: with rows, move the cursor to the last and broadcast them. */
  function Landed(s: State, p: Id): State
    requires p in s.polls && !s.polls[p].Begun?
  {
    var rest := s.(polls := s.polls - {p});
    match s.polls[p]
    case Idle(max) => rest.(cursor := max)
    case Fetched(_, rows) =>
      if rows == [] then rest
      else rest.(cursor := rows[|rows| - 1].seqNo, clients := Broadcast(s.clients, rows))
  }

  /** Sending a page: an empty one, or one without a successor, ends the catch-up. */
  function PageSent(c: Client, batch: Batch): Client {
    c.(sent := c.sent + SeqNos(batch.changes),
       catchUp := if batch.changes == [] || !batch.hasMore then Ended else AtTop(batch.cursor))
  }

  function Next(s: State, step: Step): State
    requires Enabled(s, step)
  {
    match step
    case Append(row) => s.(feed := s.feed + [row])
    case Connect(k, after) => s.(clients := s.clients[k := Joined(s, after)])
    case Disconnect(k) => s.(clients := s.clients - {k})
    case PollBegin(p) =>
      s.(polls := s.polls[p := if s.clients == map[] then Idle(MaxSeq(s.feed)) else Begun(s.cursor)])
    case PollFetch(p) =>
      var from := s.polls[p].from;
      s.(polls := s.polls[p := Fetched(from, Limited(Above(s.feed, from), BATCH_LIMIT))])
    case PollFinish(p) => Landed(s, p)
    case CatchUpRead(k) =>
      var c := s.clients[k];
      var batch := ReadChangesAfter(s.feed, Finite(c.catchUp.cursor as real), DEFAULT_LIMIT);
      s.(clients := s.clients[k := c.(catchUp := Reading(batch))])
    case CatchUpSend(k) =>
      s.(clients := s.clients[k := PageSent(s.clients[k], s.clients[k].catchUp.batch)])
  }

  // ---- what must hold -------------------------------------------------------------------

  /** Every feed row in (lo, hi] has been sent. */
  ghost predicate Covered(feed: Feed, lo: int, hi: int, sent: set<nat>) {
    forall i | 0 <= i < |feed| && lo < feed[i].seqNo <= hi :: feed[i].seqNo in sent
  }

  /** No connected client whose catch-up is over misses a row between its start and the cursor. */
  ghost predicate NoMiss(s: State) {
    forall k | k in s.clients && s.clients[k].catchUp.Ended? ::
      Covered(s.feed, s.clients[k].start, s.cursor, s.clients[k].sent)
  }

  ghost predicate Known(feed: Feed, n: nat) {
    n == 0 || n in SeqNos(feed)
  }

  /** The catch-up owes no further read: it is over, or has read its last page. */
  predicate ReadOut(c: Client) {
    c.catchUp.Ended? || (c.catchUp.Reading? && !c.catchUp.batch.hasMore)
  }

  /** What the client has been sent, with the page it is about to be sent. */
  function Due(c: Client): set<nat> {
    if c.catchUp.Reading? then c.sent + SeqNos(c.catchUp.batch.changes) else c.sent
  }

  /** How far a catch-up with reads to come has read. */
  function ReadTo(c: Client): int
    requires !c.catchUp.Ended?
  {
    if c.catchUp.AtTop? then c.catchUp.cursor else c.catchUp.batch.cursor
  }

  /** A client that will read no more has every row up to the hub cursor; any other will read on from a
      place up to which it has every row, and read to the end of the feed. */
  ghost predicate ClientOk(s: State, c: Client) {
    && (ReadOut(c) ==> Covered(s.feed, c.start, s.cursor, Due(c)))
    && (!ReadOut(c) ==> ReadTo(c) <= MaxSeq(s.feed) && Covered(s.feed, c.start, ReadTo(c), Due(c)))
    && (c.catchUp.Reading? && c.catchUp.batch.changes == [] ==> !c.catchUp.batch.hasMore)
  }

  /** The poll will move the cursor, and broadcast rows from `from` on, or may. */
  predicate Moving(poll: Poll) {
    poll.Begun? || (poll.Fetched? && poll.rows != [])
  }

  ghost predicate PollOk(s: State, poll: Poll) {
    && (Moving(poll) ==> poll.from <= s.cursor && Known(s.feed, poll.from))
    && match poll
       case Begun(_) => true
       case Idle(max) => Known(s.feed, max)
       case Fetched(from, rows) =>
         && (rows != [] ==>
               && rows[|rows| - 1].seqNo in SeqNos(s.feed)
               && Covered(s.feed, from, rows[|rows| - 1].seqNo, SeqNos(rows)))
         && forall n | n in SeqNos(rows) :: n > from
  }

  ghost predicate Inv(s: State) {
    && Ascending(s.feed) && Known(s.feed, s.cursor)
    && (forall k | k in s.clients :: ClientOk(s, s.clients[k]))
    && (forall p | p in s.polls :: PollOk(s, s.polls[p]))
  }

  /** No other poll in flight that will move the cursor began above where this landing puts it; and a
      poll begun without subscribers, which broadcasts nothing, passes over no row that a client which
      reads no more lacks. */
  ghost predicate Guarded(s: State, step: Step)
    requires Enabled(s, step)
  {
    step.PollFinish? ==>
      && (forall q | q in s.polls && q != step.p && Moving(s.polls[q]) :: s.polls[q].from <= Landed(s, step.p).cursor)
      && (s.polls[step.p].Idle? ==>
            forall k | k in s.clients && ReadOut(s.clients[k]) ::
              Covered(s.feed, s.clients[k].start, s.polls[step.p].max, Due(s.clients[k])))
  }

  lemma KnownBound(feed: Feed, n: nat)
    requires Ascending(feed) && Known(feed, n)
    ensures n <= MaxSeq(feed)
  {
  }

  lemma InvMeansNoMiss(s: State)
    requires Inv(s)
    ensures NoMiss(s)
  {
    forall k | k in s.clients && s.clients[k].catchUp.Ended?
      ensures Covered(s.feed, s.clients[k].start, s.cursor, s.clients[k].sent)
    {
      assert ClientOk(s, s.clients[k]);
    }
  }

  lemma SeqNosGrow(feed: Feed, row: Row)
    requires Ascending(feed) && row.seqNo > MaxSeq(feed)
    ensures SeqNos(feed + [row]) == SeqNos(feed) + {row.seqNo} && Ascending(feed + [row])
  {
    assert (feed + [row])[|feed|] == row;
    assert forall i | 0 <= i < |feed| :: (feed + [row])[i] == feed[i];
  }

  lemma CoveredByLonger(feed: Feed, row: Row)
    requires row.seqNo > MaxSeq(feed)
    ensures forall lo: int, hi: int, sent | hi <= MaxSeq(feed) && Covered(feed, lo, hi, sent) ::
              Covered(feed + [row], lo, hi, sent)
  {
  }

  lemma AppendKeeps(s: State, row: Row)
    requires Inv(s) && row.seqNo > MaxSeq(s.feed)
    ensures Inv(s.(feed := s.feed + [row]))
  {
    hide Covered, SeqNos;
    var t := s.(feed := s.feed + [row]);
    KnownBound(s.feed, s.cursor);
    SeqNosGrow(s.feed, row);
    assert forall lo: int, hi: int, sent | hi <= MaxSeq(s.feed) && Covered(s.feed, lo, hi, sent) ::
        Covered(t.feed, lo, hi, sent) by {
      CoveredByLonger(s.feed, row);
    }
    forall k | k in t.clients ensures ClientOk(t, t.clients[k]) {
      assert ClientOk(s, s.clients[k]);
    }
    forall p | p in t.polls ensures PollOk(t, t.polls[p]) {
      assert PollOk(s, s.polls[p]);
      if s.polls[p].Fetched? && s.polls[p].rows != [] {
        KnownBound(s.feed, s.polls[p].rows[|s.polls[p].rows| - 1].seqNo);
      }
    }
  }

  /** A query's rows cover the feed from its start to its last row. */
  lemma FetchCovers(feed: Feed, from: nat)
    requires Ascending(feed)
    ensures var rows := Limited(Above(feed, from), BATCH_LIMIT);
            && (forall n | n in SeqNos(rows) :: n > from)
            && (rows != [] ==> rows[|rows| - 1].seqNo in SeqNos(feed)
                               && Covered(feed, from, rows[|rows| - 1].seqNo, SeqNos(rows)))
            && (rows == [] ==> MaxSeq(feed) <= from)
  {
    var rows, k := Limited(Above(feed, from), BATCH_LIMIT), FirstAbove(feed, from);
    var n := |rows|;
    assert forall i | 0 <= i < n :: rows[i] == feed[k + i];
    forall i | 0 <= i < n ensures rows[i].seqNo > from {
      assert feed[k].seqNo <= feed[k + i].seqNo;
    }
    if n > 0 {
      assert feed[k + n - 1].seqNo in SeqNos(feed);
      forall i | 0 <= i < |feed| && from < feed[i].seqNo <= rows[n - 1].seqNo
        ensures feed[i].seqNo in SeqNos(rows)
      {
        assert k <= i < k + n;
        assert rows[i - k].seqNo == feed[i].seqNo;
      }
    }
  }

  lemma SpanRows(feed: Feed, rows: seq<Row>, k: nat)
    requires k + |rows| <= |feed| && rows == feed[k..k + |rows|]
    ensures forall i | k <= i < k + |rows| :: feed[i].seqNo in SeqNos(rows)
  {
    forall i | k <= i < k + |rows| ensures feed[i].seqNo in SeqNos(rows) {
      assert rows[i - k] == feed[i];
    }
  }

  lemma SpanBound(feed: Feed, start: nat, hi: nat)
    requires Ascending(feed)
    ensures var k := FirstAbove(feed, start); forall i | k <= i < |feed| :: start < feed[i].seqNo <= MaxSeq(feed)
    ensures FirstAbove(feed, hi) < |feed| ==> hi < feed[FirstAbove(feed, hi)].seqNo
  {
    hide FirstAbove;
    var k := FirstAbove(feed, start);
    forall i | k <= i < |feed| ensures start < feed[i].seqNo {
      assert feed[k].seqNo <= feed[i].seqNo;
    }
  }

  lemma SpanCovers(feed: Feed, lo: int, start: nat, rows: seq<Row>, k: nat, hi: int)
    requires Ascending(feed) && k + |rows| <= |feed| && rows == feed[k..k + |rows|]
    requires forall i | 0 <= i < k :: feed[i].seqNo <= start
    requires start == (if lo > 0 then lo else 0) && (k + |rows| < |feed| ==> hi < feed[k + |rows|].seqNo)
    ensures Covered(feed, lo, hi, SeqNos(rows))
  {
    SpanRows(feed, rows, k);
    assert forall i | k + |rows| <= i < |feed| :: feed[i].seqNo >= feed[k + |rows|].seqNo;
  }

  /** A page covers the feed from the cursor it was read with to its own cursor, and to the end of
      the feed when there is no further page. */
  lemma PageCovers(feed: Feed, cursor: int)
    requires Ascending(feed) && cursor <= MaxSeq(feed)
    ensures var b := ReadChangesAfter(feed, Finite(cursor as real), DEFAULT_LIMIT);
            && cursor <= b.cursor <= MaxSeq(feed)
            && (b.changes == [] ==> !b.hasMore)
            && Covered(feed, cursor, b.cursor, SeqNos(b.changes))
            && (!b.hasMore ==> Covered(feed, cursor, MaxSeq(feed), SeqNos(b.changes)))
  {
    hide ReadChangesAfter, Covered, SeqNos, Ascending, FirstAbove;
    var after := Finite(cursor as real);
    var b, start := ReadChangesAfter(feed, after, DEFAULT_LIMIT), NormalizedAfter(after);
    assert start == if cursor > 0 then cursor else 0;
    PageSpan(feed, after, DEFAULT_LIMIT);
    var k := FirstAbove(feed, start);
    SpanBound(feed, start, b.cursor);
    SpanCovers(feed, cursor, start, b.changes, k, b.cursor);
    if !b.hasMore {
      SpanCovers(feed, cursor, start, b.changes, k, MaxSeq(feed));
    }
  }

  lemma PollBeginKeeps(s: State, p: Id)
    requires Inv(s) && Enabled(s, PollBegin(p))
    ensures Inv(Next(s, PollBegin(p)))
  {
    var t := Next(s, PollBegin(p));
    forall k | k in t.clients ensures ClientOk(t, t.clients[k]) { assert ClientOk(s, s.clients[k]); }
    forall q | q in t.polls ensures PollOk(t, t.polls[q]) {
      if q != p { assert PollOk(s, s.polls[q]); }
    }
  }

  lemma PollFetchKeeps(s: State, p: Id)
    requires Inv(s) && Enabled(s, PollFetch(p))
    ensures Inv(Next(s, PollFetch(p)))
  {
    hide Covered, Limited, Above;
    var t := Next(s, PollFetch(p));
    assert PollOk(s, s.polls[p]);
    FetchCovers(s.feed, s.polls[p].from);
    forall k | k in t.clients ensures ClientOk(t, t.clients[k]) { assert ClientOk(s, s.clients[k]); }
    forall q | q in t.polls ensures PollOk(t, t.polls[q]) {
      if q != p { assert PollOk(s, s.polls[q]); }
    }
  }

  lemma CoveredGrows(feed: Feed, lo: int, hi: int, sent: set<nat>, more: set<nat>)
    requires Covered(feed, lo, hi, sent)
    ensures Covered(feed, lo, hi, sent + more)
  {
  }

  /** Rows broadcast from `from` extend what a subscriber has been sent, if it already had
      everything up to a cursor not below `from`. */
  lemma CoveredExtends(feed: Feed, lo: int, mid: int, from: int, hi: int, sent: set<nat>, rows: set<nat>)
    requires Covered(feed, lo, mid, sent) && Covered(feed, from, hi, rows) && from <= mid
    ensures Covered(feed, lo, hi, sent + rows)
  {
  }

  /** A broadcast of rows from the cursor or below leaves no client short, wherever it puts the cursor. */
  lemma BroadcastKeeps(s: State, c: Client, from: nat, rows: seq<Row>)
    requires ClientOk(s, c) && PollOk(s, Fetched(from, rows)) && rows != []
    ensures ClientOk(s.(cursor := rows[|rows| - 1].seqNo), c.(sent := c.sent + SeqNos(rows)))
  {
    hide Covered, SeqNos;
    var last, more, d := rows[|rows| - 1].seqNo, SeqNos(rows), c.(sent := c.sent + SeqNos(rows));
    assert Due(d) == Due(c) + more;
    if ReadOut(c) {
      CoveredExtends(s.feed, c.start, s.cursor, from, last, Due(c), more);
    } else {
      CoveredGrows(s.feed, c.start, ReadTo(c), Due(c), more);
    }
  }

  lemma LandedFrame(s: State, p: Id)
    requires Enabled(s, PollFinish(p))
    ensures var t := Landed(s, p);
            t.feed == s.feed && t.polls == s.polls - {p} && t.clients.Keys == s.clients.Keys
  {
  }

  lemma LandedKnown(s: State, p: Id)
    requires Inv(s) && Enabled(s, PollFinish(p))
    ensures Known(s.feed, Landed(s, p).cursor)
  {
    assert PollOk(s, s.polls[p]);
  }

  lemma LandedClient(s: State, p: Id, k: Id)
    requires Inv(s) && Enabled(s, PollFinish(p)) && k in s.clients
    ensures k in Landed(s, p).clients
    ensures ClientOk(Landed(s, p), Landed(s, p).clients[k]) <==>
            (s.polls[p].Idle? && ReadOut(s.clients[k]) ==>
               Covered(s.feed, s.clients[k].start, s.polls[p].max, Due(s.clients[k])))
  {
    hide Covered, SeqNos;
    var poll := s.polls[p];
    assert ClientOk(s, s.clients[k]) && PollOk(s, poll);
    if poll.Fetched? && poll.rows != [] {
      BroadcastKeeps(s, s.clients[k], poll.from, poll.rows);
    }
  }

  lemma LandedPoll(s: State, p: Id, q: Id)
    requires Inv(s) && Enabled(s, PollFinish(p)) && q in s.polls && q != p
    ensures PollOk(Landed(s, p), s.polls[q]) <==> (Moving(s.polls[q]) ==> s.polls[q].from <= Landed(s, p).cursor)
  {
    hide Covered, SeqNos;
    assert PollOk(s, s.polls[q]);
  }

  /** A landing keeps the invariant if and only if it is guarded. */
  lemma LandingKeepsIff(s: State, p: Id)
    requires Inv(s) && Enabled(s, PollFinish(p))
    ensures Inv(Next(s, PollFinish(p))) <==> Guarded(s, PollFinish(p))
  {
    hide Covered, SeqNos, ClientOk, PollOk;
    var t := Landed(s, p);
    LandedFrame(s, p);
    LandedKnown(s, p);
    forall k | k in s.clients { LandedClient(s, p, k); }
    forall q | q in s.polls && q != p { LandedPoll(s, p, q); }
    if Inv(t) {
      forall q | q in s.polls && q != p ensures PollOk(t, s.polls[q]) {
        assert q in t.polls && t.polls[q] == s.polls[q];
      }
    }
  }

  lemma ConnectKeeps(s: State, k: Id, after: Option<int>)
    requires Inv(s) && Enabled(s, Connect(k, after))
    ensures Inv(Next(s, Connect(k, after)))
  {
    KnownBound(s.feed, s.cursor);
    var t := Next(s, Connect(k, after));
    forall o | o in t.clients ensures ClientOk(t, t.clients[o]) {
      if o != k { assert ClientOk(s, s.clients[o]); }
    }
    forall q | q in t.polls ensures PollOk(t, t.polls[q]) { assert PollOk(s, s.polls[q]); }
  }

  lemma CoveredUpTo(feed: Feed, lo: int, hi: int, nearer: int, sent: set<nat>)
    requires Covered(feed, lo, hi, sent) && nearer <= hi
    ensures Covered(feed, lo, nearer, sent)
  {
  }

  lemma ReadKeepsClient(s: State, c: Client)
    requires Inv(s) && ClientOk(s, c) && c.catchUp.AtTop?
    ensures var page := ReadChangesAfter(s.feed, Finite(c.catchUp.cursor as real), DEFAULT_LIMIT);
            ClientOk(s, c.(catchUp := Reading(page)))
  {
    hide ReadChangesAfter, Covered, SeqNos;
    var at, feed := c.catchUp.cursor, s.feed;
    var b := ReadChangesAfter(feed, Finite(at as real), DEFAULT_LIMIT);
    PageCovers(feed, at);
    KnownBound(feed, s.cursor);
    if b.hasMore {
      CoveredExtends(feed, c.start, at, at, b.cursor, c.sent, SeqNos(b.changes));
    } else {
      CoveredExtends(feed, c.start, at, at, MaxSeq(feed), c.sent, SeqNos(b.changes));
      CoveredUpTo(feed, c.start, MaxSeq(feed), s.cursor, c.sent + SeqNos(b.changes));
    }
  }

  lemma SendKeepsClient(s: State, c: Client)
    requires ClientOk(s, c) && c.catchUp.Reading?
    ensures ClientOk(s, PageSent(c, c.catchUp.batch))
  {
    hide Covered, SeqNos;
  }

  lemma SameForClient(s: State, t: State, c: Client)
    requires t.feed == s.feed && t.cursor == s.cursor
    ensures ClientOk(s, c) <==> ClientOk(t, c)
  {
  }

  lemma CatchUpKeeps(s: State, step: Step)
    requires Inv(s) && Enabled(s, step) && (step.CatchUpRead? || step.CatchUpSend?)
    ensures Inv(Next(s, step))
  {
    hide ReadChangesAfter, Covered, ClientOk, PageSent;
    var t := Next(s, step);
    assert ClientOk(s, s.clients[step.k]);
    if step.CatchUpRead? { ReadKeepsClient(s, s.clients[step.k]); } else { SendKeepsClient(s, s.clients[step.k]); }
    forall o | o in t.clients ensures ClientOk(t, t.clients[o]) {
      SameForClient(s, t, t.clients[o]);
    }
    forall q | q in t.polls ensures PollOk(t, t.polls[q]) { assert PollOk(s, s.polls[q]); }
  }

  lemma DisconnectKeeps(s: State, k: Id)
    requires Inv(s) && Enabled(s, Disconnect(k))
    ensures Inv(Next(s, Disconnect(k)))
  {
    hide Covered;
    var t := Next(s, Disconnect(k));
    forall o | o in t.clients ensures ClientOk(t, t.clients[o]) { assert ClientOk(s, s.clients[o]); }
    forall q | q in t.polls ensures PollOk(t, t.polls[q]) { assert PollOk(s, s.polls[q]); }
  }

  /** A step keeps the invariant if and only if it is guarded; only landings need the guard. */
  lemma StepKeepsIff(s: State, step: Step)
    requires Inv(s) && Enabled(s, step)
    ensures Inv(Next(s, step)) <==> Guarded(s, step)
  {
    hide Covered, ClientOk, PollOk, Landed;
    match step
    case Append(row) => AppendKeeps(s, row);
    case Connect(k, after) => ConnectKeeps(s, k, after);
    case Disconnect(k) => DisconnectKeeps(s, k);
    case PollBegin(p) => PollBeginKeeps(s, p);
    case PollFetch(p) => PollFetchKeeps(s, p);
    case PollFinish(p) => LandingKeepsIff(s, p);
    case CatchUpRead(_) => CatchUpKeeps(s, step);
    case CatchUpSend(_) => CatchUpKeeps(s, step);
  }

  // ---- runs -----------------------------------------------------------------------------

  ghost predicate Runs(s: State, steps: seq<Step>)
    decreases |steps|
  {
    steps != [] ==> Enabled(s, steps[0]) && Runs(Next(s, steps[0]), steps[1..])
  }

  ghost predicate AllGuarded(s: State, steps: seq<Step>)
    requires Runs(s, steps)
    decreases |steps|
  {
    steps != [] ==> Guarded(s, steps[0]) && AllGuarded(Next(s, steps[0]), steps[1..])
  }

  ghost function After(s: State, steps: seq<Step>): State
    requires Runs(s, steps)
    decreases |steps|
  {
    if steps == [] then s else After(Next(s, steps[0]), steps[1..])
  }

  /** The hub after `start()` has read its first cursor. */
  function Started(feed: Feed): State { State(feed, MaxSeq(feed), map[], map[]) }

  lemma {:induction false} RunKeeps(s: State, steps: seq<Step>)
    requires Inv(s) && Runs(s, steps) && AllGuarded(s, steps)
    ensures Inv(After(s, steps))
    decreases |steps|
  {
    hide Inv, Enabled, Guarded, Next;
    if steps != [] {
      StepKeepsIff(s, steps[0]);
      RunKeeps(Next(s, steps[0]), steps[1..]);
    }
  }

  /** A subscriber starts a catch-up exactly when it names a row below the cursor, from that row, and
      has been sent nothing yet. */
  lemma ConnectCatchesUp(s: State, k: Id, after: Option<int>)
    requires Enabled(s, Connect(k, after))
    ensures var t := Next(s, Connect(k, after));
            && k in t.clients && t.clients[k].sent == {}
            && (if after.Some? && after.value < s.cursor then t.clients[k].catchUp == AtTop(after.value)
                else t.clients[k].catchUp == Ended)
  {
  }

  lemma StepKeepsStart(s: State, step: Step, k: Id)
    requires Enabled(s, step) && k in s.clients && step != Disconnect(k)
    ensures k in Next(s, step).clients && Next(s, step).clients[k].start == s.clients[k].start
  {
    hide ReadChangesAfter, Limited, Above;
  }

  lemma {:induction false} StartStays(s: State, steps: seq<Step>, k: Id)
    requires Runs(s, steps) && k in s.clients && Disconnect(k) !in steps
    ensures k in After(s, steps).clients && After(s, steps).clients[k].start == s.clients[k].start
    decreases |steps|
  {
    hide Enabled, Next;
    if steps != [] {
      StepKeepsStart(s, steps[0], k);
      StartStays(Next(s, steps[0]), steps[1..], k);
    }
  }

  lemma HasRow(s: State, k: Id, row: Row)
    requires NoMiss(s) && k in s.clients && s.clients[k].catchUp.Ended? && row in s.feed
    ensures s.clients[k].start < row.seqNo <= s.cursor ==> row.seqNo in s.clients[k].sent
  {
    var i :| 0 <= i < |s.feed| && s.feed[i] == row;
  }

  /** In every interleaving whose landings are guarded, stale ones included: a client that connected and
      stayed, and whose catch-up is over, has been sent every row up to the hub cursor above the row it
      named, or above the cursor at its connecting if it named none below that. */
  lemma NoClientMissesARow(feed: Feed, before: seq<Step>, k: Id, after: Option<int>, later: seq<Step>, row: Row)
    requires Ascending(feed) && Runs(Started(feed), before) && AllGuarded(Started(feed), before)
    requires Enabled(After(Started(feed), before), Connect(k, after))
    requires var t := Next(After(Started(feed), before), Connect(k, after)); Runs(t, later) && AllGuarded(t, later)
    requires Disconnect(k) !in later
    ensures var s := After(Started(feed), before);
            var end := After(Next(s, Connect(k, after)), later);
            && k in end.clients
            && (end.clients[k].catchUp.Ended? && row in end.feed && row.seqNo <= end.cursor
                && (row.seqNo > s.cursor || (after.Some? && row.seqNo > after.value))
                ==> row.seqNo in end.clients[k].sent)
  {
    hide Runs, AllGuarded, After, Guarded, Covered;
    var s := After(Started(feed), before);
    var t := Next(s, Connect(k, after));
    RunKeeps(Started(feed), before);
    ConnectKeeps(s, k, after);
    RunKeeps(t, later);
    StartStays(t, later, k);
    var end := After(t, later);
    InvMeansNoMiss(end);
    if end.clients[k].catchUp.Ended? && row in end.feed {
      HasRow(end, k, row);
    }
  }

  /** What a poll with subscribers that nothing interrupts does: every client is sent exactly the first
      500 rows above the cursor, which moves to the last of them. */
  lemma PollDelivers(s: State, p: Id, k: Id)
    requires Ascending(s.feed) && p !in s.polls && k in s.clients
    ensures Enabled(s, PollBegin(p)) && Enabled(Next(s, PollBegin(p)), PollFetch(p))
    ensures Enabled(Next(Next(s, PollBegin(p)), PollFetch(p)), PollFinish(p))
    ensures var t := Next(Next(Next(s, PollBegin(p)), PollFetch(p)), PollFinish(p));
            var n := |Above(s.feed, s.cursor)|;
            && k in t.clients && t.polls == s.polls && t.feed == s.feed
            && (n == 0 ==> t == s)
            && (n > 0 ==>
                  var rows := Above(s.feed, s.cursor)[..if n > 500 then 500 else n];
                  t.cursor == rows[|rows| - 1].seqNo
                  && t.clients[k] == s.clients[k].(sent := s.clients[k].sent + SeqNos(rows)))
  {
    hide Above;
    var a := Next(s, PollBegin(p));
    var b := Next(a, PollFetch(p));
    var t := Next(b, PollFinish(p));
    var rows := Above(s.feed, s.cursor);
    assert t.polls == s.polls;
    if |rows| > 0 {
      var last := (if |rows| > 500 then 500 else |rows|) - 1;
      assert Limited(rows, BATCH_LIMIT) == rows[..last + 1];
    }
  }

  /** And one without subscribers moves the cursor to the end of the feed. */
  lemma IdlePollMovesOn(s: State, p: Id)
    requires p !in s.polls && s.clients == map[]
    ensures Enabled(s, PollBegin(p)) && Enabled(Next(s, PollBegin(p)), PollFinish(p))
    ensures Next(Next(s, PollBegin(p)), PollFinish(p)) ==
            s.(cursor := if s.feed == [] then 0 else s.feed[|s.feed| - 1].seqNo)
  {
    assert Next(Next(s, PollBegin(p)), PollFinish(p)).polls == s.polls;
  }

  /** A page of a catch-up is the first 500 rows above its cursor, and it is over with the last of them. */
  lemma CatchUpPages(s: State, k: Id)
    requires Ascending(s.feed) && Enabled(s, CatchUpRead(k))
    ensures var t, c := Next(s, CatchUpRead(k)), s.clients[k];
            var rows := Above(s.feed, NormalizedAfter(Finite(c.catchUp.cursor as real)));
            var page := if |rows| <= 500 then rows else rows[..500];
            && Enabled(t, CatchUpSend(k)) && t.clients[k].catchUp.batch.changes == page
            && var u := Next(t, CatchUpSend(k));
               && u.clients[k].sent == c.sent + SeqNos(page) && u.cursor == s.cursor && u.feed == s.feed
               && (u.clients[k].catchUp.Ended? <==> |rows| <= 500)
               && (forall o | o in s.clients && o != k :: o in u.clients && u.clients[o] == s.clients[o])
  {
    hide Ascending, Above, ReadChangesAfter, SeqNos, NormalizedAfter;
    PageIsFull(s.feed, Finite(s.clients[k].catchUp.cursor as real), DEFAULT_LIMIT);
  }

  // ---- simpler guards that are enough ---------------------------------------------------

  /** A poll lands in order: it does not move the cursor back, and one begun with no subscriber
      does not jump over rows for a subscriber that joined meanwhile. */
  predicate InOrder(s: State, step: Step)
    requires Enabled(s, step)
  {
    step.PollFinish? ==>
      match s.polls[step.p]
      case Fetched(_, rows) => rows == [] || rows[|rows| - 1].seqNo >= s.cursor
      case Idle(max) => max >= s.cursor && (s.clients == map[] || max == s.cursor)
  }

  lemma InOrderIsGuarded(s: State, step: Step)
    requires Inv(s) && Enabled(s, step) && InOrder(s, step)
    ensures Guarded(s, step)
  {
    hide Covered, SeqNos;
    if step.PollFinish? {
      forall q | q in s.polls && q != step.p && Moving(s.polls[q]) ensures s.polls[q].from <= s.cursor {
        assert PollOk(s, s.polls[q]);
      }
      forall k | k in s.clients && ReadOut(s.clients[k])
        ensures Covered(s.feed, s.clients[k].start, s.cursor, Due(s.clients[k]))
      {
        assert ClientOk(s, s.clients[k]);
      }
    }
  }

  /** The guard the other pollers of the repository have and the hub has not: a poll begins only
      when none is in flight; and a poll begun with no subscribers is a single step. */
  ghost predicate OnePollAtATime(s: State, step: Step) {
    && (step.PollBegin? ==> s.polls == map[])
    && ((exists p :: p in s.polls && s.polls[p].Idle?) ==> step.PollFinish?)
  }

  ghost predicate OneAtATime(s: State, steps: seq<Step>)
    requires Runs(s, steps)
    decreases |steps|
  {
    steps != [] ==> OnePollAtATime(s, steps[0]) && OneAtATime(Next(s, steps[0]), steps[1..])
  }

  ghost predicate AtMostOnePoll(s: State) {
    && (forall p, q | p in s.polls && q in s.polls :: p == q)
    && forall p | p in s.polls && s.polls[p].Idle? :: s.clients == map[]
  }

  lemma OnePollStep(s: State, step: Step)
    requires AtMostOnePoll(s) && Enabled(s, step) && OnePollAtATime(s, step)
    ensures Guarded(s, step) && AtMostOnePoll(Next(s, step))
  {
    hide Covered, Limited, Above;
  }

  /** So with one poll at a time no client ever misses a row. */
  lemma {:induction false} OneAtATimeIsGuarded(s: State, steps: seq<Step>)
    requires Inv(s) && AtMostOnePoll(s) && Runs(s, steps) && OneAtATime(s, steps)
    ensures AllGuarded(s, steps) && NoMiss(After(s, steps))
    decreases |steps|
  {
    hide Inv, Enabled, Guarded, Next, AtMostOnePoll, OnePollAtATime, NoMiss;
    if steps != [] {
      OnePollStep(s, steps[0]);
      StepKeepsIff(s, steps[0]);
      OneAtATimeIsGuarded(Next(s, steps[0]), steps[1..]);
    } else {
      InvMeansNoMiss(s);
    }
  }
}
