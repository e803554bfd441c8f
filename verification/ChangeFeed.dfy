/** The append-only change feed (`entity_changes`) and its paginated read, `readChangesAfter`. */
module ChangeFeed {

  const BATCH_LIMIT: nat := 500

  /** A feed row: its sequence number (from 1) and whatever it describes. */
  datatype Row = Row(seqNo: nat, payload: nat)

  /** The table in primary-key order. */
  type Feed = seq<Row>

  ghost predicate Ascending(feed: Feed) {
    && (forall i | 0 <= i < |feed| :: 1 <= feed[i].seqNo)
    && (forall i, j | 0 <= i < j < |feed| :: feed[i].seqNo < feed[j].seqNo)
  }

  function MaxSeq(feed: Feed): nat {
    if feed == [] then 0 else feed[|feed| - 1].seqNo
  }

  function SeqNos(rows: seq<Row>): set<nat> {
    set i | 0 <= i < |rows| :: rows[i].seqNo
  }

  /** A JavaScript number: finite, or one of NaN and the infinities. */
  datatype Number = Finite(value: real) | NotFinite

  function NormalizedAfter(after: Number): nat {
    if after.Finite? && after.value > 0.0 then after.value.Floor else 0
  }

  /** Clamped to 1 .. 500. */
  function NormalizedLimit(limit: Number): (n: nat)
    ensures 1 <= n <= BATCH_LIMIT
  {
    var requested := if limit.Finite? then limit.value.Floor else BATCH_LIMIT;
    var atMost := if requested < BATCH_LIMIT then requested else BATCH_LIMIT;
    if atMost < 1 then 1 else atMost
  }

  /** The index of the first row above `after`. */
  function FirstAbove(feed: Feed, after: nat): (k: nat)
    ensures k <= |feed|
    ensures forall i | 0 <= i < k :: feed[i].seqNo <= after
    ensures k < |feed| ==> feed[k].seqNo > after
  {
    if feed == [] || feed[0].seqNo > after then 0
    else
      var k := FirstAbove(feed[1..], after);
      assert forall i | 1 <= i < |feed| :: feed[i] == feed[1..][i - 1];
      k + 1
  }

  /** `WHERE seq > after ORDER BY seq`. */
  function Above(feed: Feed, after: nat): seq<Row> {
    feed[FirstAbove(feed, after)..]
  }

  /** `... LIMIT n`. */
  function Limited(rows: seq<Row>, n: nat): seq<Row> {
    if |rows| <= n then rows else rows[..n]
  }

  datatype Batch = Batch(changes: seq<Row>, cursor: nat, hasMore: bool)

  /** One row more than the limit is fetched to learn whether there are more. */
  function ReadChangesAfter(feed: Feed, after: Number, limit: Number): Batch {
    var start, n := NormalizedAfter(after), NormalizedLimit(limit);
    var rows := Limited(Above(feed, start), n + 1);
    var hasMore := |rows| > n;
    var returned := if hasMore then rows[..n] else rows;
    Batch(returned, if returned != [] then returned[|returned| - 1].seqNo else start, hasMore)
  }

  lemma SuffixAscends(feed: Feed, k: nat)
    requires Ascending(feed) && k <= |feed|
    ensures Ascending(feed[k..])
  {
    assert forall i | 0 <= i < |feed| - k :: feed[k..][i] == feed[k + i];
  }

  /** The rows of a query ascend ... */
  lemma AboveAscends(feed: Feed, after: nat)
    requires Ascending(feed)
    ensures Ascending(Above(feed, after))
  {
    SuffixAscends(feed, FirstAbove(feed, after));
  }

  /** ... and are exactly those above the cursor. */
  lemma AboveExactly(feed: Feed, after: nat, r: Row)
    requires Ascending(feed)
    ensures r in Above(feed, after) <==> r in feed && r.seqNo > after
  {
    var k := FirstAbove(feed, after);
    if r in feed[k..] {
      var i :| 0 <= i < |feed| - k && feed[k..][i] == r;
      assert feed[k + i] == r;
      assert feed[k].seqNo <= feed[k + i].seqNo;
    }
    if r in feed && r.seqNo > after {
      var i :| 0 <= i < |feed| && feed[i] == r;
      assert feed[k..][i - k] == r;
    }
  }

  /** Reading on from a row of the feed resumes directly after it. */
  lemma ResumesAfter(feed: Feed, i: nat)
    requires Ascending(feed) && i < |feed|
    ensures FirstAbove(feed, feed[i].seqNo) == i + 1
  {
    assert forall j | 0 <= j <= i :: feed[j].seqNo <= feed[i].seqNo;
  }

  lemma FirstPart(feed: Feed, k: nat, n: nat)
    requires k <= |feed| && n >= 1
    ensures var rows := Limited(feed[k..], n);
            && (|rows| == n ==> rows[..n - 1] == feed[k..k + n - 1] && k + n <= |feed|)
            && (|rows| < n ==> rows == feed[k..] && k + |rows| == |feed|)
  {
  }

  /** A page: where it starts and ends in the feed, and what the next page starts from. */
  lemma PageSpan(feed: Feed, after: Number, limit: Number)
    requires Ascending(feed)
    ensures var k, batch := FirstAbove(feed, NormalizedAfter(after)), ReadChangesAfter(feed, after, limit);
            && k + |batch.changes| <= |feed|
            && batch.changes == feed[k..k + |batch.changes|]
            && |batch.changes| <= NormalizedLimit(limit)
            && (batch.hasMore <==> k + |batch.changes| < |feed|)
            && (batch.hasMore ==> |batch.changes| >= 1)
            && FirstAbove(feed, batch.cursor) == k + |batch.changes|
            && batch.cursor == (if batch.changes == [] then NormalizedAfter(after)
                                else feed[k + |batch.changes| - 1].seqNo)
  {
    hide FirstAbove, Ascending;
    var k, batch := FirstAbove(feed, NormalizedAfter(after)), ReadChangesAfter(feed, after, limit);
    var n := |batch.changes|;
    FirstPart(feed, k, NormalizedLimit(limit) + 1);
    if n > 0 {
      assert batch.changes[n - 1] == feed[k + n - 1];
      ResumesAfter(feed, k + n - 1);
    }
  }

  lemma NormalizedInt(cursor: nat)
    ensures NormalizedAfter(Finite(cursor as real)) == cursor
  {
  }

  /** A client that follows `cursor` while `hasMore`, over a feed that does not change. */
  ghost function FollowPages(feed: Feed, after: Number, limit: Number): seq<Row>
    requires Ascending(feed)
    decreases |feed| - FirstAbove(feed, NormalizedAfter(after))
  {
    hide ReadChangesAfter, Ascending, FirstAbove, NormalizedAfter, NormalizedLimit;
    PageSpan(feed, after, limit);
    var batch := ReadChangesAfter(feed, after, limit);
    NormalizedInt(batch.cursor);
    if batch.hasMore then batch.changes + FollowPages(feed, Finite(batch.cursor as real), limit)
    else batch.changes
  }

  /** Whatever the start and the page size, following the cursor terminates and yields exactly
      the rows above the start, each once and in order. */
  lemma {:induction false} PaginationIsExact(feed: Feed, after: Number, limit: Number)
    requires Ascending(feed)
    ensures FollowPages(feed, after, limit) == Above(feed, NormalizedAfter(after))
    ensures Ascending(FollowPages(feed, after, limit))
    decreases |feed| - FirstAbove(feed, NormalizedAfter(after))
  {
    hide ReadChangesAfter, Ascending, FirstAbove, NormalizedAfter, NormalizedLimit;
    AboveAscends(feed, NormalizedAfter(after));
    PageSpan(feed, after, limit);
    var batch, k := ReadChangesAfter(feed, after, limit), FirstAbove(feed, NormalizedAfter(after));
    if batch.hasMore {
      NormalizedInt(batch.cursor);
      PaginationIsExact(feed, Finite(batch.cursor as real), limit);
      assert feed[k..] == feed[k..k + |batch.changes|] + feed[k + |batch.changes|..];
    }
  }

  /** A cursor that is a number reads what is above it, fractions included; one that is not reads all. */
  lemma CursorMeans(feed: Feed, after: Number, r: Row)
    requires Ascending(feed)
    ensures r in Above(feed, NormalizedAfter(after)) <==>
            r in feed && (after.Finite? ==> r.seqNo as real > after.value)
  {
    AboveExactly(feed, NormalizedAfter(after), r);
    if r in feed {
      var i :| 0 <= i < |feed| && feed[i] == r;
    }
  }

  /** A page holds everything above the cursor, or is full: as many rows as asked for, but at least one and
      at most 500, which is also what a limit that is no number gets. */
  lemma PageIsFull(feed: Feed, after: Number, limit: Number)
    requires Ascending(feed)
    ensures var rows, batch := Above(feed, NormalizedAfter(after)), ReadChangesAfter(feed, after, limit);
            var n := if limit.Finite? && limit.value < 1.0 then 1
                     else if limit.Finite? && limit.value < 500.0 then limit.value.Floor
                     else 500;
            && batch.changes == (if |rows| <= n then rows else rows[..n])
            && (batch.hasMore <==> |rows| > n)
  {
    hide FirstAbove, Ascending;
  }
}
