/** Writing a composed report into a delivery row: read, compose, then compare and set on the
    revision, and only then record the change.  Any number of writers, lease or no lease. */
module DeliveryWrites {
  import opened Common

  /** What a payload key holds. */
  type Value = nat

  type Payload = map<string, Value>

  const REPORT: string := "deliveryReport"

  /** A payload that does not parse as JSON is absent. */
  datatype Row = Row(revision: nat, payload: Option<Payload>, live: bool)

  /** A worker that has loaded the row, or has won the compare-and-set and still has to record it. */
  datatype Writer = Loaded(revision: nat, payload: Payload) | Won(revision: nat)

  /** The row and the writers; then the history: the payload at every revision, the revisions workers
      made, and the change rows they recorded. */
  datatype State = State(
    row: Row,
    writers: map<Id, Writer>,
    contents: map<nat, Option<Payload>>,
    made: set<nat>,
    log: seq<nat>)

  datatype Step =
    | Load(w: Id)
    | Write(w: Id, report: Value)
    | Record(w: Id)
    | Stop(w: Id)
    | Other(row: Row)

  /** Somebody else's write may change anything but raises the revision. */
  predicate Enabled(s: State, step: Step) {
    match step
    case Load(w) => w !in s.writers && s.row.live && s.row.payload.Some? && REPORT in s.row.payload.value
    case Write(w, _) => w in s.writers && s.writers[w].Loaded?
    case Record(w) => w in s.writers && s.writers[w].Won?
    case Stop(w) => w in s.writers
    case Other(row) => row.revision == s.row.revision + 1
  }

  /** `UPDATE deliveries ... WHERE revision = ? AND deleted_at IS NULL` changes a row. */
  predicate Wins(s: State, w: Id) {
    w in s.writers && s.writers[w].Loaded? && s.row.live && s.row.revision == s.writers[w].revision
  }

  function Next(s: State, step: Step): State
    requires Enabled(s, step)
  {
    match step
    case Load(w) => s.(writers := s.writers[w := Loaded(s.row.revision, s.row.payload.value)])
    case Write(w, report) =>
      if Wins(s, w) then
        var payload, revision := Some(s.writers[w].payload[REPORT := report]), s.row.revision + 1;
        s.(row := s.row.(revision := revision, payload := payload),
           writers := s.writers[w := Won(revision)],
           contents := s.contents[revision := payload],
           made := s.made + {revision})
      else s.(writers := s.writers - {w})
    case Record(w) => s.(writers := s.writers - {w}, log := s.log + [s.writers[w].revision])
    case Stop(w) => s.(writers := s.writers - {w})
    case Other(row) => s.(row := row, contents := s.contents[row.revision := row.payload])
  }

  /** The payloads agree on every key but the report. */
  ghost predicate KeepsOtherKeys(before: Option<Payload>, after: Option<Payload>) {
    && before.Some? && after.Some?
    && forall key | key != REPORT ::
         && (key in after.value <==> key in before.value)
         && (key in before.value ==> after.value[key] == before.value[key])
  }

  ghost predicate WriterOk(s: State, writer: Writer) {
    && writer.revision <= s.row.revision
    && match writer
       case Loaded(revision, payload) => revision in s.contents && s.contents[revision] == Some(payload)
       case Won(revision) => revision in s.made && revision !in s.log
  }

  ghost predicate MadeOk(s: State, revision: nat) {
    && 1 <= revision <= s.row.revision && revision in s.contents && revision - 1 in s.contents
    && KeepsOtherKeys(s.contents[revision - 1], s.contents[revision])
  }

  ghost predicate Inv(s: State) {
    && s.row.revision in s.contents && s.contents[s.row.revision] == s.row.payload
    && (forall w | w in s.writers :: WriterOk(s, s.writers[w]))
    && (forall v, w | v in s.writers && w in s.writers && s.writers[v].Won? && s.writers[v] == s.writers[w] :: v == w)
    && (forall r | r in s.made :: MadeOk(s, r))
    && (forall i | 0 <= i < |s.log| :: s.log[i] in s.made)
    && (forall i, j | 0 <= i < j < |s.log| :: s.log[i] != s.log[j])
  }

  /** A write that changes the row replaces exactly the revision it read: whatever the row holds at
      that moment under other keys, it still holds afterwards. */
  lemma WriteReplacesWhatItRead(s: State, w: Id, report: Value)
    requires Inv(s) && Enabled(s, Write(w, report))
    ensures var t := Next(s, Write(w, report));
            if Wins(s, w)
            then t.row.revision == s.writers[w].revision + 1 == s.row.revision + 1
                 && KeepsOtherKeys(s.row.payload, t.row.payload) && t.row.payload.value[REPORT] == report
            else t.row == s.row
  {
    assert WriterOk(s, s.writers[w]);
  }

  lemma WriterFacts(s: State, w: Id)
    requires Inv(s) && w in s.writers
    ensures s.writers[w].revision <= s.row.revision
    ensures s.writers[w].Won? ==> s.writers[w].revision in s.made && s.writers[w].revision !in s.log
  {
    assert WriterOk(s, s.writers[w]);
  }

  lemma StepKeepsWriter(s: State, step: Step, v: Id)
    requires Inv(s) && Enabled(s, step) && v in Next(s, step).writers
    ensures WriterOk(Next(s, step), Next(s, step).writers[v])
  {
    hide KeepsOtherKeys;
    if v in s.writers {
      assert WriterOk(s, s.writers[v]);
    }
    forall r | r in s.made ensures r <= s.row.revision { assert MadeOk(s, r); }
  }

  lemma StepKeepsMade(s: State, step: Step, r: nat)
    requires Inv(s) && Enabled(s, step) && r in Next(s, step).made
    ensures MadeOk(Next(s, step), r)
  {
    hide WriterOk;
    if r in s.made {
      assert MadeOk(s, r);
    } else {
      WriteReplacesWhatItRead(s, step.w, step.report);
    }
  }

  lemma StepKeeps(s: State, step: Step)
    requires Inv(s) && Enabled(s, step)
    ensures Inv(Next(s, step))
  {
    hide WriterOk, MadeOk, KeepsOtherKeys;
    var t := Next(s, step);
    forall v | v in t.writers ensures WriterOk(t, t.writers[v]) { StepKeepsWriter(s, step, v); }
    forall r | r in t.made ensures MadeOk(t, r) { StepKeepsMade(s, step, r); }
    forall v | v in s.writers { WriterFacts(s, v); }
  }

  ghost predicate Runs(s: State, steps: seq<Step>)
    decreases |steps|
  {
    steps == [] || (Enabled(s, steps[0]) && Runs(Next(s, steps[0]), steps[1..]))
  }

  ghost function After(s: State, steps: seq<Step>): State
    requires Runs(s, steps)
    decreases |steps|
  {
    if steps == [] then s else After(Next(s, steps[0]), steps[1..])
  }

  lemma {:induction false} RunKeeps(s: State, steps: seq<Step>)
    requires Inv(s) && Runs(s, steps)
    ensures Inv(After(s, steps))
    decreases |steps|
  {
    hide Inv, Enabled, Next;
    if steps != [] {
      StepKeeps(s, steps[0]);
      RunKeeps(Next(s, steps[0]), steps[1..]);
    }
  }

  function Start(row: Row): State {
    State(row, map[], map[row.revision := row.payload], {}, [])
  }

  /** Under any interleaving of workers and other writers: every revision a worker made differs from
      the one before it in the report alone, and has at most one change row from a worker, and no
      other revision has one. */
  lemma EveryRunKeepsPayloads(row: Row, steps: seq<Step>)
    requires Runs(Start(row), steps)
    ensures var s := After(Start(row), steps);
            && (forall r | r in s.made :: MadeOk(s, r))
            && (forall i | 0 <= i < |s.log| :: s.log[i] in s.made)
            && (forall i, j | 0 <= i < j < |s.log| :: s.log[i] != s.log[j])
  {
    hide Runs, After, MadeOk;
    RunKeeps(Start(row), steps);
  }

  /** A worker that is not interrupted between its write and its record: the row takes the report on top of
      what the worker read, at the next revision, and that revision is recorded once; a worker that
      comes too late, or finds the row deleted, changes and records nothing. */
  lemma PersistExactly(s: State, w: Id, report: Value)
    requires Inv(s) && Enabled(s, Write(w, report))
    ensures var read, t := s.writers[w], Next(s, Write(w, report));
            if s.row.live && s.row.revision == read.revision
            then Enabled(t, Record(w)) &&
                 var u := Next(t, Record(w));
                 && u.row == Row(read.revision + 1, Some(read.payload[REPORT := report]), true)
                 && u.log == s.log + [read.revision + 1] && u.writers == s.writers - {w}
            else t.row == s.row && t.log == s.log && t.writers == s.writers - {w}
  {
    assert WriterOk(s, s.writers[w]);
  }

  /** Once somebody else has written the row, no worker that had read it before can change it. */
  lemma OthersWin(s: State, row: Row, w: Id)
    requires Inv(s) && Enabled(s, Other(row)) && w in s.writers
    ensures var t := Next(s, Other(row)); t.row == row && t.writers == s.writers && !Wins(t, w)
  {
    assert WriterOk(s, s.writers[w]);
  }

  /** So a worker that has the row to itself gets its report in: of a live row that holds one. */
  lemma AloneSucceeds(s: State, w: Id, report: Value)
    requires Inv(s) && w !in s.writers
    ensures Enabled(s, Load(w)) <==> s.row.live && s.row.payload.Some? && REPORT in s.row.payload.value
    ensures Enabled(s, Load(w)) ==>
              var t := Next(s, Load(w));
              Enabled(t, Write(w, report)) &&
              var u := Next(t, Write(w, report));
              Enabled(u, Record(w)) &&
              var v := Next(u, Record(w));
              && v.row == Row(s.row.revision + 1, Some(s.row.payload.value[REPORT := report]), true)
              && v.log == s.log + [s.row.revision + 1]
  {
    if Enabled(s, Load(w)) {
      StepKeeps(s, Load(w));
      PersistExactly(Next(s, Load(w)), w, report);
    }
  }

  /** The row as a worker writes it when nobody comes between. */
  class Delivery {
    var row: Row
    var writers: map<Id, Writer>
    ghost var contents: map<nat, Option<Payload>>
    ghost var made: set<nat>
    var log: seq<nat>

    ghost function Snapshot(): State
      reads this
    {
      State(row, writers, contents, made, log)
    }

    method LoadComposeContext(w: Id) returns (found: bool)
      requires w !in writers
      modifies `writers
      ensures found <==> Enabled(old(Snapshot()), Load(w))
      ensures Snapshot() == if found then Next(old(Snapshot()), Load(w)) else old(Snapshot())
    {
      found := row.live && row.payload.Some? && REPORT in row.payload.value;
      if found {
        writers := writers[w := Loaded(row.revision, row.payload.value)];
      }
    }

    /** `persistDeliveryReport`: the compare-and-set, then the change row if it won. */
    method PersistDeliveryReport(w: Id, report: Value)
      requires w in writers && writers[w].Loaded?
      modifies `row, `writers, `contents, `made, `log
      ensures var s := old(Snapshot());
              Snapshot() == if Wins(s, w) then Next(Next(s, Write(w, report)), Record(w)) else Next(s, Write(w, report))
    {
      var loaded := writers[w];
      var payload := loaded.payload[REPORT := report];
      if row.live && row.revision == loaded.revision {
        row := row.(revision := row.revision + 1, payload := Some(payload));
        contents, made := contents[row.revision := Some(payload)], made + {row.revision};
        writers := writers[w := Won(row.revision)];
        log := log + [row.revision];
      }
      writers := writers - {w};
    }
  }
}
