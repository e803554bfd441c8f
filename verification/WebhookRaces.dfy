/** Why a redelivery must wait for the attempt under way: from every state with one, some continuation
    without a further impatient redelivery breaks the numbering. */
module WebhookRaces {
  import opened Common
  import opened WebhookQueue

  // ---- continuations --------------------------------------------------------------------

  lemma {:induction false} RunsOn(s: State, a: seq<Step>, b: seq<Step>)
    requires Runs(s, a) && AllPatient(s, a) && Runs(After(s, a), b) && AllPatient(After(s, a), b)
    ensures Runs(s, a + b) && AllPatient(s, a + b) && After(s, a + b) == After(After(s, a), b)
    decreases |a|
  {
    hide Enabled, Next, Patient;
    if a == [] {
      assert a + b == b;
    } else {
      RunsOn(Next(s, a[0]), a[1..], b);
      assert (a + b)[1..] == a[1..] + b;
    }
  }

  /** `t` follows from `s` by steps none of which is an impatient redelivery. */
  ghost predicate Reaches(s: State, t: State) {
    exists steps :: Runs(s, steps) && AllPatient(s, steps) && After(s, steps) == t
  }

  lemma ReachesItself(s: State)
    ensures Reaches(s, s)
  {
    assert Runs(s, []) && AllPatient(s, []) && After(s, []) == s;
  }

  lemma ReachesNext(s: State, step: Step)
    requires Enabled(s, step) && Patient(s, step)
    ensures Reaches(s, Next(s, step))
  {
    hide Enabled, Next, Patient;
    var t := Next(s, step);
    assert [step][1..] == [];
    assert Runs(t, []) && AllPatient(t, []) && After(t, []) == t;
    assert Runs(s, [step]) && AllPatient(s, [step]) && After(s, [step]) == t;
  }

  lemma ReachesOn(s: State, t: State, u: State)
    requires Reaches(s, t) && Reaches(t, u)
    ensures Reaches(s, u)
  {
    hide Runs, AllPatient, After;
    var a :| Runs(s, a) && AllPatient(s, a) && After(s, a) == t;
    var b :| Runs(t, b) && AllPatient(t, b) && After(t, b) == u;
    RunsOn(s, a, b);
  }

  lemma ReachesThen(s: State, t: State, step: Step)
    requires Reaches(s, t) && Enabled(t, step) && Patient(t, step)
    ensures Reaches(s, Next(t, step))
  {
    hide Enabled, Next, Patient, Reaches;
    ReachesNext(t, step);
    ReachesOn(s, t, Next(t, step));
  }

  // ---- a message that is due can be claimed ----------------------------------------------

  function DueIn(s: State): set<Id> {
    set m | m in s.messages && Due(s.messages[m], s.now)
  }

  lemma SomeNext(s: State)
    requires DueIn(s) != {}
    ensures exists m :: m in DueIn(s) && IsNext(s.messages, s.now, Some(m))
  {
    var times := set m | m in DueIn(s) :: s.messages[m].availableAt;
    HasElement(DueIn(s));
    var one: Id :| one in DueIn(s);
    assert s.messages[one].availableAt in times;
    var least := MinOf(times);
    var m: Id :| m in DueIn(s) && s.messages[m].availableAt == least;
    forall k | k in s.messages && Due(s.messages[k], s.now)
      ensures s.messages[m].availableAt <= s.messages[k].availableAt
    {
      assert s.messages[k].availableAt in times;
    }
  }

  /** The state in which `v` has claimed `m` and other due messages may have been claimed before it. */
  ghost predicate ClaimedBy(s: State, t: State, v: Id, m: Id) {
    && t.now == s.now && t.subs == s.subs && t.log == s.log && t.messages.Keys == s.messages.Keys
    && m in s.messages && t.messages[m] == s.messages[m].(status := Processing)
    && t.deliveries == s.deliveries[v := Claimed(m, s.messages[m].attempts)]
  }

  lemma DueHasRow(s: State, m: Id)
    requires m in DueIn(s)
    ensures m in s.messages
  {
  }

  lemma FewerDue(s: State, k: Id, u: State)
    requires k in DueIn(s) && u.now == s.now && u.messages == s.messages[k := s.messages[k].(status := Processing)]
    ensures DueIn(u) == DueIn(s) - {k} && |DueIn(u)| < |DueIn(s)|
  {
    assert DueIn(u) == DueIn(s) - {k};
  }

  /** A free dispatcher can claim any due message, whatever is due before it. */
  lemma {:induction false} DueIsClaimable(s: State, v: Id, m: Id) returns (t: State)
    requires m in DueIn(s) && v !in s.deliveries
    ensures Reaches(s, t) && ClaimedBy(s, t, v, m)
    decreases |DueIn(s)|
  {
    hide Reaches, IsNext, DueIn;
    SomeNext(s);
    DueHasRow(s, m);
    var k: Id :| k in DueIn(s) && IsNext(s.messages, s.now, Some(k));
    DueHasRow(s, k);
    assert s.messages - {} == s.messages;
    t := Next(s, Claim(v, {}, Some(k)));
    ReachesNext(s, Claim(v, {}, Some(k)));
    if k != m {
      var u := Next(t, Stop(v));
      ReachesThen(s, t, Stop(v));
      assert u.deliveries == s.deliveries;
      FewerDue(s, k, u);
      t := DueIsClaimable(u, v, m);
      ReachesOn(s, u, t);
    }
  }

  // ---- from an attempt under way to a broken numbering ------------------------------------

  /** The row and subscription let the message be sent. */
  predicate Sendable(s: State, m: Id) {
    && m in s.messages && s.messages[m].payload == Proper
    && s.messages[m].sub in s.subs && s.subs[s.messages[m].sub].live
  }

  /** `v` has come to send the next attempt of `m`, and what was logged or delivered is as before. */
  ghost predicate SentBy(s: State, t: State, v: Id, m: Id) {
    && m in s.messages && t.log == s.log && v in t.deliveries && t.deliveries[v].Sending?
    && t.deliveries[v].m == m && t.deliveries[v].number == s.messages[m].attempts + 1
    && forall d | d in s.deliveries && d != v :: d in t.deliveries && t.deliveries[d] == s.deliveries[d]
  }

  /** A delivery that has claimed a message comes to send it, once its subscription is enabled. */
  lemma ClaimIsSendable(s: State, v: Id) returns (t: State)
    requires v in s.deliveries && s.deliveries[v].Claimed? && Sendable(s, s.deliveries[v].m)
    ensures Reaches(s, t) && t.log == s.log && v in t.deliveries && t.deliveries[v].Sending?
    ensures t.deliveries[v].m == s.deliveries[v].m && t.deliveries[v].number == s.deliveries[v].attempts + 1
    ensures forall d | d in s.deliveries && d != v :: d in t.deliveries && t.deliveries[d] == s.deliveries[d]
    ensures t.now == s.now && t.deliveries.Keys == s.deliveries.Keys
    ensures t.messages == s.messages && t.subs.Keys == s.subs.Keys
    ensures forall sub | sub in s.subs :: t.subs[sub].live == s.subs[sub].live
  {
    hide Runs, AllPatient, After, Reaches;
    var sub := s.messages[s.deliveries[v].m].sub;
    ReachesNext(s, Update(sub, Some(true)));
    var u := Next(s, Update(sub, Some(true)));
    t := Next(u, Load(v));
    ReachesThen(s, u, Load(v));
  }

  lemma DueIsSendable(s: State, v: Id, m: Id) returns (t: State)
    requires m in DueIn(s) && v !in s.deliveries && Sendable(s, m)
    ensures Reaches(s, t) && SentBy(s, t, v, m)
  {
    hide Reaches, DueIn;
    var u := DueIsClaimable(s, v, m);
    t := ClaimIsSendable(u, v);
    ReachesOn(s, u, t);
  }

  ghost predicate CanBreak(s: State, m: Id) {
    exists t :: Reaches(s, t) && m in t.log && !Numbered(t.log[m])
  }

  lemma BreaksAfter(s: State, t: State, m: Id)
    requires Reaches(s, t) && CanBreak(t, m)
    ensures CanBreak(s, m)
  {
    hide Reaches, Numbered;
    var u :| Reaches(t, u) && m in u.log && !Numbered(u.log[m]);
    ReachesOn(s, t, u);
  }

  /** An attempt numbered 2 or more that heads the log. */
  lemma LateNumberBreaks(s: State, w: Id, m: Id)
    requires w in s.deliveries && s.deliveries[w].Sending? && s.deliveries[w].m == m && s.deliveries[w].number >= 2
    requires m in s.log && s.log[m] == []
    ensures CanBreak(s, m)
  {
    hide Reaches;
    var t := Next(s, Record(w, false));
    ReachesNext(s, Record(w, false));
    assert t.log[m] == [Attempt(s.deliveries[w].number, false)];
    assert t.log[m][0].number != 1;
  }

  /** Two attempts numbered 1. */
  lemma TwoFirstsBreak(s: State, w: Id, v: Id, m: Id)
    requires w != v && w in s.deliveries && v in s.deliveries && s.deliveries[w].Sending? && s.deliveries[v].Sending?
    requires s.deliveries[w].m == m && s.deliveries[v].m == m
    requires s.deliveries[w].number == 1 && s.deliveries[v].number == 1
    requires m in s.log && s.log[m] == []
    ensures CanBreak(s, m)
  {
    hide Reaches;
    var t := Next(s, Record(w, false));
    var u := Next(t, Record(v, false));
    ReachesNext(s, Record(w, false));
    ReachesThen(s, t, Record(v, false));
    assert u.log[m] == [Attempt(1, false), Attempt(1, false)];
    assert u.log[m][1].number != 2;
  }

  /** A redelivered message that is due and being sent. */
  lemma SendingBreaks(s: State, w: Id, v: Id, m: Id)
    requires w in s.deliveries && s.deliveries[w].Sending? && s.deliveries[w].m == m && s.deliveries[w].number >= 1
    requires m in DueIn(s) && v !in s.deliveries && Sendable(s, m)
    requires s.messages[m].attempts == 0 && m in s.log && s.log[m] == []
    ensures CanBreak(s, m)
  {
    hide Reaches, DueIn, CanBreak, Sendable;
    if s.deliveries[w].number >= 2 {
      LateNumberBreaks(s, w, m);
    } else {
      var t := DueIsSendable(s, v, m);
      TwoFirstsBreak(t, w, v, m);
      BreaksAfter(s, t, m);
    }
  }

  lemma NowDue(s: State, m: Id)
    requires m in s.messages && Due(s.messages[m], s.now)
    ensures m in DueIn(s)
  {
  }

  /** A failed attempt that is put back with its own number although the log is empty. */
  lemma SettlingBreaks(s: State, w: Id, v: Id, m: Id)
    requires Enabled(s, Settle(w)) && Attempting(s.deliveries[w]) && s.deliveries[w].m == m
    requires v !in s.deliveries && Sendable(s, m) && m in s.log && s.log[m] == []
    ensures CanBreak(s, m)
  {
    hide Reaches, CanBreak, DueIn;
    var t := Next(s, Settle(w));
    ReachesNext(s, Settle(w));
    var wait: nat := Delay(s.deliveries[w].number);
    var u := Next(t, Tick(wait));
    ReachesThen(s, t, Tick(wait));
    NowDue(u, m);
    var x := DueIsSendable(u, v, m);
    LateNumberBreaks(x, v, m);
    BreaksAfter(u, x, m);
    BreaksAfter(s, u, m);
  }

  lemma InvPhase(s: State, w: Id)
    requires AttemptsInv(s) && w in s.deliveries
    ensures PhaseOk(s, s.deliveries[w])
  {
  }

  /** From any state with an attempt under way for a message with a proper payload, a redelivery of it
      leads to a broken numbering, and no further redelivery need be impatient. */
  lemma ImpatienceBreaks(s: State, w: Id, v: Id)
    requires AttemptsInv(s) && w in s.deliveries && Attempting(s.deliveries[w]) && v !in s.deliveries
    requires Enabled(s, Redeliver(s.deliveries[w].m)) && s.messages[s.deliveries[w].m].payload == Proper
    ensures CanBreak(Next(s, Redeliver(s.deliveries[w].m)), s.deliveries[w].m)
  {
    hide Reaches, CanBreak, DueIn, AttemptsInv, AllFailed;
    var p, m := s.deliveries[w], s.deliveries[w].m;
    var t := Next(s, Redeliver(m));
    InvPhase(s, w);
    NowDue(t, m);
    match p {
      case Claimed(_, _) =>
        var u := ClaimIsSendable(t, w);
        NowDue(u, m) by { assert u.now == t.now; }
        SendingBreaks(u, w, v, m);
        BreaksAfter(t, u, m);
      case Sending(_, _, _, _) => SendingBreaks(t, w, v, m);
      case Recorded(_, _, _, _, _) => SettlingBreaks(t, w, v, m);
    }
  }

  // ---- which states and messages ---------------------------------------------------------

  lemma SendingIsSafeSoFar(s: State)
    requires s.messages == map[7 := Message(Processing, 0, 0, 5, Proper)] && s.log == map[7 := []]
    requires s.deliveries == map[1 := Sending(7, 1, 5, 0)] && 5 in s.subs
    ensures AttemptsInv(s)
  {
    assert MessageOk(s, 7);
  }

  /** A subscription and a message to it. */
  lemma Emitted() returns (s: State)
    ensures Reaches(Fresh(0), s) && s.now == 0
    ensures s.messages == map[7 := Message(Pending, 0, 0, 5, Proper)] && s.log == map[7 := []]
    ensures s.deliveries == map[] && s.streak == map[] && s.subs == map[5 := Subscription(true, 0, true)]
  {
    hide Reaches;
    var a := Next(Fresh(0), Subscribe(5));
    ReachesNext(Fresh(0), Subscribe(5));
    s := Next(a, Emit(7, 5, Proper));
    ReachesThen(Fresh(0), a, Emit(7, 5, Proper));
  }

  /** Then a claim and a load. */
  lemma UnderWay() returns (s: State)
    ensures Reaches(Fresh(0), s)
    ensures s.messages == map[7 := Message(Processing, 0, 0, 5, Proper)] && s.log == map[7 := []]
    ensures s.deliveries == map[1 := Sending(7, 1, 5, 0)] && s.now == 0
    ensures s.streak == map[] && s.subs == map[5 := Subscription(true, 0, true)]
  {
    hide Reaches;
    var b := Emitted();
    var c := Next(b, Claim(1, {}, Some(7)));
    ReachesThen(Fresh(0), b, Claim(1, {}, Some(7)));
    s := Next(c, Load(1));
    ReachesThen(Fresh(0), c, Load(1));
  }

  /** It is not only in theory: a subscription, a message, a claim and a load lead to such a state, and
      a redelivery then to attempts that are not numbered 1 .. k. */
  lemma BrokenNumberingIsReachable() returns (s: State, t: State)
    ensures Reaches(Fresh(0), s) && UnderAttempt(s, 7) && Enabled(s, Redeliver(7))
    ensures Reaches(Next(s, Redeliver(7)), t) && 7 in t.log && !Numbered(t.log[7])
  {
    hide Reaches, Numbered, AttemptsInv;
    s := UnderWay();
    assert 1 in s.deliveries && Attempting(s.deliveries[1]);
    assert UnderAttempt(s, 7);
    SendingIsSafeSoFar(s);
    ImpatienceBreaks(s, 1, 2);
    t :| Reaches(Next(s, Redeliver(7)), t) && 7 in t.log && !Numbered(t.log[7]);
  }

  /** A message without a proper payload has logged nothing and nobody sends it. */
  ghost predicate Unsent(s: State, m: Id) {
    && m in s.messages && s.messages[m].payload != Proper && m in s.log && s.log[m] == []
    && forall d | d in s.deliveries && (s.deliveries[d].Sending? || s.deliveries[d].Recorded?) :: s.deliveries[d].m != m
  }

  lemma StaysUnsent(s: State, step: Step, m: Id)
    requires Unsent(s, m) && Enabled(s, step)
    ensures Unsent(Next(s, step), m)
  {
    hide IsNext, Counted, Switched, StreakOf, AfterAttempt;
    if Touched(s, step) != Some(m) {
      UntouchedStays(s, step, m);
    }
  }

  /** Such a message is never attempted, so its redelivery never matters. */
  lemma {:induction false} ImproperIsNeverSent(s: State, steps: seq<Step>, m: Id)
    requires Unsent(s, m) && Runs(s, steps)
    ensures Unsent(After(s, steps), m)
    decreases |steps|
  {
    hide Unsent, Enabled, Next;
    if steps != [] {
      StaysUnsent(s, steps[0], m);
      ImproperIsNeverSent(Next(s, steps[0]), steps[1..], m);
    }
  }
}
