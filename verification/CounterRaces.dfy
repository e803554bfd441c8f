/** Every step that is not calm for a subscription leads to a wrong counter: carrying the deliveries to
    their end is enough. */
module CounterRaces {
  import opened Common
  import opened WebhookQueue
  import opened WebhookCounter
  import opened WebhookRaces

  // ---- carrying deliveries to their end ---------------------------------------------------

  predicate EndStep(step: Step) { step.Record? || step.Settle? || step.Count? }

  /** Some deliveries go on to record, settle and count, and nothing else happens. */
  ghost predicate Ends(s: State, t: State) {
    exists steps ::
      Runs(s, steps) && After(s, steps) == t && forall i | 0 <= i < |steps| :: EndStep(steps[i])
  }

  lemma {:induction false} RunOn(s: State, a: seq<Step>, b: seq<Step>)
    requires Runs(s, a) && Runs(After(s, a), b)
    ensures Runs(s, a + b) && After(s, a + b) == After(After(s, a), b)
    decreases |a|
  {
    hide Enabled, Next;
    if a == [] {
      assert a + b == b;
    } else {
      RunOn(Next(s, a[0]), a[1..], b);
      assert (a + b)[1..] == a[1..] + b;
    }
  }

  lemma EndsItself(s: State)
    ensures Ends(s, s)
  {
    assert Runs(s, []) && After(s, []) == s;
  }

  lemma EndsOn(s: State, t: State, u: State)
    requires Ends(s, t) && Ends(t, u)
    ensures Ends(s, u)
  {
    hide Runs, After, EndStep;
    var a :| Runs(s, a) && After(s, a) == t && forall i | 0 <= i < |a| :: EndStep(a[i]);
    var b :| Runs(t, b) && After(t, b) == u && forall i | 0 <= i < |b| :: EndStep(b[i]);
    RunOn(s, a, b);
    assert forall i | 0 <= i < |a + b| :: (a + b)[i] == if i < |a| then a[i] else b[i - |a|];
  }

  lemma EndsNext(s: State, step: Step)
    requires Enabled(s, step) && EndStep(step)
    ensures Ends(s, Next(s, step))
  {
    hide Enabled, Next, EndStep;
    assert [step][1..] == [];
    assert Runs(Next(s, step), []) && After(Next(s, step), []) == Next(s, step);
    assert Runs(s, [step]) && After(s, [step]) == Next(s, step);
  }

  /** Whether the attempt of a delivery fails, given that of one still sending does. */
  predicate Succeeds(p: Phase)
    requires !p.Claimed?
  {
    !p.Sending? && p.ok
  }

  /** Delivery `d` has failed, if it was still sending, and has been counted. */
  ghost predicate Finished(s: State, t: State, d: Id)
    requires d in s.deliveries && !s.deliveries[d].Claimed? && s.deliveries[d].sub in s.subs
  {
    var p := s.deliveries[d];
    && t.deliveries == s.deliveries - {d}
    && t.subs == s.subs[p.sub := Counted(s.subs[p.sub], p.failures, Succeeds(p))]
    && t.streak == if p.Sending? then s.streak[p.sub := StreakOf(s, p.sub) + 1] else s.streak
  }

  lemma PlacedPhase(s: State, d: Id)
    requires Placed(s) && d in s.deliveries
    ensures PhasePlaced(s, s.deliveries[d])
  {
  }

  lemma CountIt(s: State, d: Id) returns (t: State)
    requires Placed(s) && d in s.deliveries && s.deliveries[d].Settled?
    ensures Placed(t) && Ends(s, t) && s.deliveries[d].sub in s.subs && Finished(s, t, d)
  {
    hide Ends, Placed, Counted;
    PlacedPhase(s, d);
    t := Next(s, Count(d));
    EndsNext(s, Count(d));
    StepKeepsPlaced(s, Count(d));
  }

  lemma SettleIt(s: State, d: Id) returns (t: State)
    requires Placed(s) && d in s.deliveries && (s.deliveries[d].Settled? || s.deliveries[d].Recorded?)
    ensures Placed(t) && Ends(s, t) && s.deliveries[d].sub in s.subs && Finished(s, t, d)
  {
    hide Ends, Placed, Counted, AfterAttempt;
    PlacedPhase(s, d);
    if s.deliveries[d].Settled? {
      t := CountIt(s, d);
    } else {
      var u := Next(s, Settle(d));
      EndsNext(s, Settle(d));
      StepKeepsPlaced(s, Settle(d));
      t := CountIt(u, d);
      EndsOn(s, u, t);
      assert u.deliveries - {d} == s.deliveries - {d};
    }
  }

  /** Any delivery that has loaded its subscription can be carried to its end. */
  lemma FinishIt(s: State, d: Id) returns (t: State)
    requires Placed(s) && d in s.deliveries && !s.deliveries[d].Claimed?
    ensures Placed(t) && Ends(s, t) && s.deliveries[d].sub in s.subs && Finished(s, t, d)
  {
    hide Ends, Placed, Counted, LoggedFor;
    PlacedPhase(s, d);
    if s.deliveries[d].Sending? {
      var u := Next(s, Record(d, false));
      EndsNext(s, Record(d, false));
      StepKeepsPlaced(s, Record(d, false));
      t := SettleIt(u, d);
      EndsOn(s, u, t);
      assert u.deliveries - {d} == s.deliveries - {d};
    } else {
      t := SettleIt(s, d);
    }
  }

  // ---- every step that is not calm --------------------------------------------------------

  /** No delivery has the subscription loaded, and its counter is not the number of its failures. */
  ghost predicate Miscounts(s: State, sub: Id) {
    sub in s.subs && Quiet(s, sub) && s.subs[sub].failures != StreakOf(s, sub)
  }

  /** Two deliveries with the subscription loaded, and no other: both end, and counting the one that was
      there first forgets the failure of the other. */
  lemma BothFinished(s: State, w: Id, d: Id, sub: Id) returns (t: State)
    requires Placed(s) && w != d && w in s.deliveries && d in s.deliveries && s.deliveries[w].Sending?
    requires LoadedFor(s.deliveries[w], sub) && LoadedFor(s.deliveries[d], sub) && sub in s.subs
    requires forall c | c in s.deliveries && LoadedFor(s.deliveries[c], sub) :: c == w || c == d
    ensures Ends(s, t) && sub in t.subs && Quiet(t, sub)
    ensures t.subs[sub].failures == if Succeeds(s.deliveries[d]) then 0 else s.deliveries[d].failures + 1
    ensures StreakOf(t, sub) == StreakOf(s, sub) + if s.deliveries[d].Sending? then 2 else 1
  {
    hide Ends, Placed;
    var u := FinishIt(s, w);
    t := FinishIt(u, d);
    EndsOn(s, u, t);
  }

  lemma OverlapMiscounts(s: State, w: Id, sub: Id) returns (t: State)
    requires Exact(s) && Enabled(s, Load(w)) && Sends(s, w, sub) && !Quiet(s, sub)
    ensures Ends(Next(s, Load(w)), t) && Miscounts(t, sub)
  {
    hide Ends, Placed;
    assert SubExact(s, sub);
    StepKeepsPlaced(s, Load(w));
    var d: Id :| d in s.deliveries && LoadedFor(s.deliveries[d], sub);
    PhaseOf(s, d, sub);
    t := BothFinished(Next(s, Load(w)), w, d, sub);
  }

  lemma EnablingMiscounts(s: State, sub: Id) returns (t: State)
    requires Exact(s) && Enabled(s, Update(sub, Some(true))) && !Calm(s, Update(sub, Some(true)), sub)
    ensures Ends(Next(s, Update(sub, Some(true))), t) && Miscounts(t, sub)
  {
    hide Ends, Placed;
    assert SubExact(s, sub);
    var u := Next(s, Update(sub, Some(true)));
    StepKeepsPlaced(s, Update(sub, Some(true)));
    var d: Id :| d in s.deliveries && LoadedFor(s.deliveries[d], sub)
                 && !(if s.deliveries[d].Sending? then s.subs[sub].failures == 0 else s.deliveries[d].ok);
    PhaseOf(s, d, sub);
    t := FinishIt(u, d);
  }

  lemma StoppingMiscounts(s: State, w: Id, sub: Id) returns (t: State)
    requires Exact(s) && sub in s.subs && Enabled(s, Stop(w)) && !Calm(s, Stop(w), sub)
    ensures Ends(Next(s, Stop(w)), t) && Miscounts(t, sub)
  {
    hide Ends, Placed;
    assert SubExact(s, sub);
    PhaseOf(s, w, sub);
    t := Next(s, Stop(w));
    EndsItself(t);
  }

  /** From any exact state, a step that is not calm for a subscription is followed by a miscount of it
      once the deliveries under way have ended. */
  lemma UncalmMiscounts(s: State, step: Step, sub: Id) returns (t: State)
    requires Exact(s) && Enabled(s, step) && sub in s.subs && !Calm(s, step, sub)
    ensures Ends(Next(s, step), t) && Miscounts(t, sub)
  {
    hide Ends, Next, Enabled, Exact;
    match step {
      case Load(w) => { t := OverlapMiscounts(s, w, sub); }
      case Update(_, _) => { t := EnablingMiscounts(s, sub); }
      case Stop(w) => { t := StoppingMiscounts(s, w, sub); }
    }
  }

  // ---- both happen ----------------------------------------------------------------------

  lemma SentIsExact(s: State)
    requires s.subs == map[5 := Subscription(true, 0, true)] && s.streak == map[] && 7 in s.messages
    requires 1 in s.deliveries && s.deliveries[1] == Sending(7, 1, 5, 0)
    requires forall d | d in s.deliveries && d != 1 :: s.deliveries[d].Claimed? && s.deliveries[d].m in s.messages
    ensures Exact(s)
  {
    assert SubExact(s, 5);
  }

  /** From an empty outbox: a dispatcher that stops between recording a failed attempt and counting it
      leaves the counter at 0 after 1 failure. */
  lemma StoppingHappens() returns (s: State)
    ensures Reaches(Fresh(0), s) && Exact(s) && Enabled(s, Stop(1)) && !Calm(s, Stop(1), 5)
    ensures Miscounts(Next(s, Stop(1)), 5)
  {
    hide Reaches;
    var u := UnderWay();
    SentIsExact(u);
    s := Next(u, Record(1, false));
    ReachesThen(Fresh(0), u, Record(1, false));
    StepKeepsExact(u, Record(1, false));
  }

  /** And two dispatchers that deliver to one subscription at once end with a wrong counter. */
  lemma OverlapHappens() returns (s: State, t: State)
    ensures Reaches(Fresh(0), s) && Exact(s) && Enabled(s, Load(2)) && !Calm(s, Load(2), 5)
    ensures Ends(Next(s, Load(2)), t) && Miscounts(t, 5)
  {
    hide Reaches, Ends, Exact;
    var u := UnderWay();
    var v := Next(u, Emit(8, 5, Proper));
    ReachesThen(Fresh(0), u, Emit(8, 5, Proper));
    s := Next(v, Claim(2, {}, Some(8)));
    ReachesThen(Fresh(0), v, Claim(2, {}, Some(8)));
    SentIsExact(s);
    assert 1 in s.deliveries && LoadedFor(s.deliveries[1], 5);
    t := UncalmMiscounts(s, Load(2), 5);
  }
}
