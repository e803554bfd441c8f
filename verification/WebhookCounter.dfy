/** The failure counter of a webhook subscription against the failures that were recorded: when the two
    agree, with any number of dispatchers, and which steps make them differ. */
module WebhookCounter {
  import opened Common
  import opened WebhookQueue

  // ---- what it takes to agree -----------------------------------------------------------

  /** The delivery has loaded the subscription and with it the counter it will write. */
  predicate LoadedFor(p: Phase, sub: Id) {
    !p.Claimed? && p.sub == sub
  }

  /** No delivery to the subscription is between loading it and counting. */
  predicate Quiet(s: State, sub: Id) {
    forall d | d in s.deliveries :: !LoadedFor(s.deliveries[d], sub)
  }

  ghost predicate Alone(s: State, sub: Id) {
    forall c, d | c in s.deliveries && d in s.deliveries
                  && LoadedFor(s.deliveries[c], sub) && LoadedFor(s.deliveries[d], sub) :: c == d
  }

  /** Counting the delivery will leave the counter at the streak, and so will stopping it unsent. */
  ghost predicate PhaseExact(row: Subscription, streak: nat, p: Phase)
    requires !p.Claimed?
  {
    if p.Sending? then row.failures == p.failures == streak
    else if p.ok then streak == 0
    else row.failures == p.failures && streak == p.failures + 1
  }

  ghost predicate SubExact(s: State, sub: Id)
    requires sub in s.subs
  {
    && Alone(s, sub)
    && (forall d | d in s.deliveries && LoadedFor(s.deliveries[d], sub) ::
          PhaseExact(s.subs[sub], StreakOf(s, sub), s.deliveries[d]))
    && (Quiet(s, sub) ==> s.subs[sub].failures == StreakOf(s, sub))
  }

  /** The rows a delivery goes by exist. */
  ghost predicate PhasePlaced(s: State, p: Phase) {
    match p
    case Claimed(m, _) => m in s.messages
    case Sending(m, number, sub, _) => m in s.messages && number >= 1 && sub in s.subs
    case Recorded(m, number, sub, _, _) => m in s.messages && number >= 1 && sub in s.subs
    case Settled(sub, _, _) => sub in s.subs
  }

  ghost predicate Placed(s: State) {
    && (forall d | d in s.deliveries :: PhasePlaced(s, s.deliveries[d]))
    && (forall sub | sub in s.streak :: sub in s.subs)
  }

  ghost predicate Exact(s: State) {
    Placed(s) && forall sub {:trigger SubExact(s, sub)} | sub in s.subs :: SubExact(s, sub)
  }

  // ---- the steps ------------------------------------------------------------------------

  /** Loading takes this delivery on to sending, to this subscription. */
  predicate Sends(s: State, w: Id, sub: Id) {
    && w in s.deliveries && s.deliveries[w].Claimed? && s.deliveries[w].m in s.messages
    && var row := s.messages[s.deliveries[w].m];
       row.payload == Proper && row.sub == sub && sub in s.subs && s.subs[sub].live && s.subs[sub].enabled
  }

  /** What a step must leave alone: it loads no subscription another delivery has loaded; it enables none
      during a delivery, but for one that has succeeded or found the counter at zero; and it stops no
      delivery between recording and counting, but for a success that finds the counter at zero. */
  predicate Calm(s: State, step: Step, sub: Id) {
    match step
    case Load(w) => Sends(s, w, sub) ==> Quiet(s, sub)
    case Update(u, enabled) =>
      u == sub && sub in s.subs && enabled == Some(true) ==>
        forall d | d in s.deliveries && LoadedFor(s.deliveries[d], sub) ::
          if s.deliveries[d].Sending? then s.subs[sub].failures == 0 else s.deliveries[d].ok
    case Stop(w) =>
      w in s.deliveries && LoadedFor(s.deliveries[w], sub) && !s.deliveries[w].Sending? && sub in s.subs ==>
        s.deliveries[w].ok && s.subs[sub].failures == 0
    case _ => true
  }

  lemma StepKeepsPhasePlaced(s: State, step: Step, d: Id)
    requires Placed(s) && Enabled(s, step) && d in Next(s, step).deliveries
    ensures PhasePlaced(Next(s, step), Next(s, step).deliveries[d])
  {
    hide IsNext, AfterAttempt, LoggedFor, Counted, Switched, StreakOf;
    if d in s.deliveries {
      assert PhasePlaced(s, s.deliveries[d]);
    }
  }

  lemma StepKeepsStreaksPlaced(s: State, step: Step, sub: Id)
    requires Placed(s) && Enabled(s, step) && sub in Next(s, step).streak
    ensures sub in Next(s, step).subs
  {
    hide IsNext, AfterAttempt, LoggedFor, Counted, Switched, StreakOf;
    if step.Record? {
      assert PhasePlaced(s, s.deliveries[step.w]);
    }
  }

  lemma StepKeepsPlaced(s: State, step: Step)
    requires Placed(s) && Enabled(s, step)
    ensures Placed(Next(s, step))
  {
    hide PhasePlaced, Next, Enabled;
    var t := Next(s, step);
    forall d | d in t.deliveries ensures PhasePlaced(t, t.deliveries[d]) { StepKeepsPhasePlaced(s, step, d); }
    forall sub | sub in t.streak ensures sub in t.subs { StepKeepsStreaksPlaced(s, step, sub); }
  }

  /** Which deliveries have the subscription loaded, and the two numbers, are as before. */
  ghost predicate SameAccount(s: State, t: State, sub: Id)
    requires sub in s.subs && sub in t.subs
  {
    && s.subs[sub].failures == t.subs[sub].failures && StreakOf(s, sub) == StreakOf(t, sub)
    && forall d :: (d in t.deliveries && LoadedFor(t.deliveries[d], sub)
                    <==> d in s.deliveries && LoadedFor(s.deliveries[d], sub))
                   && (d in t.deliveries && LoadedFor(t.deliveries[d], sub) ==> t.deliveries[d] == s.deliveries[d])
  }

  lemma SameAccountExact(s: State, t: State, sub: Id)
    requires sub in s.subs && sub in t.subs && SameAccount(s, t, sub)
    ensures SubExact(s, sub) <==> SubExact(t, sub)
  {
    assert Quiet(s, sub) <==> Quiet(t, sub);
    assert Alone(s, sub) <==> Alone(t, sub);
  }

  /** The step works on a delivery that has the subscription loaded, loads it, or resets its counter. */
  predicate Touches(s: State, step: Step, sub: Id) {
    match step
    case Subscribe(u) => u == sub
    case Update(u, enabled) => u == sub && enabled == Some(true)
    case Load(w) => Sends(s, w, sub)
    case Record(w, _) => w in s.deliveries && LoadedFor(s.deliveries[w], sub)
    case Settle(w) => w in s.deliveries && LoadedFor(s.deliveries[w], sub)
    case Count(w) => w in s.deliveries && LoadedFor(s.deliveries[w], sub)
    case Stop(w) => w in s.deliveries && LoadedFor(s.deliveries[w], sub)
    case _ => false
  }

  lemma UntouchedAccount(s: State, step: Step, sub: Id)
    requires Enabled(s, step) && sub in s.subs && !Touches(s, step, sub)
    ensures sub in Next(s, step).subs && SameAccount(s, Next(s, step), sub)
  {
    hide IsNext, AfterAttempt, LoggedFor;
  }

  lemma NewIsExact(s: State, sub: Id)
    requires Placed(s) && Enabled(s, Subscribe(sub))
    ensures SubExact(Next(s, Subscribe(sub)), sub)
  {
    forall d | d in s.deliveries ensures !LoadedFor(s.deliveries[d], sub) { assert PhasePlaced(s, s.deliveries[d]); }
  }

  lemma EnablingExactIff(s: State, sub: Id)
    requires Enabled(s, Update(sub, Some(true))) && SubExact(s, sub)
    ensures SubExact(Next(s, Update(sub, Some(true))), sub) <==> Calm(s, Update(sub, Some(true)), sub)
  {
    var t := Next(s, Update(sub, Some(true)));
    assert t.deliveries == s.deliveries && StreakOf(t, sub) == 0 && t.subs[sub].failures == 0;
    assert Quiet(t, sub) <==> Quiet(s, sub);
    forall d | d in s.deliveries && LoadedFor(s.deliveries[d], sub)
      ensures PhaseExact(t.subs[sub], 0, s.deliveries[d]) <==>
              if s.deliveries[d].Sending? then s.subs[sub].failures == 0 else s.deliveries[d].ok
    {}
  }

  lemma LoadingExactIff(s: State, w: Id, sub: Id)
    requires Enabled(s, Load(w)) && Sends(s, w, sub) && SubExact(s, sub)
    ensures SubExact(Next(s, Load(w)), sub) <==> Quiet(s, sub)
  {
    var t := Next(s, Load(w));
    assert w in t.deliveries && LoadedFor(t.deliveries[w], sub);
    if !Quiet(s, sub) {
      var d :| d in s.deliveries && LoadedFor(s.deliveries[d], sub);
      assert d in t.deliveries && t.deliveries[d] == s.deliveries[d];
    }
  }

  /** The one delivery with the subscription loaded moves on to another such phase. */
  lemma MovedOnExact(s: State, t: State, w: Id, sub: Id)
    requires sub in s.subs && sub in t.subs && SubExact(s, sub)
    requires w in s.deliveries && LoadedFor(s.deliveries[w], sub)
    requires w in t.deliveries && t.deliveries == s.deliveries[w := t.deliveries[w]] && LoadedFor(t.deliveries[w], sub)
    requires PhaseExact(t.subs[sub], StreakOf(t, sub), t.deliveries[w])
    ensures SubExact(t, sub)
  {
  }

  /** Or it ends. */
  lemma EndedExactIff(s: State, t: State, w: Id, sub: Id)
    requires sub in s.subs && sub in t.subs && SubExact(s, sub)
    requires w in s.deliveries && LoadedFor(s.deliveries[w], sub) && t.deliveries == s.deliveries - {w}
    ensures SubExact(t, sub) <==> t.subs[sub].failures == StreakOf(t, sub)
    ensures Quiet(t, sub)
  {
  }

  lemma PhaseOf(s: State, w: Id, sub: Id)
    requires sub in s.subs && SubExact(s, sub) && w in s.deliveries && LoadedFor(s.deliveries[w], sub)
    ensures PhaseExact(s.subs[sub], StreakOf(s, sub), s.deliveries[w])
  {
  }

  lemma LoadedSubs(s: State, w: Id)
    requires Enabled(s, Load(w))
    ensures Loaded(s, w).subs == s.subs
  {
  }

  lemma TouchedExactIff(s: State, step: Step, sub: Id)
    requires Exact(s) && Enabled(s, step) && sub in s.subs && Touches(s, step, sub)
    ensures sub in Next(s, step).subs
    ensures SubExact(Next(s, step), sub) <==> Calm(s, step, sub)
  {
    hide IsNext, AfterAttempt, LoggedFor, SubExact, Quiet, Placed, Loaded;
    var t := Next(s, step);
    assert SubExact(s, sub);
    match step {
      case Update(_, _) => EnablingExactIff(s, sub);
      case Load(w) => LoadedSubs(s, w); LoadingExactIff(s, w, sub);
      case Record(w, _) => PhaseOf(s, w, sub); MovedOnExact(s, t, w, sub);
      case Settle(w) => PhaseOf(s, w, sub); MovedOnExact(s, t, w, sub);
      case Count(w) => PhaseOf(s, w, sub); EndedExactIff(s, t, w, sub);
      case Stop(w) => PhaseOf(s, w, sub); EndedExactIff(s, t, w, sub);
      case _ => {}
    }
  }

  lemma NewStep(s: State, step: Step, sub: Id)
    requires Enabled(s, step) && sub !in s.subs && sub in Next(s, step).subs
    ensures step == Subscribe(sub)
  {
  }

  lemma UntouchedIsCalm(s: State, step: Step, sub: Id)
    requires !Touches(s, step, sub)
    ensures Calm(s, step, sub)
  {
  }

  /** Whatever the number of dispatchers, a step keeps counter and streak together for a subscription if
      and only if it is calm for it. */
  lemma StepKeepsExactIff(s: State, step: Step, sub: Id)
    requires Exact(s) && Enabled(s, step) && sub in Next(s, step).subs
    ensures SubExact(Next(s, step), sub) <==> Calm(s, step, sub)
  {
    hide IsNext, AfterAttempt, LoggedFor, SameAccount, SubExact, Placed, Loaded, Counted, Switched;
    if sub !in s.subs {
      NewStep(s, step, sub);
      NewIsExact(s, sub);
    } else if Touches(s, step, sub) {
      TouchedExactIff(s, step, sub);
    } else {
      UntouchedAccount(s, step, sub);
      SameAccountExact(s, Next(s, step), sub);
      UntouchedIsCalm(s, step, sub);
    }
  }

  ghost predicate CalmForAll(s: State, step: Step) {
    forall sub | sub in s.subs :: Calm(s, step, sub)
  }

  lemma NewSubIsCalm(s: State, step: Step, sub: Id)
    requires Placed(s) && Enabled(s, step) && sub !in s.subs
    ensures Calm(s, step, sub)
  {
    hide IsNext;
  }

  lemma SubsStay(s: State, step: Step)
    requires Enabled(s, step)
    ensures s.subs.Keys <= Next(s, step).subs.Keys
  {
    hide IsNext;
  }

  /** So it keeps them together everywhere exactly when it is calm for every subscription. */
  lemma StepKeepsExact(s: State, step: Step)
    requires Exact(s) && Enabled(s, step)
    ensures Exact(Next(s, step)) <==> CalmForAll(s, step)
  {
    hide SubExact, Calm, Next, Enabled, Placed;
    StepKeepsPlaced(s, step);
    SubsStay(s, step);
    forall sub | sub in Next(s, step).subs ensures SubExact(Next(s, step), sub) <==> Calm(s, step, sub) {
      StepKeepsExactIff(s, step, sub);
    }
    forall sub | sub !in s.subs { NewSubIsCalm(s, step, sub); }
    if Exact(Next(s, step)) {
      forall sub | sub in s.subs ensures Calm(s, step, sub) { assert SubExact(Next(s, step), sub); }
    }
  }

  // ---- whole runs -----------------------------------------------------------------------

  ghost predicate AllCalm(s: State, steps: seq<Step>)
    requires Runs(s, steps)
    decreases |steps|
  {
    steps == [] || (CalmForAll(s, steps[0]) && AllCalm(Next(s, steps[0]), steps[1..]))
  }

  lemma {:induction false} RunKeepsExact(s: State, steps: seq<Step>)
    requires Exact(s) && Runs(s, steps) && AllCalm(s, steps)
    ensures Exact(After(s, steps))
    decreases |steps|
  {
    hide Exact, Enabled, Next, CalmForAll;
    if steps != [] {
      StepKeepsExact(s, steps[0]);
      RunKeepsExact(Next(s, steps[0]), steps[1..]);
    }
  }

  /** Over any run of calm steps, with any number of dispatchers, the counter of a subscription no
      delivery has loaded is the number of failed attempts since its last success or enabling. */
  lemma CounterIsStreak(now: int, steps: seq<Step>, sub: Id)
    requires Runs(Fresh(now), steps) && AllCalm(Fresh(now), steps)
    requires sub in After(Fresh(now), steps).subs && Quiet(After(Fresh(now), steps), sub)
    ensures After(Fresh(now), steps).subs[sub].failures == StreakOf(After(Fresh(now), steps), sub)
  {
    hide Runs, After, AllCalm;
    RunKeepsExact(Fresh(now), steps);
    assert SubExact(After(Fresh(now), steps), sub);
  }
}
