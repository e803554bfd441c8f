/** The webhook outbox: claims, numbered attempts with backoff, redelivery, and the failure counter
    that disables a subscription.  Dispatchers interleave at every `await` and may stop anywhere. */
module WebhookQueue {
  import opened Common

  const RETRY_BACKOFF: seq<int> := [30_000, 120_000, 600_000, 3_600_000, 21_600_000, 86_400_000]
  const AUTO_DISABLE_FAILURE_THRESHOLD: nat := 20

  datatype MessageStatus = Pending | Processing | Sent | Failed | Cancelled

  /** A payload may not parse, may name an event type nobody knows, or be proper. */
  datatype Payload = Unparsable | UnknownEvent | Proper

  datatype Message = Message(
    status: MessageStatus,
    availableAt: int,
    attempts: nat,
    sub: Id,
    payload: Payload)

  datatype Subscription = Subscription(enabled: bool, failures: nat, live: bool)

  datatype Attempt = Attempt(number: nat, ok: bool)

  /** A delivery between two steps; `failures` is the counter its subscription row showed when the
      delivery loaded it. */
  datatype Phase =
    | Claimed(m: Id, attempts: nat)
    | Sending(m: Id, number: nat, sub: Id, failures: nat)
    | Recorded(m: Id, number: nat, sub: Id, failures: nat, ok: bool)
    | Settled(sub: Id, failures: nat, ok: bool)

  /** `log` holds the attempts recorded for a message since its last redelivery, `streak` the failed
      attempts recorded for a subscription since its last success or enabling. */
  datatype State = State(
    now: int,
    subs: map<Id, Subscription>,
    messages: map<Id, Message>,
    deliveries: map<Id, Phase>,
    log: map<Id, seq<Attempt>>,
    streak: map<Id, nat>)

  /** A claim passes over the rows that other transactions have locked (`SKIP LOCKED`, on Postgres). */
  datatype Step =
    | Tick(d: nat)
    | Subscribe(sub: Id)
    | Update(sub: Id, enabled: Option<bool>)
    | Unsubscribe(sub: Id)
    | Emit(m: Id, sub: Id, payload: Payload)
    | Redeliver(m: Id)
    | Claim(w: Id, skipped: set<Id>, choice: Option<Id>)
    | Load(w: Id)
    | Record(w: Id, ok: bool)
    | Settle(w: Id)
    | Count(w: Id)
    | Stop(w: Id)

  predicate Due(m: Message, now: int) {
    m.status == Pending && m.availableAt <= now
  }

  predicate IsNext(messages: map<Id, Message>, now: int, choice: Option<Id>) {
    match choice
    case None => forall m | m in messages :: !Due(messages[m], now)
    case Some(m) =>
      && m in messages && Due(messages[m], now)
      && forall k | k in messages && Due(messages[k], now) :: messages[m].availableAt <= messages[k].availableAt
  }

  predicate Enabled(s: State, step: Step) {
    match step
    case Tick(_) => true
    case Subscribe(sub) => sub !in s.subs
    case Update(sub, _) => sub in s.subs && s.subs[sub].live
    case Unsubscribe(sub) => sub in s.subs && s.subs[sub].live
    case Emit(m, sub, _) => m !in s.messages
    case Redeliver(m) =>
      && m in s.messages && s.messages[m].payload != Unparsable
      && s.messages[m].sub in s.subs && s.subs[s.messages[m].sub].live
    case Claim(w, skipped, choice) => w !in s.deliveries && IsNext(s.messages - skipped, s.now, choice)
    case Load(w) => w in s.deliveries && s.deliveries[w].Claimed? && s.deliveries[w].m in s.messages
    case Record(w, _) => w in s.deliveries && s.deliveries[w].Sending?
    case Settle(w) =>
      w in s.deliveries && s.deliveries[w].Recorded? && s.deliveries[w].m in s.messages && s.deliveries[w].number >= 1
    case Count(w) => w in s.deliveries && s.deliveries[w].Settled? && s.deliveries[w].sub in s.subs
    case Stop(w) => w in s.deliveries
  }

  /** The `enabled` branch of `updateWebhookSubscription`. */
  function Switched(sub: Subscription, enabled: Option<bool>): Subscription {
    if enabled.None? then sub
    else sub.(enabled := enabled.value, failures := if enabled.value then 0 else sub.failures)
  }

  function LoggedFor(s: State, m: Id): seq<Attempt> {
    if m in s.log then s.log[m] else []
  }

  function StreakOf(s: State, sub: Id): nat {
    if sub in s.streak then s.streak[sub] else 0
  }

  /** The delay after a failed attempt. */
  function Delay(number: nat): int
    requires number >= 1
  {
    RETRY_BACKOFF[if number - 1 < |RETRY_BACKOFF| - 1 then number - 1 else |RETRY_BACKOFF| - 1]
  }

  function Loaded(s: State, w: Id): State
    requires Enabled(s, Load(w))
  {
    var m := s.deliveries[w].m;
    var row := s.messages[m];
    if row.payload != Proper then
      s.(messages := s.messages[m := row.(status := Failed)], deliveries := s.deliveries - {w})
    else if row.sub !in s.subs || !s.subs[row.sub].live || !s.subs[row.sub].enabled then
      s.(messages := s.messages[m := row.(status := Cancelled)], deliveries := s.deliveries - {w})
    else
      var phase := Sending(m, s.deliveries[w].attempts + 1, row.sub, s.subs[row.sub].failures);
      s.(deliveries := s.deliveries[w := phase])
  }

  function AfterAttempt(m: Message, number: nat, ok: bool, now: int): Message
    requires number >= 1
  {
    if ok then m.(status := Sent)
    else if number >= |RETRY_BACKOFF| then m.(status := Failed)
    else m.(status := Pending, attempts := number, availableAt := now + Delay(number))
  }

  /** `recordSubscriptionSuccess` and `recordSubscriptionFailure`, the latter with the counter loaded
      before the attempt. */
  function Counted(sub: Subscription, failures: nat, ok: bool): Subscription {
    if ok then sub.(failures := 0)
    else if failures + 1 >= AUTO_DISABLE_FAILURE_THRESHOLD then sub.(failures := failures + 1, enabled := false)
    else sub.(failures := failures + 1)
  }

  function Next(s: State, step: Step): State
    requires Enabled(s, step)
  {
    match step
    case Tick(d) => s.(now := s.now + d)
    case Subscribe(sub) => s.(subs := s.subs[sub := Subscription(true, 0, true)])
    case Update(sub, enabled) =>
      s.(subs := s.subs[sub := Switched(s.subs[sub], enabled)],
         streak := if enabled == Some(true) then s.streak[sub := 0] else s.streak)
    case Unsubscribe(sub) => s.(subs := s.subs[sub := s.subs[sub].(live := false)])
    case Emit(m, sub, payload) =>
      s.(messages := s.messages[m := Message(Pending, s.now, 0, sub, payload)], log := s.log[m := []])
    case Redeliver(m) =>
      s.(messages := s.messages[m := s.messages[m].(status := Pending, availableAt := s.now, attempts := 0)],
         log := s.log[m := []])
    case Claim(w, _, choice) =>
      if choice.None? then s
      else
        var m := choice.value;
        s.(messages := s.messages[m := s.messages[m].(status := Processing)],
           deliveries := s.deliveries[w := Claimed(m, s.messages[m].attempts)])
    case Load(w) => Loaded(s, w)
    case Record(w, ok) =>
      var p := s.deliveries[w];
      s.(deliveries := s.deliveries[w := Recorded(p.m, p.number, p.sub, p.failures, ok)],
         log := s.log[p.m := LoggedFor(s, p.m) + [Attempt(p.number, ok)]],
         streak := s.streak[p.sub := if ok then 0 else StreakOf(s, p.sub) + 1])
    case Settle(w) =>
      var p := s.deliveries[w];
      s.(messages := s.messages[p.m := AfterAttempt(s.messages[p.m], p.number, p.ok, s.now)],
         deliveries := s.deliveries[w := Settled(p.sub, p.failures, p.ok)])
    case Count(w) =>
      var p := s.deliveries[w];
      s.(subs := s.subs[p.sub := Counted(s.subs[p.sub], p.failures, p.ok)], deliveries := s.deliveries - {w})
    case Stop(w) => s.(deliveries := s.deliveries - {w})
  }

  // ---- attempts -------------------------------------------------------------------------

  /** Attempts 1 .. k with k at most 6, all but the last failed. */
  ghost predicate Numbered(attempts: seq<Attempt>) {
    && |attempts| <= |RETRY_BACKOFF|
    && (forall i | 0 <= i < |attempts| :: attempts[i].number == i + 1)
    && (forall i | 0 <= i < |attempts| - 1 :: !attempts[i].ok)
  }

  ghost predicate AllFailed(attempts: seq<Attempt>) {
    |attempts| < |RETRY_BACKOFF| && forall i | 0 <= i < |attempts| :: !attempts[i].ok
  }

  ghost predicate MessageOk(s: State, m: Id) {
    && m in s.messages && m in s.log && Numbered(s.log[m])
    && (s.messages[m].status == Pending ==> s.messages[m].attempts == |s.log[m]| && AllFailed(s.log[m]))
  }

  predicate Active(p: Phase) { !p.Settled? }

  /** The delivery can still record an attempt or put its message back: all but one that has recorded
      a success or the sixth attempt, and one that has settled. */
  predicate Attempting(p: Phase) {
    p.Claimed? || p.Sending? || (p.Recorded? && !p.ok && p.number < |RETRY_BACKOFF|)
  }

  /** An attempting delivery goes by the log of its message, which nobody else can claim. */
  ghost predicate PhaseOk(s: State, p: Phase) {
    && (Active(p) ==> p.m in s.messages && p.m in s.log)
    && (Attempting(p) ==> s.messages[p.m].status != Pending && AllFailed(s.log[p.m]))
    && match p
       case Claimed(m, attempts) => attempts == |s.log[m]|
       case Sending(m, number, sub, _) => number == |s.log[m]| + 1 && sub in s.subs
       case Recorded(m, number, sub, _, _) => 1 <= number && (Attempting(p) ==> number == |s.log[m]|) && sub in s.subs
       case Settled(sub, _, _) => sub in s.subs
  }

  ghost predicate AttemptsInv(s: State) {
    && s.log.Keys == s.messages.Keys
    && (forall m | m in s.messages :: MessageOk(s, m))
    && (forall d | d in s.deliveries :: PhaseOk(s, s.deliveries[d]))
    && (forall c, d | c in s.deliveries && d in s.deliveries
                      && Attempting(s.deliveries[c]) && Attempting(s.deliveries[d])
                      && s.deliveries[c].m == s.deliveries[d].m :: c == d)
  }

  ghost predicate UnderAttempt(s: State, m: Id) {
    exists d :: d in s.deliveries && Attempting(s.deliveries[d]) && s.deliveries[d].m == m
  }

  /** No redelivery is issued for a message under attempt. */
  ghost predicate Patient(s: State, step: Step) {
    step.Redeliver? ==> !UnderAttempt(s, step.m)
  }

  lemma NumberedNext(attempts: seq<Attempt>, ok: bool)
    requires Numbered(attempts) && AllFailed(attempts)
    ensures Numbered(attempts + [Attempt(|attempts| + 1, ok)])
  {
  }

  lemma RecordKeepsMessage(s: State, w: Id, ok: bool)
    requires AttemptsInv(s) && Enabled(s, Record(w, ok))
    ensures var m := s.deliveries[w].m; MessageOk(Next(s, Record(w, ok)), m)
  {
    var m := s.deliveries[w].m;
    assert PhaseOk(s, s.deliveries[w]);
    NumberedNext(s.log[m], ok);
  }

  lemma SettleKeepsMessage(s: State, w: Id)
    requires AttemptsInv(s) && Enabled(s, Settle(w))
    ensures MessageOk(Next(s, Settle(w)), s.deliveries[w].m)
  {
    hide Delay;
    assert PhaseOk(s, s.deliveries[w]);
  }

  /** The message a step writes or logs for. */
  function Touched(s: State, step: Step): Option<Id> {
    match step
    case Emit(m, _, _) => Some(m)
    case Redeliver(m) => Some(m)
    case Claim(_, _, choice) => choice
    case Load(w) => if w in s.deliveries && s.deliveries[w].Claimed? then Some(s.deliveries[w].m) else None
    case Record(w, _) => if w in s.deliveries && s.deliveries[w].Sending? then Some(s.deliveries[w].m) else None
    case Settle(w) => if w in s.deliveries && s.deliveries[w].Recorded? then Some(s.deliveries[w].m) else None
    case _ => None
  }

  lemma UntouchedStays(s: State, step: Step, m: Id)
    requires Enabled(s, step) && Touched(s, step) != Some(m)
    ensures var t := Next(s, step);
            && (m in t.messages <==> m in s.messages) && (m in s.messages ==> t.messages[m] == s.messages[m])
            && (m in t.log <==> m in s.log) && (m in s.log ==> t.log[m] == s.log[m])
  {
    hide IsNext, AfterAttempt, Counted, Switched, StreakOf;
  }

  lemma EmptyIsNumbered()
    ensures Numbered([]) && AllFailed([])
  {
  }

  lemma StepKeepsMessage(s: State, step: Step, m: Id)
    requires AttemptsInv(s) && Enabled(s, step) && Patient(s, step) && m in Next(s, step).messages
    ensures MessageOk(Next(s, step), m)
  {
    hide PhaseOk, Counted, Switched, StreakOf, AfterAttempt, Numbered, AllFailed;
    if Touched(s, step) != Some(m) {
      UntouchedStays(s, step, m);
      assert MessageOk(s, m);
    } else if step.Record? {
      RecordKeepsMessage(s, step.w, step.ok);
    } else if step.Settle? {
      SettleKeepsMessage(s, step.w);
    } else {
      EmptyIsNumbered();
      if m in s.messages {
        assert MessageOk(s, m);
      }
    }
  }

  /** Its log is what it was and it has not been put back. */
  ghost predicate Unharmed(s: State, t: State, m: Id) {
    && m in s.messages && m in s.log && m in t.messages && m in t.log && t.log[m] == s.log[m]
    && (s.messages[m].status != Pending ==> t.messages[m].status != Pending)
  }

  lemma PhaseStays(s: State, t: State, p: Phase)
    requires PhaseOk(s, p) && s.subs.Keys <= t.subs.Keys
    requires s.messages.Keys <= t.messages.Keys && s.log.Keys <= t.log.Keys
    requires Attempting(p) ==> Unharmed(s, t, p.m)
    ensures PhaseOk(t, p)
  {
  }

  lemma KeysGrow(s: State, step: Step)
    requires Enabled(s, step)
    ensures var t := Next(s, step);
            s.subs.Keys <= t.subs.Keys && s.messages.Keys <= t.messages.Keys && s.log.Keys <= t.log.Keys
  {
    hide IsNext, AfterAttempt, Counted, Switched, StreakOf;
  }

  lemma NextIsPending(messages: map<Id, Message>, now: int, choice: Option<Id>)
    requires IsNext(messages, now, choice)
    ensures choice.Some? ==> choice.value in messages && messages[choice.value].status == Pending
  {
  }

  lemma OwnPhase(s: State, step: Step)
    requires AttemptsInv(s) && Enabled(s, step)
    requires step.Load? || step.Record? || step.Settle? || (step.Claim? && step.choice.Some?)
    ensures var t := Next(s, step); step.w in t.deliveries ==> PhaseOk(t, t.deliveries[step.w])
  {
    hide Counted, Switched, StreakOf, AfterAttempt, Numbered, IsNext;
    if step.Claim? {
      NextIsPending(s.messages - step.skipped, s.now, step.choice);
      assert MessageOk(s, step.choice.value);
    } else {
      assert PhaseOk(s, s.deliveries[step.w]);
    }
  }

  /** What others do to a message under attempt at most ends it: its log stays and it is not put back. */
  lemma OthersSpare(s: State, step: Step, d: Id)
    requires AttemptsInv(s) && Enabled(s, step) && Patient(s, step)
    requires d in s.deliveries && Attempting(s.deliveries[d])
    requires !(step.Load? || step.Record? || step.Settle? || step.Claim?) || d != step.w
    ensures Unharmed(s, Next(s, step), s.deliveries[d].m)
  {
    hide MessageOk, Numbered, AllFailed, Counted, Switched, StreakOf;
    assert PhaseOk(s, s.deliveries[d]);
    if Touched(s, step) != Some(s.deliveries[d].m) {
      UntouchedStays(s, step, s.deliveries[d].m);
    }
  }

  lemma StepKeepsPhase(s: State, step: Step, d: Id)
    requires AttemptsInv(s) && Enabled(s, step) && Patient(s, step) && d in Next(s, step).deliveries
    ensures PhaseOk(Next(s, step), Next(s, step).deliveries[d])
  {
    hide MessageOk, PhaseOk, Counted, Switched, StreakOf, AfterAttempt, Touched, IsNext, UnderAttempt;
    if (step.Load? || step.Record? || step.Settle? || (step.Claim? && step.choice.Some?)) && step.w == d {
      OwnPhase(s, step);
    } else {
      var p := s.deliveries[d];
      assert PhaseOk(s, p);
      KeysGrow(s, step);
      if Attempting(p) {
        OthersSpare(s, step, d);
      }
      PhaseStays(s, Next(s, step), p);
    }
  }

  lemma StepKeepsOwners(s: State, step: Step, c: Id, d: Id)
    requires AttemptsInv(s) && Enabled(s, step)
    requires var t := Next(s, step);
             c in t.deliveries && d in t.deliveries && Attempting(t.deliveries[c]) && Attempting(t.deliveries[d])
             && t.deliveries[c].m == t.deliveries[d].m
    ensures c == d
  {
    hide MessageOk, AllFailed, Counted, Switched, StreakOf, AfterAttempt, LoggedFor;
    if c in s.deliveries {
      assert PhaseOk(s, s.deliveries[c]);
    }
    if d in s.deliveries {
      assert PhaseOk(s, s.deliveries[d]);
    }
  }

  lemma StepKeepsLog(s: State, step: Step)
    requires AttemptsInv(s) && Enabled(s, step)
    ensures Next(s, step).log.Keys == Next(s, step).messages.Keys
  {
    hide MessageOk;
    if step.Record? || step.Settle? || step.Load? {
      assert PhaseOk(s, s.deliveries[step.w]);
    }
  }

  lemma StepKeepsAttempts(s: State, step: Step)
    requires AttemptsInv(s) && Enabled(s, step) && Patient(s, step)
    ensures AttemptsInv(Next(s, step))
  {
    hide Next, Enabled, Patient, MessageOk, PhaseOk;
    var t := Next(s, step);
    StepKeepsLog(s, step);
    forall m | m in t.messages ensures MessageOk(t, m) { StepKeepsMessage(s, step, m); }
    forall d | d in t.deliveries ensures PhaseOk(t, t.deliveries[d]) { StepKeepsPhase(s, step, d); }
    forall c, d | c in t.deliveries && d in t.deliveries && Attempting(t.deliveries[c]) && Attempting(t.deliveries[d])
                  && t.deliveries[c].m == t.deliveries[d].m ensures c == d {
      StepKeepsOwners(s, step, c, d);
    }
  }

  /** A redelivery keeps the invariant if and only if its message is not under attempt; one whose
      attempt has recorded a success or was the sixth, or that a dispatcher left behind, is safe. */
  lemma RedeliveryKeepsIff(s: State, m: Id)
    requires AttemptsInv(s) && Enabled(s, Redeliver(m))
    ensures AttemptsInv(Next(s, Redeliver(m))) <==> !UnderAttempt(s, m)
  {
    hide MessageOk, AllFailed;
    var t := Next(s, Redeliver(m));
    if UnderAttempt(s, m) {
      var d: Id :| d in s.deliveries && Attempting(s.deliveries[d]) && s.deliveries[d].m == m;
      assert !PhaseOk(t, t.deliveries[d]);
    } else {
      StepKeepsAttempts(s, Redeliver(m));
    }
  }

  /** The redelivery of a message whose last attempt is recorded but not settled is lost: settling
      ends the message, and no attempt of the redelivery was made. */
  lemma UnsettledSwallowsRedelivery(s: State, w: Id)
    requires AttemptsInv(s) && Enabled(s, Settle(w)) && !Attempting(s.deliveries[w])
    requires Enabled(s, Redeliver(s.deliveries[w].m))
    ensures var m := s.deliveries[w].m;
            var t := Next(s, Redeliver(m));
            && Enabled(t, Settle(w)) && Next(t, Settle(w)).log[m] == []
            && Next(t, Settle(w)).messages[m].status == if s.deliveries[w].ok then Sent else Failed
  {
  }

  ghost predicate Orphaned(s: State, m: Id) {
    && m in s.messages && s.messages[m].status == Processing
    && forall d | d in s.deliveries && Active(s.deliveries[d]) :: s.deliveries[d].m != m
  }

  /** A message left processing by a dispatcher that stopped stays exactly as it is until it is
      redelivered: no step reclaims it. */
  lemma OrphanStays(s: State, step: Step, m: Id)
    requires AttemptsInv(s) && Enabled(s, step) && Orphaned(s, m) && step != Redeliver(m)
    ensures Orphaned(Next(s, step), m) && Next(s, step).messages[m] == s.messages[m]
  {
    hide MessageOk, PhaseOk, Counted, Switched, StreakOf, AfterAttempt;
    UntouchedStays(s, step, m);
  }

  // ---- the failure counter --------------------------------------------------------------

  /** An enabled subscription is below the threshold. */
  ghost predicate CounterInv(s: State) {
    forall sub | sub in s.subs && s.subs[sub].enabled :: s.subs[sub].failures < AUTO_DISABLE_FAILURE_THRESHOLD
  }

  /** Whatever the interleaving, and however old the counter a delivery loaded. */
  lemma StepKeepsCounter(s: State, step: Step)
    requires CounterInv(s) && Enabled(s, step)
    ensures CounterInv(Next(s, step))
  {
  }

  // ---- whole runs -----------------------------------------------------------------------

  ghost predicate Runs(s: State, steps: seq<Step>)
    decreases |steps|
  {
    steps == [] || (Enabled(s, steps[0]) && Runs(Next(s, steps[0]), steps[1..]))
  }

  ghost function After(s: State, steps: seq<Step>): State
    requires Runs(s, steps)
    decreases |steps|
  {
    if steps == [] then s else After(Next(s, steps[0]), steps[1..])
  }

  ghost predicate AllPatient(s: State, steps: seq<Step>)
    requires Runs(s, steps)
    decreases |steps|
  {
    steps == [] || (Patient(s, steps[0]) && AllPatient(Next(s, steps[0]), steps[1..]))
  }

  function Fresh(now: int): State { State(now, map[], map[], map[], map[], map[]) }

  lemma {:induction false} RunKeepsAttempts(s: State, steps: seq<Step>)
    requires AttemptsInv(s) && Runs(s, steps) && AllPatient(s, steps)
    ensures AttemptsInv(After(s, steps))
    decreases |steps|
  {
    hide AttemptsInv, Enabled, Next, Patient;
    if steps != [] {
      StepKeepsAttempts(s, steps[0]);
      RunKeepsAttempts(Next(s, steps[0]), steps[1..]);
    }
  }

  /** In every run in which no redelivery is issued while an attempt of its message is under way, a
      message's attempts since its last redelivery are numbered 1 .. k with k at most 6, and all but
      the last failed. */
  lemma AttemptsAreNumbered(now: int, steps: seq<Step>, m: Id)
    requires Runs(Fresh(now), steps) && AllPatient(Fresh(now), steps) && m in After(Fresh(now), steps).messages
    ensures m in After(Fresh(now), steps).log && Numbered(After(Fresh(now), steps).log[m])
  {
    hide Runs, After, AllPatient;
    RunKeepsAttempts(Fresh(now), steps);
    assert MessageOk(After(Fresh(now), steps), m);
  }

  lemma {:induction false} RunKeepsCounter(s: State, steps: seq<Step>)
    requires CounterInv(s) && Runs(s, steps)
    ensures CounterInv(After(s, steps))
    decreases |steps|
  {
    hide CounterInv, Enabled, Next;
    if steps != [] {
      StepKeepsCounter(s, steps[0]);
      RunKeepsCounter(Next(s, steps[0]), steps[1..]);
    }
  }

  /** In every run, an enabled subscription has fewer than 20 consecutive failures. */
  lemma EnabledIsBelowThreshold(now: int, steps: seq<Step>, sub: Id)
    requires Runs(Fresh(now), steps)
    requires sub in After(Fresh(now), steps).subs && After(Fresh(now), steps).subs[sub].enabled
    ensures After(Fresh(now), steps).subs[sub].failures < AUTO_DISABLE_FAILURE_THRESHOLD
  {
    hide Runs, After;
    RunKeepsCounter(Fresh(now), steps);
  }
}
