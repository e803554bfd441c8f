/** What each step of the webhook outbox does to messages and subscriptions. */
module WebhookEffects {
  import opened Common
  import opened WebhookQueue

  /** A claim takes the due message that has been available longest, and none only when none is due, other
      transactions' locked rows aside; the message is then processing and nothing else changes. */
  lemma ClaimExactly(s: State, w: Id, skipped: set<Id>, choice: Option<Id>, m: Id)
    requires Enabled(s, Claim(w, skipped, choice)) && m in s.messages
    ensures var t, row := Next(s, Claim(w, skipped, choice)), s.messages[m];
            var due := row.status == Pending && row.availableAt <= s.now && m !in skipped;
            && t == s.(messages := t.messages, deliveries := t.deliveries) && t.messages.Keys == s.messages.Keys
            && (due ==> choice.Some? && choice.value in s.messages
                        && s.messages[choice.value].availableAt <= row.availableAt)
            && (choice == Some(m) ==>
                  && due && t.messages[m] == row.(status := Processing)
                  && t.deliveries == s.deliveries[w := Claimed(m, row.attempts)])
            && (choice != Some(m) ==> t.messages[m] == row)
            && (choice == None ==> t == s)
  {
    var rows := s.messages - skipped;
    if m !in skipped {
      assert m in rows;
    }
    if choice.Some? {
      assert choice.value in rows;
    }
  }

  /** The wait after a failed attempt: half a minute, two minutes, ten minutes, an hour, six hours. */
  function Wait(number: nat): int {
    if number <= 1 then 30 * 1000
    else if number == 2 then 2 * 60 * 1000
    else if number == 3 then 10 * 60 * 1000
    else if number == 4 then 60 * 60 * 1000
    else if number == 5 then 6 * 60 * 60 * 1000
    else 24 * 60 * 60 * 1000
  }

  /** The subscription can be sent to. */
  predicate Reachable(s: State, sub: Id) { sub in s.subs && s.subs[sub].live && s.subs[sub].enabled }

  /** Loading ends a message without a proper payload as failed and one without a reachable subscription
      as cancelled; any other becomes the next attempt, with the counter its subscription shows. */
  lemma LoadExactly(s: State, w: Id)
    requires Enabled(s, Load(w))
    ensures var t, m := Next(s, Load(w)), s.deliveries[w].m;
            var row := s.messages[m];
            var goes := row.payload == Proper && Reachable(s, row.sub);
            && t == s.(messages := t.messages, deliveries := t.deliveries)
            && t.messages == (if goes then s.messages
                              else s.messages[m := row.(status := if row.payload != Proper then Failed else Cancelled)])
            && (if goes
                then t.deliveries == s.deliveries[w := Sending(m, s.deliveries[w].attempts + 1, row.sub,
                                                               s.subs[row.sub].failures)]
                else t.deliveries == s.deliveries - {w})
  {
  }

  /** The message after an attempt. */
  ghost predicate MessageAfter(before: Message, after: Message, number: nat, ok: bool, now: int) {
    && after.sub == before.sub && after.payload == before.payload
    && if ok then after.status == Sent && after.attempts == before.attempts
       else if number >= 6 then after.status == Failed && after.attempts == before.attempts
       else after.status == Pending && after.attempts == number && after.availableAt == now + Wait(number)
  }

  /** The subscription after an attempt, `failures` being the counter loaded before it. */
  ghost predicate SubscriptionAfter(before: Subscription, after: Subscription, failures: nat, ok: bool) {
    && after.live == before.live && after.failures == (if ok then 0 else failures + 1)
    && after.enabled == (before.enabled && (ok || failures < 19))
  }

  lemma SettleExactly(s: State, w: Id)
    requires Enabled(s, Settle(w))
    ensures var t, p := Next(s, Settle(w)), s.deliveries[w];
            && p.m in t.messages && MessageAfter(s.messages[p.m], t.messages[p.m], p.number, p.ok, s.now)
            && t == s.(messages := s.messages[p.m := t.messages[p.m]],
                       deliveries := s.deliveries[w := Settled(p.sub, p.failures, p.ok)])
  {
  }

  lemma CountExactly(s: State, w: Id)
    requires Enabled(s, Count(w))
    ensures var t, p := Next(s, Count(w)), s.deliveries[w];
            && p.sub in t.subs && SubscriptionAfter(s.subs[p.sub], t.subs[p.sub], p.failures, p.ok)
            && t == s.(subs := s.subs[p.sub := t.subs[p.sub]], deliveries := s.deliveries - {w})
  {
  }

  lemma RecordExactly(s: State, w: Id, ok: bool)
    requires Enabled(s, Record(w, ok))
    ensures var t, p := Next(s, Record(w, ok)), s.deliveries[w];
            && t == s.(deliveries := t.deliveries, log := t.log, streak := t.streak)
            && t.log == s.log[p.m := (if p.m in s.log then s.log[p.m] else []) + [Attempt(p.number, ok)]]
            && t.deliveries == s.deliveries[w := Recorded(p.m, p.number, p.sub, p.failures, ok)]
            && t.streak == s.streak[p.sub := if ok then 0 else (if p.sub in s.streak then s.streak[p.sub] else 0) + 1]
  {
  }

  lemma ClaimedAndLoaded(s: State, w: Id, m: Id, ok: bool) returns (s1: State, s2: State, s3: State)
    requires AttemptsInv(s) && Enabled(s, Claim(w, {}, Some(m)))
    requires s.messages[m].payload == Proper && Reachable(s, s.messages[m].sub)
    ensures w !in s.deliveries && m in s.messages && m in s.log
    ensures Enabled(s, Claim(w, {}, Some(m))) && s1 == Next(s, Claim(w, {}, Some(m)))
    ensures Enabled(s1, Load(w)) && s2 == Next(s1, Load(w))
    ensures Enabled(s2, Record(w, ok)) && s3 == Next(s2, Record(w, ok))
    ensures var row := s.messages[m];
            && s3.messages == s.messages[m := row.(status := Processing)]
            && s3.deliveries == s.deliveries[w := Recorded(m, row.attempts + 1, row.sub, s.subs[row.sub].failures, ok)]
            && s3.log == s.log[m := s.log[m] + [Attempt(row.attempts + 1, ok)]]
            && s3.subs == s.subs && s3.now == s.now
  {
    hide MessageOk, PhaseOk, IsNext;
    NextIsPending(s.messages - {}, s.now, Some(m));
    ClaimExactly(s, w, {}, Some(m), m);
    s1 := Next(s, Claim(w, {}, Some(m)));
    LoadExactly(s1, w);
    s2 := Next(s1, Load(w));
    RecordExactly(s2, w, ok);
    s3 := Next(s2, Record(w, ok));
  }

  lemma SettledAndCounted(s: State, w: Id) returns (s4: State, t: State)
    requires w in s.deliveries && s.deliveries[w].Recorded? && s.deliveries[w].number >= 1
    requires s.deliveries[w].m in s.messages && s.deliveries[w].sub in s.subs
    ensures Enabled(s, Settle(w)) && s4 == Next(s, Settle(w))
    ensures Enabled(s4, Count(w)) && t == Next(s4, Count(w))
    ensures var p := s.deliveries[w];
            && p.m in t.messages && p.sub in t.subs && t.now == s.now && t.log == s.log
            && t.deliveries == s.deliveries - {w}
            && t.messages == s.messages[p.m := t.messages[p.m]] && t.subs == s.subs[p.sub := t.subs[p.sub]]
            && MessageAfter(s.messages[p.m], t.messages[p.m], p.number, p.ok, s.now)
            && SubscriptionAfter(s.subs[p.sub], t.subs[p.sub], p.failures, p.ok)
  {
    hide MessageAfter, SubscriptionAfter;
    SettleExactly(s, w);
    s4 := Next(s, Settle(w));
    CountExactly(s4, w);
    t := Next(s4, Count(w));
  }

  lemma FromHere(s: State, steps: seq<Step>, i: nat, end: State)
    requires i < |steps| && Enabled(s, steps[i])
    requires var t := Next(s, steps[i]); Runs(t, steps[i + 1..]) && After(t, steps[i + 1..]) == end
    ensures Runs(s, steps[i..]) && After(s, steps[i..]) == end
  {
    hide Enabled, Next;
    assert steps[i..][0] == steps[i] && steps[i..][1..] == steps[i + 1..];
  }

  lemma FiveSteps(s: State, steps: seq<Step>, s1: State, s2: State, s3: State, s4: State, t: State)
    requires |steps| == 5 && Enabled(s, steps[0]) && s1 == Next(s, steps[0])
    requires Enabled(s1, steps[1]) && s2 == Next(s1, steps[1])
    requires Enabled(s2, steps[2]) && s3 == Next(s2, steps[2])
    requires Enabled(s3, steps[3]) && s4 == Next(s3, steps[3])
    requires Enabled(s4, steps[4]) && t == Next(s4, steps[4])
    ensures Runs(s, steps) && After(s, steps) == t
  {
    hide Enabled, Next;
    assert Runs(t, steps[5..]) && After(t, steps[5..]) == t;
    FromHere(s4, steps, 4, t);
    FromHere(s3, steps, 3, t);
    FromHere(s2, steps, 2, t);
    FromHere(s1, steps, 1, t);
    FromHere(s, steps, 0, t);
    assert steps[0..] == steps;
  }

  /** A whole attempt that nothing comes between, from the claim on: it is recorded with the number after
      those the message had, the message is sent, waits for the next attempt or has failed for good
      with the sixth, and the counter of the subscription follows, disabling it at twenty.  No other
      message, log or subscription changes. */
  lemma AttemptExactly(s: State, w: Id, m: Id, ok: bool)
    requires AttemptsInv(s) && Enabled(s, Claim(w, {}, Some(m)))
    requires s.messages[m].payload == Proper && Reachable(s, s.messages[m].sub)
    ensures var steps := [Claim(w, {}, Some(m)), Load(w), Record(w, ok), Settle(w), Count(w)];
            && Runs(s, steps)
            && var t, row, number := After(s, steps), s.messages[m], s.messages[m].attempts + 1;
               && t == s.(messages := t.messages, log := t.log, subs := t.subs, streak := t.streak)
               && m in t.messages && t.messages == s.messages[m := t.messages[m]]
               && MessageAfter(row, t.messages[m], number, ok, s.now)
               && t.log == s.log[m := s.log[m] + [Attempt(number, ok)]]
               && row.sub in t.subs && t.subs == s.subs[row.sub := t.subs[row.sub]]
               && SubscriptionAfter(s.subs[row.sub], t.subs[row.sub], s.subs[row.sub].failures, ok)
  {
    hide AttemptsInv, SubscriptionAfter, Next, Enabled, Runs, After;
    var s1, s2, s3 := ClaimedAndLoaded(s, w, m, ok);
    assert s3.deliveries[w] == Recorded(m, s.messages[m].attempts + 1, s.messages[m].sub,
                                        s.subs[s.messages[m].sub].failures, ok);
    var s4, t := SettledAndCounted(s3, w);
    assert t.deliveries == s.deliveries;
    FiveSteps(s, [Claim(w, {}, Some(m)), Load(w), Record(w, ok), Settle(w), Count(w)], s1, s2, s3, s4, t);
  }

  // ---- subscriptions and new messages ----------------------------------------------------

  /** Enabling a subscription starts its counter afresh; disabling keeps it; a new one is enabled at zero;
      one that is removed is never sent to again; and a new message, or one that is redelivered, is due
      at once with no attempt behind it. */
  lemma RequestsExactly(s: State, step: Step)
    requires Enabled(s, step)
    ensures match step
            case Update(sub, enabled) =>
              && sub in Next(s, step).subs && Next(s, step).subs == s.subs[sub := Next(s, step).subs[sub]]
              && Next(s, step).messages == s.messages && Next(s, step).subs[sub].live == s.subs[sub].live
              && Next(s, step).subs[sub].enabled == (if enabled.Some? then enabled.value else s.subs[sub].enabled)
              && Next(s, step).subs[sub].failures == (if enabled == Some(true) then 0 else s.subs[sub].failures)
            case Subscribe(sub) =>
              && sub in Next(s, step).subs && Next(s, step).messages == s.messages
              && Next(s, step).subs == s.subs[sub := Next(s, step).subs[sub]]
              && Reachable(Next(s, step), sub) && Next(s, step).subs[sub].failures == 0
            case Unsubscribe(sub) =>
              && sub in Next(s, step).subs && Next(s, step).messages == s.messages
              && Next(s, step).subs == s.subs[sub := Next(s, step).subs[sub]] && !Reachable(Next(s, step), sub)
            case Emit(m, sub, payload) =>
              && m in Next(s, step).messages && Next(s, step).messages == s.messages[m := Next(s, step).messages[m]]
              && Due(Next(s, step).messages[m], s.now) && Next(s, step).messages[m].attempts == 0
              && Next(s, step).messages[m].sub == sub && Next(s, step).messages[m].payload == payload
            case Redeliver(m) =>
              && m in s.messages && m in Next(s, step).messages
              && Next(s, step).messages == s.messages[m := Next(s, step).messages[m]]
              && Due(Next(s, step).messages[m], s.now) && Next(s, step).messages[m].attempts == 0
              && Next(s, step).messages[m].sub == s.messages[m].sub
              && Next(s, step).messages[m].payload == s.messages[m].payload
            case _ => true
  {
    hide IsNext, AfterAttempt, Counted, StreakOf;
  }
}
