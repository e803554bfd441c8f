/** The webhook dispatcher as it runs against its tables. */
module WebhookStore {
  import opened Common
  import opened WebhookQueue

  lemma LoadLeads(s: State, w: Id)
    requires Enabled(s, Load(w))
    ensures w in Next(s, Load(w)).deliveries ==> Next(s, Load(w)).deliveries[w].Sending?
  {
  }

  lemma RecordLeads(s: State, w: Id, ok: bool)
    requires AttemptsInv(s) && Enabled(s, Record(w, ok))
    ensures Enabled(Next(s, Record(w, ok)), Settle(w))
  {
    hide MessageOk;
    assert PhaseOk(s, s.deliveries[w]);
  }

  lemma SettleLeads(s: State, w: Id)
    requires AttemptsInv(s) && Enabled(s, Settle(w))
    ensures Enabled(Next(s, Settle(w)), Count(w))
  {
    hide MessageOk;
    assert PhaseOk(s, s.deliveries[w]);
  }

  lemma ThreeSteps(s: State, a: Step, b: Step, c: Step)
    requires Enabled(s, a) && Enabled(Next(s, a), b) && Enabled(Next(Next(s, a), b), c)
    ensures Runs(s, [a, b, c]) && After(s, [a, b, c]) == Next(Next(Next(s, a), b), c)
  {
    hide Enabled, Next;
    var t, u := Next(s, a), Next(Next(s, a), b);
    assert [a, b, c][1..] == [b, c] && [b, c][1..] == [c] && [c][1..] == [];
    assert Runs(Next(u, c), []) && After(Next(u, c), []) == Next(u, c);
    assert Runs(u, [c]) && After(u, [c]) == After(Next(u, c), [c][1..]);
    assert Runs(t, [b, c]) && After(t, [b, c]) == Next(u, c);
  }

  class Dispatcher {
    var now: int
    var subs: map<Id, Subscription>
    var messages: map<Id, Message>
    var deliveries: map<Id, Phase>
    ghost var log: map<Id, seq<Attempt>>
    ghost var streak: map<Id, nat>

    ghost function Snapshot(): State
      reads this
    {
      State(now, subs, messages, deliveries, log, streak)
    }

    /** The due message that has been available longest. */
    method Candidate() returns (choice: Option<Id>)
      ensures IsNext(messages, now, choice)
    {
      choice := None;
      var todo := messages.Keys;
      while todo != {}
        invariant todo <= messages.Keys
        invariant choice.Some? ==> choice.value in messages && Due(messages[choice.value], now)
        invariant forall m | m in messages && m !in todo && Due(messages[m], now) ::
                    choice.Some? && messages[choice.value].availableAt <= messages[m].availableAt
        decreases |todo|
      {
        HasElement(todo);
        var m :| m in todo;
        todo := todo - {m};
        if Due(messages[m], now) && (choice.None? || messages[m].availableAt < messages[choice.value].availableAt) {
          choice := Some(m);
        }
      }
    }

    method ClaimNextOutboxMessage(w: Id) returns (choice: Option<Id>)
      requires w !in deliveries
      modifies `messages, `deliveries
      ensures Enabled(old(Snapshot()), Claim(w, {}, choice))
      ensures Snapshot() == Next(old(Snapshot()), Claim(w, {}, choice))
    {
      choice := Candidate();
      if choice.Some? {
        var m := choice.value;
        deliveries := deliveries[w := Claimed(m, messages[m].attempts)];
        messages := messages[m := messages[m].(status := Processing)];
      }
    }

    /** `deliver` up to the request: the message may end here. */
    method LoadSubscription(w: Id)
      requires Enabled(Snapshot(), Load(w))
      modifies `messages, `deliveries
      ensures Snapshot() == Next(old(Snapshot()), Load(w))
    {
      var m := deliveries[w].m;
      var row := messages[m];
      if row.payload != Proper {
        messages := messages[m := row.(status := Failed)];
        deliveries := deliveries - {w};
      } else if row.sub !in subs || !subs[row.sub].live || !subs[row.sub].enabled {
        messages := messages[m := row.(status := Cancelled)];
        deliveries := deliveries - {w};
      } else {
        deliveries := deliveries[w := Sending(m, deliveries[w].attempts + 1, row.sub, subs[row.sub].failures)];
      }
    }

    method RecordDeliveryAttempt(w: Id, ok: bool)
      requires Enabled(Snapshot(), Record(w, ok))
      modifies `deliveries, `log, `streak
      ensures Snapshot() == Next(old(Snapshot()), Record(w, ok))
    {
      var p := deliveries[w];
      deliveries := deliveries[w := Recorded(p.m, p.number, p.sub, p.failures, ok)];
      log := log[p.m := (if p.m in log then log[p.m] else []) + [Attempt(p.number, ok)]];
      streak := streak[p.sub := if ok then 0 else (if p.sub in streak then streak[p.sub] else 0) + 1];
    }

    /** `markOutboxTerminal` or `rescheduleOutbox`. */
    method SettleMessage(w: Id)
      requires Enabled(Snapshot(), Settle(w))
      modifies `messages, `deliveries
      ensures Snapshot() == Next(old(Snapshot()), Settle(w))
    {
      var p := deliveries[w];
      if p.ok {
        messages := messages[p.m := messages[p.m].(status := Sent)];
      } else if p.number >= |RETRY_BACKOFF| {
        messages := messages[p.m := messages[p.m].(status := Failed)];
      } else {
        messages := messages[p.m := messages[p.m].(
          status := Pending, attempts := p.number, availableAt := now + Delay(p.number))];
      }
      deliveries := deliveries[w := Settled(p.sub, p.failures, p.ok)];
    }

    /** `recordSubscriptionSuccess` or `recordSubscriptionFailure`. */
    method CountOutcome(w: Id)
      requires Enabled(Snapshot(), Count(w))
      modifies `subs, `deliveries
      ensures Snapshot() == Next(old(Snapshot()), Count(w))
    {
      var p := deliveries[w];
      var row := subs[p.sub];
      if p.ok {
        subs := subs[p.sub := row.(failures := 0)];
      } else if p.failures + 1 >= AUTO_DISABLE_FAILURE_THRESHOLD {
        subs := subs[p.sub := row.(failures := p.failures + 1, enabled := false)];
      } else {
        subs := subs[p.sub := row.(failures := p.failures + 1)];
      }
      deliveries := deliveries - {w};
    }

    /** A whole delivery that nothing interrupts, given how the request turned out. */
    method Deliver(w: Id, ok: bool)
      requires AttemptsInv(Snapshot()) && Enabled(Snapshot(), Load(w))
      modifies `subs, `messages, `deliveries, `log, `streak
      ensures var loaded := Next(old(Snapshot()), Load(w));
              if w !in loaded.deliveries then Snapshot() == loaded
              else Runs(loaded, [Record(w, ok), Settle(w), Count(w)])
                   && Snapshot() == After(loaded, [Record(w, ok), Settle(w), Count(w)])
      ensures AttemptsInv(Snapshot()) && w !in deliveries
    {
      hide AttemptsInv, MessageOk, PhaseOk, Counted, AfterAttempt, Loaded;
      ghost var s0 := Snapshot();
      StepKeepsAttempts(s0, Load(w));
      LoadLeads(s0, w);
      LoadSubscription(w);
      if w in deliveries {
        ghost var s1 := Snapshot();
        StepKeepsAttempts(s1, Record(w, ok));
        RecordLeads(s1, w, ok);
        RecordDeliveryAttempt(w, ok);
        ghost var s2 := Snapshot();
        StepKeepsAttempts(s2, Settle(w));
        SettleLeads(s2, w);
        SettleMessage(w);
        ghost var s3 := Snapshot();
        StepKeepsAttempts(s3, Count(w));
        CountOutcome(w);
        ThreeSteps(s1, Record(w, ok), Settle(w), Count(w));
      }
    }

    /** The `enabled` branch of `updateWebhookSubscription`. */
    method UpdateWebhookSubscription(sub: Id, enabled: Option<bool>)
      requires Enabled(Snapshot(), Update(sub, enabled))
      modifies `subs, `streak
      ensures Snapshot() == Next(old(Snapshot()), Update(sub, enabled))
      ensures old(CounterInv(Snapshot())) ==> CounterInv(Snapshot())
    {
      hide CounterInv;
      ghost var s := Snapshot();
      if CounterInv(s) {
        StepKeepsCounter(s, Update(sub, enabled));
      }
      var row := subs[sub];
      if enabled.Some? {
        row := row.(enabled := enabled.value, failures := if enabled.value then 0 else row.failures);
      }
      subs := subs[sub := row];
      if enabled == Some(true) {
        streak := streak[sub := 0];
      }
    }

    /** The request is refused unless subscription and message fit together; a redelivery leaves no
        record of earlier attempts to number on from, and is harmless unless one is under way. */
    method RedeliverWebhookDelivery(sub: Id, m: Id) returns (status: nat)
      modifies `messages, `log
      ensures status in {200, 400, 404}
      ensures status == 200 <==> old(Enabled(Snapshot(), Redeliver(m)) && messages[m].sub == sub)
      ensures status != 200 ==> Snapshot() == old(Snapshot())
      ensures status == 200 ==> m in messages && messages[m].status == Pending && messages[m].attempts == 0
                                && messages[m].availableAt == now && m in log && log[m] == []
      ensures status == 200 && old(AttemptsInv(Snapshot())) ==>
                (AttemptsInv(Snapshot()) <==> old(!UnderAttempt(Snapshot(), m)))
    {
      hide AttemptsInv, UnderAttempt;
      if sub !in subs || !subs[sub].live || m !in messages {
        return 404;
      }
      if messages[m].payload == Unparsable {
        return 400;
      }
      if messages[m].sub != sub {
        return 404;
      }
      ghost var s := Snapshot();
      if AttemptsInv(s) {
        RedeliveryKeepsIff(s, m);
      }
      messages := messages[m := messages[m].(status := Pending, availableAt := now, attempts := 0)];
      log := log[m := []];
      assert Snapshot() == Next(s, Redeliver(m));
      status := 200;
    }
  }
}
