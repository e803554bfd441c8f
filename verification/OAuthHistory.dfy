/** What the authorization server was asked, against what it answers: a token that is delivered goes back
    to an approval and an exchange as they came in, whatever was stored in between. */
module OAuthHistory {
  import opened Common
  import opened OAuth

  /** The request was begun in this past, and its user approved it. */
  predicate Approved(past: seq<Step>, g: Id, a: Approval) {
    BeginApprove(g, a) in past && a.valid && a.decision == "approve"
  }

  /** The entry says what an approval asked for, and the code was answered to that approval. */
  ghost predicate GrantedBy(past: seq<Step>, s: State, code: Code, e: Entry, g: Id, a: Approval) {
    && Approved(past, g, a) && g in s.handlers && s.handlers[g] == Answered(Redirect(code))
    && e.clientId == a.clientId && e.redirectUri == a.redirectUri && e.resource == a.resource
    && e.scope == a.scope && e.codeChallenge == a.codeChallenge
  }

  ghost predicate Granted(past: seq<Step>, s: State, code: Code, e: Entry) {
    exists g, a :: GrantedBy(past, s, code, e, g, a)
  }

  ghost predicate HandlerOk(past: seq<Step>, s: State, h: Id, handler: Handler) {
    match handler
    case Approving(_, a) => BeginApprove(h, a) in past
    case Minting(a) => Approved(past, h, a)
    case Minted(a, _) => Approved(past, h, a)
    case Exchanging(_, x) => BeginExchange(h, x) in past
    case Checking(x, e, _) =>
      BeginExchange(h, x) in past && x.grantType == "authorization_code" && Granted(past, s, x.code, e)
    case Answered(_) => true
  }

  ghost predicate Recorded(past: seq<Step>, s: State) {
    && (forall h | h in s.handlers :: HandlerOk(past, s, h, s.handlers[h]))
    && (forall code | code in s.codes :: Granted(past, s, code, s.codes[code]))
    && (forall h | h in s.deliveries ::
          HandlerOk(past, s, h, Checking(s.deliveries[h].exchange, s.deliveries[h].entry, 0)))
  }

  lemma AnswersStay(hash: string -> string, s: State, step: Step, g: Id)
    requires Enabled(s, step) && g in s.handlers && s.handlers[g].Answered?
    ensures g in Next(hash, s, step).handlers && Next(hash, s, step).handlers[g] == s.handlers[g]
  {
    hide Objection, SweptAt, Removed, Decided;
  }

  /** An answer stays, and the past only grows. */
  lemma GrantedStays(hash: string -> string, past: seq<Step>, s: State, step: Step, code: Code, e: Entry)
    requires Enabled(s, step) && Granted(past, s, code, e)
    ensures Granted(past + [step], Next(hash, s, step), code, e)
  {
    hide Objection, SweptAt, Next;
    var g, a :| GrantedBy(past, s, code, e, g, a);
    AnswersStay(hash, s, step, g);
    assert GrantedBy(past + [step], Next(hash, s, step), code, e, g, a);
  }

  lemma HandlerStays(hash: string -> string, past: seq<Step>, s: State, step: Step, h: Id, handler: Handler)
    requires Enabled(s, step) && HandlerOk(past, s, h, handler)
    ensures HandlerOk(past + [step], Next(hash, s, step), h, handler)
  {
    hide Granted, Next, Enabled;
    if handler.Checking? {
      GrantedStays(hash, past, s, step, handler.exchange.code, handler.entry);
    }
  }

  lemma CheckedAnswers(hash: string -> string, s: State, h: Id)
    requires h in s.handlers && s.handlers[h].Checking?
    ensures h in CheckedBy(hash, s, h).handlers && CheckedBy(hash, s, h).handlers[h].Answered?
  {
    hide Objection;
  }

  /** The handler that the step works on. */
  lemma OwnHandler(hash: string -> string, past: seq<Step>, s: State, step: Step)
    requires Recorded(past, s) && Enabled(s, step) && !step.Tick?
    ensures var t := Next(hash, s, step);
            step.h in t.handlers && HandlerOk(past + [step], t, step.h, t.handlers[step.h])
  {
    hide Granted, SweptAt, Removed, StoredBy, CheckedBy;
    var t := Next(hash, s, step);
    if step.Store? {
      StoreFrame(s, step.h, step.code);
    } else if step.Check? {
      CheckedAnswers(hash, s, step.h);
    }
    if step.h in s.handlers {
      HandlerStays(hash, past, s, step, step.h, s.handlers[step.h]);
    }
    if step.Consume? {
      var code := s.handlers[step.h].exchange.code;
      if code in s.codes {
        GrantedStays(hash, past, s, step, code, s.codes[code]);
      }
    }
    assert step in past + [step];
  }

  lemma GrantedHas(past: seq<Step>, s: State, code: Code, e: Entry, g: Id, a: Approval)
    requires GrantedBy(past, s, code, e, g, a)
    ensures Granted(past, s, code, e)
  {
  }

  /** A code that is stored says what the approval of its handler asked for. */
  lemma StoredIsGranted(hash: string -> string, past: seq<Step>, s: State, h: Id, code: Code)
    requires Recorded(past, s) && Enabled(s, Store(h, code))
    ensures var t := Next(hash, s, Store(h, code));
            code in t.codes && Granted(past + [Store(h, code)], t, code, t.codes[code])
  {
    hide Granted, Objection, SweptAt;
    var t, a := Next(hash, s, Store(h, code)), s.handlers[h].approval;
    assert HandlerOk(past, s, h, s.handlers[h]);
    assert GrantedBy(past + [Store(h, code)], t, code, t.codes[code], h, a);
    GrantedHas(past + [Store(h, code)], t, code, t.codes[code], h, a);
  }

  lemma CodesStay(hash: string -> string, s: State, step: Step, code: Code)
    requires Enabled(s, step) && code in Next(hash, s, step).codes && !(step.Store? && step.code == code)
    ensures code in s.codes && Next(hash, s, step).codes[code] == s.codes[code]
  {
    hide Objection, SweptAt, Decided;
  }

  lemma SameChecking(past: seq<Step>, s: State, h: Id, x: Exchange, e: Entry, at: int)
    requires HandlerOk(past, s, h, Checking(x, e, at))
    ensures HandlerOk(past, s, h, Checking(x, e, 0))
  {
    hide Granted;
  }

  lemma DeliveryOk(hash: string -> string, past: seq<Step>, s: State, step: Step, h: Id)
    requires Recorded(past, s) && Enabled(s, step) && h in Next(hash, s, step).deliveries
    ensures var t := Next(hash, s, step);
            HandlerOk(past + [step], t, h, Checking(t.deliveries[h].exchange, t.deliveries[h].entry, 0))
  {
    hide Granted, Objection, SweptAt, Removed, Decided, HandlerOk;
    var t := Next(hash, s, step);
    if step.Check? && step.h == h {
      var c := s.handlers[h];
      assert HandlerOk(past, s, h, c);
      SameChecking(past, s, h, c.exchange, c.entry, c.at);
      HandlerStays(hash, past, s, step, h, Checking(c.exchange, c.entry, 0));
    }
    if h in s.deliveries {
      HandlerStays(hash, past, s, step, h, Checking(s.deliveries[h].exchange, s.deliveries[h].entry, 0));
    }
  }

  lemma StepKeepsRecorded(hash: string -> string, past: seq<Step>, s: State, step: Step)
    requires Recorded(past, s) && Enabled(s, step)
    ensures Recorded(past + [step], Next(hash, s, step))
  {
    hide Next, Enabled, Granted, HandlerOk;
    var t := Next(hash, s, step);
    forall h | h in t.handlers ensures HandlerOk(past + [step], t, h, t.handlers[h]) {
      if !step.Tick? && step.h == h {
        OwnHandler(hash, past, s, step);
      } else {
        OthersUntouched(hash, s, step, h);
        HandlerStays(hash, past, s, step, h, s.handlers[h]);
      }
    }
    forall code | code in t.codes ensures Granted(past + [step], t, code, t.codes[code]) {
      if step.Store? && step.code == code {
        StoredIsGranted(hash, past, s, step.h, code);
      } else {
        CodesStay(hash, s, step, code);
        GrantedStays(hash, past, s, step, code, s.codes[code]);
      }
    }
    forall h | h in t.deliveries
      ensures HandlerOk(past + [step], t, h, Checking(t.deliveries[h].exchange, t.deliveries[h].entry, 0))
    {
      DeliveryOk(hash, past, s, step, h);
    }
  }

  lemma {:induction false} RunKeepsRecorded(hash: string -> string, past: seq<Step>, s: State, steps: seq<Step>)
    requires Recorded(past, s) && Runs(hash, s, steps)
    ensures Recorded(past + steps, After(hash, s, steps))
    decreases |steps|
  {
    hide Recorded, Next, Enabled;
    if steps == [] {
      assert past + steps == past;
    } else {
      StepKeepsRecorded(hash, past, s, steps[0]);
      RunKeepsRecorded(hash, past + [steps[0]], Next(hash, s, steps[0]), steps[1..]);
      assert past + [steps[0]] + steps[1..] == past + steps;
    }
  }

  ghost predicate Deserves(
      hash: string -> string, past: seq<Step>, s: State, h: Id, x: Exchange, g: Id, a: Approval)
    requires h in s.handlers && s.handlers[h].Answered? && s.handlers[h].answer.AccessToken?
  {
    && BeginExchange(h, x) in past && x.grantType == "authorization_code"
    && BeginApprove(g, a) in past && a.valid && a.decision == "approve"
    && g in s.handlers && s.handlers[g] == Answered(Redirect(x.code))
    && x.clientId == a.clientId && x.redirectUri == a.redirectUri && x.resource == a.resource
    && x.codeVerifier != "" && hash(x.codeVerifier) == a.codeChallenge
    && s.handlers[h].answer.scope == a.scope
  }

  lemma NothingRecorded(now: int)
    ensures Recorded([], Fresh(now))
  {
  }

  lemma DeliveryRecorded(past: seq<Step>, s: State, h: Id)
    requires Recorded(past, s) && h in s.deliveries
    ensures var d := s.deliveries[h];
            && BeginExchange(h, d.exchange) in past && d.exchange.grantType == "authorization_code"
            && Granted(past, s, d.exchange.code, d.entry)
  {
  }

  lemma GrantOf(past: seq<Step>, s: State, code: Code, e: Entry) returns (g: Id, a: Approval)
    requires Granted(past, s, code, e)
    ensures GrantedBy(past, s, code, e, g, a)
  {
    g, a :| GrantedBy(past, s, code, e, g, a);
  }

  /** In every interleaving, a handler that answers with a token was asked for it by an exchange, and an
      approval had asked for the code that exchange presents: valid and approved by the user; answered
      with that code; for the client, redirect URI and resource that the exchange names, with the
      challenge its verifier hashes to; and the scope answered is the scope approved. */
  lemma DeliveriesWereApproved(hash: string -> string, now: int, steps: seq<Step>, h: Id)
    requires Runs(hash, Fresh(now), steps)
    requires var s := After(hash, Fresh(now), steps);
             h in s.handlers && s.handlers[h].Answered? && s.handlers[h].answer.AccessToken?
    ensures var s := After(hash, Fresh(now), steps);
            exists x, g, a :: Deserves(hash, steps, s, h, x, g, a)
  {
    hide Runs, After, Recorded, SingleUse, Accounted, Granted;
    var s := After(hash, Fresh(now), steps);
    EveryRunIsSafe(hash, now, steps);
    NothingRecorded(now);
    RunKeepsRecorded(hash, [], Fresh(now), steps);
    assert [] + steps == steps;
    assert SoundAt(hash, s, h);
    var d := s.deliveries[h];
    DeliveryRecorded(steps, s, h);
    var g, a := GrantOf(steps, s, d.exchange.code, d.entry);
    assert Deserves(hash, steps, s, h, d.exchange, g, a);
  }

  // ---- the other way round --------------------------------------------------------------

  const FIVE_MINUTES: int := 300_000

  /** What a handler answers an approval, or that it goes on to mint a token. */
  lemma DecisionExactly(hash: string -> string, s: State, h: Id)
    requires Enabled(s, Decide(h))
    ensures var a, t := s.handlers[h].approval, Next(hash, s, Decide(h));
            t == s.(handlers := s.handlers[h :=
              if !a.valid || a.decision !in {"approve", "deny"} then Answered(Refused("invalid_request"))
              else if a.decision == "approve" then Minting(a) else Answered(AccessDenied)])
  {
  }

  /** The first half of an approval: it is on its way to a token. */
  lemma ApprovalDecided(hash: string -> string, s: State, g: Id, a: Approval) returns (s1: State, s2: State)
    requires g !in s.handlers && a.valid && a.decision == "approve" && SweptAt(s.codes, s.now)
    ensures Enabled(s, BeginApprove(g, a)) && s1 == Next(hash, s, BeginApprove(g, a))
    ensures Enabled(s1, Decide(g)) && s2 == Next(hash, s1, Decide(g))
    ensures s2 == s.(handlers := s.handlers[g := Minting(a)])
  {
    hide SweptAt, StoredBy, ConsumedBy, CheckedBy;
    s1 := Next(hash, s, BeginApprove(g, a));
    s2 := Next(hash, s1, Decide(g));
    assert s2.handlers == s.handlers[g := Minting(a)];
  }

  /** The second half: the token is minted and stored under the code. */
  lemma TokenStored(hash: string -> string, s: State, g: Id, a: Approval, token: Token, code: Code)
      returns (s1: State, t: State)
    requires g in s.handlers && s.handlers[g] == Minting(a) && token !in s.minted && code !in s.approved
    ensures Enabled(s, Mint(g, token)) && s1 == Next(hash, s, Mint(g, token))
    ensures Enabled(s1, Store(g, code)) && t == Next(hash, s1, Store(g, code))
    ensures t.now == s.now && t.handlers == s.handlers[g := Answered(Redirect(code))]
    ensures t.deliveries == s.deliveries
    ensures t.codes == s.codes[code := Entry(a.clientId, a.redirectUri, a.resource, a.scope, a.codeChallenge,
                                             s.now + FIVE_MINUTES, token)]
  {
    hide SweptAt, ConsumedBy, CheckedBy;
    s1 := Next(hash, s, Mint(g, token));
    t := Next(hash, s1, Store(g, code));
  }

  lemma OneStep(hash: string -> string, s: State, steps: seq<Step>, i: nat, end: State)
    requires i < |steps| && Enabled(s, steps[i])
    requires var t := Next(hash, s, steps[i]); Runs(hash, t, steps[i + 1..]) && After(hash, t, steps[i + 1..]) == end
    ensures Runs(hash, s, steps[i..]) && After(hash, s, steps[i..]) == end
  {
    hide Enabled, Next;
    assert steps[i..][0] == steps[i] && steps[i..][1..] == steps[i + 1..];
  }

  lemma FourSteps(hash: string -> string, s: State, steps: seq<Step>, s1: State, s2: State, s3: State, s4: State)
    requires |steps| == 4 && Enabled(s, steps[0]) && s1 == Next(hash, s, steps[0])
    requires Enabled(s1, steps[1]) && s2 == Next(hash, s1, steps[1])
    requires Enabled(s2, steps[2]) && s3 == Next(hash, s2, steps[2])
    requires Enabled(s3, steps[3]) && s4 == Next(hash, s3, steps[3])
    ensures Runs(hash, s, steps) && After(hash, s, steps) == s4
  {
    hide Enabled, Next;
    assert Runs(hash, s4, steps[4..]) && After(hash, s4, steps[4..]) == s4;
    OneStep(hash, s3, steps, 3, s4);
    OneStep(hash, s2, steps, 2, s4);
    OneStep(hash, s1, steps, 1, s4);
    OneStep(hash, s, steps, 0, s4);
    assert steps[0..] == steps;
  }

  /** An approval that is valid and approved, carried to its end. */
  lemma ApprovalEnds(hash: string -> string, s: State, g: Id, a: Approval, token: Token, code: Code)
      returns (t: State)
    requires g !in s.handlers && a.valid && a.decision == "approve" && token !in s.minted && code !in s.approved
    requires SweptAt(s.codes, s.now)
    ensures var steps := [BeginApprove(g, a), Decide(g), Mint(g, token), Store(g, code)];
            Runs(hash, s, steps) && After(hash, s, steps) == t
    ensures t.now == s.now && t.handlers == s.handlers[g := Answered(Redirect(code))]
    ensures t.deliveries == s.deliveries
    ensures t.codes == s.codes[code := Entry(a.clientId, a.redirectUri, a.resource, a.scope, a.codeChallenge,
                                             s.now + FIVE_MINUTES, token)]
  {
    hide SweptAt, Next, Enabled, Runs, After;
    var s1, s2 := ApprovalDecided(hash, s, g, a);
    var s3, u := TokenStored(hash, s2, g, a, token, code);
    t := u;
    var steps := [BeginApprove(g, a), Decide(g), Mint(g, token), Store(g, code)];
    FourSteps(hash, s, steps, s1, s2, s3, t);
    assert t.handlers == s.handlers[g := Answered(Redirect(code))];
  }

  /** An exchange that deserves its token, after a wait, carried to its end. */
  lemma ExchangeEnds(hash: string -> string, s: State, h: Id, x: Exchange, d: nat) returns (t: State)
    requires h !in s.handlers && h !in s.deliveries && SweptAt(s.codes, s.now + d)
    requires Deserved(hash, s.(now := s.now + d), x)
    ensures var steps := [Tick(d), BeginExchange(h, x), Consume(h), Check(h)];
            Runs(hash, s, steps) && After(hash, s, steps) == t
    ensures h in t.handlers && t.codes == s.codes - {x.code}
    ensures t.handlers[h] == Answered(AccessToken(s.codes[x.code].accessToken, s.codes[x.code].scope))
  {
    hide SweptAt, StoredBy, Runs, After, Objection;
    var s1 := Next(hash, s, Tick(d));
    var s2 := Next(hash, s1, BeginExchange(h, x));
    var s3 := Next(hash, s2, Consume(h));
    ObjectionExactly(hash, x, s.codes[x.code]);
    t := Next(hash, s3, Check(h));
    FourSteps(hash, s, [Tick(d), BeginExchange(h, x), Consume(h), Check(h)], s1, s2, s3, t);
  }

  /** An honest exchange is answered with the token: an approval, a wait shorter than five minutes, and an
      exchange that names what was approved and shows the verifier. */
  lemma HonestExchangeDelivers(
      hash: string -> string, s: State, g: Id, a: Approval, token: Token, code: Code, d: nat, h: Id, x: Exchange)
    requires g !in s.handlers && h !in s.handlers && g != h && h !in s.deliveries
    requires a.valid && a.decision == "approve" && token !in s.minted && code !in s.approved
    requires d < FIVE_MINUTES && SweptAt(s.codes, s.now + d)
    requires x.grantType == "authorization_code" && x.code == code && x.clientId == a.clientId
    requires x.redirectUri == a.redirectUri && x.resource == a.resource
    requires x.codeVerifier != "" && hash(x.codeVerifier) == a.codeChallenge
    ensures var approve := [BeginApprove(g, a), Decide(g), Mint(g, token), Store(g, code)];
            var exchange := [Tick(d), BeginExchange(h, x), Consume(h), Check(h)];
            && Runs(hash, s, approve) && Runs(hash, After(hash, s, approve), exchange)
            && var t := After(hash, After(hash, s, approve), exchange);
               h in t.handlers && t.handlers[h] == Answered(AccessToken(token, a.scope)) && code !in t.codes
  {
    hide Runs, After, Enabled, Next;
    var t := ApprovalEnds(hash, s, g, a, token, code);
    assert SweptAt(t.codes, t.now + d);
    var u := ExchangeEnds(hash, t, h, x, d);
  }

  /** And an exchange is refused in so many words. */
  lemma RefusedExactly(hash: string -> string, s: State, h: Id)
    requires Enabled(s, Consume(h))
    ensures var x, u := s.handlers[h].exchange, Exchanged(hash, s, h);
            u.handlers[h] == Answered(
              if x.grantType != "authorization_code" then Refused("unsupported_grant_type")
              else if Deserved(hash, s, x) then AccessToken(s.codes[x.code].accessToken, s.codes[x.code].scope)
              else if x.code in s.codes && s.now < s.codes[x.code].expiresAt && s.codes[x.code].clientId == x.clientId
                      && s.codes[x.code].redirectUri == x.redirectUri && s.codes[x.code].resource != x.resource
              then Refused("invalid_target")
              else Refused("invalid_grant"))
  {
    hide SweptAt;
  }
}
