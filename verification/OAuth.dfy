/** The life of an OAuth authorization code: approval mints the access token and stores it under a
    fresh code, an exchange consumes the code, and every approval and exchange first sweeps the
    expired codes.  Handlers interleave at every `await`. */
module OAuth {
  import opened Common

  /** Milliseconds a code lives. */
  const AUTH_CODE_TTL: int := 5 * 60 * 1000

  type Code = string
  type Token = nat

  datatype Entry = Entry(
    clientId: string,
    redirectUri: string,
    resource: string,
    scope: string,
    codeChallenge: string,
    expiresAt: int,
    accessToken: Token)

  /** An approval request; `valid` is the verdict of `validateAuthorizationRequest`. */
  datatype Approval = Approval(
    clientId: string,
    redirectUri: string,
    resource: string,
    scope: string,
    codeChallenge: string,
    decision: string,
    valid: bool)

  /** A token request; a missing parameter is the empty string. */
  datatype Exchange = Exchange(
    grantType: string,
    code: Code,
    clientId: string,
    redirectUri: string,
    codeVerifier: string,
    resource: string)

  datatype Answer =
    | Redirect(code: Code)
    | AccessDenied
    | Refused(error: string)
    | AccessToken(token: Token, scope: string)

  /** A handler between two steps.  `cutoff` is the time its sweep captured, `at` the time its code
      was consumed. */
  datatype Handler =
    | Approving(cutoff: int, approval: Approval)
    | Minting(approval: Approval)
    | Minted(approval: Approval, token: Token)
    | Exchanging(cutoff: int, exchange: Exchange)
    | Checking(exchange: Exchange, entry: Entry, at: int)
    | Answered(answer: Answer)

  /** What a token was delivered for. */
  datatype Delivery = Delivery(exchange: Exchange, entry: Entry, at: int)

  /** The in-memory map and the handlers; then the history: every token minted, handed to revocation
      or delivered, every entry ever stored, and the codes that left the map, in order. */
  datatype State = State(
    now: int,
    codes: map<Code, Entry>,
    handlers: map<Id, Handler>,
    minted: set<Token>,
    revoked: set<Token>,
    deliveries: map<Id, Delivery>,
    approved: map<Code, Entry>,
    gone: seq<Code>)

  datatype Step =
    | Tick(d: nat)
    | BeginApprove(h: Id, approval: Approval)
    | BeginExchange(h: Id, exchange: Exchange)
    | Sweep(h: Id, code: Code)
    | Decide(h: Id)
    | Mint(h: Id, token: Token)
    | Store(h: Id, code: Code)
    | Consume(h: Id)
    | Check(h: Id)

  predicate Sweeping(handler: Handler) { handler.Approving? || handler.Exchanging? }

  /** The sweep is over when nothing is left that had expired at its cutoff. */
  predicate SweptAt(codes: map<Code, Entry>, cutoff: int) {
    forall code | code in codes :: codes[code].expiresAt > cutoff
  }

  /** A fresh token and a fresh code have never been used before. */
  predicate Enabled(s: State, step: Step) {
    match step
    case Tick(_) => true
    case BeginApprove(h, _) => h !in s.handlers
    case BeginExchange(h, _) => h !in s.handlers
    case Sweep(h, code) =>
      && h in s.handlers && Sweeping(s.handlers[h])
      && code in s.codes && s.codes[code].expiresAt <= s.handlers[h].cutoff
    case Decide(h) => h in s.handlers && s.handlers[h].Approving? && SweptAt(s.codes, s.handlers[h].cutoff)
    case Mint(h, token) => h in s.handlers && s.handlers[h].Minting? && token !in s.minted
    case Store(h, code) => h in s.handlers && s.handlers[h].Minted? && code !in s.approved
    case Consume(h) => h in s.handlers && s.handlers[h].Exchanging? && SweptAt(s.codes, s.handlers[h].cutoff)
    case Check(h) => h in s.handlers && s.handlers[h].Checking?
  }

  function Decided(a: Approval): Handler {
    if !a.valid then Answered(Refused("invalid_request"))
    else if a.decision == "deny" then Answered(AccessDenied)
    else if a.decision != "approve" then Answered(Refused("invalid_request"))
    else Minting(a)
  }

  /** The first reason not to deliver, if any. */
  function Objection(hash: string -> string, x: Exchange, e: Entry): Option<string> {
    if e.clientId != x.clientId || e.redirectUri != x.redirectUri then Some("invalid_grant")
    else if x.resource != e.resource then Some("invalid_target")
    else if x.codeVerifier == "" || hash(x.codeVerifier) != e.codeChallenge then Some("invalid_grant")
    else None
  }

  function Answering(s: State, h: Id, answer: Answer): State {
    s.(handlers := s.handlers[h := Answered(answer)])
  }

  /** The code leaves the map; its token is handed to revocation when `revoke`. */
  function Removed(s: State, code: Code, revoke: bool): (t: State)
    requires code in s.codes
    ensures t.handlers == s.handlers && t.deliveries == s.deliveries && t.approved == s.approved && t.now == s.now
  {
    s.(codes := s.codes - {code},
       gone := s.gone + [code],
       revoked := if revoke then s.revoked + {s.codes[code].accessToken} else s.revoked)
  }

  function StoredBy(s: State, h: Id, code: Code): State
    requires h in s.handlers && s.handlers[h].Minted?
  {
    var a := s.handlers[h].approval;
    var e := Entry(a.clientId, a.redirectUri, a.resource, a.scope, a.codeChallenge, s.now + AUTH_CODE_TTL,
                   s.handlers[h].token);
    Answering(s.(codes := s.codes[code := e], approved := s.approved[code := e]), h, Redirect(code))
  }

  function ConsumedBy(s: State, h: Id): State
    requires h in s.handlers && s.handlers[h].Exchanging?
  {
    var x := s.handlers[h].exchange;
    if x.grantType != "authorization_code" then Answering(s, h, Refused("unsupported_grant_type"))
    else if x.code !in s.codes then Answering(s, h, Refused("invalid_grant"))
    else if s.codes[x.code].expiresAt <= s.now then Answering(Removed(s, x.code, true), h, Refused("invalid_grant"))
    else
      var handler := Checking(x, s.codes[x.code], s.now);
      Removed(s, x.code, false).(handlers := s.handlers[h := handler])
  }

  function CheckedBy(hash: string -> string, s: State, h: Id): State
    requires h in s.handlers && s.handlers[h].Checking?
  {
    var x, e, at := s.handlers[h].exchange, s.handlers[h].entry, s.handlers[h].at;
    var objection := Objection(hash, x, e);
    if objection.Some?
    then Answering(s.(revoked := s.revoked + {e.accessToken}), h, Refused(objection.value))
    else Answering(s.(deliveries := s.deliveries[h := Delivery(x, e, at)]), h, AccessToken(e.accessToken, e.scope))
  }

  function Next(hash: string -> string, s: State, step: Step): State
    requires Enabled(s, step)
  {
    match step
    case Tick(d) => s.(now := s.now + d)
    case BeginApprove(h, approval) => s.(handlers := s.handlers[h := Approving(s.now, approval)])
    case BeginExchange(h, exchange) => s.(handlers := s.handlers[h := Exchanging(s.now, exchange)])
    case Sweep(h, code) => Removed(s, code, true)
    case Decide(h) => s.(handlers := s.handlers[h := Decided(s.handlers[h].approval)])
    case Mint(h, token) =>
      s.(minted := s.minted + {token}, handlers := s.handlers[h := Minted(s.handlers[h].approval, token)])
    case Store(h, code) => StoredBy(s, h, code)
    case Consume(h) => ConsumedBy(s, h)
    case Check(h) => CheckedBy(hash, s, h)
  }

  // ---- where a token is -----------------------------------------------------------------

  datatype Place = Pending(code: Code) | InHand(h: Id) | Delivered(h: Id) | Revoked

  predicate Holds(s: State, place: Place, t: Token) {
    match place
    case Pending(code) => code in s.codes && s.codes[code].accessToken == t
    case InHand(h) =>
      && h in s.handlers
      && (s.handlers[h].Minted? || s.handlers[h].Checking?)
      && t == if s.handlers[h].Minted? then s.handlers[h].token else s.handlers[h].entry.accessToken
    case Delivered(h) => h in s.deliveries && s.deliveries[h].entry.accessToken == t
    case Revoked => t in s.revoked
  }

  /** `place` says where each minted token is. */
  ghost predicate Located(s: State, place: map<Token, Place>) {
    && place.Keys == s.minted
    && forall t, p :: Holds(s, p, t) <==> t in place && place[t] == p
  }

  /** Every minted token is in exactly one place, and no other token is anywhere. */
  ghost predicate Accounted(s: State) {
    && (forall t | t in s.minted :: exists p :: Holds(s, p, t))
    && (forall t, p | Holds(s, p, t) :: t in s.minted)
    && (forall t, p, q | Holds(s, p, t) && Holds(s, q, t) :: p == q)
  }

  /** A code leaves the map at most once, and pending codes have not left it. */
  ghost predicate SingleUse(s: State) {
    && (forall i, j | 0 <= i < j < |s.gone| :: s.gone[i] != s.gone[j])
    && (forall code | code in s.codes :: code !in s.gone && code in s.approved && s.codes[code] == s.approved[code])
    && (forall code | code in s.gone :: code in s.approved)
  }

  /** A code was consumed before it expired, and what it stood for is what was approved. */
  ghost predicate Consumed(s: State, x: Exchange, e: Entry, at: int) {
    x.code in s.gone && x.code in s.approved && s.approved[x.code] == e && at < e.expiresAt
  }

  /** A delivery meets what was approved in client, redirect URI, resource and PKCE challenge. */
  ghost predicate Matches(hash: string -> string, s: State, d: Delivery) {
    && Consumed(s, d.exchange, d.entry, d.at)
    && d.exchange.clientId == d.entry.clientId && d.exchange.redirectUri == d.entry.redirectUri
    && d.exchange.resource == d.entry.resource
    && d.exchange.codeVerifier != "" && hash(d.exchange.codeVerifier) == d.entry.codeChallenge
  }

  /** What a handler is checking was consumed in time, and it answers with a token exactly when it
      delivered that token for a matching exchange. */
  ghost predicate SoundAt(hash: string -> string, s: State, h: Id) {
    && (h in s.handlers && s.handlers[h].Checking? ==>
          Consumed(s, s.handlers[h].exchange, s.handlers[h].entry, s.handlers[h].at))
    && (h in s.handlers && s.handlers[h].Answered? && s.handlers[h].answer.AccessToken? ==> h in s.deliveries)
    && (h in s.deliveries ==>
          && Matches(hash, s, s.deliveries[h])
          && h in s.handlers
          && s.handlers[h] == Answered(AccessToken(s.deliveries[h].entry.accessToken, s.deliveries[h].entry.scope)))
  }

  ghost predicate Sound(hash: string -> string, s: State) {
    forall h :: SoundAt(hash, s, h)
  }

  /** No stored entry lives longer than the lifetime of a code. */
  ghost predicate Lifetimes(s: State) {
    && (forall code | code in s.approved :: s.approved[code].expiresAt <= s.now + AUTH_CODE_TTL)
    && (forall h | h in s.handlers && Sweeping(s.handlers[h]) :: s.handlers[h].cutoff <= s.now)
  }

  ghost predicate Inv(hash: string -> string, s: State, place: map<Token, Place>) {
    Located(s, place) && SingleUse(s) && Sound(hash, s) && Lifetimes(s)
  }

  /** Where the step moves a token to. */
  ghost function Moved(hash: string -> string, s: State, step: Step, place: map<Token, Place>): map<Token, Place>
    requires Enabled(s, step)
  {
    match step
    case Sweep(_, code) => place[s.codes[code].accessToken := Revoked]
    case Mint(h, token) => place[token := InHand(h)]
    case Store(h, code) => place[s.handlers[h].token := Pending(code)]
    case Consume(h) =>
      var x := s.handlers[h].exchange;
      if x.grantType != "authorization_code" || x.code !in s.codes then place
      else place[s.codes[x.code].accessToken := if s.codes[x.code].expiresAt <= s.now then Revoked else InHand(h)]
    case Check(h) =>
      var e := s.handlers[h].entry;
      place[e.accessToken := if Objection(hash, s.handlers[h].exchange, e).Some? then Revoked else Delivered(h)]
    case _ => place
  }

  lemma LocatedMeansAccounted(s: State, place: map<Token, Place>)
    requires Located(s, place)
    ensures Accounted(s)
  {
    forall t | t in s.minted ensures exists p :: Holds(s, p, t) {
      assert Holds(s, place[t], t);
    }
  }

  lemma PendingHolds(s: State, code: Code)
    requires code in s.codes
    ensures forall t :: Holds(s, Pending(code), t) <==> t == s.codes[code].accessToken
  {
  }

  /** Taking a code out of the map takes its token from there, and hands it to revocation if at all. */
  lemma RemovedHolds(s: State, code: Code, revoke: bool, p: Place, t: Token)
    requires code in s.codes
    ensures Holds(Removed(s, code, revoke), p, t) <==>
            (Holds(s, p, t) && p != Pending(code)) || (revoke && p == Revoked && t == s.codes[code].accessToken)
  {
  }

  /** An exchange that has its answer or its entry now holds the token of that entry, if any. */
  lemma TurnedHolds(s: State, h: Id, handler: Handler, p: Place, t: Token)
    requires h in s.handlers && s.handlers[h].Exchanging? && (handler.Answered? || handler.Checking?)
    ensures Holds(s.(handlers := s.handlers[h := handler]), p, t) <==>
            Holds(s, p, t) || (handler.Checking? && p == InHand(h) && t == handler.entry.accessToken)
  {
  }

  lemma ConsumedHolds(s: State, h: Id, p: Place, t: Token)
    requires h in s.handlers && s.handlers[h].Exchanging?
    ensures var x := s.handlers[h].exchange;
            Holds(ConsumedBy(s, h), p, t) <==>
            if x.grantType != "authorization_code" || x.code !in s.codes then Holds(s, p, t)
            else (Holds(s, p, t) && p != Pending(x.code))
                 || (p == (if s.codes[x.code].expiresAt <= s.now then Revoked else InHand(h))
                     && t == s.codes[x.code].accessToken)
  {
    hide Holds, Removed;
    var x, handler := s.handlers[h].exchange, ConsumedBy(s, h).handlers[h];
    if x.grantType != "authorization_code" || x.code !in s.codes {
      TurnedHolds(s, h, handler, p, t);
    } else {
      var expired := s.codes[x.code].expiresAt <= s.now;
      RemovedHolds(s, x.code, expired, p, t);
      TurnedHolds(Removed(s, x.code, expired), h, handler, p, t);
    }
  }

  lemma ConsumeLocatedAt(hash: string -> string, s: State, h: Id, place: map<Token, Place>, t: Token, p: Place)
    requires Enabled(s, Consume(h)) && Located(s, place)
    ensures Holds(Next(hash, s, Consume(h)), p, t) <==>
            t in Moved(hash, s, Consume(h), place) && Moved(hash, s, Consume(h), place)[t] == p
  {
    hide SweptAt, Holds, ConsumedBy, Objection;
    assert Holds(s, p, t) <==> t in place && place[t] == p;
    ConsumedHolds(s, h, p, t);
    var code := s.handlers[h].exchange.code;
    if code in s.codes {
      PendingHolds(s, code);
      assert Holds(s, Pending(code), s.codes[code].accessToken);
    }
  }

  lemma CheckLocatedAt(hash: string -> string, s: State, h: Id, place: map<Token, Place>, t: Token, p: Place)
    requires Enabled(s, Check(h)) && Located(s, place) && SoundAt(hash, s, h)
    ensures Holds(Next(hash, s, Check(h)), p, t) <==>
            t in Moved(hash, s, Check(h), place) && Moved(hash, s, Check(h), place)[t] == p
  {
    hide Objection;
    assert Holds(s, p, t) <==> t in place && place[t] == p;
    assert Holds(s, InHand(h), s.handlers[h].entry.accessToken);
  }

  lemma KeepsLocatedAt(
      hash: string -> string, s: State, step: Step, place: map<Token, Place>, t: Token, p: Place)
    requires Enabled(s, step) && Located(s, place) && SingleUse(s) && Sound(hash, s)
    ensures Holds(Next(hash, s, step), p, t) <==>
            t in Moved(hash, s, step, place) && Moved(hash, s, step, place)[t] == p
  {
    hide Objection;
    assert Holds(s, p, t) <==> t in place && place[t] == p;
    if step.Consume? {
      ConsumeLocatedAt(hash, s, step.h, place, t, p);
    } else if step.Check? {
      assert SoundAt(hash, s, step.h);
      CheckLocatedAt(hash, s, step.h, place, t, p);
    } else if step.Sweep? {
      assert Holds(s, Pending(step.code), s.codes[step.code].accessToken);
    } else if step.Store? {
      assert Holds(s, InHand(step.h), s.handlers[step.h].token);
      assert step.code !in s.codes;
    }
  }

  lemma KeepsMinted(hash: string -> string, s: State, step: Step, place: map<Token, Place>)
    requires Enabled(s, step) && Located(s, place) && SingleUse(s) && Sound(hash, s)
    ensures Moved(hash, s, step, place).Keys == Next(hash, s, step).minted
  {
    hide Objection;
    match step {
      case Sweep(h, code) => { assert Holds(s, Pending(code), s.codes[code].accessToken); }
      case Store(h, code) => { assert Holds(s, InHand(h), s.handlers[h].token); }
      case Consume(h) => {
        var code := s.handlers[h].exchange.code;
        assert code in s.codes ==> Holds(s, Pending(code), s.codes[code].accessToken);
      }
      case Check(h) => { assert Holds(s, InHand(h), s.handlers[h].entry.accessToken); }
      case _ => {}
    }
  }

  lemma KeepsLocated(hash: string -> string, s: State, step: Step, place: map<Token, Place>)
    requires Enabled(s, step) && Located(s, place) && SingleUse(s) && Sound(hash, s)
    ensures Located(Next(hash, s, step), Moved(hash, s, step, place))
  {
    hide Holds, Objection, Enabled, SingleUse, Sound;
    forall t, p ensures Holds(Next(hash, s, step), p, t) <==>
                        t in Moved(hash, s, step, place) && Moved(hash, s, step, place)[t] == p {
      KeepsLocatedAt(hash, s, step, place, t, p);
    }
    KeepsMinted(hash, s, step, place);
  }

  lemma SameSingleUse(s: State, t: State)
    requires SingleUse(s) && t.codes == s.codes && t.gone == s.gone && t.approved == s.approved
    ensures SingleUse(t)
  {
  }

  lemma RemovedSingleUse(s: State, code: Code, t: State)
    requires SingleUse(s) && code in s.codes
    requires t.codes == s.codes - {code} && t.gone == s.gone + [code] && t.approved == s.approved
    ensures SingleUse(t)
  {
  }

  lemma StoredSingleUse(s: State, code: Code, t: State)
    requires SingleUse(s) && code !in s.approved && code in t.codes
    requires t.codes == s.codes[code := t.codes[code]] && t.gone == s.gone
    requires t.approved == s.approved[code := t.codes[code]]
    ensures SingleUse(t)
  {
  }

  lemma KeepsSingleUse(hash: string -> string, s: State, step: Step)
    requires Enabled(s, step) && SingleUse(s)
    ensures SingleUse(Next(hash, s, step))
  {
    hide Objection, SingleUse, SweptAt;
    var t := Next(hash, s, step);
    match step {
      case Sweep(_, code) => RemovedSingleUse(s, code, t);
      case Store(_, code) => StoredSingleUse(s, code, t);
      case Consume(h) =>
        var code := s.handlers[h].exchange.code;
        if s.handlers[h].exchange.grantType == "authorization_code" && code in s.codes {
          RemovedSingleUse(s, code, t);
        } else {
          SameSingleUse(s, t);
        }
      case _ => SameSingleUse(s, t);
    }
  }

  lemma KeepsConsumed(hash: string -> string, s: State, step: Step, x: Exchange, e: Entry, at: int)
    requires Enabled(s, step) && Consumed(s, x, e, at)
    ensures Consumed(Next(hash, s, step), x, e, at)
  {
    hide Objection;
  }

  lemma StoreFrame(s: State, h: Id, code: Code)
    requires h in s.handlers && s.handlers[h].Minted?
    ensures var t := StoredBy(s, h, code);
            && t.handlers == s.handlers[h := Answered(Redirect(code))] && t.deliveries == s.deliveries && t.now == s.now
            && t.approved.Keys == s.approved.Keys + {code} && t.approved[code].expiresAt == s.now + AUTH_CODE_TTL
            && forall c | c in s.approved && c != code :: t.approved[c] == s.approved[c]
  {
  }

  lemma ConsumeFrame(s: State, h: Id)
    requires h in s.handlers && s.handlers[h].Exchanging?
    ensures var t := ConsumedBy(s, h);
            && h in t.handlers && t.handlers == s.handlers[h := t.handlers[h]] && !Sweeping(t.handlers[h])
            && t.deliveries == s.deliveries && t.approved == s.approved && t.now == s.now
  {
    hide Removed;
  }

  lemma CheckFrame(hash: string -> string, s: State, h: Id)
    requires h in s.handlers && s.handlers[h].Checking?
    ensures var t := CheckedBy(hash, s, h);
            && h in t.handlers && t.handlers == s.handlers[h := t.handlers[h]] && !Sweeping(t.handlers[h])
            && (forall g | g != h :: g in t.deliveries <==> g in s.deliveries)
            && (forall g | g != h && g in s.deliveries :: t.deliveries[g] == s.deliveries[g])
            && t.approved == s.approved && t.now == s.now
  {
    hide Objection;
  }

  lemma OthersUntouched(hash: string -> string, s: State, step: Step, h: Id)
    requires Enabled(s, step) && (step.Tick? || step.h != h)
    ensures var t := Next(hash, s, step);
            && (h in t.handlers <==> h in s.handlers) && (h in s.handlers ==> t.handlers[h] == s.handlers[h])
            && (h in t.deliveries <==> h in s.deliveries) && (h in s.deliveries ==> t.deliveries[h] == s.deliveries[h])
  {
    hide SweptAt, Removed, Decided, ConsumedBy, CheckedBy, StoredBy;
    match step {
      case Store(g, code) => StoreFrame(s, g, code);
      case Consume(g) => ConsumeFrame(s, g);
      case Check(g) => CheckFrame(hash, s, g);
      case _ => {}
    }
  }

  lemma ConsumeIsSound(hash: string -> string, s: State, h: Id)
    requires Enabled(s, Consume(h)) && SingleUse(s)
    ensures var u := Next(hash, s, Consume(h));
            u.handlers[h].Checking? ==>
              Consumed(u, u.handlers[h].exchange, u.handlers[h].entry, u.handlers[h].at)
  {
  }

  lemma OwnStepSound(hash: string -> string, s: State, step: Step)
    requires Enabled(s, step) && !step.Tick? && SingleUse(s) && SoundAt(hash, s, step.h)
    requires step.Check? ==>
               var x := s.handlers[step.h];
               Consumed(Next(hash, s, step), x.exchange, x.entry, x.at)
    requires step.h in s.deliveries ==> Matches(hash, Next(hash, s, step), s.deliveries[step.h])
    ensures SoundAt(hash, Next(hash, s, step), step.h)
  {
    hide Consumed, SingleUse, SweptAt;
    if step.Consume? {
      ConsumeIsSound(hash, s, step.h);
    }
  }

  lemma KeepsSoundAt(hash: string -> string, s: State, step: Step, h: Id)
    requires Enabled(s, step) && SingleUse(s) && SoundAt(hash, s, h)
    ensures SoundAt(hash, Next(hash, s, step), h)
  {
    hide Consumed, SingleUse;
    if h in s.handlers && s.handlers[h].Checking? {
      KeepsConsumed(hash, s, step, s.handlers[h].exchange, s.handlers[h].entry, s.handlers[h].at);
    }
    if h in s.deliveries {
      var d := s.deliveries[h];
      KeepsConsumed(hash, s, step, d.exchange, d.entry, d.at);
    }
    if step.Tick? || step.h != h {
      OthersUntouched(hash, s, step, h);
    } else {
      OwnStepSound(hash, s, step);
    }
  }

  lemma KeepsSound(hash: string -> string, s: State, step: Step)
    requires Enabled(s, step) && SingleUse(s) && Sound(hash, s)
    ensures Sound(hash, Next(hash, s, step))
  {
    hide SingleUse, SoundAt, Next, Enabled;
    forall h ensures SoundAt(hash, Next(hash, s, step), h) {
      KeepsSoundAt(hash, s, step, h);
    }
  }

  lemma StepIsSound(hash: string -> string, s: State, step: Step)
    requires Enabled(s, step)
    ensures SingleUse(s) && Sound(hash, s) ==> SingleUse(Next(hash, s, step)) && Sound(hash, Next(hash, s, step))
  {
    hide SingleUse, Sound, Next, Enabled;
    if SingleUse(s) && Sound(hash, s) {
      KeepsSingleUse(hash, s, step);
      KeepsSound(hash, s, step);
    }
  }

  lemma KeepsLifetimes(hash: string -> string, s: State, step: Step)
    requires Enabled(s, step) && Lifetimes(s)
    ensures Lifetimes(Next(hash, s, step))
  {
    hide SweptAt, Removed, ConsumedBy, CheckedBy, StoredBy;
    match step {
      case Store(h, code) => StoreFrame(s, h, code);
      case Consume(h) => ConsumeFrame(s, h);
      case Check(h) => CheckFrame(hash, s, h);
      case _ => {}
    }
  }

  // ---- whole runs -----------------------------------------------------------------------

  ghost predicate Runs(hash: string -> string, s: State, steps: seq<Step>)
    decreases |steps|
  {
    steps == [] || (Enabled(s, steps[0]) && Runs(hash, Next(hash, s, steps[0]), steps[1..]))
  }

  ghost function After(hash: string -> string, s: State, steps: seq<Step>): State
    requires Runs(hash, s, steps)
    decreases |steps|
  {
    if steps == [] then s else After(hash, Next(hash, s, steps[0]), steps[1..])
  }

  /** A server that has just started. */
  function Fresh(now: int): State {
    State(now, map[], map[], {}, {}, map[], map[], [])
  }

  lemma {:induction false} RunKeeps(hash: string -> string, s: State, steps: seq<Step>, place: map<Token, Place>)
      returns (end: map<Token, Place>)
    requires Runs(hash, s, steps) && Inv(hash, s, place)
    ensures Inv(hash, After(hash, s, steps), end)
    decreases |steps|
  {
    hide Enabled, Next, Located, SingleUse, Sound, Lifetimes, Moved;
    end := place;
    if steps != [] {
      KeepsLocated(hash, s, steps[0], place);
      KeepsSingleUse(hash, s, steps[0]);
      KeepsSound(hash, s, steps[0]);
      KeepsLifetimes(hash, s, steps[0]);
      end := RunKeeps(hash, Next(hash, s, steps[0]), steps[1..], Moved(hash, s, steps[0], place));
    }
  }

  lemma FreshIsSafe(hash: string -> string, now: int)
    ensures Inv(hash, Fresh(now), map[])
  {
  }

  /** In every interleaving of approvals, exchanges and sweeps: each minted token is in exactly one
      of a handler's hand, the code map, a delivery or revocation; a code is consumed at most once;
      and what was delivered came from an unexpired code whose client, redirect URI, resource and
      PKCE challenge the exchange matched. */
  lemma EveryRunIsSafe(hash: string -> string, now: int, steps: seq<Step>)
    requires Runs(hash, Fresh(now), steps)
    ensures var s := After(hash, Fresh(now), steps);
            Accounted(s) && SingleUse(s) && Sound(hash, s)
  {
    hide Runs, After, Located, SingleUse, Sound, Lifetimes, Accounted;
    FreshIsSafe(hash, now);
    var place := RunKeeps(hash, Fresh(now), steps, map[]);
    LocatedMeansAccounted(After(hash, Fresh(now), steps), place);
  }

  /** No token is delivered by two handlers, and a delivered token is neither pending nor handed
      to revocation. */
  lemma DeliveredOnce(s: State, h: Id, g: Id, code: Code)
    requires Accounted(s) && h in s.deliveries
    ensures var t := s.deliveries[h].entry.accessToken;
            && (g in s.deliveries && s.deliveries[g].entry.accessToken == t ==> g == h)
            && t !in s.revoked && !(code in s.codes && s.codes[code].accessToken == t)
  {
    var t := s.deliveries[h].entry.accessToken;
    assert Holds(s, Delivered(h), t);
    assert Holds(s, Delivered(g), t) ==> Delivered(g) == Delivered(h);
    assert !Holds(s, Revoked, t) && !Holds(s, Pending(code), t);
  }

  /** What a token request needs to be answered with the token. */
  ghost predicate Deserved(hash: string -> string, s: State, x: Exchange) {
    && x.grantType == "authorization_code" && x.code in s.codes
    && var e := s.codes[x.code];
       && s.now < e.expiresAt && e.clientId == x.clientId && e.redirectUri == x.redirectUri
       && e.resource == x.resource && x.codeVerifier != "" && hash(x.codeVerifier) == e.codeChallenge
  }

  /** The rest of an exchange after its sweep. */
  function Exchanged(hash: string -> string, s: State, h: Id): State
    requires Enabled(s, Consume(h))
  {
    var consumed := Next(hash, s, Consume(h));
    if consumed.handlers[h].Checking? then Next(hash, consumed, Check(h)) else consumed
  }

  lemma ObjectionExactly(hash: string -> string, x: Exchange, e: Entry)
    ensures Objection(hash, x, e).None? <==>
            && e.clientId == x.clientId && e.redirectUri == x.redirectUri && e.resource == x.resource
            && x.codeVerifier != "" && hash(x.codeVerifier) == e.codeChallenge
  {
  }

  /** The token is delivered if and only if it is deserved; a code that was presented is spent
      either way, and then its token goes to the client or to revocation. */
  lemma DeliveredIffDeserved(hash: string -> string, s: State, h: Id)
    requires Enabled(s, Consume(h)) && h !in s.deliveries
    ensures var x, u := s.handlers[h].exchange, Exchanged(hash, s, h);
            && (h in u.deliveries <==> Deserved(hash, s, x))
            && (h in u.deliveries ==> u.deliveries[h].entry == s.codes[x.code] && u.revoked == s.revoked)
            && (x.grantType == "authorization_code" ==> u.codes == s.codes - {x.code})
            && (x.grantType == "authorization_code" && x.code in s.codes && h !in u.deliveries ==>
                  u.revoked == s.revoked + {s.codes[x.code].accessToken})
  {
    hide SweptAt, Objection;
    var x := s.handlers[h].exchange;
    if x.grantType == "authorization_code" {
      if x.code in s.codes {
        ObjectionExactly(hash, x, s.codes[x.code]);
      } else {
        assert s.codes - {x.code} == s.codes;
      }
    }
  }

  /** After a sweep only approvals of the last five minutes before its cutoff are pending. */
  lemma SweptMapIsRecent(s: State, cutoff: int, code: Code)
    requires Lifetimes(s) && SingleUse(s) && SweptAt(s.codes, cutoff) && code in s.codes
    ensures cutoff < s.approved[code].expiresAt <= s.now + AUTH_CODE_TTL
  {
  }

  lemma {:induction false} RunsOn(hash: string -> string, s: State, steps: seq<Step>, step: Step)
    requires Runs(hash, s, steps) && Enabled(After(hash, s, steps), step)
    ensures Runs(hash, s, steps + [step])
    ensures After(hash, s, steps + [step]) == Next(hash, After(hash, s, steps), step)
    decreases |steps|
  {
    hide Next, Enabled;
    if steps == [] {
      assert [step][1..] == [];
    } else {
      RunsOn(hash, Next(hash, s, steps[0]), steps[1..], step);
      assert (steps + [step])[1..] == steps[1..] + [step];
    }
  }

  lemma SweepRuns(hash: string -> string, s: State, steps: seq<Step>, h: Id, code: Code)
    requires Runs(hash, s, steps) && Enabled(After(hash, s, steps), Sweep(h, code))
    ensures Runs(hash, s, steps + [Sweep(h, code)])
    ensures After(hash, s, steps + [Sweep(h, code)]) == Removed(After(hash, s, steps), code, true)
  {
    hide Runs, After, Removed;
    RunsOn(hash, s, steps, Sweep(h, code));
  }

  /** The entries a sweep leaves, and the tokens it takes, while it still has to visit `todo`. */
  ghost function Unexpired(was: map<Code, Entry>, todo: set<Code>, cutoff: int): map<Code, Entry> {
    map code | code in was && (code in todo || was[code].expiresAt > cutoff) :: was[code]
  }

  ghost function ExpiredTokens(was: map<Code, Entry>, todo: set<Code>, cutoff: int): set<Token> {
    set code | code in was && code !in todo && was[code].expiresAt <= cutoff :: was[code].accessToken
  }

  lemma AllUnexpired(was: map<Code, Entry>, cutoff: int)
    ensures Unexpired(was, was.Keys, cutoff) == was && ExpiredTokens(was, was.Keys, cutoff) == {}
    ensures SweptAt(Unexpired(was, {}, cutoff), cutoff)
  {
  }

  lemma SweepTurn(was: map<Code, Entry>, todo: set<Code>, code: Code, cutoff: int)
    requires todo <= was.Keys && code in todo
    ensures var kept, expired := Unexpired(was, todo, cutoff), was[code].expiresAt <= cutoff;
            && code in kept && kept[code] == was[code]
            && Unexpired(was, todo - {code}, cutoff) == (if expired then kept - {code} else kept)
            && ExpiredTokens(was, todo - {code}, cutoff) ==
               ExpiredTokens(was, todo, cutoff) + if expired then {was[code].accessToken} else {}
  {
    var before, after := ExpiredTokens(was, todo, cutoff), ExpiredTokens(was, todo - {code}, cutoff);
    if was[code].expiresAt <= cutoff {
      assert was[code].accessToken in after;
      forall t | t in before ensures t in after {
        var c :| c in was && c !in todo && was[c].expiresAt <= cutoff && was[c].accessToken == t;
        assert c !in todo - {code};
      }
    }
  }

  /** `s` is where the sweep that started in `start` has got to. */
  ghost predicate MidSweep(
      hash: string -> string, start: State, s: State, h: Id, todo: set<Code>, steps: seq<Step>)
  {
    && h in start.handlers && Sweeping(start.handlers[h]) && s.handlers == start.handlers
    && todo <= start.codes.Keys
    && s.codes == Unexpired(start.codes, todo, start.handlers[h].cutoff)
    && s.revoked == start.revoked + ExpiredTokens(start.codes, todo, start.handlers[h].cutoff)
    && Runs(hash, start, steps) && s == After(hash, start, steps)
  }

  lemma MidSweepStarts(hash: string -> string, s: State, h: Id)
    requires h in s.handlers && Sweeping(s.handlers[h])
    ensures MidSweep(hash, s, s, h, s.codes.Keys, [])
  {
    AllUnexpired(s.codes, s.handlers[h].cutoff);
  }

  lemma MidSweepEnds(hash: string -> string, start: State, s: State, h: Id, steps: seq<Step>)
    requires MidSweep(hash, start, s, h, {}, steps)
    ensures var cutoff := start.handlers[h].cutoff;
            && s.codes == Unexpired(start.codes, {}, cutoff) && SweptAt(s.codes, cutoff)
            && s.revoked == start.revoked + ExpiredTokens(start.codes, {}, cutoff)
            && Runs(hash, start, steps) && s == After(hash, start, steps)
  {
    hide Runs, After, ExpiredTokens;
  }

  lemma MidSweepTurn(
      hash: string -> string, start: State, s: State, h: Id, todo: set<Code>, steps: seq<Step>, code: Code)
    requires MidSweep(hash, start, s, h, todo, steps) && code in todo
    ensures code in s.codes
    ensures if s.codes[code].expiresAt <= start.handlers[h].cutoff
            then MidSweep(hash, start, Removed(s, code, true), h, todo - {code}, steps + [Sweep(h, code)])
            else MidSweep(hash, start, s, h, todo - {code}, steps)
    ensures s.handlers == start.handlers && h in s.handlers && Sweeping(s.handlers[h])
  {
    hide Runs, After, Unexpired, ExpiredTokens;
    SweepTurn(start.codes, todo, code, start.handlers[h].cutoff);
    if s.codes[code].expiresAt <= start.handlers[h].cutoff {
      SweepRuns(hash, start, steps, h, code);
    }
  }

  lemma HasCode(codes: set<Code>)
    ensures codes == {} || exists code :: code in codes
  {
    if forall code :: code !in codes {
      assert codes == {};
    }
  }

  /** The server between two steps.  The database keeps the minted and revoked tokens; the rest of
      the history is only spoken about. */
  class Server {
    var now: int
    var codes: map<Code, Entry>
    var handlers: map<Id, Handler>
    var minted: set<Token>
    var revoked: set<Token>
    ghost var deliveries: map<Id, Delivery>
    ghost var approved: map<Code, Entry>
    ghost var gone: seq<Code>

    ghost function Snapshot(): State
      reads this
    {
      State(now, codes, handlers, minted, revoked, deliveries, approved, gone)
    }

    method Remove(code: Code, revoke: bool)
      requires code in codes
      modifies `codes, `revoked, `gone
      ensures Snapshot() == Removed(old(Snapshot()), code, revoke)
    {
      if revoke {
        revoked := revoked + {codes[code].accessToken};
      }
      codes, gone := codes - {code}, gone + [code];
    }

    /** `sweepExpiredAuthorizationCodes`, uninterrupted: exactly the expired codes go, their tokens
        are handed to revocation, and the loop is a run of sweep steps. */
    method SweepExpired(ghost hash: string -> string, h: Id) returns (ghost steps: seq<Step>)
      requires h in handlers && Sweeping(handlers[h])
      modifies `codes, `revoked, `gone
      ensures var cutoff, was := handlers[h].cutoff, old(codes);
              && codes == Unexpired(was, {}, cutoff) && SweptAt(codes, cutoff)
              && revoked == old(revoked) + ExpiredTokens(was, {}, cutoff)
      ensures Runs(hash, old(Snapshot()), steps) && Snapshot() == After(hash, old(Snapshot()), steps)
    {
      hide Next, Runs, After, Unexpired, ExpiredTokens, SweptAt, MidSweep, Enabled;
      ghost var s := Snapshot();
      var cutoff, todo := handlers[h].cutoff, codes.Keys;
      steps := [];
      MidSweepStarts(hash, s, h);
      while todo != {}
        invariant MidSweep(hash, s, Snapshot(), h, todo, steps)
        decreases |todo|
      {
        HasCode(todo);
        var code :| code in todo;
        MidSweepTurn(hash, s, Snapshot(), h, todo, steps, code);
        todo := todo - {code};
        if codes[code].expiresAt <= cutoff {
          steps := steps + [Sweep(h, code)];
          Remove(code, true);
        }
      }
      MidSweepEnds(hash, s, Snapshot(), h, steps);
    }

    /** The rest of `handleOAuthToken` once the sweep is over. */
    method FinishExchange(hash: string -> string, h: Id)
      requires Enabled(Snapshot(), Consume(h))
      modifies `codes, `handlers, `revoked, `deliveries, `gone
      ensures Snapshot() == Exchanged(hash, old(Snapshot()), h)
    {
      var x := handlers[h].exchange;
      if x.grantType != "authorization_code" {
        handlers := handlers[h := Answered(Refused("unsupported_grant_type"))];
        return;
      }
      if x.code !in codes {
        handlers := handlers[h := Answered(Refused("invalid_grant"))];
        return;
      }
      var e := codes[x.code];
      if e.expiresAt <= now {
        Remove(x.code, true);
        handlers := handlers[h := Answered(Refused("invalid_grant"))];
        return;
      }
      Remove(x.code, false);
      handlers := handlers[h := Checking(x, e, now)];
      var objection := Objection(hash, x, e);
      if objection.Some? {
        revoked := revoked + {e.accessToken};
        handlers := handlers[h := Answered(Refused(objection.value))];
      } else {
        deliveries := deliveries[h := Delivery(x, e, now)];
        handlers := handlers[h := Answered(AccessToken(e.accessToken, e.scope))];
      }
    }

    /** `handleOAuthApprove` between its awaits: the decision, the minting in `createUserToken`, and
        the storing of the code. */
    method DecideApproval(ghost hash: string -> string, h: Id)
      requires Enabled(Snapshot(), Decide(h))
      modifies `handlers
      ensures Snapshot() == Next(hash, old(Snapshot()), Decide(h))
      ensures old(SingleUse(Snapshot()) && Sound(hash, Snapshot())) ==> SingleUse(Snapshot()) && Sound(hash, Snapshot())
    {
      hide SingleUse, Sound;
      StepIsSound(hash, Snapshot(), Decide(h));
      var a := handlers[h].approval;
      if !a.valid || (a.decision != "deny" && a.decision != "approve") {
        handlers := handlers[h := Answered(Refused("invalid_request"))];
      } else if a.decision == "deny" {
        handlers := handlers[h := Answered(AccessDenied)];
      } else {
        handlers := handlers[h := Minting(a)];
      }
    }

    method CreateUserToken(ghost hash: string -> string, h: Id, token: Token)
      requires Enabled(Snapshot(), Mint(h, token))
      modifies `handlers, `minted
      ensures Snapshot() == Next(hash, old(Snapshot()), Mint(h, token))
      ensures old(SingleUse(Snapshot()) && Sound(hash, Snapshot())) ==> SingleUse(Snapshot()) && Sound(hash, Snapshot())
    {
      hide SingleUse, Sound;
      StepIsSound(hash, Snapshot(), Mint(h, token));
      minted := minted + {token};
      handlers := handlers[h := Minted(handlers[h].approval, token)];
    }

    method StoreCode(ghost hash: string -> string, h: Id, code: Code)
      requires Enabled(Snapshot(), Store(h, code))
      modifies `codes, `handlers, `approved
      ensures Snapshot() == Next(hash, old(Snapshot()), Store(h, code))
      ensures old(SingleUse(Snapshot()) && Sound(hash, Snapshot())) ==> SingleUse(Snapshot()) && Sound(hash, Snapshot())
    {
      hide SingleUse, Sound;
      StepIsSound(hash, Snapshot(), Store(h, code));
      var a := handlers[h].approval;
      var e := Entry(a.clientId, a.redirectUri, a.resource, a.scope, a.codeChallenge, now + AUTH_CODE_TTL,
                     handlers[h].token);
      codes, approved := codes[code := e], approved[code := e];
      handlers := handlers[h := Answered(Redirect(code))];
    }
  }
}
