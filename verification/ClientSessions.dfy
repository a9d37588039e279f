/** Login sessions of client users (client-sessions.service.ts over client-user-session.repository.ts): issued with an
    idle deadline, looked up by token, touched at most once per throttle interval, cut off by an absolute deadline. */
module ClientSessions {
  import opened Wrappers
  import opened Runs

  type Token = nat
  type UserId = nat
  type CallId = nat

  const TOUCH_THROTTLE_MS := 60 * 60 * 1000
  const DEFAULT_IDLE_TTL_MS := 30 * 60 * 1000
  const DEFAULT_ABSOLUTE_TTL_MS := 12 * 60 * 60 * 1000

  datatype Config = Config(idleTtlMs: int, absoluteTtlMs: int)

  const DEFAULTS := Config(DEFAULT_IDLE_TTL_MS, DEFAULT_ABSOLUTE_TTL_MS)

  datatype Session = Session(user: UserId, createdAt: int, lastSeenAt: int, expiresAt: int, revokedAt: Option<int>)

  // ----- The transition system -----

  datatype Call =
    | Issuing(token: Token, user: UserId, now: int)
    | Issued(token: Token)
    | Looking(token: Token)
    | Found(token: Token, foundAt: int, session: Session)
    | RevokingInactive(token: Token, now: int)
    | Touching(token: Token, foundAt: int, session: Session, now: int)
    | Rejected(token: Token)
    | Accepted(token: Token, foundAt: int, session: Session, now: int)

  /** `used` are the tokens drawn so far; a fresh one is never among them. */
  datatype State = State(clock: int, sessions: map<Token, Session>, used: set<Token>, calls: map<CallId, Call>)

  datatype Event =
    | ClockTicks(ms: nat)
    | BeginIssue(call: CallId, token: Token, user: UserId)
    | Create(call: CallId)
    | BeginValidate(call: CallId, token: Token)
    | Find(call: CallId)
    | Check(call: CallId, userActive: bool)
    | WriteRevocation(call: CallId, fails: bool)
    | WriteTouch(call: CallId, fails: bool)
    | Revoke(token: Token)
    | RevokeAllForUser(user: UserId)
    | Reap(token: Token)

  function Min(a: int, b: int): int {
    if a <= b then a else b
  }

  predicate IsActive(sessions: map<Token, Session>, token: Token, at: int) {
    token in sessions && sessions[token].revokedAt.None? && sessions[token].expiresAt > at
  }

  function Touched(config: Config, session: Session, now: int): Session {
    session.(lastSeenAt := now, expiresAt := Min(now + config.idleTtlMs, session.createdAt + config.absoluteTtlMs))
  }

  function TouchStored(config: Config, sessions: map<Token, Session>, token: Token, session: Session, now: int): map<Token, Session> {
    if token !in sessions then sessions
    else
      var next := Touched(config, session, now);
      sessions[token := sessions[token].(lastSeenAt := next.lastSeenAt, expiresAt := next.expiresAt)]
  }

  function RevokeStored(sessions: map<Token, Session>, token: Token, at: int): map<Token, Session> {
    if token in sessions then sessions[token := sessions[token].(revokedAt := Some(at))] else sessions
  }

  function RevokeUser(sessions: map<Token, Session>, user: UserId, at: int): map<Token, Session> {
    map token | token in sessions ::
      if sessions[token].user == user && sessions[token].revokedAt.None? then sessions[token].(revokedAt := Some(at)) else sessions[token]
  }

  /** What the clock decides once a session has been found and its user looked up. */
  function Decide(config: Config, found: Call, now: int, userActive: bool): Call
    requires found.Found?
  {
    if now >= found.session.createdAt + config.absoluteTtlMs then Rejected(found.token)
    else if !userActive then RevokingInactive(found.token, now)
    else if now - found.session.lastSeenAt > TOUCH_THROTTLE_MS then Touching(found.token, found.foundAt, found.session, now)
    else Accepted(found.token, found.foundAt, found.session, now)
  }

  function Goto(s: State, call: CallId, c: Call): State {
    s.(calls := s.calls[call := c])
  }

  function StepCall(config: Config, s: State, c: Call, e: Event): State {
    match (e, c)
    case (Create(call), Issuing(token, user, now)) =>
      Goto(s.(sessions := s.sessions[token := Session(user, s.clock, s.clock, now + config.idleTtlMs, None)]), call, Issued(token))
    case (Find(call), Looking(token)) =>
      Goto(s, call, if IsActive(s.sessions, token, s.clock) then Found(token, s.clock, s.sessions[token]) else Rejected(token))
    case (Check(call, userActive), Found(_, _, _)) => Goto(s, call, Decide(config, c, s.clock, userActive))
    case (WriteRevocation(call, fails), RevokingInactive(token, now)) =>
      Goto(s.(sessions := if fails then s.sessions else RevokeStored(s.sessions, token, now)), call, Rejected(token))
    case (WriteTouch(call, fails), Touching(token, foundAt, session, now)) =>
      Goto(s.(sessions := if fails then s.sessions else TouchStored(config, s.sessions, token, session, now)), call,
           Accepted(token, foundAt, session, now))
    case _ => s
  }

  function Step(config: Config): (State, Event) -> State {
    (s: State, e: Event) =>
      match e
      case ClockTicks(ms) => s.(clock := s.clock + ms)
      case BeginIssue(call, token, user) =>
        if call in s.calls || token in s.used then s
        else Goto(s.(used := s.used + {token}), call, Issuing(token, user, s.clock))
      case BeginValidate(call, token) => if call in s.calls then s else Goto(s, call, Looking(token))
      case Revoke(token) => s.(sessions := RevokeStored(s.sessions, token, s.clock))
      case RevokeAllForUser(user) => s.(sessions := RevokeUser(s.sessions, user, s.clock))
      case Reap(token) =>
        if token in s.sessions && s.sessions[token].expiresAt <= s.clock then s.(sessions := s.sessions - {token}) else s
      case _ => if e.call in s.calls then StepCall(config, s, s.calls[e.call], e) else s
  }

  const Start := State(0, map[], {}, map[])

  // ----- What an accepted token proves -----

  /** The stored deadline never promises more than the idle time since the session was last seen. */
  ghost predicate SessionOk(config: Config, session: Session) {
    session.expiresAt <= session.lastSeenAt + config.idleTtlMs
  }

  /** The session was unrevoked and within its idle deadline when it was found. */
  ghost predicate FoundInTime(config: Config, foundAt: int, session: Session) {
    SessionOk(config, session) && session.revokedAt.None? && foundAt < session.expiresAt
  }

  ghost predicate CallOk(config: Config, clock: int, c: Call) {
    match c
    case Issuing(_, _, now) => now <= clock
    case Found(_, foundAt, session) => foundAt <= clock && FoundInTime(config, foundAt, session)
    case Touching(_, foundAt, session, now) =>
      foundAt <= now <= clock && FoundInTime(config, foundAt, session) && now < session.createdAt + config.absoluteTtlMs
    case Accepted(_, foundAt, session, now) =>
      foundAt <= now <= clock && FoundInTime(config, foundAt, session) && now < session.createdAt + config.absoluteTtlMs
    case _ => true
  }

  ghost predicate Inv(config: Config, s: State) {
    && (forall token :: token in s.sessions ==> SessionOk(config, s.sessions[token]))
    && (forall call :: call in s.calls ==> CallOk(config, s.clock, s.calls[call]))
  }

  lemma InvStep(config: Config, s: State, e: Event)
    requires Inv(config, s)
    ensures Inv(config, Step(config)(s, e))
  {
  }

  lemma {:induction false} InvHolds(config: Config, s: State, events: seq<Event>)
    requires Inv(config, s)
    ensures Inv(config, After(Step(config), s, events))
  {
    if events != [] {
      InvHolds(config, s, events[..|events| - 1]);
      InvStep(config, After(Step(config), s, events[..|events| - 1]), events[|events| - 1]);
    }
  }

  /** After k events the session is what is stored for the token, at that time. */
  ghost predicate StoredAt(config: Config, events: seq<Event>, k: nat, token: Token, session: Session, at: int) {
    && k <= |events|
    && var s := After(Step(config), Start, events[..k]);
    s.clock == at && token in s.sessions && s.sessions[token] == session
  }

  predicate HoldsSession(c: Call) {
    c.Found? || c.Touching? || c.Accepted?
  }

  lemma HeldWasFound(config: Config, s: State, e: Event, call: CallId)
    requires var s' := Step(config)(s, e); call in s'.calls && HoldsSession(s'.calls[call])
    ensures var c := Step(config)(s, e).calls[call];
      || (c.token in s.sessions && s.sessions[c.token] == c.session && s.clock == c.foundAt)
      || (call in s.calls && HoldsSession(s.calls[call])
        && s.calls[call].token == c.token && s.calls[call].session == c.session && s.calls[call].foundAt == c.foundAt)
  {
  }

  /** The session a call holds is what the store held for its token at the time of its lookup, at some moment of the run. */
  lemma {:induction false} HeldWasStored(config: Config, events: seq<Event>, call: CallId)
    requires var s := After(Step(config), Start, events); call in s.calls && HoldsSession(s.calls[call])
    ensures var c := After(Step(config), Start, events).calls[call];
      exists k: nat :: StoredAt(config, events, k, c.token, c.session, c.foundAt)
  {
    hide Step;
    var n := |events| - 1;
    var c := After(Step(config), Start, events).calls[call];
    HeldWasFound(config, After(Step(config), Start, events[..n]), events[n], call);
    var s := After(Step(config), Start, events[..n]);
    if c.token in s.sessions && s.sessions[c.token] == c.session && s.clock == c.foundAt {
      assert StoredAt(config, events, n, c.token, c.session, c.foundAt);
    } else {
      HeldWasStored(config, events[..n], call);
      var k: nat :| StoredAt(config, events[..n], k, c.token, c.session, c.foundAt);
      assert events[..n][..k] == events[..k];
      assert StoredAt(config, events, k, c.token, c.session, c.foundAt);
    }
  }

  /** In every interleaving, an accepted token's session was unrevoked and less than the idle time past its last sighting
      when it was looked up, and less than the absolute time past its creation when the clock was read after that; and
      it is what was stored for the token at the time of the lookup. */
  lemma AcceptedWasValid(config: Config, events: seq<Event>, call: CallId)
    requires var s := After(Step(config), Start, events); call in s.calls && s.calls[call].Accepted?
    ensures var c := After(Step(config), Start, events).calls[call];
      && c.session.revokedAt.None?
      && c.foundAt < c.session.expiresAt && c.foundAt < c.session.lastSeenAt + config.idleTtlMs
      && c.foundAt <= c.now < c.session.createdAt + config.absoluteTtlMs
      && exists k: nat :: StoredAt(config, events, k, c.token, c.session, c.foundAt)
  {
    hide Step;
    InvHolds(config, Start, events);
    HeldWasStored(config, events, call);
  }

  // ----- Revocation is final -----

  /** Each drawn token is being issued by at most one call, and only until its session is created. */
  ghost predicate TokensOk(s: State) {
    && (forall token :: token in s.sessions ==> token in s.used)
    && (forall call :: call in s.calls && s.calls[call].Issuing? ==> s.calls[call].token in s.used && s.calls[call].token !in s.sessions)
    && (forall call, other :: call in s.calls && other in s.calls && call != other && s.calls[call].Issuing? && s.calls[other].Issuing? ==>
        s.calls[call].token != s.calls[other].token)
  }

  lemma TokensStep(config: Config, s: State, e: Event)
    requires TokensOk(s)
    ensures TokensOk(Step(config)(s, e))
  {
  }

  lemma {:induction false} TokensHold(config: Config, s: State, events: seq<Event>)
    requires TokensOk(s)
    ensures TokensOk(After(Step(config), s, events))
  {
    if events != [] {
      TokensHold(config, s, events[..|events| - 1]);
      TokensStep(config, After(Step(config), s, events[..|events| - 1]), events[|events| - 1]);
    }
  }

  /** The token was drawn, is not being issued, and what is stored for it, if anything, is revoked. */
  ghost predicate IsDead(s: State, token: Token) {
    && token in s.used
    && (token in s.sessions ==> s.sessions[token].revokedAt.Some?)
    && forall call :: call in s.calls && s.calls[call].Issuing? ==> s.calls[call].token != token
  }

  predicate IsPastLookup(s: State, call: CallId) {
    call in s.calls && (s.calls[call].Found? || s.calls[call].Touching? || s.calls[call].Accepted?)
  }

  lemma DeadStep(config: Config, s: State, e: Event, token: Token, call: CallId)
    requires IsDead(s, token) && !(IsPastLookup(s, call) && s.calls[call].token == token)
    ensures var s' := Step(config)(s, e);
      IsDead(s', token) && !(IsPastLookup(s', call) && s'.calls[call].token == token)
  {
  }

  lemma {:induction false} DeadStays(config: Config, s: State, events: seq<Event>, token: Token, call: CallId)
    requires IsDead(s, token) && !(IsPastLookup(s, call) && s.calls[call].token == token)
    ensures var s' := After(Step(config), s, events);
      IsDead(s', token) && !(IsPastLookup(s', call) && s'.calls[call].token == token)
  {
    if events != [] {
      DeadStays(config, s, events[..|events| - 1], token, call);
      DeadStep(config, After(Step(config), s, events[..|events| - 1]), events[|events| - 1], token, call);
    }
  }

  /** Once a session is revoked, no validation that looks it up afterwards is ever accepted: not by a late touch, not
      after the record has been reaped. */
  lemma RevokedStaysOut(config: Config, first: seq<Event>, rest: seq<Event>, token: Token, call: CallId)
    requires var s := After(Step(config), Start, first);
      token in s.sessions && s.sessions[token].revokedAt.Some? && !IsPastLookup(s, call)
    ensures var s' := After(Step(config), Start, first + rest);
      !(call in s'.calls && s'.calls[call].Accepted? && s'.calls[call].token == token)
  {
    TokensHold(config, Start, first);
    AfterConcat(Step(config), Start, first, rest);
    DeadStays(config, After(Step(config), Start, first), rest, token, call);
  }

  // ----- What the clock decides -----

  /** A session that was found is refused at its absolute deadline; before it, an inactive user's is to be revoked, and an
      active user's is accepted, after a touch if it was last seen more than an hour ago. What was stored meanwhile does
      not matter, not even a revocation. */
  lemma CheckDecides(config: Config, s: State, call: CallId, userActive: bool)
    requires call in s.calls && s.calls[call].Found?
    ensures var s', c := Step(config)(s, Check(call, userActive)), s.calls[call];
      && s'.sessions == s.sessions && s'.calls.Keys == s.calls.Keys && s'.calls[call].token == c.token
      && (s'.calls[call].Rejected? <==> s.clock >= c.session.createdAt + config.absoluteTtlMs)
      && (s'.calls[call].RevokingInactive? <==> s.clock < c.session.createdAt + config.absoluteTtlMs && !userActive)
      && (s'.calls[call] == Touching(c.token, c.foundAt, c.session, s.clock)
        <==> s.clock < c.session.createdAt + config.absoluteTtlMs && userActive && s.clock - c.session.lastSeenAt > 60 * 60 * 1000)
      && (s'.calls[call] == Accepted(c.token, c.foundAt, c.session, s.clock)
        <==> s.clock < c.session.createdAt + config.absoluteTtlMs && userActive && s.clock - c.session.lastSeenAt <= 60 * 60 * 1000)
  {
  }

  /** The index that expires records takes one session at a time, and only once its deadline has passed. */
  lemma ReapingSparesTheLiving(config: Config, s: State, token: Token)
    ensures var s' := Step(config)(s, Reap(token));
      && (token in s'.sessions <==> token in s.sessions && s.sessions[token].expiresAt > s.clock)
      && (forall other :: other in s'.sessions ==> other in s.sessions && s'.sessions[other] == s.sessions[other])
      && (forall other :: other in s.sessions && other != token ==> other in s'.sessions)
  {
  }

  // ----- What revokes a session -----

  /** Revoking sets the time of it on the sessions it means and leaves everything else as it was. */
  ghost predicate OnlyRevokes(before: map<Token, Session>, after: map<Token, Session>, those: set<Token>, at: int) {
    && after.Keys == before.Keys
    && (forall token :: token in before && token in those ==> after[token] == before[token].(revokedAt := Some(at)))
    && (forall token :: token in before && token !in those ==> after[token] == before[token])
  }

  lemma RevokingMeans(sessions: map<Token, Session>, token: Token, user: UserId, at: int)
    ensures OnlyRevokes(sessions, RevokeStored(sessions, token, at), {token}, at)
    ensures OnlyRevokes(sessions, RevokeUser(sessions, user, at),
      (set t | t in sessions && sessions[t].user == user && sessions[t].revokedAt.None?), at)
  {
  }

  /** Every token that a call has looked up was drawn, and is no longer being issued. */
  ghost predicate LookedUpIsIssued(s: State) {
    forall call, other :: call in s.calls && (IsPastLookup(s, call) || s.calls[call].RevokingInactive?) ==>
      s.calls[call].token in s.used && (other in s.calls && s.calls[other].Issuing? ==> s.calls[other].token != s.calls[call].token)
  }

  lemma LookedUpStep(config: Config, s: State, e: Event)
    requires TokensOk(s) && LookedUpIsIssued(s)
    ensures LookedUpIsIssued(Step(config)(s, e))
  {
    forall call | call in s.calls && (IsPastLookup(s, call) || s.calls[call].RevokingInactive?) ensures s.calls[call].token in s.used {
      assert call in s.calls;
    }
  }

  lemma {:induction false} LookedUpHolds(config: Config, events: seq<Event>)
    ensures TokensOk(After(Step(config), Start, events)) && LookedUpIsIssued(After(Step(config), Start, events))
  {
    if events != [] {
      LookedUpHolds(config, events[..|events| - 1]);
      TokensStep(config, After(Step(config), Start, events[..|events| - 1]), events[|events| - 1]);
      LookedUpStep(config, After(Step(config), Start, events[..|events| - 1]), events[|events| - 1]);
    }
  }

  /** The event revokes what is stored for the token: a logout, a revocation of all the user's sessions, or the write
      that follows when an inactive user's token was presented. */
  predicate Revokes(s: State, e: Event, token: Token) {
    || (e == Revoke(token) && token in s.sessions)
    || (e.RevokeAllForUser? && token in s.sessions && s.sessions[token].user == e.user)
    || (e.WriteRevocation? && !e.fails && e.call in s.calls && s.calls[e.call].RevokingInactive? && s.calls[e.call].token == token)
  }

  lemma RevocationKills(config: Config, s: State, e: Event, token: Token, call: CallId)
    requires TokensOk(s) && LookedUpIsIssued(s) && Revokes(s, e, token) && !IsPastLookup(s, call)
    ensures IsDead(Step(config)(s, e), token) && !IsPastLookup(Step(config)(s, e), call)
  {
    if e.WriteRevocation? {
      assert e.call in s.calls;
    }
  }

  /** From the event on: once a token has been revoked in one of the three ways, no validation that looks it up later is
      ever accepted, and all other sessions are as they were. */
  lemma RevocationShutsOut(config: Config, first: seq<Event>, e: Event, rest: seq<Event>, token: Token, call: CallId)
    requires Revokes(After(Step(config), Start, first), e, token) && !IsPastLookup(After(Step(config), Start, first), call)
    ensures var s' := After(Step(config), Start, first + [e] + rest);
      !(call in s'.calls && s'.calls[call].Accepted? && s'.calls[call].token == token)
    ensures var before, after := After(Step(config), Start, first).sessions, After(Step(config), Start, first + [e]).sessions;
      && after.Keys == before.Keys
      && forall other :: other in before && !Revokes(After(Step(config), Start, first), e, other) ==> after[other] == before[other]
  {
    hide IsDead, IsPastLookup;
    var s := After(Step(config), Start, first);
    assert (first + [e])[..|first|] == first;
    LookedUpHolds(config, first);
    RevocationKills(config, s, e, token, call);
    AfterConcat(Step(config), Start, first + [e], rest);
    DeadStays(config, Step(config)(s, e), rest, token, call);
    var s' := After(Step(config), Start, first + [e] + rest);
    if call in s'.calls && s'.calls[call].Accepted? {
      AcceptedIsPastLookup(s', call);
    }
  }

  lemma AcceptedIsPastLookup(s: State, call: CallId)
    requires call in s.calls && s.calls[call].Accepted?
    ensures IsPastLookup(s, call)
  {
  }

  // ----- When the deadline slides -----

  /** The clock is read soon enough after the lookup for the idle deadline to rule a touch out. */
  predicate IsPromptAt(config: Config, s: State, e: Event) {
    e.Check? && e.call in s.calls && s.calls[e.call].Found? ==> s.clock - s.calls[e.call].foundAt <= TOUCH_THROTTLE_MS + 1 - config.idleTtlMs
  }

  ghost predicate IsPromptRun(config: Config, s: State, events: seq<Event>) {
    forall k: nat :: k < |events| ==> IsPromptAt(config, After(Step(config), s, events[..k]), events[k])
  }

  ghost predicate IsQuiet(s: State) {
    forall call :: call in s.calls ==> !s.calls[call].Touching?
  }

  lemma QuietStep(config: Config, s: State, e: Event)
    requires Inv(config, s) && IsQuiet(s) && IsPromptAt(config, s, e)
    ensures IsQuiet(Step(config)(s, e))
  {
  }

  /** Nobody is about to touch, and what is stored for the token, if anything, has these two dates. */
  ghost predicate StandsStill(s: State, token: Token, lastSeenAt: int, expiresAt: int) {
    && IsQuiet(s)
    && token in s.used
    && (forall call :: call in s.calls && s.calls[call].Issuing? ==> s.calls[call].token != token)
    && (token in s.sessions ==> s.sessions[token].lastSeenAt == lastSeenAt && s.sessions[token].expiresAt == expiresAt)
  }

  lemma StandsStillStep(config: Config, s: State, e: Event, token: Token, lastSeenAt: int, expiresAt: int)
    requires Inv(config, s) && StandsStill(s, token, lastSeenAt, expiresAt) && IsPromptAt(config, s, e)
    ensures StandsStill(Step(config)(s, e), token, lastSeenAt, expiresAt)
  {
  }

  /** While validations are prompt, the dates of a session never move. */
  lemma {:induction false} PromptRunsStandStill(config: Config, s: State, events: seq<Event>, token: Token, lastSeenAt: int, expiresAt: int)
    requires Inv(config, s) && StandsStill(s, token, lastSeenAt, expiresAt) && IsPromptRun(config, s, events)
    ensures StandsStill(After(Step(config), s, events), token, lastSeenAt, expiresAt)
  {
    if events != [] {
      var n := |events| - 1;
      forall k: nat | k < n ensures IsPromptAt(config, After(Step(config), s, events[..n][..k]), events[..n][k]) {
        assert events[..n][..k] == events[..k] && IsPromptAt(config, After(Step(config), s, events[..k]), events[k]);
      }
      PromptRunsStandStill(config, s, events[..n], token, lastSeenAt, expiresAt);
      InvHolds(config, s, events[..n]);
      StandsStillStep(config, After(Step(config), s, events[..n]), events[n], token, lastSeenAt, expiresAt);
    }
  }

  lemma {:induction false} NobodyTouches(config: Config, events: seq<Event>)
    requires IsPromptRun(config, Start, events)
    ensures IsQuiet(After(Step(config), Start, events))
  {
    if events != [] {
      var n := |events| - 1;
      forall k: nat | k < n ensures IsPromptAt(config, After(Step(config), Start, events[..n][..k]), events[..n][k]) {
        assert events[..n][..k] == events[..k] && IsPromptAt(config, After(Step(config), Start, events[..k]), events[k]);
      }
      NobodyTouches(config, events[..n]);
      InvHolds(config, Start, events[..n]);
      QuietStep(config, After(Step(config), Start, events[..n]), events[n]);
    }
  }

  /** With every validation prompt (its clock read within throttle + 1 - idle milliseconds of the lookup, half an hour
      with the default settings), no session's deadline ever moves: it ends the idle time after it was issued, however
      busy its user. */
  lemma DeadlineNeverMoves(config: Config, first: seq<Event>, rest: seq<Event>, token: Token)
    requires IsPromptRun(config, Start, first) && IsPromptRun(config, After(Step(config), Start, first), rest)
    requires token in After(Step(config), Start, first).sessions && token in After(Step(config), Start, first + rest).sessions
    ensures After(Step(config), Start, first + rest).sessions[token].expiresAt == After(Step(config), Start, first).sessions[token].expiresAt
  {
    var s := After(Step(config), Start, first);
    NobodyTouches(config, first);
    TokensHold(config, Start, first);
    InvHolds(config, Start, first);
    AfterConcat(Step(config), Start, first, rest);
    PromptRunsStandStill(config, s, rest, token, s.sessions[token].lastSeenAt, s.sessions[token].expiresAt);
  }

  /** Nobody touches, and no deadline lies beyond the idle time after the creation. */
  ghost predicate EndsAfterIdle(config: Config, s: State) {
    && IsQuiet(s)
    && (forall token :: token in s.sessions ==> s.sessions[token].expiresAt <= s.sessions[token].createdAt + config.idleTtlMs)
    && (forall call :: call in s.calls && s.calls[call].Found? ==>
      s.calls[call].session.expiresAt <= s.calls[call].session.createdAt + config.idleTtlMs)
    && (forall call :: call in s.calls && s.calls[call].Accepted? ==> AcceptedEarly(config, s.calls[call]))
  }

  /** Within the idle time of the creation when looked up, within the throttle when accepted. */
  predicate AcceptedEarly(config: Config, c: Call)
    requires c.Accepted?
  {
    c.foundAt < c.session.createdAt + config.idleTtlMs && c.now <= c.session.createdAt + TOUCH_THROTTLE_MS
  }

  lemma EndsAfterIdleStep(config: Config, s: State, e: Event)
    requires Inv(config, s) && EndsAfterIdle(config, s) && IsPromptAt(config, s, e)
    ensures EndsAfterIdle(config, Step(config)(s, e))
  {
    QuietStep(config, s, e);
    if e.Check? && e.call in s.calls && s.calls[e.call].Found? {
      assert s.clock - s.calls[e.call].foundAt <= TOUCH_THROTTLE_MS + 1 - config.idleTtlMs;
    }
  }

  lemma {:induction false} EndsAfterIdleHolds(config: Config, events: seq<Event>)
    requires IsPromptRun(config, Start, events)
    ensures EndsAfterIdle(config, After(Step(config), Start, events))
  {
    hide Step, EndsAfterIdle;
    if events != [] {
      var n := |events| - 1;
      forall k: nat | k < n ensures IsPromptAt(config, After(Step(config), Start, events[..n][..k]), events[..n][k]) {
        assert events[..n][..k] == events[..k] && IsPromptAt(config, After(Step(config), Start, events[..k]), events[k]);
      }
      EndsAfterIdleHolds(config, events[..n]);
      InvHolds(config, Start, events[..n]);
      EndsAfterIdleStep(config, After(Step(config), Start, events[..n]), events[n]);
    } else {
      NothingHasEnded(config);
    }
  }

  lemma NothingHasEnded(config: Config)
    ensures EndsAfterIdle(config, Start)
  {
  }

  /** With prompt validations every accepted session was looked up within the idle time of its creation, and accepted
      within the throttle: with the default settings no session is accepted anywhere near its absolute lifetime. */
  lemma ActivityDoesNotProlong(config: Config, events: seq<Event>, call: CallId)
    requires IsPromptRun(config, Start, events)
    requires var s := After(Step(config), Start, events); call in s.calls && s.calls[call].Accepted?
    ensures var c := After(Step(config), Start, events).calls[call];
      c.foundAt < c.session.createdAt + config.idleTtlMs && c.now <= c.session.createdAt + TOUCH_THROTTLE_MS
    ensures TOUCH_THROTTLE_MS < DEFAULTS.absoluteTtlMs && DEFAULTS.idleTtlMs < DEFAULTS.absoluteTtlMs
  {
    EndsAfterIdleHolds(config, events);
  }

  // ----- Which settings ever move a deadline -----

  /** Every validation reads the clock at the very moment of its lookup. */
  predicate IsInstantAt(s: State, e: Event) {
    e.Check? && e.call in s.calls && s.calls[e.call].Found? ==> s.clock == s.calls[e.call].foundAt
  }

  ghost predicate IsInstantRun(config: Config, events: seq<Event>) {
    forall k: nat :: k < |events| ==> IsInstantAt(After(Step(config), Start, events[..k]), events[k])
  }

  /** Somewhere along the run the session's deadline becomes another one. */
  ghost predicate Slides(config: Config, first: seq<Event>, rest: seq<Event>, token: Token) {
    var s, s' := After(Step(config), Start, first), After(Step(config), Start, first + rest);
    && IsInstantRun(config, first + rest)
    && token in s.sessions && token in s'.sessions && s'.sessions[token].expiresAt != s.sessions[token].expiresAt
  }

  lemma InstantPrefix(config: Config, events: seq<Event>, n: nat)
    requires IsInstantRun(config, events) && n <= |events|
    ensures IsInstantRun(config, events[..n])
  {
    forall k: nat | k < n ensures IsInstantAt(After(Step(config), Start, events[..n][..k]), events[..n][k]) {
      assert events[..n][..k] == events[..k] && IsInstantAt(After(Step(config), Start, events[..k]), events[k]);
    }
  }

  /** No touch under way is going to change a deadline. */
  ghost predicate TouchesAreIdle(config: Config, s: State) {
    forall call :: call in s.calls && s.calls[call].Touching? && s.calls[call].token in s.sessions ==>
      Touched(config, s.calls[call].session, s.calls[call].now).expiresAt == s.sessions[s.calls[call].token].expiresAt
  }

  ghost predicate HasDeadline(s: State, token: Token, expiresAt: int) {
    && token in s.used
    && (forall call :: call in s.calls && s.calls[call].Issuing? ==> s.calls[call].token != token)
    && (token in s.sessions ==> s.sessions[token].expiresAt == expiresAt)
  }

  lemma DeadlineStep(config: Config, s: State, e: Event, token: Token, expiresAt: int)
    requires HasDeadline(s, token, expiresAt) && TouchesAreIdle(config, s)
    ensures HasDeadline(Step(config)(s, e), token, expiresAt)
  {
  }

  ghost predicate AlwaysIdle(config: Config) {
    forall events :: IsInstantRun(config, events) ==> TouchesAreIdle(config, After(Step(config), Start, events))
  }

  lemma {:induction false} DeadlineHolds(config: Config, first: seq<Event>, rest: seq<Event>, token: Token, expiresAt: int)
    requires AlwaysIdle(config) && IsInstantRun(config, first + rest) && HasDeadline(After(Step(config), Start, first), token, expiresAt)
    ensures HasDeadline(After(Step(config), Start, first + rest), token, expiresAt)
  {
    hide Step, HasDeadline, TouchesAreIdle, IsInstantRun;
    if rest == [] {
      assert first + rest == first;
    } else {
      var shorter := rest[..|rest| - 1];
      assert (first + rest)[..|first + rest| - 1] == first + shorter;
      InstantPrefix(config, first + rest, |first + shorter|);
      DeadlineHolds(config, first, shorter, token, expiresAt);
      DeadlineStep(config, After(Step(config), Start, first + shorter), rest[|rest| - 1], token, expiresAt);
    }
  }

  lemma IdleTouchesSlideNothing(config: Config, first: seq<Event>, rest: seq<Event>, token: Token)
    requires AlwaysIdle(config)
    ensures !Slides(config, first, rest, token)
  {
    if Slides(config, first, rest, token) {
      var s := After(Step(config), Start, first);
      TokensHold(config, Start, first);
      DeadlineHolds(config, first, rest, token, s.sessions[token].expiresAt);
    }
  }

  /** A short idle time: a session is over before its next touch is due. */
  lemma ShortIdleIsIdle(config: Config)
    requires config.idleTtlMs <= TOUCH_THROTTLE_MS + 1
    ensures AlwaysIdle(config)
  {
    forall events | IsInstantRun(config, events) ensures TouchesAreIdle(config, After(Step(config), Start, events)) {
      forall k: nat | k < |events| ensures IsPromptAt(config, After(Step(config), Start, events[..k]), events[k]) {
        assert IsInstantAt(After(Step(config), Start, events[..k]), events[k]);
      }
      NobodyTouches(config, events);
    }
  }

  /** A short absolute time: the same, since a session was last seen no earlier than it was created. */
  ghost predicate SeenAfterCreation(s: State) {
    && IsQuiet(s)
    && (forall token :: token in s.sessions ==> s.sessions[token].createdAt <= s.sessions[token].lastSeenAt)
    && (forall call :: call in s.calls && s.calls[call].Found? ==> s.calls[call].session.createdAt <= s.calls[call].session.lastSeenAt)
  }

  lemma SeenAfterCreationStep(config: Config, s: State, e: Event)
    requires config.absoluteTtlMs <= TOUCH_THROTTLE_MS + 1 && SeenAfterCreation(s)
    ensures SeenAfterCreation(Step(config)(s, e))
  {
  }

  lemma {:induction false} ShortLifeHolds(config: Config, events: seq<Event>)
    requires config.absoluteTtlMs <= TOUCH_THROTTLE_MS + 1
    ensures SeenAfterCreation(After(Step(config), Start, events))
  {
    if events != [] {
      ShortLifeHolds(config, events[..|events| - 1]);
      SeenAfterCreationStep(config, After(Step(config), Start, events[..|events| - 1]), events[|events| - 1]);
    }
  }

  lemma ShortLifeIsIdle(config: Config)
    requires config.absoluteTtlMs <= TOUCH_THROTTLE_MS + 1
    ensures AlwaysIdle(config)
  {
    forall events | IsInstantRun(config, events) ensures TouchesAreIdle(config, After(Step(config), Start, events)) {
      ShortLifeHolds(config, events);
    }
  }

  /** Both times equal and two milliseconds beyond the throttle: the one touch that fits in writes the deadline there is. */
  predicate IsBorderline(config: Config) {
    config.idleTtlMs == config.absoluteTtlMs == TOUCH_THROTTLE_MS + 2
  }

  predicate DatesFit(config: Config, session: Session) {
    session.createdAt <= session.lastSeenAt && session.expiresAt <= session.createdAt + config.idleTtlMs
  }

  /** What a call found is what is stored, but for the last sighting. */
  ghost predicate FoundFits(config: Config, s: State, token: Token, session: Session) {
    && DatesFit(config, session) && token in s.used
    && (forall call :: call in s.calls && s.calls[call].Issuing? ==> s.calls[call].token != token)
    && (token in s.sessions ==>
      s.sessions[token].createdAt == session.createdAt && s.sessions[token].expiresAt == session.expiresAt)
  }

  ghost predicate BorderlineOk(config: Config, s: State) {
    && (forall token :: token in s.sessions ==> DatesFit(config, s.sessions[token]))
    && (forall call :: call in s.calls && (s.calls[call].Found? || s.calls[call].Touching?) ==>
      FoundFits(config, s, s.calls[call].token, s.calls[call].session))
    && (forall call :: call in s.calls && s.calls[call].Touching? ==>
      s.calls[call].session.createdAt <= s.calls[call].now && s.calls[call].session.expiresAt == s.calls[call].session.createdAt + config.absoluteTtlMs)
  }

  lemma BorderlineFinds(config: Config, s: State, call: CallId)
    requires IsBorderline(config) && Inv(config, s) && TokensOk(s) && BorderlineOk(config, s)
    ensures BorderlineOk(config, Step(config)(s, Find(call)))
  {
  }

  lemma BorderlineChecks(config: Config, s: State, call: CallId, userActive: bool)
    requires IsBorderline(config) && Inv(config, s) && BorderlineOk(config, s) && IsInstantAt(s, Check(call, userActive))
    ensures BorderlineOk(config, Step(config)(s, Check(call, userActive)))
  {
    var s' := Step(config)(s, Check(call, userActive));
    forall token, session | FoundFits(config, s, token, session) ensures FoundFits(config, s', token, session) {
    }
  }

  lemma BorderlineCreates(config: Config, s: State, call: CallId)
    requires IsBorderline(config) && Inv(config, s) && TokensOk(s) && BorderlineOk(config, s)
    ensures BorderlineOk(config, Step(config)(s, Create(call)))
  {
    var s' := Step(config)(s, Create(call));
    forall token, session | FoundFits(config, s, token, session) ensures FoundFits(config, s', token, session) {
    }
  }

  lemma BorderlineTouches(config: Config, s: State, call: CallId, fails: bool)
    requires IsBorderline(config) && BorderlineOk(config, s)
    ensures BorderlineOk(config, Step(config)(s, WriteTouch(call, fails)))
  {
    var s' := Step(config)(s, WriteTouch(call, fails));
    forall token, session | FoundFits(config, s, token, session) ensures FoundFits(config, s', token, session) {
    }
  }

  lemma BorderlineOthers(config: Config, s: State, e: Event)
    requires IsBorderline(config) && TokensOk(s) && BorderlineOk(config, s)
    requires !e.Find? && !e.Check? && !e.Create? && !e.WriteTouch?
    ensures BorderlineOk(config, Step(config)(s, e))
  {
    var s' := Step(config)(s, e);
    forall token, session | FoundFits(config, s, token, session) ensures FoundFits(config, s', token, session) {
    }
  }

  lemma BorderlineStep(config: Config, s: State, e: Event)
    requires IsBorderline(config) && Inv(config, s) && TokensOk(s) && BorderlineOk(config, s) && IsInstantAt(s, e)
    ensures BorderlineOk(config, Step(config)(s, e))
  {
    hide BorderlineOk, Inv, TokensOk, Step;
    match e
    case Find(call) => BorderlineFinds(config, s, call);
    case Check(call, userActive) => BorderlineChecks(config, s, call, userActive);
    case Create(call) => BorderlineCreates(config, s, call);
    case WriteTouch(call, fails) => BorderlineTouches(config, s, call, fails);
    case _ => BorderlineOthers(config, s, e);
  }

  lemma {:induction false} BorderlineHolds(config: Config, events: seq<Event>)
    requires IsBorderline(config) && IsInstantRun(config, events)
    ensures BorderlineOk(config, After(Step(config), Start, events))
  {
    if events != [] {
      var n := |events| - 1;
      InstantPrefix(config, events, n);
      BorderlineHolds(config, events[..n]);
      InvHolds(config, Start, events[..n]);
      TokensHold(config, Start, events[..n]);
      BorderlineStep(config, After(Step(config), Start, events[..n]), events[n]);
    }
  }

  lemma BorderlineIsIdle(config: Config)
    requires IsBorderline(config)
    ensures AlwaysIdle(config)
  {
    forall events | IsInstantRun(config, events) ensures TouchesAreIdle(config, After(Step(config), Start, events)) {
      BorderlineHolds(config, events);
      BorderlineTouchesAreIdle(config, After(Step(config), Start, events));
    }
  }

  lemma BorderlineTouchesAreIdle(config: Config, s: State)
    requires IsBorderline(config) && BorderlineOk(config, s)
    ensures TouchesAreIdle(config, s)
  {
  }

  // ----- A visit that moves one -----

  /** A login whose record is created `delay` after its deadline was fixed, and a visit just after the throttle interval. */
  function LoginAndVisit(delay: nat): (seq<Event>, seq<Event>) {
    ([BeginIssue(0, 0, 0), ClockTicks(delay), Create(0)],
     [ClockTicks(TOUCH_THROTTLE_MS + 1), BeginValidate(1, 0), Find(1), Check(1, true), WriteTouch(1, false)])
  }

  function IssuedState(config: Config, delay: nat): State {
    State(delay, map[0 := Session(0, delay, delay, config.idleTtlMs, None)], {0}, map[0 := Issued(0)])
  }

  lemma IssueRun(config: Config, delay: nat)
    ensures After(Step(config), Start, LoginAndVisit(delay).0) == IssuedState(config, delay)
  {
    var step, login := Step(config), LoginAndVisit(delay).0;
    AfterThreeFirst(step, Start, login[0], login[1], login[2], []);
    assert login + [] == login;
  }

  function FoundState(config: Config, delay: nat): State {
    var s := IssuedState(config, delay);
    s.(clock := delay + TOUCH_THROTTLE_MS + 1, calls := s.calls[1 := Found(0, delay + TOUCH_THROTTLE_MS + 1, s.sessions[0])])
  }

  lemma VisitLooksUp(config: Config, delay: nat)
    requires config.idleTtlMs > delay + TOUCH_THROTTLE_MS + 1
    ensures var step, visit := Step(config), LoginAndVisit(delay).1;
      step(step(step(IssuedState(config, delay), visit[0]), visit[1]), visit[2]) == FoundState(config, delay)
  {
    var step, visit := Step(config), LoginAndVisit(delay).1;
    var s2 := step(step(IssuedState(config, delay), visit[0]), visit[1]);
    assert step(s2, visit[2]) == FoundState(config, delay);
  }

  lemma VisitTouches(config: Config, delay: nat)
    requires config.absoluteTtlMs > TOUCH_THROTTLE_MS + 1
    ensures var s' := Step(config)(Step(config)(FoundState(config, delay), Check(1, true)), WriteTouch(1, false));
      0 in s'.sessions && s'.sessions[0].expiresAt == Min(delay + TOUCH_THROTTLE_MS + 1 + config.idleTtlMs, delay + config.absoluteTtlMs)
  {
    var s := FoundState(config, delay);
    var s4 := Step(config)(s, Check(1, true));
    assert s4.calls[1] == Touching(0, s.clock, s.sessions[0], s.clock);
  }

  lemma VisitSlides(config: Config, delay: nat)
    requires config.idleTtlMs > delay + TOUCH_THROTTLE_MS + 1 && config.absoluteTtlMs > TOUCH_THROTTLE_MS + 1
    requires delay + config.absoluteTtlMs != config.idleTtlMs
    ensures Slides(config, LoginAndVisit(delay).0, LoginAndVisit(delay).1, 0)
  {
    hide Step;
    var (login, visit) := LoginAndVisit(delay);
    var issued := IssuedState(config, delay);
    IssueRun(config, delay);
    VisitLooksUp(config, delay);
    VisitTouches(config, delay);
    AfterConcat(Step(config), Start, login, visit);
    AfterFive(Step(config), issued, visit[0], visit[1], visit[2], visit[3], visit[4]);
    assert visit == [visit[0], visit[1], visit[2], visit[3], visit[4]];
    VisitIsInstant(config, delay);
  }

  /** The six events up to the check. */
  lemma VisitReachesCheck(config: Config, delay: nat)
    requires config.idleTtlMs > delay + TOUCH_THROTTLE_MS + 1
    ensures var (login, visit) := LoginAndVisit(delay); After(Step(config), Start, (login + visit)[..6]) == FoundState(config, delay)
  {
    hide Step;
    var (login, visit) := LoginAndVisit(delay);
    var a, b, c := visit[0], visit[1], visit[2];
    var looking := [a, b, c];
    IssueRun(config, delay);
    VisitLooksUp(config, delay);
    AfterConcat(Step(config), Start, login, looking);
    AfterThreeFirst(Step(config), IssuedState(config, delay), a, b, c, []);
    assert looking + [] == looking;
    assert (login + visit)[..6] == login + looking;
  }

  lemma VisitIsInstant(config: Config, delay: nat)
    requires config.idleTtlMs > delay + TOUCH_THROTTLE_MS + 1
    ensures IsInstantRun(config, LoginAndVisit(delay).0 + LoginAndVisit(delay).1)
  {
    hide Step;
    var (login, visit) := LoginAndVisit(delay);
    var events := login + visit;
    forall k: nat | k < |events| ensures IsInstantAt(After(Step(config), Start, events[..k]), events[k]) {
      assert events == [login[0], login[1], login[2], visit[0], visit[1], visit[2], visit[3], visit[4]];
      if k == 6 {
        VisitReachesCheck(config, delay);
      } else {
        assert !events[k].Check?;
      }
    }
  }

  /** With instant validations, some session's deadline ever moves exactly when both times exceed the throttle by more
      than a millisecond, except where both exceed it by exactly two; with the default settings none does. */
  lemma DeadlineSlidesIff(config: Config)
    ensures (exists first, rest, token :: Slides(config, first, rest, token))
      <==> config.idleTtlMs > TOUCH_THROTTLE_MS + 1 && config.absoluteTtlMs > TOUCH_THROTTLE_MS + 1 && !IsBorderline(config)
    ensures !exists first, rest, token :: Slides(DEFAULTS, first, rest, token)
  {
    hide Slides, AlwaysIdle, Step;
    if config.idleTtlMs > TOUCH_THROTTLE_MS + 1 && config.absoluteTtlMs > TOUCH_THROTTLE_MS + 1 && !IsBorderline(config) {
      VisitSlides(config, if config.absoluteTtlMs == config.idleTtlMs then 1 else 0);
    } else {
      if config.idleTtlMs <= TOUCH_THROTTLE_MS + 1 {
        ShortIdleIsIdle(config);
      } else if config.absoluteTtlMs <= TOUCH_THROTTLE_MS + 1 {
        ShortLifeIsIdle(config);
      } else {
        BorderlineIsIdle(config);
      }
      forall first, rest, token ensures !Slides(config, first, rest, token) {
        IdleTouchesSlideNothing(config, first, rest, token);
      }
    }
    ShortIdleIsIdle(DEFAULTS);
    forall first, rest, token ensures !Slides(DEFAULTS, first, rest, token) {
      IdleTouchesSlideNothing(DEFAULTS, first, rest, token);
    }
  }

  // ----- The service called on its own -----

  /** One validation without interruption: what it stores, and the session it accepts. */
  function Validate(config: Config, sessions: map<Token, Session>, token: Token, now: int, userActive: bool): (map<Token, Session>, Option<Session>) {
    if !IsActive(sessions, token, now) || now >= sessions[token].createdAt + config.absoluteTtlMs then (sessions, None)
    else if !userActive then (RevokeStored(sessions, token, now), None)
    else if now - sessions[token].lastSeenAt > TOUCH_THROTTLE_MS then
      (TouchStored(config, sessions, token, sessions[token], now), Some(sessions[token]))
    else (sessions, Some(sessions[token]))
  }

  /** The session is good at the time: not revoked and within both deadlines. */
  predicate IsGood(config: Config, session: Session, now: int) {
    session.revokedAt.None? && now < session.expiresAt && now < session.createdAt + config.absoluteTtlMs
  }

  /** Whom a validation lets in, and what it stores: a good session of an active user, sighted anew if the last sighting
      is more than an hour old; a good session of an inactive user is revoked; nothing else changes. */
  lemma ValidateMeans(config: Config, sessions: map<Token, Session>, token: Token, now: int, userActive: bool)
    ensures var (stored, accepted) := Validate(config, sessions, token, now, userActive);
      && (accepted.Some? <==> token in sessions && IsGood(config, sessions[token], now) && userActive)
      && (accepted.Some? ==> accepted.value == sessions[token])
      && stored.Keys == sessions.Keys
      && (forall other :: other in sessions && other != token ==> stored[other] == sessions[other])
    ensures token in sessions ==>
      var was, left := sessions[token], Validate(config, sessions, token, now, userActive).0[token];
      && left.user == was.user && left.createdAt == was.createdAt
      && left.revokedAt == (if IsGood(config, was, now) && !userActive then Some(now) else was.revokedAt)
      && (if IsGood(config, was, now) && userActive && now - was.lastSeenAt > 60 * 60 * 1000
          then left.lastSeenAt == now && left.expiresAt <= now + config.idleTtlMs && left.expiresAt <= was.createdAt + config.absoluteTtlMs
            && (left.expiresAt == now + config.idleTtlMs || left.expiresAt == was.createdAt + config.absoluteTtlMs)
          else left.lastSeenAt == was.lastSeenAt && left.expiresAt == was.expiresAt)
  {
  }

  /** A session just issued is accepted for an active user up to the earlier of its two deadlines, and not beyond. */
  lemma IssuedIsAccepted(config: Config, sessions: map<Token, Session>, token: Token, user: UserId, now: int, later: int)
    ensures Validate(config, sessions[token := Session(user, now, now, now + config.idleTtlMs, None)], token, later, true).1.Some?
      <==> later < now + config.idleTtlMs && later < now + config.absoluteTtlMs
  {
    ValidateMeans(config, sessions[token := Session(user, now, now, now + config.idleTtlMs, None)], token, later, true);
  }

  /** A token that was revoked is refused from then on, and presenting it changes nothing. */
  lemma RevokedIsRefused(config: Config, sessions: map<Token, Session>, token: Token, at: int, now: int, userActive: bool)
    ensures var revoked := RevokeStored(sessions, token, at);
      Validate(config, revoked, token, now, userActive) == (revoked, None)
  {
    RevokingMeans(sessions, token, 0, at);
  }

  /** A login is two events of the system: it stores one session that nobody has seen yet. */
  lemma IssueIsARun(config: Config, s: State, call: CallId, token: Token, user: UserId)
    requires call !in s.calls && token !in s.used
    ensures var s' := Step(config)(Step(config)(s, BeginIssue(call, token, user)), Create(call));
      && s'.sessions == s.sessions[token := Session(user, s.clock, s.clock, s.clock + config.idleTtlMs, None)]
      && s'.calls == s.calls[call := Issued(token)] && s'.clock == s.clock
  {
    var s1 := Step(config)(s, BeginIssue(call, token, user));
    assert s1.calls[call] == Issuing(token, user, s.clock);
    assert s1.calls[call := Issued(token)] == s.calls[call := Issued(token)];
  }

  function LookAndCheck(config: Config, s: State, call: CallId, token: Token, userActive: bool): State {
    var step := Step(config);
    step(step(step(s, BeginValidate(call, token)), Find(call)), Check(call, userActive))
  }

  lemma Checked(config: Config, s: State, call: CallId, token: Token, userActive: bool)
    requires call !in s.calls
    ensures LookAndCheck(config, s, call, token, userActive) == Goto(s, call,
      if IsActive(s.sessions, token, s.clock) then Decide(config, Found(token, s.clock, s.sessions[token]), s.clock, userActive) else Rejected(token))
  {
    var step := Step(config);
    var s1 := step(s, BeginValidate(call, token));
    var s2 := step(s1, Find(call));
    assert s1 == Goto(s, call, Looking(token));
    assert s2 == Goto(s, call, if IsActive(s.sessions, token, s.clock) then Found(token, s.clock, s.sessions[token]) else Rejected(token));
  }

  /** It is one of the runs: its steps one after the other, with nobody in between. */
  lemma ValidateIsARun(config: Config, s: State, call: CallId, token: Token, userActive: bool)
    requires call !in s.calls
    ensures var s' := After(Step(config), s,
        [BeginValidate(call, token), Find(call), Check(call, userActive), WriteRevocation(call, false), WriteTouch(call, false)]);
      var (stored, accepted) := Validate(config, s.sessions, token, s.clock, userActive);
      s'.sessions == stored
      && s'.calls == s.calls[call := if accepted.Some? then Accepted(token, s.clock, accepted.value, s.clock) else Rejected(token)]
  {
    var step := Step(config);
    AfterFive(step, s, BeginValidate(call, token), Find(call), Check(call, userActive), WriteRevocation(call, false), WriteTouch(call, false));
    Checked(config, s, call, token, userActive);
    var s3 := LookAndCheck(config, s, call, token, userActive);
    var s4 := step(s3, WriteRevocation(call, false));
    assert s4 == StepCall(config, s3, s3.calls[call], WriteRevocation(call, false));
    assert step(s4, WriteTouch(call, false)) == StepCall(config, s4, s4.calls[call], WriteTouch(call, false));
  }

  class ClientSessionsService {
    const config: Config
    var sessions: map<Token, Session>

    constructor (config: Config)
      ensures this.config == config && sessions == map[]
    {
      this.config := config;
      sessions := map[];
    }

    method Issue(token: Token, user: UserId, now: int)
      requires token !in sessions
      modifies this
      ensures sessions == old(sessions)[token := Session(user, now, now, now + config.idleTtlMs, None)]
    {
      sessions := sessions[token := Session(user, now, now, now + config.idleTtlMs, None)];
    }

    method ValidateAndTouch(token: Token, now: int, userActive: bool) returns (accepted: Option<Session>)
      modifies this
      ensures (sessions, accepted) == Validate(config, old(sessions), token, now, userActive)
      ensures accepted.Some? <==> token in old(sessions) && IsGood(config, old(sessions)[token], now) && userActive
    {
      ValidateMeans(config, sessions, token, now, userActive);
      if token !in sessions || sessions[token].revokedAt.Some? || sessions[token].expiresAt <= now {
        return None;
      }
      var session := sessions[token];
      var absoluteCutoff := session.createdAt + config.absoluteTtlMs;
      if now >= absoluteCutoff {
        return None;
      }
      if !userActive {
        Revoke(token, now);
        return None;
      }
      if now - session.lastSeenAt > TOUCH_THROTTLE_MS {
        var nextExpiresAt := Min(now + config.idleTtlMs, absoluteCutoff);
        sessions := sessions[token := session.(lastSeenAt := now, expiresAt := nextExpiresAt)];
      }
      accepted := Some(session);
    }

    method Revoke(token: Token, now: int)
      modifies this
      ensures sessions == RevokeStored(old(sessions), token, now)
      ensures OnlyRevokes(old(sessions), sessions, {token}, now)
      ensures forall later, userActive :: Validate(config, sessions, token, later, userActive) == (sessions, None)
    {
      RevokingMeans(sessions, token, 0, now);
      forall later, userActive
        ensures Validate(config, RevokeStored(sessions, token, now), token, later, userActive) == (RevokeStored(sessions, token, now), None)
      {
        RevokedIsRefused(config, sessions, token, now, later, userActive);
      }
      if token in sessions {
        sessions := sessions[token := sessions[token].(revokedAt := Some(now))];
      }
    }
  }
}
