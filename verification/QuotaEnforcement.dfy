/** The message quota of one channel (quota-enforcement.service.ts, incoming-message.orchestrator.ts): inbound
    handlers compute the period, count, and insert their message later, with no lock around the three. */
module QuotaEnforcement {
  import opened Wrappers
  import opened QuotaPolicy
  import opened Calendar
  import opened JsDate
  import opened Runs

  datatype MessageType = UserMessage | AgentMessage | SummaryMessage | HumanMessage
  datatype Message = Message(channelId: nat, kind: MessageType, active: bool, createdAt: int)

  predicate IsCounted(m: Message, channelId: nat, period: BillingPeriod) {
    m.channelId == channelId && m.kind == UserMessage && m.active && period.Contains(m.createdAt)
  }

  function CountMessages(messages: seq<Message>, channelId: nat, period: BillingPeriod): nat {
    if messages == [] then 0
    else
      CountMessages(messages[..|messages| - 1], channelId, period)
      + (if IsCounted(messages[|messages| - 1], channelId, period) then 1 else 0)
  }

  lemma CountAppend(messages: seq<Message>, m: Message, channelId: nat, period: BillingPeriod)
    ensures CountMessages(messages + [m], channelId, period)
      == CountMessages(messages, channelId, period) + if IsCounted(m, channelId, period) then 1 else 0
  {
    assert (messages + [m])[..|messages|] == messages;
  }

  /** The verdict of a check: the token quota is looked at first. */
  predicate IsAllowed(tokenQuota: Option<int>, tokenUsage: int, messageQuota: Option<int>, messageCount: int) {
    !IsExceeded(tokenQuota, tokenUsage) && !IsExceeded(messageQuota, messageCount)
  }

  /** The messages a check counts: the user's own, active, of the channel and from the period. */
  function CountedAt(messages: seq<Message>, channelId: nat, period: BillingPeriod): set<int> {
    set k | 0 <= k < |messages| && messages[k].channelId == channelId && messages[k].kind == UserMessage && messages[k].active
      && period.start <= messages[k].createdAt < period.end
  }

  lemma {:induction false} CountIs(messages: seq<Message>, channelId: nat, period: BillingPeriod)
    ensures CountMessages(messages, channelId, period) == |CountedAt(messages, channelId, period)|
  {
    if messages != [] {
      var n := |messages| - 1;
      CountIs(messages[..n], channelId, period);
      assert CountedAt(messages, channelId, period)
        == CountedAt(messages[..n], channelId, period) + (if IsCounted(messages[n], channelId, period) then {n} else {});
    }
  }

  /** A check passes if and only if neither quota is used up; a quota that is not set never is. */
  lemma CheckPassesIff(s: State, h: nat, tokenQuota: Option<int>, tokenUsage: int)
    requires h in s.handlers && s.handlers[h].Dated?
    ensures var s' := Step(s, Check(h, tokenQuota, tokenUsage));
      && s' == s.(handlers := s'.handlers) && s'.handlers == s.handlers[h := s'.handlers[h]]
      && (s'.handlers[h].Passed? || s'.handlers[h].Left?)
      && (s'.handlers[h].Passed? <==>
        && (tokenQuota.Some? ==> tokenUsage < tokenQuota.value)
        && (s.messageQuota.Some? ==> |CountedAt(s.messages, s.channelId, s.handlers[h].period)| < s.messageQuota.value))
  {
    CountIs(s.messages, s.channelId, s.handlers[h].period);
  }

  datatype Phase = Dated(period: BillingPeriod) | Passed | Left

  /** The channel's billing anchor, its quota and the greatest number of handlers in flight never change. */
  datatype State = State(
    billingAnchor: int,
    channelId: nat,
    messageQuota: Option<int>,
    cap: nat,
    clock: int,
    handlers: map<nat, Phase>,
    messages: seq<Message>)

  datatype Event =
    | ClockTicks(ms: nat)
    | ComputePeriod(handler: nat)
    | Check(handler: nat, tokenQuota: Option<int>, tokenUsage: int)
    | InsertUserMessage(handler: nat)
    | Leave(handler: nat)
    | InsertOther(message: Message)

  function InFlight(s: State): set<nat> {
    set h | h in s.handlers && !s.handlers[h].Left?
  }

  function Step(s: State, e: Event): State {
    match e
    case ClockTicks(ms) => s.(clock := s.clock + ms)
    case ComputePeriod(h) =>
      if h in s.handlers || |InFlight(s)| >= s.cap then s
      else s.(handlers := s.handlers[h := Dated(ComputedPeriod(DateOf(s.billingAnchor), s.clock))])
    case Check(h, tokenQuota, tokenUsage) =>
      if h !in s.handlers || !s.handlers[h].Dated? then s
      else if IsAllowed(tokenQuota, tokenUsage, s.messageQuota, CountMessages(s.messages, s.channelId, s.handlers[h].period)) then
        s.(handlers := s.handlers[h := Passed])
      else s.(handlers := s.handlers[h := Left])
    case InsertUserMessage(h) =>
      if h !in s.handlers || !s.handlers[h].Passed? then s
      else s.(handlers := s.handlers[h := Left], messages := s.messages + [Message(s.channelId, UserMessage, true, s.clock)])
    case Leave(h) =>
      if h !in s.handlers then s else s.(handlers := s.handlers[h := Left])
    case InsertOther(m) =>
      if m.channelId == s.channelId && m.kind == UserMessage && m.active then s else s.(messages := s.messages + [m])
  }

  function Start(billingAnchor: int, channelId: nat, quota: int, cap: nat, clock: int): State {
    State(billingAnchor, channelId, Some(quota), cap, clock, map[], [])
  }

  function AnchorDay(s: State): int { DateOf(s.billingAnchor) }

  function Current(s: State): BillingPeriod { TruePeriod(AnchorDay(s), s.clock) }

  function Used(s: State, period: BillingPeriod): nat { CountMessages(s.messages, s.channelId, period) }

  /** The handlers whose message can still land in the current period without a further look at it:
      they passed their check, or they check a period that is over. */
  function Pressing(s: State): set<nat> {
    set h | h in s.handlers && (s.handlers[h].Passed? || (s.handlers[h].Dated? && s.handlers[h].period != Current(s)))
  }

  function Bound(s: State): int
    requires s.messageQuota.Some?
  {
    (if s.messageQuota.value > 1 then s.messageQuota.value else 1) - 1 + s.cap
  }

  ghost predicate Settled(s: State) {
    && s.messageQuota.Some?
    && AnchorDay(s) <= 28
    && Year(s.clock) >= 100
    && |InFlight(s)| <= s.cap
    && (forall m :: m in s.messages && m.channelId == s.channelId && m.kind == UserMessage && m.active ==> m.createdAt <= s.clock)
  }

  ghost predicate Inv(s: State) {
    && Settled(s)
    && Used(s, Current(s)) + |Pressing(s)| <= Bound(s)
    && forall t :: Used(s, TruePeriod(AnchorDay(s), t)) <= Bound(s)
  }

  lemma {:induction false} NothingLater(messages: seq<Message>, channelId: nat, period: BillingPeriod, clock: int)
    requires forall m :: m in messages && m.channelId == channelId && m.kind == UserMessage && m.active ==> m.createdAt <= clock
    requires clock < period.start
    ensures CountMessages(messages, channelId, period) == 0
  {
    if messages != [] {
      NothingLater(messages[..|messages| - 1], channelId, period, clock);
    }
  }

  lemma PressingInFlight(s: State)
    ensures Pressing(s) <= InFlight(s) && |Pressing(s)| <= |InFlight(s)|
  {
    SubsetCard(Pressing(s), InFlight(s));
  }

  lemma {:induction false} SubsetCard<T>(a: set<T>, b: set<T>)
    requires a <= b
    ensures |a| <= |b|
  {
    if x :| x in a {
      SubsetCard(a - {x}, b - {x});
    }
  }

  /** Time passes into a new period, where nothing has been counted yet. */
  lemma TickKeeps(s: State, ms: nat)
    requires Inv(s)
    ensures Inv(s.(clock := s.clock + ms))
  {
    hide DateOf, LocalMonth, TruePeriod;
    var s' := s.(clock := s.clock + ms);
    MonthsFollowTime(s.clock, s'.clock);
    assert InFlight(s') == InFlight(s);
    PressingInFlight(s');
    if Current(s') == Current(s) {
      assert Pressing(s') == Pressing(s);
    } else {
      AnchorDayRange(s.billingAnchor);
      TruePeriodContains(AnchorDay(s), s.clock);
      TruePeriodContains(AnchorDay(s), s'.clock);
      TruePeriodsTile(AnchorDay(s), s.clock, s'.clock);
      NothingLater(s.messages, s.channelId, Current(s'), s.clock);
    }
    assert forall t :: Used(s', TruePeriod(AnchorDay(s'), t)) == Used(s, TruePeriod(AnchorDay(s), t));
  }

  /** A handler moves without inserting: what it may press with is covered by the other handlers' room. */
  lemma HandlerMoves(s: State, h: nat, phase: Phase)
    requires Inv(s)
    requires var s' := s.(handlers := s.handlers[h := phase]);
      |InFlight(s')| <= s.cap && (Pressing(s') <= Pressing(s) || Used(s, Current(s)) + s.cap <= Bound(s))
    ensures Inv(s.(handlers := s.handlers[h := phase]))
  {
    var s' := s.(handlers := s.handlers[h := phase]);
    PressingInFlight(s');
    if Pressing(s') <= Pressing(s) {
      SubsetCard(Pressing(s'), Pressing(s));
    }
    assert forall t :: Used(s', TruePeriod(AnchorDay(s'), t)) == Used(s, TruePeriod(AnchorDay(s), t));
  }

  lemma MessageAdded(s: State, m: Message, s': State)
    requires Settled(s) && forall t :: Used(s, TruePeriod(AnchorDay(s), t)) <= Bound(s)
    requires s' == s.(messages := s.messages + [m], handlers := s'.handlers)
    requires m.channelId == s.channelId && m.kind == UserMessage && m.active ==> m.createdAt == s.clock && Used(s, Current(s)) < Bound(s)
    ensures forall t :: Used(s', TruePeriod(AnchorDay(s'), t)) <= Bound(s')
  {
    forall t ensures Used(s', TruePeriod(AnchorDay(s'), t)) <= Bound(s') {
      var period := TruePeriod(AnchorDay(s), t);
      CountAppend(s.messages, m, s.channelId, period);
      AnchorDayRange(s.billingAnchor);
      if period != Current(s) {
        TruePeriodContains(AnchorDay(s), s.clock);
        TruePeriodsTile(AnchorDay(s), t, s.clock);
        assert Used(s, period) <= Bound(s);
      }
    }
  }

  /** A message inserted by a handler moves from the pressing side to the counted side. */
  lemma InsertKeeps(s: State, h: nat)
    requires Inv(s) && h in s.handlers && s.handlers[h].Passed?
    ensures Inv(Step(s, InsertUserMessage(h)))
  {
    hide TruePeriod, DateOf, LocalMonth, Year, CountMessages;
    var s' := Step(s, InsertUserMessage(h));
    var m := Message(s.channelId, UserMessage, true, s.clock);
    assert InFlight(s') == InFlight(s) - {h};
    assert Pressing(s') == Pressing(s) - {h} && h in Pressing(s);
    MessageAdded(s, m, s');
    AnchorDayRange(s.billingAnchor);
    TruePeriodContains(AnchorDay(s), s.clock);
    CountAppend(s.messages, m, s.channelId, Current(s));
    assert Used(s', Current(s')) == Used(s, Current(s)) + 1;
    assert Settled(s');
  }

  lemma OtherKeeps(s: State, m: Message)
    requires Inv(s)
    ensures Inv(Step(s, InsertOther(m)))
  {
    var s' := Step(s, InsertOther(m));
    if s' != s {
      assert InFlight(s') == InFlight(s) && Pressing(s') == Pressing(s);
      MessageAdded(s, m, s');
      CountAppend(s.messages, m, s.channelId, Current(s));
    }
  }

  lemma ComputeKeeps(s: State, h: nat)
    requires Inv(s)
    ensures Inv(Step(s, ComputePeriod(h)))
  {
    var s' := Step(s, ComputePeriod(h));
    if s' != s {
      AnchorDayRange(s.billingAnchor);
      SmallAnchorsAreRegular(AnchorDay(s), s.clock);
      ComputedIsTrueIffRegular(AnchorDay(s), s.clock);
      assert InFlight(s') == InFlight(s) + {h};
      assert Pressing(s') == Pressing(s);
      HandlerMoves(s, h, Dated(Current(s)));
    }
  }

  lemma CheckKeeps(s: State, h: nat, tokenQuota: Option<int>, tokenUsage: int)
    requires Inv(s)
    ensures Inv(Step(s, Check(h, tokenQuota, tokenUsage)))
  {
    var s' := Step(s, Check(h, tokenQuota, tokenUsage));
    if s' != s {
      assert InFlight(s') <= InFlight(s);
      SubsetCard(InFlight(s'), InFlight(s));
      if s'.handlers[h].Passed? && s.handlers[h].period != Current(s) {
        assert Pressing(s') <= Pressing(s);
      }
      HandlerMoves(s, h, s'.handlers[h]);
    }
  }

  lemma LeaveKeeps(s: State, h: nat)
    requires Inv(s)
    ensures Inv(Step(s, Leave(h)))
  {
    var s' := Step(s, Leave(h));
    if s' != s {
      assert InFlight(s') <= InFlight(s);
      SubsetCard(InFlight(s'), InFlight(s));
      HandlerMoves(s, h, Left);
    }
  }

  lemma InvStep(s: State, e: Event)
    requires Inv(s)
    ensures Inv(Step(s, e))
  {
    match e
    case ClockTicks(ms) => TickKeeps(s, ms);
    case ComputePeriod(h) => ComputeKeeps(s, h);
    case Check(h, tokenQuota, tokenUsage) => CheckKeeps(s, h, tokenQuota, tokenUsage);
    case InsertUserMessage(h) =>
      if h in s.handlers && s.handlers[h].Passed? {
        InsertKeeps(s, h);
      }
    case Leave(h) => LeaveKeeps(s, h);
    case InsertOther(m) => OtherKeeps(s, m);
  }

  lemma ChannelStays(s: State, e: Event)
    ensures SameChannel(Step(s, e), s)
  {
  }

  /** In every interleaving, no period ever counts more user messages than the quota admits plus one for each
      handler that can be between its check and its insert. */
  lemma QuotaOverrunIsBounded(billingAnchor: int, channelId: nat, quota: int, cap: nat, clock: int, events: seq<Event>, t: int)
    requires DateOf(billingAnchor) <= 28 && Year(clock) >= 100
    ensures var s := After(Step, Start(billingAnchor, channelId, quota, cap, clock), events);
      CountMessages(s.messages, channelId, TruePeriod(DateOf(billingAnchor), t)) <= (if quota > 1 then quota else 1) - 1 + cap
  {
    hide TruePeriod, DateOf, Step;
    var start := Start(billingAnchor, channelId, quota, cap, clock);
    forall s, e | Inv(s) && SameChannel(s, start) ensures Inv(Step(s, e)) && SameChannel(Step(s, e), start) {
      InvStep(s, e);
      ChannelStays(s, e);
    }
    assert InFlight(start) == {} && Pressing(start) == {};
    InvariantHolds(Step, s => Inv(s) && SameChannel(s, start), start, events);
    var s := After(Step, start, events);
    assert Used(s, TruePeriod(AnchorDay(s), t)) <= Bound(s);
  }

  predicate SameChannel(s: State, start: State) {
    s.billingAnchor == start.billingAnchor && s.channelId == start.channelId && s.messageQuota == start.messageQuota && s.cap == start.cap
  }

  /** While the computed period is empty nothing is ever counted in it, and the message quota never blocks. */
  lemma EmptiedPeriodNeverBlocks(billingAnchor: int, now: int, quota: int, channelId: nat, messages: seq<Message>)
    requires quota >= 1 && !IsShortYear(Year(now)) && IsEmptied(DateOf(billingAnchor), now)
    ensures var period := ComputedPeriod(DateOf(billingAnchor), now);
      !IsExceeded(Some(quota), CountMessages(messages, channelId, period))
  {
    AnchorDayRange(billingAnchor);
    PeriodTrichotomy(DateOf(billingAnchor), now);
    EmptyCountsNothing(messages, channelId, ComputedPeriod(DateOf(billingAnchor), now));
  }

  lemma {:induction false} EmptyCountsNothing(messages: seq<Message>, channelId: nat, period: BillingPeriod)
    requires period.end <= period.start
    ensures CountMessages(messages, channelId, period) == 0
  {
    if messages != [] {
      EmptyCountsNothing(messages[..|messages| - 1], channelId, period);
    }
  }

  // ----- The bound is reached -----

  /** n handlers have delivered and p more have passed their check, all in the current period. */
  ghost predicate Crowd(s: State, n: nat, p: nat) {
    && Settled(s)
    && (forall h :: h in s.handlers <==> 0 <= h < n + p)
    && (forall h :: n <= h < n + p ==> s.handlers[h].Passed?)
    && |InFlight(s)| == p
    && Used(s, Current(s)) == n
  }

  lemma DatedNow(s: State, h: nat)
    requires Settled(s) && h !in s.handlers && |InFlight(s)| < s.cap
    ensures Step(s, ComputePeriod(h)) == s.(handlers := s.handlers[h := Dated(Current(s))])
  {
    hide DateOf, Year, TruePeriod, ComputedPeriod;
    AnchorDayRange(s.billingAnchor);
    YearIsLong(s);
    SmallAnchorsAreRegular(AnchorDay(s), s.clock);
    ComputedIsTrueIffRegular(AnchorDay(s), s.clock);
  }

  lemma PassedNow(s: State, h: nat)
    requires s.messageQuota.Some? && Used(s, Current(s)) < s.messageQuota.value
    ensures Step(s.(handlers := s.handlers[h := Dated(Current(s))]), Check(h, None, 0)) == s.(handlers := s.handlers[h := Passed])
  {
    hide DateOf, Year, TruePeriod;
    assert s.handlers[h := Dated(Current(s))][h := Passed] == s.handlers[h := Passed];
  }

  lemma Admit(s: State, n: nat, p: nat)
    requires Crowd(s, n, p) && p < s.cap && n < s.messageQuota.value
    ensures Step(Step(s, ComputePeriod(n + p)), Check(n + p, None, 0)) == s.(handlers := s.handlers[n + p := Passed])
    ensures Crowd(s.(handlers := s.handlers[n + p := Passed]), n, p + 1)
  {
    hide DateOf, Year, TruePeriod, Step;
    DatedNow(s, n + p);
    PassedNow(s, n + p);
    assert InFlight(s.(handlers := s.handlers[n + p := Passed])) == InFlight(s) + {n + p};
  }

  lemma YearIsLong(s: State)
    requires Settled(s)
    ensures !IsShortYear(Year(s.clock))
  {
  }

  lemma Deliver(s: State, n: nat, p: nat)
    requires Crowd(s, n, p) && p > 0
    ensures Crowd(Step(s, InsertUserMessage(n)), n + 1, p - 1)
  {
    hide DateOf, Year, TruePeriod, CountMessages;
    AnchorDayRange(s.billingAnchor);
    TruePeriodContains(AnchorDay(s), s.clock);
    CountAppend(s.messages, Message(s.channelId, UserMessage, true, s.clock), s.channelId, Current(s));
    assert InFlight(Step(s, InsertUserMessage(n))) == InFlight(s) - {n};
  }

  ghost predicate Arrives(start: State, events: seq<Event>, n: nat, p: nat) {
    Crowd(After(Step, start, events), n, p) && SameChannel(After(Step, start, events), start) && After(Step, start, events).clock == start.clock
  }

  lemma AdmitNext(start: State, events: seq<Event>, n: nat, p: nat) returns (longer: seq<Event>)
    requires Arrives(start, events, n, p) && p < start.cap && n < start.messageQuota.value
    ensures Arrives(start, longer, n, p + 1)
  {
    var a, b := ComputePeriod(n + p), Check(n + p, None, 0);
    longer := events + [a] + [b];
    assert longer[..|longer| - 1] == events + [a] && (events + [a])[..|events|] == events;
    var s := After(Step, start, events);
    assert After(Step, start, events + [a]) == Step(s, a) && After(Step, start, longer) == Step(Step(s, a), b);
    hide Crowd, Step;
    Admit(s, n, p);
  }

  lemma DeliverNext(start: State, events: seq<Event>, n: nat, p: nat) returns (longer: seq<Event>)
    requires Arrives(start, events, n, p) && p > 0
    ensures Arrives(start, longer, n + 1, p - 1)
  {
    longer := events + [InsertUserMessage(n)];
    assert longer[..|longer| - 1] == events;
    var s := After(Step, start, events);
    assert After(Step, start, longer) == Step(s, InsertUserMessage(n));
    ChannelStays(s, InsertUserMessage(n));
    InsertKeepsClock(s, n);
    hide Crowd, Step;
    Deliver(s, n, p);
  }

  lemma InsertKeepsClock(s: State, h: nat)
    ensures Step(s, InsertUserMessage(h)).clock == s.clock
  {
  }

  /** First one handler after the other up to one below the quota, then a full house that checks before any of them inserts. */
  lemma BoundIsReached(billingAnchor: int, channelId: nat, quota: int, cap: nat, clock: int) returns (events: seq<Event>)
    requires DateOf(billingAnchor) <= 28 && Year(clock) >= 100 && quota >= 1 && cap >= 1
    ensures var s := After(Step, Start(billingAnchor, channelId, quota, cap, clock), events);
      CountMessages(s.messages, channelId, TruePeriod(DateOf(billingAnchor), clock)) == quota - 1 + cap
  {
    var start := Start(billingAnchor, channelId, quota, cap, clock);
    events := [];
    assert InFlight(start) == {};
    for n := 0 to quota - 1
      invariant Arrives(start, events, n, 0)
    {
      hide Arrives;
      events := AdmitNext(start, events, n, 0);
      events := DeliverNext(start, events, n, 1);
    }
    for p := 0 to cap
      invariant Arrives(start, events, quota - 1, p)
    {
      hide Arrives;
      events := AdmitNext(start, events, quota - 1, p);
    }
    for p := 0 to cap
      invariant Arrives(start, events, quota - 1 + p, cap - p)
    {
      hide Arrives;
      events := DeliverNext(start, events, quota - 1 + p, cap - p);
    }
  }

  // ----- For which anchors, quotas and caps the bound holds -----

  /** At an instant whose computed period is empty: n messages are already counted in the true period, nobody is at work. */
  ghost predicate Flood(s: State, n: nat) {
    && s.messageQuota.Some? && s.messageQuota.value >= 1 && s.cap >= 1
    && !IsShortYear(Year(s.clock)) && IsEmptied(AnchorDay(s), s.clock)
    && (forall h :: h in s.handlers <==> 0 <= h < n)
    && InFlight(s) == {}
    && Used(s, Current(s)) == n
  }

  /** The check of an empty period finds nothing, and the message it lets through counts in the true one. */
  lemma FloodNext(s: State, n: nat)
    requires Flood(s, n)
    ensures var s' := Step(Step(Step(s, ComputePeriod(n)), Check(n, None, 0)), InsertUserMessage(n));
      Flood(s', n + 1) && SameChannel(s', s) && s'.clock == s.clock
  {
    hide DateOf, Year, TruePeriod, ComputedPeriod, IsEmptied;
    var m := Message(s.channelId, UserMessage, true, s.clock);
    FloodPasses(s, n);
    AnchorDayRange(s.billingAnchor);
    TruePeriodContains(AnchorDay(s), s.clock);
    CountAppend(s.messages, m, s.channelId, Current(s));
    var s' := s.(handlers := s.handlers[n := Left], messages := s.messages + [m]);
    assert InFlight(s') == {};
  }

  lemma FloodPasses(s: State, n: nat)
    requires Flood(s, n)
    ensures Step(Step(Step(s, ComputePeriod(n)), Check(n, None, 0)), InsertUserMessage(n))
      == s.(handlers := s.handlers[n := Left], messages := s.messages + [Message(s.channelId, UserMessage, true, s.clock)])
  {
    hide DateOf, Year, IsEmptied, TruePeriod;
    var period := ComputedPeriod(AnchorDay(s), s.clock);
    EmptiedPeriodNeverBlocks(s.billingAnchor, s.clock, s.messageQuota.value, s.channelId, s.messages);
    hide ComputedPeriod;
    var s1 := Step(s, ComputePeriod(n));
    assert s1 == s.(handlers := s.handlers[n := Dated(period)]);
    var s2 := Step(s1, Check(n, None, 0));
    assert s2 == s.(handlers := s.handlers[n := Passed]);
    assert s.handlers[n := Passed][n := Left] == s.handlers[n := Left];
  }

  ghost predicate Flooded(start: State, events: seq<Event>, n: nat) {
    var s := After(Step, start, events);
    Flood(s, n) && SameChannel(s, start) && s.clock == start.clock
  }

  lemma FloodRun(start: State, events: seq<Event>, n: nat) returns (longer: seq<Event>)
    requires Flooded(start, events, n)
    ensures Flooded(start, longer, n + 1)
  {
    var a, b, c := ComputePeriod(n), Check(n, None, 0), InsertUserMessage(n);
    var s := After(Step, start, events);
    longer := events + [a, b, c];
    FloodNext(s, n);
    hide Flood, Step;
    AfterConcat(Step, start, events, [a, b, c]);
    AfterThreeFirst(Step, s, a, b, c, []);
    assert [a, b, c] + [] == [a, b, c];
  }

  /** With an anchor day beyond 28, a quota of one or more and room for a single handler, any number of messages can be
      counted in one true period: one handler after the other, at an instant whose computed period is empty. */
  lemma NoBoundBeyond28(billingAnchor: int, channelId: nat, quota: int, cap: nat, clock: int, n: nat) returns (events: seq<Event>, t: int)
    requires DateOf(billingAnchor) > 28 && quota >= 1 && cap >= 1 && Year(clock) >= 100
    ensures CountMessages(After(Step, Start(billingAnchor, channelId, quota, cap, clock), events).messages, channelId,
      TruePeriod(DateOf(billingAnchor), t)) == n
  {
    hide DateOf, Year, TruePeriod, IsEmptied, MonthLength;
    var start := Start(billingAnchor, channelId, quota, cap, clock);
    AnchorDayRange(billingAnchor);
    var month := LaterShortFebruary(clock);
    t := Midnight(month + 1, 1);
    ShortMonthEmpties(month, DateOf(billingAnchor));
    FirstsFollow(month);
    events := [ClockTicks(t - clock)];
    assert [ClockTicks(t - clock)][..0] == [];
    var later := start.(clock := t);
    assert After(Step, start, events) == later;
    assert forall h :: h !in later.handlers && h !in InFlight(later);
    assert InFlight(later) == {};
    for k := 0 to n
      invariant events != [] && events[0] == ClockTicks(t - clock) && Flooded(later, events[1..], k)
    {
      hide Flooded;
      var longer := FloodRun(later, events[1..], k);
      events := [ClockTicks(t - clock)] + longer;
      assert events[1..] == longer;
    }
    assert events == [events[0]] + events[1..];
    AfterFirst(Step, start, events[0], events[1..]);
  }

  lemma FirstsFollow(month: int)
    ensures Midnight(month, 1) < Midnight(month + 1, 1)
  {
    MonthStartStep(month);
  }

  /** A quota below one blocks everybody, and without room nobody even checks. */
  ghost predicate Barred(s: State) {
    && s.messageQuota.Some? && (s.messageQuota.value <= 0 || s.cap == 0)
    && (forall h :: h in s.handlers ==> !s.handlers[h].Passed?)
    && (s.cap == 0 ==> s.handlers == map[])
    && forall m :: m in s.messages ==> m.channelId != s.channelId || m.kind != UserMessage || !m.active
  }

  lemma BarredStep(s: State, e: Event)
    requires Barred(s)
    ensures Barred(Step(s, e))
  {
    hide ComputedPeriod, DateOf;
  }

  lemma {:induction false} UncountedIsZero(messages: seq<Message>, channelId: nat, period: BillingPeriod)
    requires forall m :: m in messages ==> m.channelId != channelId || m.kind != UserMessage || !m.active
    ensures CountMessages(messages, channelId, period) == 0
  {
    if messages != [] {
      UncountedIsZero(messages[..|messages| - 1], channelId, period);
    }
  }

  lemma BarredCountsNothing(billingAnchor: int, channelId: nat, quota: int, cap: nat, clock: int, events: seq<Event>, period: BillingPeriod)
    requires quota <= 0 || cap == 0
    ensures CountMessages(After(Step, Start(billingAnchor, channelId, quota, cap, clock), events).messages, channelId, period) == 0
  {
    hide Step;
    var start := Start(billingAnchor, channelId, quota, cap, clock);
    forall s, e | Barred(s) && SameChannel(s, start) ensures Barred(Step(s, e)) && SameChannel(Step(s, e), start) {
      BarredStep(s, e);
      ChannelStays(s, e);
    }
    InvariantHolds(Step, s => Barred(s) && SameChannel(s, start), start, events);
    UncountedIsZero(After(Step, start, events).messages, channelId, period);
  }

  /** In every run from this start, no true period counts more than the bound. */
  ghost predicate BoundHolds(billingAnchor: int, channelId: nat, quota: int, cap: nat, clock: int) {
    forall events, t :: CountMessages(After(Step, Start(billingAnchor, channelId, quota, cap, clock), events).messages, channelId,
      TruePeriod(DateOf(billingAnchor), t)) <= (if quota > 1 then quota else 1) - 1 + cap
  }

  /** Wherever the clock starts, the bound holds in every run if and only if the anchor day is at most 28, or the quota
      admits nothing, or there is no handler at all. */
  lemma BoundHoldsIff(billingAnchor: int, channelId: nat, quota: int, cap: nat, clock: int)
    requires Year(clock) >= 100
    ensures BoundHolds(billingAnchor, channelId, quota, cap, clock) <==> DateOf(billingAnchor) <= 28 || quota <= 0 || cap == 0
  {
    hide DateOf, Year, TruePeriod, Step, Start;
    if DateOf(billingAnchor) > 28 && quota > 0 && cap > 0 {
      var events, t := NoBoundBeyond28(billingAnchor, channelId, quota, cap, clock, quota + cap);
    } else {
      forall events, t ensures CountMessages(After(Step, Start(billingAnchor, channelId, quota, cap, clock), events).messages, channelId,
        TruePeriod(DateOf(billingAnchor), t)) <= (if quota > 1 then quota else 1) - 1 + cap
      {
        if DateOf(billingAnchor) <= 28 {
          QuotaOverrunIsBounded(billingAnchor, channelId, quota, cap, clock, events, t);
        } else {
          BarredCountsNothing(billingAnchor, channelId, quota, cap, clock, events, TruePeriod(DateOf(billingAnchor), t));
        }
      }
    }
  }
}
