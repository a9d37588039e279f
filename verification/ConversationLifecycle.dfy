/** Conversations (conversation.service.ts over conversation.repository.ts): find the open conversation of a
    (client, contact, channel), close it when it timed out, create one otherwise, and read back the winner when the
    partial unique index on open conversations refuses the insert. */
module ConversationLifecycle {
  import opened Wrappers
  import opened Runs

  type Id = nat
  type CallId = nat

  datatype Triple = Triple(client: Id, contact: Id, channel: Id)
  datatype Status = Open | Closed | Archived

  /** A stored conversation; its id is its place in the collection. */
  datatype Conversation = Conversation(triple: Triple, status: Status, lastMessageAt: int, updatedAt: int)

  const TIMEOUT_MS := 24 * 60 * 60 * 1000

  predicate IsOpen(convs: seq<Conversation>, id: Id, triple: Triple) {
    id < |convs| && convs[id].status == Open && convs[id].triple == triple
  }

  /** The open conversation last updated, among those of the triple. */
  function FindLatestOpen(convs: seq<Conversation>, triple: Triple): (found: Option<Id>)
    ensures found.Some? ==> IsOpen(convs, found.value, triple)
    ensures forall id: Id :: IsOpen(convs, id, triple) ==> found.Some? && convs[id].updatedAt <= convs[found.value].updatedAt
  {
    if convs == [] then None
    else
      var last: nat := |convs| - 1;
      var earlier := FindLatestOpen(convs[..last], triple);
      assert forall id: Id :: id < last && IsOpen(convs, id, triple) ==> IsOpen(convs[..last], id, triple);
      if IsOpen(convs, last, triple) && (earlier.None? || convs[earlier.value].updatedAt <= convs[last].updatedAt) then Some(last)
      else earlier
  }

  function WithStatus(convs: seq<Conversation>, id: Id, status: Status, now: int): seq<Conversation> {
    if id < |convs| then convs[id := convs[id].(status := status, updatedAt := now)] else convs
  }

  /** lastMessageAt is the caller's time, updatedAt the time of the insert. */
  function NewConversation(triple: Triple, now: int, insertedAt: int): Conversation {
    Conversation(triple, Open, now, insertedAt)
  }

  // ----- The transition system -----

  datatype Outcome = Returned(id: Id) | DuplicateKey

  datatype Call =
    | Called(triple: Triple, now: int)
    | Expiring(triple: Triple, now: int, id: Id)
    | Creating(triple: Triple, now: int)
    | Conflicted(triple: Triple, now: int)
    | Finished(triple: Triple, outcome: Outcome)

  datatype State = State(clock: int, convs: seq<Conversation>, calls: map<CallId, Call>)

  datatype Event =
    | ClockTicks(ms: nat)
    | Begin(call: CallId, triple: Triple)
    | Lookup(call: CallId)
    | Close(call: CallId)
    | Create(call: CallId)
    | Recover(call: CallId)
    | Touch(id: Id, at: int)
    | OperatorSets(id: Id, client: Id, status: Status)

  function Goto(s: State, call: CallId, c: Call): State {
    s.(calls := s.calls[call := c])
  }

  /** What one step of a call does to the conversations and to itself. */
  function Advance(convs: seq<Conversation>, clock: int, c: Call, e: Event): (result: (seq<Conversation>, Call)) {
    match (e, c)
    case (Lookup(_), Called(triple, now)) =>
      var found := FindLatestOpen(convs, triple);
      if found.None? then (convs, Creating(triple, now))
      else if now - convs[found.value].lastMessageAt < TIMEOUT_MS then (convs, Finished(triple, Returned(found.value)))
      else (convs, Expiring(triple, now, found.value))
    case (Close(_), Expiring(triple, now, id)) => (WithStatus(convs, id, Closed, clock), Creating(triple, now))
    case (Create(_), Creating(triple, now)) =>
      if FindLatestOpen(convs, triple).Some? then (convs, Conflicted(triple, now))
      else (convs + [NewConversation(triple, now, clock)], Finished(triple, Returned(|convs|)))
    case (Recover(_), Conflicted(triple, _)) =>
      var found := FindLatestOpen(convs, triple);
      (convs, Finished(triple, if found.Some? then Returned(found.value) else DuplicateKey))
    case _ => (convs, c)
  }

  /** The operator's write: refused for another client's conversation, and by the index when it would open a second one. */
  function OperatorWrite(convs: seq<Conversation>, id: Id, client: Id, status: Status, now: int): seq<Conversation> {
    if id >= |convs| || convs[id].triple.client != client then convs
    else if status == Open && convs[id].status != Open && FindLatestOpen(convs, convs[id].triple).Some? then convs
    else WithStatus(convs, id, status, now)
  }

  function Step(s: State, e: Event): State {
    match e
    case ClockTicks(ms) => s.(clock := s.clock + ms)
    case Touch(id, at) =>
      if id < |s.convs| then s.(convs := s.convs[id := s.convs[id].(lastMessageAt := at, updatedAt := s.clock)]) else s
    case OperatorSets(id, client, status) => s.(convs := OperatorWrite(s.convs, id, client, status, s.clock))
    case Begin(call, triple) => if call in s.calls then s else Goto(s, call, Called(triple, s.clock))
    case _ =>
      if e.call !in s.calls then s
      else
        var result := Advance(s.convs, s.clock, s.calls[e.call], e);
        Goto(s.(convs := result.0), e.call, result.1)
  }

  // ----- At most one open conversation -----

  ghost predicate OneOpen(convs: seq<Conversation>) {
    forall i, j :: 0 <= i < j < |convs| && convs[i].status == Open && convs[j].status == Open ==> convs[i].triple != convs[j].triple
  }

  ghost predicate CallOk(convs: seq<Conversation>, c: Call) {
    match c
    case Expiring(triple, _, id) => id < |convs| && convs[id].triple == triple
    case Finished(triple, Returned(id)) => id < |convs| && convs[id].triple == triple
    case _ => true
  }

  ghost predicate Inv(s: State) {
    OneOpen(s.convs) && forall call :: call in s.calls ==> CallOk(s.convs, s.calls[call])
  }

  /** No step forgets a conversation or moves it to another triple. */
  ghost predicate SamePlaces(convs: seq<Conversation>, convs': seq<Conversation>) {
    |convs| <= |convs'| && forall i :: 0 <= i < |convs| ==> convs'[i].triple == convs[i].triple
  }

  lemma AdvanceKeeps(convs: seq<Conversation>, clock: int, c: Call, e: Event)
    requires OneOpen(convs) && CallOk(convs, c)
    ensures var result := Advance(convs, clock, c, e);
      OneOpen(result.0) && CallOk(result.0, result.1) && SamePlaces(convs, result.0) && result.1.triple == c.triple
  {
    if e.Create? && c.Creating? {
      forall i: nat | i < |convs| && convs[i].status == Open ensures convs[i].triple != c.triple || FindLatestOpen(convs, c.triple).Some? {
        assert convs[i].triple == c.triple ==> IsOpen(convs, i, c.triple);
      }
    }
  }

  lemma OperatorKeeps(convs: seq<Conversation>, id: Id, client: Id, status: Status, now: int)
    requires OneOpen(convs)
    ensures OneOpen(OperatorWrite(convs, id, client, status, now)) && SamePlaces(convs, OperatorWrite(convs, id, client, status, now))
  {
    forall i: nat | id < |convs| && i < |convs| && convs[i].status == Open
      ensures convs[i].triple != convs[id].triple || FindLatestOpen(convs, convs[id].triple).Some?
    {
      assert convs[i].triple == convs[id].triple ==> IsOpen(convs, i, convs[id].triple);
    }
  }

  /** The operator's write changes the status and update time of one conversation of its own client, or nothing: it may
      not open a second conversation of a triple. */
  lemma OperatorWriteMeans(convs: seq<Conversation>, id: Id, client: Id, status: Status, now: int)
    ensures var goes := id < |convs| && convs[id].triple.client == client
        && (status == Open && convs[id].status != Open ==> forall j :: 0 <= j < |convs| && convs[j].triple == convs[id].triple ==> convs[j].status != Open);
      OperatorWrite(convs, id, client, status, now) == if goes then convs[id := convs[id].(status := status, updatedAt := now)] else convs
  {
    hide FindLatestOpen;
    if id < |convs| {
      var found := FindLatestOpen(convs, convs[id].triple);
      assert found.Some? ==> IsOpen(convs, found.value, convs[id].triple);
      forall j: nat | j < |convs| && convs[j].triple == convs[id].triple && convs[j].status == Open ensures found.Some? {
        assert IsOpen(convs, j, convs[id].triple);
      }
    }
  }

  lemma InvStep(s: State, e: Event)
    requires Inv(s)
    ensures Inv(Step(s, e)) && SamePlaces(s.convs, Step(s, e).convs)
  {
    match e
    case OperatorSets(id, client, status) => OperatorKeeps(s.convs, id, client, status, s.clock);
    case ClockTicks(_) =>
    case Touch(_, _) =>
    case Begin(_, _) =>
    case _ =>
      if e.call in s.calls {
        AdvanceKeeps(s.convs, s.clock, s.calls[e.call], e);
      }
  }

  const Start := State(0, [], map[])

  /** In every interleaving there is at most one open conversation per client, contact and channel, and every
      returned conversation has the caller's triple. */
  lemma AtMostOneOpen(events: seq<Event>)
    ensures Inv(After(Step, Start, events))
  {
    forall s, e | Inv(s) ensures Inv(Step(s, e)) { InvStep(s, e); }
    InvariantHolds(Step, Inv, Start, events);
  }

  // ----- A returned conversation was open during the call -----

  predicate IsFinished(s: State, call: CallId) {
    call in s.calls && s.calls[call].Finished?
  }

  /** After k events the call has begun, has not returned before that, and the conversation is open. */
  ghost predicate OpenDuringCall(s: State, events: seq<Event>, call: CallId, id: Id, k: nat) {
    && k <= |events|
    && var sk := After(Step, s, events[..k]);
    && call in sk.calls && IsOpen(sk.convs, id, sk.calls[call].triple)
    && (k > 0 ==> !IsFinished(After(Step, s, events[..k - 1]), call))
  }

  lemma {:induction false} ReturnedWasOpen(s: State, events: seq<Event>, call: CallId)
    requires call !in s.calls
    requires var s' := After(Step, s, events); IsFinished(s', call) && s'.calls[call].outcome.Returned?
    ensures exists k: nat :: OpenDuringCall(s, events, call, After(Step, s, events).calls[call].outcome.id, k)
  {
    var shorter := events[..|events| - 1];
    var before, e := After(Step, s, shorter), events[|events| - 1];
    var id := After(Step, s, events).calls[call].outcome.id;
    assert events[..|events|] == events;
    if IsFinished(before, call) {
      assert Step(before, e).calls[call] == before.calls[call];
      ReturnedWasOpen(s, shorter, call);
      var k: nat :| OpenDuringCall(s, shorter, call, id, k);
      assert shorter[..k] == events[..k] && (k > 0 ==> shorter[..k - 1] == events[..k - 1]);
      assert OpenDuringCall(s, events, call, id, k);
    } else if e.Create? {
      assert OpenDuringCall(s, events, call, id, |events|);
    } else {
      assert IsOpen(before.convs, id, before.calls[call].triple);
      NotFinishedBefore(s, shorter, call);
      assert shorter != [] ==> events[..|shorter| - 1] == shorter[..|shorter| - 1];
      assert OpenDuringCall(s, events, call, id, |shorter|);
    }
  }

  lemma NotFinishedBefore(s: State, events: seq<Event>, call: CallId)
    requires !IsFinished(After(Step, s, events), call)
    ensures events != [] ==> !IsFinished(After(Step, s, events[..|events| - 1]), call)
  {
  }

  // ----- Racing calls agree -----

  /** No event of the run takes an open conversation of the triple out of the open state. */
  ghost predicate NothingCloses(s: State, events: seq<Event>, triple: Triple) {
    forall k, id :: 0 <= k < |events| && IsOpen(After(Step, s, events[..k]).convs, id, triple) ==>
      IsOpen(Step(After(Step, s, events[..k]), events[k]).convs, id, triple)
  }

  /** The index has refused the call's insert and it is about to read back the winner. */
  predicate IsRefused(s: State, call: CallId) {
    call in s.calls && s.calls[call].Conflicted?
  }

  /** Seen from an earlier state s0: whoever had no answer then has none yet or the open conversation. Only a call that
      had been refused by then, with nothing open any more, may fail. */
  ghost predicate Agreed(s0: State, s: State, triple: Triple) {
    var open := FindLatestOpen(s.convs, triple);
    forall call :: call in s.calls && s.calls[call].triple == triple && !IsFinished(s0, call) ==>
      match s.calls[call]
      case Conflicted(_, _) => open.Some? || MayFail(s0, triple, call)
      case Finished(_, outcome) => (open.Some? && outcome == Returned(open.value)) || (outcome == DuplicateKey && MayFail(s0, triple, call))
      case _ => true
  }

  predicate MayFail(s0: State, triple: Triple, call: CallId) {
    IsRefused(s0, call) && FindLatestOpen(s0.convs, triple).None?
  }

  lemma OnlyOpen(convs: seq<Conversation>, triple: Triple, id: Id)
    requires OneOpen(convs) && IsOpen(convs, id, triple)
    ensures FindLatestOpen(convs, triple) == Some(id)
  {
  }

  lemma AgreedStep(s0: State, s: State, e: Event, triple: Triple)
    requires Inv(s) && Agreed(s0, s, triple)
    requires forall id :: IsOpen(s.convs, id, triple) ==> IsOpen(Step(s, e).convs, id, triple)
    ensures Agreed(s0, Step(s, e), triple)
  {
    hide FindLatestOpen, MayFail;
    var s' := Step(s, e);
    InvStep(s, e);
    var open, open' := FindLatestOpen(s.convs, triple), FindLatestOpen(s'.convs, triple);
    if open.Some? {
      OnlyOpen(s'.convs, triple, open.value);
    }
    if e.Create? && s'.convs != s.convs && s.calls[e.call].triple == triple {
      OnlyOpen(s'.convs, triple, |s.convs|);
    }
  }

  lemma {:induction false} AgreedHolds(s: State, events: seq<Event>, triple: Triple)
    requires Inv(s) && NothingCloses(s, events, triple)
    ensures Inv(After(Step, s, events)) && Agreed(s, After(Step, s, events), triple)
  {
    if events != [] {
      var shorter := events[..|events| - 1];
      assert forall k :: 0 <= k <= |shorter| ==> shorter[..k] == events[..k];
      assert NothingCloses(s, shorter, triple);
      AgreedHolds(s, shorter, triple);
      var before := After(Step, s, shorter);
      InvStep(before, events[|events| - 1]);
      AgreedStep(s, before, events[|events| - 1], triple);
    }
  }

  /** From any state on, as long as nothing closes a conversation of the triple, all calls of it that had no answer yet
      return the same open conversation: those under way included, whatever was answered before. The one exception is a
      call whose insert had been refused by then, with nothing open any more: it may fail instead. */
  lemma RacingCallsAgree(s: State, events: seq<Event>, triple: Triple, call: CallId, other: CallId)
    requires Inv(s) && NothingCloses(s, events, triple)
    requires !IsFinished(s, call) && !IsFinished(s, other)
    requires var s' := After(Step, s, events);
      IsFinished(s', call) && s'.calls[call].triple == triple && IsFinished(s', other) && s'.calls[other].triple == triple
    ensures var s' := After(Step, s, events);
      var outcome, another := s'.calls[call].outcome, s'.calls[other].outcome;
      && (outcome.Returned? ==> IsOpen(s'.convs, outcome.id, triple) && (another.Returned? ==> another == outcome))
      && (outcome.DuplicateKey? ==> IsRefused(s, call) && FindLatestOpen(s.convs, triple).None?)
  {
    AgreedHolds(s, events, triple);
  }

  /** A run in which it does: the winner's conversation is closed again before the refused call reads it back, and the
      call ends with the duplicate key error. */
  lemma RefusedCallFails(triple: Triple)
    ensures var first := [Begin(0, triple), Begin(1, triple), Lookup(0), Lookup(1), Create(0)];
      var s := After(Step, Start, first + [Create(1), OperatorSets(0, triple.client, Closed)]);
      IsRefused(s, 1) && FindLatestOpen(s.convs, triple).None? && Step(s, Recover(1)).calls[1] == Finished(triple, DuplicateKey)
  {
    hide Step;
    var first := [Begin(0, triple), Begin(1, triple), Lookup(0), Lookup(1), Create(0)];
    var s := State(0, [Conversation(triple, Open, 0, 0)], map[0 := Finished(triple, Returned(0)), 1 := Creating(triple, 0)]);
    FirstOfTwoCreates(triple);
    AfterConcat(Step, Start, first, [Create(1), OperatorSets(0, triple.client, Closed)]);
    AfterFirst(Step, s, Create(1), [OperatorSets(0, triple.client, Closed)]);
    AfterFirst(Step, Step(s, Create(1)), OperatorSets(0, triple.client, Closed), []);
    assert [Create(1)] + [OperatorSets(0, triple.client, Closed)] == [Create(1), OperatorSets(0, triple.client, Closed)];
    assert [OperatorSets(0, triple.client, Closed)] + [] == [OperatorSets(0, triple.client, Closed)];
    SecondIsRefused(s, triple);
  }

  lemma FirstOfTwoCreates(triple: Triple)
    ensures After(Step, Start, [Begin(0, triple), Begin(1, triple), Lookup(0), Lookup(1), Create(0)])
      == State(0, [Conversation(triple, Open, 0, 0)], map[0 := Finished(triple, Returned(0)), 1 := Creating(triple, 0)])
  {
    AfterFive(Step, Start, Begin(0, triple), Begin(1, triple), Lookup(0), Lookup(1), Create(0));
    var s2 := Step(Step(Start, Begin(0, triple)), Begin(1, triple));
    assert s2 == State(0, [], map[0 := Called(triple, 0), 1 := Called(triple, 0)]);
    var s4 := Step(Step(s2, Lookup(0)), Lookup(1));
    assert s4 == State(0, [], map[0 := Creating(triple, 0), 1 := Creating(triple, 0)]);
    assert Step(s4, Create(0)).convs == [Conversation(triple, Open, 0, 0)];
  }

  lemma SecondIsRefused(s: State, triple: Triple)
    requires s.convs == [Conversation(triple, Open, 0, 0)] && 1 in s.calls && s.calls[1] == Creating(triple, 0)
    ensures var s' := Step(Step(s, Create(1)), OperatorSets(0, triple.client, Closed));
      IsRefused(s', 1) && FindLatestOpen(s'.convs, triple).None? && Step(s', Recover(1)).calls[1] == Finished(triple, DuplicateKey)
  {
    OnlyOpen(s.convs, triple, 0);
    var s1 := Step(s, Create(1));
    assert s1.convs == s.convs && s1.calls[1] == Conflicted(triple, 0);
    var s2 := Step(s1, OperatorSets(0, triple.client, Closed));
    assert s2.convs == [Conversation(triple, Closed, 0, s.clock)];
    assert FindLatestOpen(s2.convs, triple).None?;
  }

  // ----- Racing on a conversation that timed out -----

  /** The conversation is open and timed out. */
  predicate TimedOut(s: State, triple: Triple, id: Id) {
    IsOpen(s.convs, id, triple) && s.clock - s.convs[id].lastMessageAt >= TIMEOUT_MS
  }

  /** The call has found the conversation timed out, or will find it so when it looks, having begun late enough or not
      at all. Calls of other triples run beside it. */
  predicate Races(s: State, id: Id, call: CallId) {
    id < |s.convs| && (call in s.calls ==>
      || (s.calls[call].Expiring? && s.calls[call].id == id)
      || (s.calls[call].Called? && s.calls[call].now - s.convs[id].lastMessageAt >= TIMEOUT_MS)
      || s.calls[call].triple != s.convs[id].triple)
  }

  /** Touches and operator writes that name the conversation. */
  predicate Names(e: Event, id: Id) {
    (e.Touch? || e.OperatorSets?) && e.id == id
  }

  lemma RacesStep(s: State, e: Event, triple: Triple, id: Id, call: CallId)
    requires Inv(s) && TimedOut(s, triple, id) && Races(s, id, call) && !Names(e, id)
    requires IsOpen(Step(s, e).convs, id, triple)
    ensures TimedOut(Step(s, e), triple, id) && Races(Step(s, e), id, call)
  {
    hide FindLatestOpen;
    OnlyOpen(s.convs, triple, id);
    InvStep(s, e);
  }

  lemma NotReopened(s: State, e: Event, triple: Triple, id: Id)
    requires id < |s.convs| && !Names(e, id) && IsOpen(Step(s, e).convs, id, triple)
    ensures IsOpen(s.convs, id, triple)
  {
    hide FindLatestOpen;
  }

  lemma {:induction false} RacesHolds(s: State, events: seq<Event>, triple: Triple, id: Id, call: CallId)
    requires Inv(s) && TimedOut(s, triple, id) && Races(s, id, call) && forall e :: e in events ==> !Names(e, id)
    requires IsOpen(After(Step, s, events).convs, id, triple)
    ensures var s' := After(Step, s, events); Inv(s') && TimedOut(s', triple, id) && Races(s', id, call)
  {
    if events != [] {
      var shorter, e := events[..|events| - 1], events[|events| - 1];
      PlacesStay(s, shorter);
      NotReopened(After(Step, s, shorter), e, triple, id);
      RacesHolds(s, shorter, triple, id, call);
      InvStep(After(Step, s, shorter), e);
      RacesStep(After(Step, s, shorter), e, triple, id, call);
    }
  }

  lemma {:induction false} PlacesStay(s: State, events: seq<Event>)
    requires Inv(s)
    ensures Inv(After(Step, s, events)) && SamePlaces(s.convs, After(Step, s, events).convs)
  {
    if events != [] {
      PlacesStay(s, events[..|events| - 1]);
      InvStep(After(Step, s, events[..|events| - 1]), events[|events| - 1]);
    }
  }

  lemma {:induction false} TripleStays(s: State, events: seq<Event>, call: CallId)
    requires call in s.calls
    ensures var s' := After(Step, s, events); call in s'.calls && s'.calls[call].triple == s.calls[call].triple
  {
    hide FindLatestOpen;
    if events != [] {
      TripleStays(s, events[..|events| - 1], call);
    }
  }

  /** The step that closes it answers no racing call. */
  lemma ClosingAnswersNobody(s: State, e: Event, triple: Triple, id: Id, call: CallId)
    requires Inv(s) && TimedOut(s, triple, id) && !IsOpen(Step(s, e).convs, id, triple)
    requires Races(s, id, call) && (call in s.calls ==> s.calls[call].triple == triple)
    ensures !IsFinished(Step(s, e), call) && !IsRefused(Step(s, e), call)
  {
    hide FindLatestOpen;
    OnlyOpen(s.convs, triple, id);
  }

  /** Any number of calls find the same conversation timed out, and neither a touch nor an operator's write names it
      until it is closed. Then, as long as nothing closes its successor, all of them return one and the same new
      conversation and none fails: whoever closes the old one, and however often. */
  lemma RacingOnTimedOutAgree(s: State, first: seq<Event>, closing: Event, rest: seq<Event>, triple: Triple, id: Id,
      call: CallId, other: CallId)
    requires Inv(s) && TimedOut(s, triple, id) && Races(s, id, call) && Races(s, id, other)
    requires forall e :: e in first ==> !Names(e, id)
    requires IsOpen(After(Step, s, first).convs, id, triple) && !IsOpen(Step(After(Step, s, first), closing).convs, id, triple)
    requires NothingCloses(Step(After(Step, s, first), closing), rest, triple)
    requires var s' := After(Step, s, first + [closing] + rest);
      IsFinished(s', call) && s'.calls[call].triple == triple && IsFinished(s', other) && s'.calls[other].triple == triple
    ensures var s' := After(Step, s, first + [closing] + rest);
      s'.calls[call].outcome == s'.calls[other].outcome && s'.calls[call].outcome.Returned?
      && IsOpen(s'.convs, s'.calls[call].outcome.id, triple)
      && ((forall e :: e in rest ==> !Names(e, id)) ==> s'.calls[call].outcome.id != id)
  {
    hide Step, IsOpen, NothingCloses, Races;
    var s1 := After(Step, s, first);
    var s2 := Step(s1, closing);
    AfterConcat(Step, s, first + [closing], rest);
    assert (first + [closing])[..|first|] == first;
    PlacesStay(s, first);
    InvStep(s1, closing);
    UnansweredAtClosing(s, first, closing, rest, triple, id, call);
    UnansweredAtClosing(s, first, closing, rest, triple, id, other);
    RacingCallsAgree(s2, rest, triple, call, other);
    RacingCallsAgree(s2, rest, triple, other, call);
    if (forall e :: e in rest ==> !Names(e, id)) {
      assert id < |s2.convs| by { StillThere(s, s1, s2, triple, id); }
      StaysClosed(s2, rest, triple, id);
    }
  }

  lemma StillThere(s: State, s1: State, s2: State, triple: Triple, id: Id)
    requires TimedOut(s, triple, id) && SamePlaces(s.convs, s1.convs) && SamePlaces(s1.convs, s2.convs)
    ensures id < |s2.convs|
  {
  }

  lemma UnansweredAtClosing(s: State, first: seq<Event>, closing: Event, rest: seq<Event>, triple: Triple, id: Id, call: CallId)
    requires Inv(s) && TimedOut(s, triple, id) && Races(s, id, call) && forall e :: e in first ==> !Names(e, id)
    requires IsOpen(After(Step, s, first).convs, id, triple) && !IsOpen(Step(After(Step, s, first), closing).convs, id, triple)
    requires var s' := After(Step, s, first + [closing] + rest); call in s'.calls && s'.calls[call].triple == triple
    ensures var s2 := Step(After(Step, s, first), closing); !IsFinished(s2, call) && !IsRefused(s2, call)
  {
    hide Step, IsOpen, Races;
    var s1 := After(Step, s, first);
    RacesHolds(s, first, triple, id, call);
    AfterConcat(Step, s, first, [closing] + rest);
    assert first + ([closing] + rest) == first + [closing] + rest;
    if call in s1.calls {
      TripleStays(s1, [closing] + rest, call);
    }
    ClosingAnswersNobody(s1, closing, triple, id, call);
  }

  /** Such a race is on in the first reachable state in which a conversation has timed out. */
  lemma RaceIsReached(triple: Triple)
    ensures var s := After(Step, Start, [Begin(0, triple), Lookup(0), Create(0), ClockTicks(TIMEOUT_MS), Begin(1, triple)]);
      TimedOut(s, triple, 0) && Races(s, 0, 1) && Races(s, 0, 2) && IsFinished(s, 0)
  {
    FirstCallCreates(triple);
  }

  lemma {:induction false} StaysClosed(s: State, events: seq<Event>, triple: Triple, id: Id)
    requires Inv(s) && id < |s.convs| && !IsOpen(s.convs, id, triple) && forall e :: e in events ==> !Names(e, id)
    ensures !IsOpen(After(Step, s, events).convs, id, triple)
  {
    if events != [] {
      var shorter, e := events[..|events| - 1], events[|events| - 1];
      StaysClosed(s, shorter, triple, id);
      PlacesStay(s, shorter);
      if IsOpen(Step(After(Step, s, shorter), e).convs, id, triple) {
        NotReopened(After(Step, s, shorter), e, triple, id);
      }
    }
  }

  // ----- What a close may overrule -----

  /** What the call found out about its conversation still holds. */
  predicate StillTimedOut(convs: seq<Conversation>, triple: Triple, now: int, id: Id) {
    IsOpen(convs, id, triple) && now - convs[id].lastMessageAt >= TIMEOUT_MS
  }

  /** The time the last touch of the conversation left. */
  function LastTouch(events: seq<Event>, id: Id): Option<int> {
    if events == [] then None
    else
      var e := events[|events| - 1];
      if e.Touch? && e.id == id then Some(e.at) else LastTouch(events[..|events| - 1], id)
  }

  /** The status a step writes to the conversation, if it writes one. */
  function StatusWrite(s: State, e: Event, id: Id): Option<Status> {
    match e
    case Close(call) => if call in s.calls && s.calls[call].Expiring? && s.calls[call].id == id then Some(Closed) else None
    case OperatorSets(i, client, status) =>
      if i == id && id < |s.convs| && s.convs[id].triple.client == client
        && !(status == Open && s.convs[id].status != Open && FindLatestOpen(s.convs, s.convs[id].triple).Some?)
      then Some(status) else None
    case _ => None
  }

  /** The status that the last write of one in the run left. */
  function LastStatusWrite(s: State, events: seq<Event>, id: Id): Option<Status> {
    if events == [] then None
    else
      var shorter := events[..|events| - 1];
      var write := StatusWrite(After(Step, s, shorter), events[|events| - 1], id);
      if write.Some? then write else LastStatusWrite(s, shorter, id)
  }

  lemma ConversationStep(s: State, e: Event, id: Id)
    requires Inv(s) && id < |s.convs|
    ensures var c, c' := s.convs[id], Step(s, e).convs[id];
      c'.lastMessageAt == (if e.Touch? && e.id == id then e.at else c.lastMessageAt)
      && c'.status == (if StatusWrite(s, e, id).Some? then StatusWrite(s, e, id).value else c.status)
  {
    hide FindLatestOpen;
    InvStep(s, e);
  }

  lemma {:induction false} ConversationAfter(s: State, events: seq<Event>, id: Id)
    requires Inv(s) && id < |s.convs|
    ensures var s' := After(Step, s, events);
      id < |s'.convs| && s'.convs[id].triple == s.convs[id].triple
      && s'.convs[id].lastMessageAt == (if LastTouch(events, id).Some? then LastTouch(events, id).value else s.convs[id].lastMessageAt)
      && s'.convs[id].status == (if LastStatusWrite(s, events, id).Some? then LastStatusWrite(s, events, id).value else s.convs[id].status)
  {
    hide FindLatestOpen, StatusWrite;
    PlacesStay(s, events);
    if events != [] {
      var shorter := events[..|events| - 1];
      ConversationAfter(s, shorter, id);
      PlacesStay(s, shorter);
      ConversationStep(After(Step, s, shorter), events[|events| - 1], id);
    }
  }

  /** The close of a timed-out conversation looks at nothing. In every run, by the time a call closes, its conversation
      is no longer open and timed out if and only if, since the call's lookup, the last touch left a time that is not
      timed out or the last write of a status left another one than open. The close goes ahead either way. */
  lemma CloseOverrules(before: seq<Event>, call: CallId, between: seq<Event>)
    requires var s0 := After(Step, Start, before);
      call in s0.calls && s0.calls[call].Called? && Step(s0, Lookup(call)).calls[call].Expiring?
    requires var s := Step(After(Step, Start, before), Lookup(call));
      call in After(Step, s, between).calls && After(Step, s, between).calls[call] == s.calls[call]
    ensures var s := Step(After(Step, Start, before), Lookup(call));
      var s', c := After(Step, s, between), s.calls[call];
      var touch, write := LastTouch(between, c.id), LastStatusWrite(s, between, c.id);
      && (!StillTimedOut(s'.convs, c.triple, c.now, c.id)
        <==> (touch.Some? && c.now - touch.value < TIMEOUT_MS) || (write.Some? && write.value != Open))
      && c.id < |s'.convs| && Step(s', Close(call)).convs == s'.convs[c.id := s'.convs[c.id].(status := Closed, updatedAt := s'.clock)]
  {
    hide FindLatestOpen;
    var s0 := After(Step, Start, before);
    var s := Step(s0, Lookup(call));
    AtMostOneOpen(before);
    InvStep(s0, Lookup(call));
    ConversationAfter(s, between, s.calls[call].id);
  }

  /** A run in which it happens: a message arrives between the lookup and the close of a second call, and the
      conversation it just revived is closed. */
  lemma CloseOverrulesAMessage(triple: Triple)
    ensures var first := [Begin(0, triple), Lookup(0), Create(0), ClockTicks(TIMEOUT_MS), Begin(1, triple)];
      var revived := [Conversation(triple, Open, TIMEOUT_MS, TIMEOUT_MS)];
      !StillTimedOut(revived, triple, TIMEOUT_MS, 0)
      && After(Step, Start, first + [Lookup(1), Touch(0, TIMEOUT_MS)]).convs == revived
      && After(Step, Start, first + [Lookup(1), Touch(0, TIMEOUT_MS), Close(1)]).convs == [revived[0].(status := Closed)]
  {
    hide Step;
    var first := [Begin(0, triple), Lookup(0), Create(0), ClockTicks(TIMEOUT_MS), Begin(1, triple)];
    var e1, e2, e3 := Lookup(1), Touch(0, TIMEOUT_MS), Close(1);
    FirstCallCreates(triple);
    SecondCallCloses(triple);
    AfterConcat(Step, Start, first, [e1, e2, e3]);
    AfterConcat(Step, Start, first, [e1, e2]);
    AfterThreeFirst(Step, SecondCallBegun(triple), e1, e2, e3, []);
    AfterFirst(Step, SecondCallBegun(triple), e1, [e2]);
    AfterFirst(Step, Step(SecondCallBegun(triple), e1), e2, []);
    assert [e1, e2, e3] + [] == [e1, e2, e3] && [e1] + [e2] == [e1, e2] && [e2] + [] == [e2];
  }

  function SecondCallBegun(triple: Triple): State {
    State(TIMEOUT_MS, [Conversation(triple, Open, 0, 0)], map[0 := Finished(triple, Returned(0)), 1 := Called(triple, TIMEOUT_MS)])
  }

  lemma SecondCallCloses(triple: Triple)
    ensures var s := SecondCallBegun(triple);
      var touched := Step(Step(s, Lookup(1)), Touch(0, TIMEOUT_MS));
      touched.convs == [Conversation(triple, Open, TIMEOUT_MS, TIMEOUT_MS)]
      && Step(touched, Close(1)).convs == [Conversation(triple, Closed, TIMEOUT_MS, TIMEOUT_MS)]
  {
    hide FindLatestOpen;
    var s := SecondCallBegun(triple);
    OnlyOpen(s.convs, triple, 0);
    assert Step(s, Lookup(1)).calls[1] == Expiring(triple, TIMEOUT_MS, 0);
  }

  lemma FirstCallCreates(triple: Triple)
    ensures After(Step, Start, [Begin(0, triple), Lookup(0), Create(0), ClockTicks(TIMEOUT_MS), Begin(1, triple)])
      == SecondCallBegun(triple)
  {
    AfterFive(Step, Start, Begin(0, triple), Lookup(0), Create(0), ClockTicks(TIMEOUT_MS), Begin(1, triple));
    var s2 := Step(Step(Start, Begin(0, triple)), Lookup(0));
    assert s2.calls == map[0 := Creating(triple, 0)] && s2.convs == [];
    assert Step(s2, Create(0)).convs == [Conversation(triple, Open, 0, 0)];
  }

  // ----- The next message finds the conversation -----

  /** A call's time is the time at which it began. */
  ghost predicate NowsArePast(s: State) {
    forall call :: call in s.calls && !s.calls[call].Finished? ==> s.calls[call].now <= s.clock
  }

  lemma NowsStep(s: State, e: Event)
    requires NowsArePast(s)
    ensures NowsArePast(Step(s, e))
  {
    hide FindLatestOpen;
  }

  /** The conversation is open since `at`, untouched, and no call has found it timed out. */
  ghost predicate IsFresh(s: State, id: Id, triple: Triple, at: int) {
    && IsOpen(s.convs, id, triple) && s.convs[id].lastMessageAt == at
    && forall call :: call in s.calls && s.calls[call].Expiring? ==> s.calls[call].id != id
  }

  lemma FreshStep(s: State, e: Event, id: Id, triple: Triple, at: int)
    requires Inv(s) && NowsArePast(s) && IsFresh(s, id, triple, at) && !Names(e, id) && s.clock < at + TIMEOUT_MS
    ensures IsFresh(Step(s, e), id, triple, at)
  {
    hide FindLatestOpen;
    OnlyOpen(s.convs, triple, id);
  }

  lemma {:induction false} ClockRuns(s: State, events: seq<Event>)
    ensures s.clock <= After(Step, s, events).clock
  {
    if events != [] {
      ClockRuns(s, events[..|events| - 1]);
    }
  }

  lemma {:induction false} FreshHolds(s: State, events: seq<Event>, id: Id, triple: Triple, at: int)
    requires Inv(s) && NowsArePast(s) && IsFresh(s, id, triple, at) && forall e :: e in events ==> !Names(e, id)
    requires After(Step, s, events).clock < at + TIMEOUT_MS
    ensures var s' := After(Step, s, events); Inv(s') && NowsArePast(s') && IsFresh(s', id, triple, at)
  {
    hide Step;
    if events != [] {
      var shorter, e := events[..|events| - 1], events[|events| - 1];
      var before := After(Step, s, shorter);
      assert before.clock <= Step(before, e).clock by { StepClock(before, e); }
      FreshHolds(s, shorter, id, triple, at);
      InvStep(before, e);
      NowsStep(before, e);
      FreshStep(before, e, id, triple, at);
    }
  }

  lemma StepClock(s: State, e: Event)
    ensures s.clock <= Step(s, e).clock
  {
  }

  /** The conversation a call creates carries the time the call began. */
  lemma CreatedCarriesItsTime(before: seq<Event>, creator: CallId)
    requires var s0 := After(Step, Start, before); creator in s0.calls && s0.calls[creator].Creating?
    requires var s0 := After(Step, Start, before); Step(s0, Create(creator)).convs != s0.convs
    ensures var s0 := After(Step, Start, before);
      var s1, c, id := Step(s0, Create(creator)), s0.calls[creator], |s0.convs|;
      && Inv(s1) && NowsArePast(s1) && IsFresh(s1, id, c.triple, c.now)
      && s1.convs == s0.convs + [Conversation(c.triple, Open, c.now, s0.clock)]
      && s1.calls[creator] == Finished(c.triple, Returned(id))
  {
    hide FindLatestOpen;
    var s0 := After(Step, Start, before);
    AtMostOneOpen(before);
    forall s, e | NowsArePast(s) ensures NowsArePast(Step(s, e)) { NowsStep(s, e); }
    InvariantHolds(Step, NowsArePast, Start, before);
    InvStep(s0, Create(creator));
    NowsStep(s0, Create(creator));
  }

  /** In every run: a conversation stays open until the timeout has passed since the call that created it began, unless a
      touch or an operator's write names it; and while it is open, a call for its triple that looks is given it if less
      than the timeout lies between the last message and the call, and closes it otherwise. */
  lemma NextMessageFindsIt(before: seq<Event>, creator: CallId, between: seq<Event>, call: CallId)
    requires var s0 := After(Step, Start, before); creator in s0.calls && s0.calls[creator].Creating?
    requires var s0 := After(Step, Start, before); Step(s0, Create(creator)).convs != s0.convs
    requires var s0 := After(Step, Start, before); var s := After(Step, Step(s0, Create(creator)), between);
      call in s.calls && s.calls[call].Called? && s.calls[call].triple == s0.calls[creator].triple
    ensures var s0 := After(Step, Start, before);
      var triple, now, id := s0.calls[creator].triple, s0.calls[creator].now, |s0.convs|;
      var s := After(Step, Step(s0, Create(creator)), between);
      var last := if LastTouch(between, id).Some? then LastTouch(between, id).value else now;
      && ((forall e :: e in between ==> !Names(e, id)) && s.clock < now + 24 * 60 * 60 * 1000 ==>
        IsOpen(s.convs, id, triple) && Step(s, Lookup(call)) == Goto(s, call, Finished(triple, Returned(id))))
      && (IsOpen(s.convs, id, triple) ==>
        Step(s, Lookup(call)) == Goto(s, call,
          if s.calls[call].now - last < 24 * 60 * 60 * 1000 then Finished(triple, Returned(id)) else Expiring(triple, s.calls[call].now, id)))
  {
    hide FindLatestOpen, Step;
    var s0 := After(Step, Start, before);
    var s1, triple, now, id := Step(s0, Create(creator)), s0.calls[creator].triple, s0.calls[creator].now, |s0.convs|;
    var s := After(Step, s1, between);
    CreatedCarriesItsTime(before, creator);
    PlacesStay(s1, between);
    ConversationAfter(s1, between, id);
    if (forall e :: e in between ==> !Names(e, id)) && s.clock < now + TIMEOUT_MS {
      FreshHolds(s1, between, id, triple, now);
      LookupFinds(s, call, id);
    } else if IsOpen(s.convs, id, triple) {
      LookupFinds(s, call, id);
    }
  }

  lemma LookupFinds(s: State, call: CallId, id: Id)
    requires OneOpen(s.convs) && call in s.calls && s.calls[call].Called? && IsOpen(s.convs, id, s.calls[call].triple)
    ensures var c := s.calls[call];
      Step(s, Lookup(call)) == Goto(s, call,
        if c.now - s.convs[id].lastMessageAt < TIMEOUT_MS then Finished(c.triple, Returned(id)) else Expiring(c.triple, c.now, id))
  {
    OnlyOpen(s.convs, s.calls[call].triple, id);
  }

  // ----- The service called on its own -----

  /** What one uninterrupted call leaves behind and returns. */
  function Resolve(convs: seq<Conversation>, triple: Triple, now: int): (seq<Conversation>, Id) {
    var found := FindLatestOpen(convs, triple);
    if found.Some? && now - convs[found.value].lastMessageAt < TIMEOUT_MS then (convs, found.value)
    else
      var before := if found.Some? then WithStatus(convs, found.value, Closed, now) else convs;
      (before + [NewConversation(triple, now, now)], |convs|)
  }

  /** Closing the one open conversation leaves none. */
  lemma ClosedLeavesNone(convs: seq<Conversation>, triple: Triple, now: int)
    requires OneOpen(convs) && FindLatestOpen(convs, triple).Some?
    ensures FindLatestOpen(WithStatus(convs, FindLatestOpen(convs, triple).value, Closed, now), triple).None?
  {
    var closed := WithStatus(convs, FindLatestOpen(convs, triple).value, Closed, now);
    forall id: Id | IsOpen(closed, id, triple) ensures false {
      OnlyOpen(convs, triple, id);
    }
  }

  /** Some conversation of the triple is open and less than the timeout old. */
  predicate HasRecent(convs: seq<Conversation>, triple: Triple, now: int) {
    exists i :: 0 <= i < |convs| && convs[i].triple == triple && convs[i].status == Open && now - convs[i].lastMessageAt < 24 * 60 * 60 * 1000
  }

  /** What is stored after the call, entry by entry: a recent open conversation is returned and nothing changes;
      otherwise what is open of the triple is closed, and a new one that carries the caller's time comes last. */
  lemma ResolveMeans(convs: seq<Conversation>, triple: Triple, now: int)
    requires OneOpen(convs)
    ensures var (convs', id) := Resolve(convs, triple, now);
      && IsOpen(convs', id, triple) && now - convs'[id].lastMessageAt < 24 * 60 * 60 * 1000
      && (HasRecent(convs, triple, now) ==> convs' == convs)
      && (!HasRecent(convs, triple, now) ==>
        && id == |convs| && |convs'| == id + 1 && convs'[id] == Conversation(triple, Open, now, now)
        && forall i :: 0 <= i < |convs| ==>
          convs'[i] == if convs[i].triple == triple && convs[i].status == Open then convs[i].(status := Closed, updatedAt := now) else convs[i])
  {
    hide FindLatestOpen;
    var found := FindLatestOpen(convs, triple);
    forall i: nat | IsOpen(convs, i, triple) ensures found == Some(i) {
      OnlyOpen(convs, triple, i);
    }
  }

  /** The next call for the triple is given the conversation of the call before and changes nothing, exactly as long as
      less than the timeout lies between it and the last message: the call before itself, if that one created it. */
  lemma NextCallReturnsIt(convs: seq<Conversation>, triple: Triple, now: int, later: int)
    requires OneOpen(convs)
    ensures var (convs1, id) := Resolve(convs, triple, now);
      && OneOpen(convs1) && IsOpen(convs1, id, triple)
      && (Resolve(convs1, triple, later) == (convs1, id) <==> later - convs1[id].lastMessageAt < 24 * 60 * 60 * 1000)
      && (convs1 != convs ==> (Resolve(convs1, triple, later) == (convs1, id) <==> later - now < 24 * 60 * 60 * 1000))
  {
    hide FindLatestOpen;
    var (convs1, id) := Resolve(convs, triple, now);
    ResolveMeans(convs, triple, now);
    OnlyOpen(convs1, triple, id) by { ResolveKeepsOneOpen(convs, triple, now); }
    ResolveMeans(convs1, triple, later);
  }

  lemma ResolveKeepsOneOpen(convs: seq<Conversation>, triple: Triple, now: int)
    requires OneOpen(convs)
    ensures OneOpen(Resolve(convs, triple, now).0)
  {
    ResolveMeans(convs, triple, now);
  }

  /** The call on its own is one of the runs: its four steps one after the other, with nobody in between. */
  lemma ResolveIsARun(s: State, call: CallId, triple: Triple)
    requires OneOpen(s.convs) && call !in s.calls
    ensures var s' := After(Step, s, [Begin(call, triple), Lookup(call), Close(call), Create(call)]);
      var (convs, id) := Resolve(s.convs, triple, s.clock);
      s'.convs == convs && s'.calls == s.calls[call := Finished(triple, Returned(id))] && IsOpen(convs, id, triple)
  {
    hide FindLatestOpen, After, OneOpen;
    AfterFour(Step, s, Begin(call, triple), Lookup(call), Close(call), Create(call));
    var found := FindLatestOpen(s.convs, triple);
    var s1 := Step(s, Begin(call, triple));
    assert s1 == Goto(s, call, Called(triple, s.clock));
    var s2 := Step(s1, Lookup(call));
    if found.Some? && s.clock - s.convs[found.value].lastMessageAt < TIMEOUT_MS {
      assert s2 == Goto(s, call, Finished(triple, Returned(found.value)));
    } else {
      if found.Some? {
        assert s2 == Goto(s, call, Expiring(triple, s.clock, found.value));
        ClosedLeavesNone(s.convs, triple, s.clock);
      }
      var before := if found.Some? then WithStatus(s.convs, found.value, Closed, s.clock) else s.convs;
      assert Step(s2, Close(call)) == Goto(s.(convs := before), call, Creating(triple, s.clock));
    }
  }

  class ConversationService {
    var convs: seq<Conversation>

    constructor ()
      ensures convs == []
    {
      convs := [];
    }

    method ResolveOrCreate(triple: Triple, now: int) returns (id: Id)
      requires OneOpen(convs)
      modifies this
      ensures OneOpen(convs) && IsOpen(convs, id, triple)
      ensures (convs, id) == Resolve(old(convs), triple, now)
      ensures HasRecent(old(convs), triple, now) ==> convs == old(convs)
      ensures !HasRecent(old(convs), triple, now) ==> id == |old(convs)| && convs[id] == Conversation(triple, Open, now, now)
    {
      ResolveMeans(convs, triple, now);
      var existing := FindLatestOpen(convs, triple);
      if existing.Some? {
        var elapsed := now - convs[existing.value].lastMessageAt;
        if elapsed < TIMEOUT_MS {
          return existing.value;
        }
        UpdateStatus(existing.value, Closed, now);
      }
      assert forall i: nat :: i < |convs| && convs[i].status == Open && convs[i].triple == triple ==> IsOpen(old(convs), i, triple);
      convs := convs + [NewConversation(triple, now, now)];
      id := |convs| - 1;
    }

    method UpdateStatus(id: Id, status: Status, now: int)
      modifies this
      ensures convs == WithStatus(old(convs), id, status, now)
    {
      if id < |convs| {
        convs := convs[id := convs[id].(status := status, updatedAt := now)];
      }
    }

    /** Advances nothing but the two dates of the conversation, whatever they were. */
    method TouchConversation(id: Id, at: int, now: int)
      modifies this
      ensures |convs| == |old(convs)|
      ensures forall i :: 0 <= i < |convs| ==>
        convs[i] == if i == id then old(convs)[i].(lastMessageAt := at, updatedAt := now) else old(convs)[i]
    {
      if id < |convs| {
        convs := convs[id := convs[id].(lastMessageAt := at, updatedAt := now)];
      }
    }
  }
}
