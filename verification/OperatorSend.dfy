/** The operator's reply (inbox-operator-message.service.ts over message.repository.ts): an idempotent protocol of
    insert, dispatch, finalize and touch, run by racing requests that may crash between any two steps. The unique
    index on (conversation, idempotency key) is the only thing that orders them. */
module OperatorSend {
  import opened Wrappers
  import opened Runs

  type Id = nat
  type RequestId = nat

  datatype Input = Input(conversation: Id, author: Id, text: string, key: string)

  datatype Delivery = Pending | Sent | Failed

  /** A stored message; its id is its place in the collection. Nothing reads creator, the request that inserted it. */
  datatype Message = Message(id: Id, conversation: Id, key: string, author: Id, text: string, delivery: Delivery, creator: RequestId)

  /** What the checks before the protocol decide. */
  datatype Gate = Open | InvalidId | ConversationNotFound | BotOwnsConversation

  datatype Error = BadRequest | NotFound | BotAutopilotActive | IdempotencyConflict | BadGateway

  datatype Result = Returned(message: Message) | Thrown(error: Error)

  datatype Phase =
    | Gated                                   // checks passed, prior message not looked up yet
    | Unsent                                  // no prior message seen
    | Resolved                                // channel, hire and contact resolved
    | Conflicted                              // the insert hit the unique index
    | Persisted(message: Message)             // inserted as pending
    | Dispatched(message: Message, ok: bool)  // the gateway answered
    | Finalized(message: Message, ok: bool)   // delivery status written
    | Finished(result: Result)
    | Crashed

  datatype GatewayCall = GatewayCall(request: RequestId, conversation: Id, message: Id, text: string, ok: bool)
  datatype Touch = Touch(request: RequestId, conversation: Id, preview: string)

  datatype State = State(
    messages: seq<Message>,
    gateway: seq<GatewayCall>,
    touches: seq<Touch>,
    inputs: map<RequestId, Input>,
    requests: map<RequestId, Phase>)

  datatype Event =
    | Begin(request: RequestId, input: Input, gate: Gate)
    | FindPrior(request: RequestId)
    | Resolve(request: RequestId, found: bool)
    | Insert(request: RequestId)
    | Recover(request: RequestId)
    | Dispatch(request: RequestId, ok: bool)
    | Finalize(request: RequestId)
    | TouchConversation(request: RequestId)
    | Crash(request: RequestId)

  // ----- The collection -----

  predicate HasKey(m: Message, conversation: Id, key: string) {
    m.conversation == conversation && m.key == key
  }

  function FindByIdempotencyKey(messages: seq<Message>, conversation: Id, key: string): (found: Option<Message>)
    ensures found.Some? ==> found.value in messages && HasKey(found.value, conversation, key)
    ensures found.None? ==> forall m :: m in messages ==> !HasKey(m, conversation, key)
  {
    if messages == [] then None
    else if HasKey(messages[0], conversation, key) then Some(messages[0])
    else FindByIdempotencyKey(messages[1..], conversation, key)
  }

  function NewMessage(messages: seq<Message>, request: RequestId, input: Input): Message {
    Message(|messages|, input.conversation, input.key, input.author, input.text, Pending, request)
  }

  /** Sets the delivery status whatever it was; there is no transition guard. */
  function WithDelivery(messages: seq<Message>, id: Id, delivery: Delivery): (updated: seq<Message>)
    ensures |updated| == |messages|
  {
    if id < |messages| then messages[id := messages[id].(delivery := delivery)] else messages
  }

  lemma WithDeliveryMeans(messages: seq<Message>, id: Id, delivery: Delivery)
    ensures var updated := WithDelivery(messages, id, delivery);
      && |updated| == |messages|
      && forall k :: 0 <= k < |messages| ==> updated[k] == if k == id then messages[k].(delivery := delivery) else messages[k]
  {
  }

  function Terminal(ok: bool): Delivery { if ok then Sent else Failed }

  function GateError(gate: Gate): Error
    requires !gate.Open?
  {
    match gate
    case InvalidId => BadRequest
    case ConversationNotFound => NotFound
    case BotOwnsConversation => BotAutopilotActive
  }

  const PREVIEW_LENGTH := 280

  function Preview(text: string): string {
    if |text| > PREVIEW_LENGTH then text[..PREVIEW_LENGTH] else text
  }

  // ----- One step -----

  function Goto(s: State, request: RequestId, phase: Phase): State {
    s.(requests := s.requests[request := phase])
  }

  function Step(s: State, e: Event): State {
    var r := e.request;
    if e.Begin? then
      if r in s.requests then s
      else Goto(s.(inputs := s.inputs[r := e.input]), r, if e.gate.Open? then Gated else Finished(Thrown(GateError(e.gate))))
    else if r !in s.requests || r !in s.inputs then s
    else
      var input := s.inputs[r];
      match (e, s.requests[r])
      case (FindPrior(_), Gated) =>
        var prior := FindByIdempotencyKey(s.messages, input.conversation, input.key);
        Goto(s, r, if prior.Some? then Finished(Returned(prior.value)) else Unsent)
      case (Resolve(_, found), Unsent) =>
        Goto(s, r, if found then Resolved else Finished(Thrown(BadRequest)))
      case (Insert(_), Resolved) =>
        if FindByIdempotencyKey(s.messages, input.conversation, input.key).Some? then Goto(s, r, Conflicted)
        else
          var message := NewMessage(s.messages, r, input);
          Goto(s.(messages := s.messages + [message]), r, Persisted(message))
      case (Recover(_), Conflicted) =>
        var recovered := FindByIdempotencyKey(s.messages, input.conversation, input.key);
        Goto(s, r, Finished(if recovered.Some? then Returned(recovered.value) else Thrown(IdempotencyConflict)))
      case (Dispatch(_, ok), Persisted(message)) =>
        Goto(s.(gateway := s.gateway + [GatewayCall(r, message.conversation, message.id, input.text, ok)]), r, Dispatched(message, ok))
      case (Finalize(_), Dispatched(message, ok)) =>
        Goto(s.(messages := WithDelivery(s.messages, message.id, Terminal(ok))), r, Finalized(message.(delivery := Terminal(ok)), ok))
      case (TouchConversation(_), Finalized(message, ok)) =>
        Goto(s.(touches := s.touches + [Touch(r, input.conversation, Preview(input.text))]), r,
          Finished(if ok then Returned(message) else Thrown(BadGateway)))
      case (Crash(_), phase) => if phase.Finished? then s else Goto(s, r, Crashed)
      case _ => s
  }

  /** Every step a request can take, in the source's order; those that do not apply do nothing. */
  function Script(r: RequestId, input: Input, gate: Gate, resolved: bool, ok: bool): seq<Event> {
    [Begin(r, input, gate), FindPrior(r), Resolve(r, resolved), Insert(r), Recover(r), Dispatch(r, ok), Finalize(r), TouchConversation(r)]
  }

  const Start := State([], [], [], map[], map[])

  function Reached(events: seq<Event>): State {
    After(Step, Start, events)
  }

  // ----- The invariant -----

  /** A message carries what its creator asked for. */
  ghost predicate Carries(m: Message, input: Input) {
    HasKey(m, input.conversation, input.key) && m.author == input.author && m.text == input.text
  }

  /** ... and its status follows where its creator stands. */
  ghost predicate DeliveryFits(delivery: Delivery, phase: Phase) {
    match phase
    case Persisted(_) => delivery == Pending
    case Dispatched(_, _) => delivery == Pending
    case Finalized(_, ok) => delivery == Terminal(ok)
    case Finished(Returned(_)) => delivery == Sent
    case Finished(Thrown(error)) => error == BadGateway && delivery == Failed
    case Crashed => true
    case _ => false
  }

  ghost predicate MessageOk(s: State, i: nat)
    requires i < |s.messages|
  {
    var m := s.messages[i];
    m.id == i && m.creator in s.inputs && m.creator in s.requests
    && Carries(m, s.inputs[m.creator]) && DeliveryFits(m.delivery, s.requests[m.creator])
  }

  ghost predicate IsStored(s: State, m: Message) {
    m.id < |s.messages| && s.messages[m.id].(delivery := m.delivery) == m
  }

  ghost predicate OutcomeFits(ok: bool, phase: Phase) {
    match phase
    case Dispatched(_, ok') => ok' == ok
    case Finalized(_, ok') => ok' == ok
    case Finished(Returned(_)) => ok
    case Finished(Thrown(_)) => !ok
    case Crashed => true
    case _ => false
  }

  ghost predicate CallOk(s: State, c: GatewayCall) {
    c.request in s.requests && OutcomeFits(c.ok, s.requests[c.request])
    && c.message < |s.messages|
    && s.messages[c.message].creator == c.request && s.messages[c.message].conversation == c.conversation
    && s.messages[c.message].text == c.text
    && (s.messages[c.message].delivery == Pending || s.messages[c.message].delivery == Terminal(c.ok))
  }

  ghost predicate TouchOk(s: State, t: Touch) {
    t.request in s.requests && s.requests[t.request].Finished?
    && exists c :: c in s.gateway && c.request == t.request && c.conversation == t.conversation && t.preview == Preview(c.text)
  }

  ghost predicate Called(s: State, request: RequestId, ok: bool) {
    exists c :: c in s.gateway && c.request == request && c.ok == ok
  }

  /** The request created the message it holds and knows its status. */
  ghost predicate Holds(s: State, r: RequestId, m: Message) {
    m.id < |s.messages| && s.messages[m.id] == m && m.creator == r
  }

  ghost predicate KeyTaken(messages: seq<Message>, conversation: Id, key: string) {
    exists m :: m in messages && HasKey(m, conversation, key)
  }

  ghost predicate PhaseOk(s: State, r: RequestId, input: Input, phase: Phase) {
    match phase
    case Conflicted => KeyTaken(s.messages, input.conversation, input.key)
    case Persisted(m) => Holds(s, r, m)
    case Dispatched(m, ok) => Holds(s, r, m) && Called(s, r, ok)
    case Finalized(m, ok) => Holds(s, r, m) && Called(s, r, ok)
    case Finished(Returned(m)) =>
      IsStored(s, m) && HasKey(m, input.conversation, input.key) && (m.creator == r ==> m.delivery == Sent && Called(s, r, true))
    case Finished(Thrown(error)) => error != IdempotencyConflict && (error == BadGateway ==> Called(s, r, false))
    case _ => true
  }

  ghost predicate RequestOk(s: State, r: RequestId)
    requires r in s.requests
  {
    r in s.inputs && PhaseOk(s, r, s.inputs[r], s.requests[r])
  }

  ghost predicate KeysUnique(messages: seq<Message>) {
    forall i, j :: 0 <= i < j < |messages| ==>
      !HasKey(messages[i], messages[j].conversation, messages[j].key) && messages[i].creator != messages[j].creator
  }

  ghost predicate OneCallEach(gateway: seq<GatewayCall>) {
    forall k, l :: 0 <= k < l < |gateway| ==> gateway[k].request != gateway[l].request
  }

  ghost predicate Inv(s: State) {
    && (forall i :: 0 <= i < |s.messages| ==> MessageOk(s, i))
    && KeysUnique(s.messages)
    && (forall r :: r in s.requests ==> RequestOk(s, r))
    && (forall c :: c in s.gateway ==> CallOk(s, c))
    && OneCallEach(s.gateway)
    && (forall t :: t in s.touches ==> TouchOk(s, t))
  }

  /** A request that has not inserted has left no trace in the collections. */
  ghost predicate HasNoTrace(s: State, r: RequestId) {
    && (forall m :: m in s.messages ==> m.creator != r)
    && (forall c :: c in s.gateway ==> c.request != r)
    && (forall t :: t in s.touches ==> t.request != r)
  }

  predicate BeforeInsert(s: State, r: RequestId) {
    r !in s.requests || s.requests[r].Gated? || s.requests[r].Unsent? || s.requests[r].Resolved? || s.requests[r].Conflicted?
  }

  lemma NoTraceYet(s: State, r: RequestId)
    requires Inv(s) && BeforeInsert(s, r)
    ensures HasNoTrace(s, r)
  {
    forall m | m in s.messages ensures m.creator != r {
      var i :| 0 <= i < |s.messages| && s.messages[i] == m;
      assert MessageOk(s, i);
    }
    forall c | c in s.gateway ensures c.request != r {
      assert CallOk(s, c);
    }
    forall t | t in s.touches ensures t.request != r {
      assert TouchOk(s, t);
    }
  }

  /** A request without a trace moves: nobody else notices. */
  lemma MoveKeeps(s: State, r: RequestId, input: Input, phase: Phase)
    requires Inv(s) && HasNoTrace(s, r)
    requires PhaseOk(s, r, input, phase)
    ensures Inv(Goto(s.(inputs := s.inputs[r := input]), r, phase))
  {
    var s' := Goto(s.(inputs := s.inputs[r := input]), r, phase);
    forall i | 0 <= i < |s'.messages| ensures MessageOk(s', i) {
      assert MessageOk(s, i) && s.messages[i] in s.messages;
    }
    forall q | q in s'.requests ensures RequestOk(s', q) {
      if q != r {
        assert RequestOk(s, q);
      }
    }
    forall c | c in s'.gateway ensures CallOk(s', c) {
      assert CallOk(s, c);
    }
    forall t | t in s'.touches ensures TouchOk(s', t) {
      assert TouchOk(s, t);
    }
  }

  lemma InsertKeeps(s: State, r: RequestId)
    requires Inv(s) && r in s.requests && s.requests[r].Resolved?
    requires FindByIdempotencyKey(s.messages, s.inputs[r].conversation, s.inputs[r].key).None?
    ensures Inv(Step(s, Insert(r)))
  {
    var s' := Step(s, Insert(r));
    var message := NewMessage(s.messages, r, s.inputs[r]);
    NoTraceYet(s, r);
    forall i | 0 <= i < |s'.messages| ensures MessageOk(s', i) {
      if i < |s.messages| {
        assert MessageOk(s, i) && s.messages[i] in s.messages;
      }
    }
    assert KeysUnique(s'.messages) by {
      forall i | 0 <= i < |s.messages| ensures !HasKey(s.messages[i], message.conversation, message.key) && s.messages[i].creator != r {
        assert s.messages[i] in s.messages;
      }
    }
    forall q | q in s'.requests ensures RequestOk(s', q) {
      if q != r {
        assert RequestOk(s, q);
        assert forall m :: m in s.messages ==> m in s'.messages;
      }
    }
    forall c | c in s'.gateway ensures CallOk(s', c) {
      assert CallOk(s, c);
    }
    forall t | t in s'.touches ensures TouchOk(s', t) {
      assert TouchOk(s, t);
    }
  }

  lemma CallsStay(s: State, s': State)
    requires forall c :: c in s.gateway ==> c in s'.gateway
    ensures forall r, ok :: Called(s, r, ok) ==> Called(s', r, ok)
  {
  }

  lemma DispatchKeeps(s: State, r: RequestId, ok: bool)
    requires Inv(s) && r in s.requests && s.requests[r].Persisted?
    ensures Inv(Step(s, Dispatch(r, ok)))
  {
    var s' := Step(s, Dispatch(r, ok));
    var message := s.requests[r].message;
    assert RequestOk(s, r) && MessageOk(s, message.id);
    var call := GatewayCall(r, message.conversation, message.id, message.text, ok);
    assert s'.gateway == s.gateway + [call] && call in s'.gateway;
    CallsStay(s, s');
    forall c | c in s.gateway ensures CallOk(s', c) && c.request != r {
      assert CallOk(s, c);
    }
    forall i | 0 <= i < |s'.messages| ensures MessageOk(s', i) {
      assert MessageOk(s, i);
    }
    forall q | q in s'.requests ensures RequestOk(s', q) {
      assert RequestOk(s, q);
    }
    forall t | t in s'.touches ensures TouchOk(s', t) {
      assert TouchOk(s, t);
    }
  }

  lemma FinalizeKeeps(s: State, r: RequestId)
    requires Inv(s) && r in s.requests && s.requests[r].Dispatched?
    ensures Inv(Step(s, Finalize(r)))
  {
    var s' := Step(s, Finalize(r));
    var id, ok := s.requests[r].message.id, s.requests[r].ok;
    assert RequestOk(s, r);
    forall i | 0 <= i < |s'.messages| ensures MessageOk(s', i) {
      assert MessageOk(s, i);
      assert i != id ==> s.messages[i].creator != r;
    }
    forall q | q in s'.requests ensures RequestOk(s', q) {
      FinalizeKeepsRequest(s, r, q);
    }
    forall c | c in s'.gateway ensures CallOk(s', c) {
      assert CallOk(s, c);
    }
    forall t | t in s'.touches ensures TouchOk(s', t) {
      assert TouchOk(s, t);
    }
  }

  lemma FinalizeKeepsRequest(s: State, r: RequestId, q: RequestId)
    requires Inv(s) && r in s.requests && s.requests[r].Dispatched? && q in s.requests
    ensures RequestOk(Step(s, Finalize(r)), q)
  {
    assert RequestOk(s, r) && RequestOk(s, q);
    var s' := Step(s, Finalize(r));
    CallsStay(s, s');
    if s.requests[q].Conflicted? {
      KeyStaysTaken(s.messages, s.requests[r].message.id, Terminal(s.requests[r].ok), s.inputs[q]);
    }
  }

  lemma KeyStaysTaken(messages: seq<Message>, id: Id, delivery: Delivery, input: Input)
    requires KeyTaken(messages, input.conversation, input.key)
    ensures KeyTaken(WithDelivery(messages, id, delivery), input.conversation, input.key)
  {
    var i :| 0 <= i < |messages| && HasKey(messages[i], input.conversation, input.key);
    assert WithDelivery(messages, id, delivery)[i] in WithDelivery(messages, id, delivery);
  }

  lemma TouchKeepsRequest(s: State, r: RequestId, q: RequestId)
    requires Inv(s) && r in s.requests && s.requests[r].Finalized? && q in s.requests
    ensures RequestOk(Step(s, TouchConversation(r)), q)
  {
    hide FindByIdempotencyKey;
    assert RequestOk(s, r) && RequestOk(s, q) && MessageOk(s, s.requests[r].message.id);
  }

  lemma TouchKeepsTouches(s: State, r: RequestId, t: Touch)
    requires Inv(s) && r in s.requests && s.requests[r].Finalized? && t in Step(s, TouchConversation(r)).touches
    ensures TouchOk(Step(s, TouchConversation(r)), t)
  {
    hide FindByIdempotencyKey;
    assert RequestOk(s, r) && MessageOk(s, s.requests[r].message.id);
    var c :| c in s.gateway && c.request == r && c.ok == s.requests[r].ok;
    assert CallOk(s, c) && c.message == s.requests[r].message.id;
    assert t in s.touches ==> TouchOk(s, t);
  }

  lemma TouchKeeps(s: State, r: RequestId)
    requires Inv(s) && r in s.requests && s.requests[r].Finalized?
    ensures Inv(Step(s, TouchConversation(r)))
  {
    hide FindByIdempotencyKey, RequestOk, TouchOk;
    var s' := Step(s, TouchConversation(r));
    assert RequestOk(s, r);
    forall i | 0 <= i < |s'.messages| ensures MessageOk(s', i) {
      assert MessageOk(s, i);
    }
    forall q | q in s'.requests ensures RequestOk(s', q) {
      TouchKeepsRequest(s, r, q);
    }
    forall c | c in s'.gateway ensures CallOk(s', c) {
      assert CallOk(s, c);
    }
    forall t | t in s'.touches ensures TouchOk(s', t) {
      TouchKeepsTouches(s, r, t);
    }
  }

  /** The message with a request's name on it is the one the request holds. */
  lemma HeldByItsCreator(s: State, r: RequestId, i: nat)
    requires Inv(s) && i < |s.messages| && s.messages[i].creator == r
    requires r in s.requests && (s.requests[r].Persisted? || s.requests[r].Dispatched? || s.requests[r].Finalized?)
    ensures s.requests[r].message == s.messages[i] && s.messages[i].id == i
  {
    assert RequestOk(s, r) && MessageOk(s, i);
  }

  lemma CrashKeeps(s: State, r: RequestId)
    requires Inv(s) && r in s.requests && !s.requests[r].Finished?
    ensures Inv(Goto(s, r, Crashed))
  {
    var s' := Goto(s, r, Crashed);
    assert RequestOk(s, r);
    forall i | 0 <= i < |s'.messages| ensures MessageOk(s', i) {
      assert MessageOk(s, i);
    }
    forall q | q in s'.requests ensures RequestOk(s', q) {
      assert RequestOk(s, q);
    }
    forall c | c in s'.gateway ensures CallOk(s', c) {
      assert CallOk(s, c);
    }
    forall t | t in s'.touches ensures TouchOk(s', t) {
      assert TouchOk(s, t);
    }
  }

  lemma StoredWhereItIs(s: State, m: Message)
    requires Inv(s) && m in s.messages
    ensures IsStored(s, m)
  {
    var i :| 0 <= i < |s.messages| && s.messages[i] == m;
    assert MessageOk(s, i);
  }

  lemma InvStep(s: State, e: Event)
    requires Inv(s)
    ensures Inv(Step(s, e))
  {
    var r := e.request;
    var s' := Step(s, e);
    if s' == s {
    } else if e.Crash? {
      CrashKeeps(s, r);
    } else if e.Dispatch? {
      DispatchKeeps(s, r, e.ok);
    } else if e.Finalize? {
      FinalizeKeeps(s, r);
    } else if e.TouchConversation? {
      TouchKeeps(s, r);
    } else if e.Insert? && s'.requests[r].Persisted? {
      InsertKeeps(s, r);
    } else {
      MoveBeforeInsert(s, e);
    }
  }

  /** Every other step moves a request that has not inserted. */
  lemma MoveBeforeInsert(s: State, e: Event)
    requires Inv(s) && Step(s, e) != s
    requires e.Begin? || e.FindPrior? || e.Resolve? || e.Recover? || (e.Insert? && !Step(s, e).requests[e.request].Persisted?)
    ensures Inv(Step(s, e))
  {
    var r := e.request;
    var input := if e.Begin? then e.input else s.inputs[r];
    NoTraceYet(s, r);
    var found := FindByIdempotencyKey(s.messages, input.conversation, input.key);
    if found.Some? {
      StoredWhereItIs(s, found.value);
    }
    if r in s.requests {
      assert RequestOk(s, r);
      assert s.inputs[r := input] == s.inputs;
    }
    MoveKeeps(s, r, input, Step(s, e).requests[r]);
  }

  lemma InvHolds(events: seq<Event>)
    ensures Inv(Reached(events))
  {
    forall s, e | Inv(s) ensures Inv(Step(s, e)) { InvStep(s, e); }
    InvariantHolds(Step, Inv, Start, events);
  }

  // ----- Main results, for every interleaving -----

  /** The gateway is called at most once for a conversation and key, by the request that inserted the message,
      and with the text that was stored. */
  lemma OneDispatchPerKey(events: seq<Event>, k: nat, l: nat)
    requires k < |Reached(events).gateway| && l < |Reached(events).gateway|
    ensures var s := Reached(events);
      && s.gateway[k].message < |s.messages| && s.gateway[l].message < |s.messages|
      && var m, m' := s.messages[s.gateway[k].message], s.messages[s.gateway[l].message];
      && m.creator == s.gateway[k].request && m.text == s.gateway[k].text
      && (HasKey(m, m'.conversation, m'.key) ==> k == l)
  {
    var s := Reached(events);
    InvHolds(events);
    assert CallOk(s, s.gateway[k]) && CallOk(s, s.gateway[l]);
  }

  /** Whenever the gateway is called, the message is already stored, pending, and was never dispatched before. */
  lemma StoredBeforeDispatch(events: seq<Event>, e: Event)
    requires Step(Reached(events), e).gateway != Reached(events).gateway
    ensures var s := Reached(events);
      exists call :: Step(s, e).gateway == s.gateway + [call]
        && call.message < |s.messages| && s.messages[call.message].delivery == Pending
        && s.messages[call.message].text == call.text && s.messages[call.message].creator == call.request
        && forall c :: c in s.gateway ==> c.message != call.message
  {
    var s := Reached(events);
    InvHolds(events);
    var r := e.request;
    var m := s.requests[r].message;
    assert RequestOk(s, r) && MessageOk(s, m.id);
    var call := GatewayCall(r, m.conversation, m.id, s.inputs[r].text, e.ok);
    assert Step(s, e).gateway == s.gateway + [call];
    forall c | c in s.gateway ensures c.message != call.message {
      assert CallOk(s, c);
    }
  }

  /** A request answered with a message another request inserted has neither dispatched nor touched. */
  lemma ReplaysLeaveNoTrace(events: seq<Event>, r: RequestId, m: Message)
    requires var s := Reached(events); r in s.requests && s.requests[r] == Finished(Returned(m)) && m.creator != r
    ensures HasNoTrace(Reached(events), r)
  {
    var s := Reached(events);
    InvHolds(events);
    assert RequestOk(s, r) && MessageOk(s, m.id);
    forall i | 0 <= i < |s.messages| ensures s.messages[i].creator != r {
      assert MessageOk(s, i);
    }
    forall c | c in s.gateway ensures c.request != r {
      assert CallOk(s, c);
    }
    forall t | t in s.touches ensures t.request != r {
      assert TouchOk(s, t);
      var c :| c in s.gateway && c.request == t.request;
      assert CallOk(s, c);
    }
  }

  /** All answers for one conversation and key carry the message first inserted: one id, one author, one text,
      the text of the request that inserted it. */
  lemma AnswersAgree(events: seq<Event>, r: RequestId, q: RequestId, m: Message, m': Message)
    requires var s := Reached(events);
      && r in s.requests && s.requests[r] == Finished(Returned(m)) && r in s.inputs
      && q in s.requests && s.requests[q] == Finished(Returned(m')) && q in s.inputs
      && s.inputs[r].conversation == s.inputs[q].conversation && s.inputs[r].key == s.inputs[q].key
    ensures m.(delivery := m'.delivery) == m'
    ensures m.creator in Reached(events).inputs && m.text == Reached(events).inputs[m.creator].text
  {
    var s := Reached(events);
    InvHolds(events);
    assert RequestOk(s, r) && RequestOk(s, q) && MessageOk(s, m.id);
  }

  /** Reading back after a conflict always finds the message, so the conflict is never thrown on. */
  lemma RecoveryNeverFails(events: seq<Event>, r: RequestId)
    requires r in Reached(events).requests
    ensures Reached(events).requests[r] != Finished(Thrown(IdempotencyConflict))
    ensures Reached(events).requests[r].Conflicted? ==>
      exists m :: Step(Reached(events), Recover(r)).requests[r] == Finished(Returned(m))
  {
    var s := Reached(events);
    InvHolds(events);
    InvStep(s, Recover(r));
    assert RequestOk(s, r);
  }

  /** A final status tells what the gateway answered. */
  lemma StatusIsTheGatewaysAnswer(events: seq<Event>, i: nat)
    requires i < |Reached(events).messages|
    ensures var s := Reached(events);
      && (s.messages[i].delivery == Sent ==> exists c :: c in s.gateway && c.message == i && c.ok)
      && (s.messages[i].delivery == Failed ==> exists c :: c in s.gateway && c.message == i && !c.ok)
      && (forall c :: c in s.gateway && c.message == i ==> s.messages[i].delivery == Pending || s.messages[i].delivery == Terminal(c.ok))
  {
    var s := Reached(events);
    InvHolds(events);
    forall c | c in s.gateway ensures CallOk(s, c) { }
    InvariantHolds(Step, s => Inv(s) && FinalsWereCalled(s), Start, events) by {
      forall s, e | Inv(s) && FinalsWereCalled(s) ensures Inv(Step(s, e)) && FinalsWereCalled(Step(s, e)) {
        InvStep(s, e);
        FinalsStep(s, e);
      }
    }
  }

  ghost predicate FinalsWereCalled(s: State) {
    forall i :: 0 <= i < |s.messages| && s.messages[i].delivery != Pending ==>
      exists c :: c in s.gateway && c.message == i && Terminal(c.ok) == s.messages[i].delivery
  }

  lemma FinalsStep(s: State, e: Event)
    requires Inv(s) && FinalsWereCalled(s)
    ensures FinalsWereCalled(Step(s, e))
  {
    var s' := Step(s, e);
    assert forall c :: c in s.gateway ==> c in s'.gateway;
    forall i | 0 <= i < |s'.messages| && s'.messages[i].delivery != Pending
      ensures exists c :: c in s'.gateway && c.message == i && Terminal(c.ok) == s'.messages[i].delivery
    {
      if e.Finalize? && e.request in s.requests && s.requests[e.request].Dispatched? && s.requests[e.request].message.id == i {
        assert RequestOk(s, e.request) && MessageOk(s, i);
        var c :| c in s.gateway && c.request == e.request && c.ok == s.requests[e.request].ok;
        assert CallOk(s, c) && c.message == i;
      } else {
        assert i < |s.messages| && s'.messages[i] == s.messages[i];
      }
    }
  }

  /** What a later state may change: nothing about a message but its pending status, and nothing in the logs. */
  ghost predicate Later(s: State, s': State) {
    && |s.messages| <= |s'.messages|
    && (forall i :: 0 <= i < |s.messages| ==>
          s'.messages[i] == s.messages[i] || (s.messages[i].delivery == Pending && s'.messages[i].(delivery := Pending) == s.messages[i]))
    && s.gateway <= s'.gateway && s.touches <= s'.touches
    && (forall r :: r in s.requests ==> r in s'.requests && (s.requests[r].Finished? || s.requests[r].Crashed? ==> s'.requests[r] == s.requests[r]))
  }

  lemma LaterStep(s: State, e: Event)
    requires Inv(s)
    ensures Later(s, Step(s, e))
  {
    if e.request in s.requests {
      assert RequestOk(s, e.request);
      if s.requests[e.request].Dispatched? {
        assert MessageOk(s, s.requests[e.request].message.id);
      }
    }
  }

  /** The status goes from pending to one final value and never back; ids, texts and answers never change. */
  lemma {:induction false} StatusMovesOnce(events: seq<Event>, more: seq<Event>)
    ensures Later(Reached(events), Reached(events + more))
  {
    AfterConcat(Step, Start, events, more);
    if more != [] {
      var shorter := more[..|more| - 1];
      StatusMovesOnce(events, shorter);
      InvHolds(events + shorter);
      AfterConcat(Step, Start, events, shorter);
      LaterStep(Reached(events + shorter), more[|more| - 1]);
    }
  }

  /** When every request has run to its end, every message has a final status and was touched for. */
  lemma NothingPendingWithoutCrashes(events: seq<Event>, i: nat)
    requires var s := Reached(events); (forall r :: r in s.requests ==> s.requests[r].Finished?) && i < |s.messages|
    ensures Reached(events).messages[i].delivery != Pending
  {
    InvHolds(events);
    assert MessageOk(Reached(events), i);
  }

  ghost predicate IsStranded(s: State, i: nat, calls: seq<GatewayCall>) {
    i < |s.messages| && s.messages[i].delivery == Pending
    && s.messages[i].creator in s.requests && s.requests[s.messages[i].creator].Crashed?
    && calls <= s.gateway && forall c :: c in s.gateway[|calls|..] ==> c.message != i
  }

  /** A message whose creator crashed before the status was written stays pending for good, and is never
      dispatched again: the protocol delivers at most once, not at least once. */
  lemma StrandedForever(events: seq<Event>, more: seq<Event>, i: nat)
    requires IsStranded(Reached(events), i, Reached(events).gateway)
    ensures IsStranded(Reached(events + more), i, Reached(events).gateway)
  {
    var calls := Reached(events).gateway;
    AfterConcat(Step, Start, events, more);
    InvHolds(events);
    forall s, e | Inv(s) && IsStranded(s, i, calls) ensures Inv(Step(s, e)) && IsStranded(Step(s, e), i, calls) {
      InvStep(s, e);
      StrandedStep(s, e, i, calls);
    }
    InvariantHolds(Step, s => Inv(s) && IsStranded(s, i, calls), Reached(events), more);
  }

  lemma StrandedStep(s: State, e: Event, i: nat, calls: seq<GatewayCall>)
    requires Inv(s) && IsStranded(s, i, calls)
    ensures IsStranded(Step(s, e), i, calls)
  {
    var r := e.request;
    LaterStep(s, e);
    if r in s.requests && (s.requests[r].Persisted? || s.requests[r].Dispatched?) {
      assert RequestOk(s, r) && s.requests[r].message.id != i;
    }
  }

  /** Whatever happens from here on, the message stays pending. */
  ghost predicate NeverFinal(s: State, i: nat) {
    forall more :: i < |After(Step, s, more).messages| ==> After(Step, s, more).messages[i].delivery == Pending
  }

  lemma FinalizeWrites(s: State, r: RequestId, m: Message, ok: bool)
    requires r in s.requests && r in s.inputs && s.requests[r] == Dispatched(m, ok) && m.id < |s.messages|
    ensures Step(s, Finalize(r)).messages == s.messages[m.id := s.messages[m.id].(delivery := Terminal(ok))]
  {
    hide FindByIdempotencyKey;
  }

  lemma DispatchWaits(s: State, r: RequestId, m: Message)
    requires r in s.requests && r in s.inputs && s.requests[r] == Persisted(m)
    ensures var s' := Step(s, Dispatch(r, true));
      s'.messages == s.messages && s'.inputs == s.inputs && r in s'.requests && s'.requests[r] == Dispatched(m, true)
  {
    hide FindByIdempotencyKey;
  }

  lemma CreatorAtWork(s: State, i: nat)
    requires Inv(s) && i < |s.messages| && s.messages[i].delivery == Pending
    requires s.messages[i].creator in s.requests && !s.requests[s.messages[i].creator].Crashed?
    ensures var r := s.messages[i].creator;
      r in s.inputs && (s.requests[r].Persisted? || s.requests[r].Dispatched?) && s.requests[r].message.id == i
  {
    assert MessageOk(s, i);
    HeldByItsCreator(s, s.messages[i].creator, i);
  }

  /** A pending message whose creator is still at work gets its status as soon as the creator goes on. */
  lemma CreatorFinalizes(s: State, i: nat) returns (more: seq<Event>)
    requires Inv(s) && i < |s.messages| && s.messages[i].delivery == Pending
    requires s.messages[i].creator in s.requests && !s.requests[s.messages[i].creator].Crashed?
    ensures var s' := After(Step, s, more); i < |s'.messages| && s'.messages[i].delivery != Pending
  {
    hide Inv, Step;
    var r := s.messages[i].creator;
    CreatorAtWork(s, i);
    var m := s.requests[r].message;
    if s.requests[r].Dispatched? {
      more := [Finalize(r)];
      FinalizeWrites(s, r, m, s.requests[r].ok);
      AfterFirst(Step, s, Finalize(r), []);
      assert [Finalize(r)] + [] == [Finalize(r)];
    } else {
      more := [Dispatch(r, true), Finalize(r)];
      DispatchWaits(s, r, m);
      FinalizeWrites(Step(s, Dispatch(r, true)), r, m, true);
      AfterFirst(Step, s, Dispatch(r, true), [Finalize(r)]);
      AfterFirst(Step, Step(s, Dispatch(r, true)), Finalize(r), []);
      assert [Dispatch(r, true)] + [Finalize(r)] == more && [Finalize(r)] + [] == [Finalize(r)];
    }
  }

  lemma CrashedNeverFinal(s: State, more: seq<Event>, i: nat)
    requires Inv(s) && i < |s.messages| && s.messages[i].delivery == Pending
    requires s.messages[i].creator in s.requests && s.requests[s.messages[i].creator].Crashed?
    ensures IsStranded(After(Step, s, more), i, s.gateway)
  {
    forall s', e | Inv(s') && IsStranded(s', i, s.gateway) ensures Inv(Step(s', e)) && IsStranded(Step(s', e), i, s.gateway) {
      InvStep(s', e);
      StrandedStep(s', e, i, s.gateway);
    }
    InvariantHolds(Step, s' => Inv(s') && IsStranded(s', i, s.gateway), s, more);
  }

  /** In every reachable state, a pending message never gets a final status if and only if its creator has crashed. */
  lemma NeverFinalIffCrashed(events: seq<Event>, i: nat)
    requires i < |Reached(events).messages| && Reached(events).messages[i].delivery == Pending
    ensures var s := Reached(events);
      s.messages[i].creator in s.requests && (NeverFinal(s, i) <==> s.requests[s.messages[i].creator].Crashed?)
  {
    var s := Reached(events);
    InvHolds(events);
    hide Inv;
    CreatorIsKnown(s, i);
    if s.requests[s.messages[i].creator].Crashed? {
      forall more ensures i < |After(Step, s, more).messages| ==> After(Step, s, more).messages[i].delivery == Pending {
        CrashedNeverFinal(s, more, i);
      }
    } else {
      var more := CreatorFinalizes(s, i);
    }
  }

  lemma CreatorIsKnown(s: State, i: nat)
    requires Inv(s) && i < |s.messages|
    ensures s.messages[i].creator in s.requests
  {
    assert MessageOk(s, i);
  }

  /** A run that gets there: the request crashes between its insert and its dispatch. */
  lemma StrandedRun(r: RequestId, input: Input)
    ensures var s := Reached([Begin(r, input, Open), FindPrior(r), Resolve(r, true), Insert(r), Crash(r)]);
      s.messages == [NewMessage([], r, input)] && s.gateway == [] && NeverFinal(s, 0)
  {
    var events := [Begin(r, input, Open), FindPrior(r), Resolve(r, true), Insert(r), Crash(r)];
    AfterFive(Step, Start, events[0], events[1], events[2], events[3], events[4]);
    var s2 := Step(Step(Start, events[0]), events[1]);
    assert s2.requests == map[r := Unsent] && s2.messages == [];
    var s4 := Step(Step(s2, events[2]), events[3]);
    assert s4.requests == map[r := Persisted(NewMessage([], r, input))] && s4.messages == [NewMessage([], r, input)];
    NeverFinalIffCrashed(events, 0);
  }

  // ----- The service called on its own -----

  /** The service with the collections it writes. */
  /** A preview is the front of the text, and all of it up to 280 characters. */
  predicate IsPreview(preview: string, text: string) {
    preview <= text && |preview| == if |text| <= 280 then |text| else 280
  }

  predicate IsTaken(messages: seq<Message>, input: Input) {
    exists m :: m in messages && m.conversation == input.conversation && m.key == input.key
  }

  /** What the collections are after one call that nobody interrupts, and its answer. */
  ghost predicate IsAnswered(before: State, after: State, r: RequestId, input: Input, gate: Gate, resolved: bool, ok: bool, result: Result) {
    var sends := gate == Open && !IsTaken(before.messages, input) && resolved;
    && (!sends ==> after.messages == before.messages && after.gateway == before.gateway && after.touches == before.touches)
    && (gate == InvalidId ==> result == Thrown(BadRequest))
    && (gate == ConversationNotFound ==> result == Thrown(NotFound))
    && (gate == BotOwnsConversation ==> result == Thrown(BotAutopilotActive))
    && (gate == Open && IsTaken(before.messages, input) ==>
      result.Returned? && result.message in before.messages && result.message.conversation == input.conversation && result.message.key == input.key)
    && (gate == Open && !IsTaken(before.messages, input) && !resolved ==> result == Thrown(BadRequest))
    && (sends ==>
      var final := Message(|before.messages|, input.conversation, input.key, input.author, input.text, if ok then Sent else Failed, r);
      && after.messages == before.messages + [final]
      && after.gateway == before.gateway + [GatewayCall(r, input.conversation, final.id, input.text, ok)]
      && |after.touches| == |before.touches| + 1 && before.touches <= after.touches
      && (var touch := after.touches[|before.touches|];
          touch.request == r && touch.conversation == input.conversation && IsPreview(touch.preview, input.text))
      && result == if ok then Returned(final) else Thrown(BadGateway))
  }

  /** The call that nobody interrupts, case by case: what each gate answers, what a taken key answers, and what is
      stored, sent and touched otherwise. */
  lemma UninterruptedSend(s: State, r: RequestId, input: Input, gate: Gate, resolved: bool, ok: bool)
    requires r !in s.requests
    ensures var s' := After(Step, s, Script(r, input, gate, resolved, ok));
      r in s'.requests && s'.requests[r].Finished? && IsAnswered(s, s', r, input, gate, resolved, ok, s'.requests[r].result)
  {
    hide Step, Script, Delivered, Opened;
    var prior := FindByIdempotencyKey(s.messages, input.conversation, input.key);
    ScriptResult(s, r, input, gate, resolved, ok);
    TakenIff(s.messages, input);
    OpenedIs(s, r, input, Finished(Thrown(BadRequest)));
    if !gate.Open? {
      OpenedIs(s, r, input, Finished(Thrown(GateError(gate))));
    } else if prior.Some? {
      OpenedIs(s, r, input, Finished(Returned(prior.value)));
    } else if resolved {
      DeliveredIs(s, r, input, ok);
    }
  }

  lemma TakenIff(messages: seq<Message>, input: Input)
    ensures IsTaken(messages, input) <==> FindByIdempotencyKey(messages, input.conversation, input.key).Some?
  {
    var found := FindByIdempotencyKey(messages, input.conversation, input.key);
    assert found.None? ==> forall m :: m in messages ==> !HasKey(m, input.conversation, input.key);
  }

  lemma OpenedIs(s: State, r: RequestId, input: Input, phase: Phase)
    ensures var s' := Opened(s, r, input, phase);
      r in s'.requests && s'.requests[r] == phase && s'.messages == s.messages && s'.gateway == s.gateway && s'.touches == s.touches
  {
  }

  lemma DeliveredIs(s: State, r: RequestId, input: Input, ok: bool)
    requires !IsTaken(s.messages, input)
    ensures var s' := Delivered(s, r, input, ok);
      r in s'.requests && s'.requests[r].Finished? && IsAnswered(s, s', r, input, Open, true, ok, s'.requests[r].result)
  {
  }

  class InboxOperatorMessageService {
    var messages: seq<Message>
    var gateway: seq<GatewayCall>
    var touches: seq<Touch>

    constructor ()
      ensures messages == [] && gateway == [] && touches == []
    {
      messages, gateway, touches := [], [], [];
    }

    /** Nothing on a duplicate key. */
    method CreateOperatorMessage(request: RequestId, input: Input) returns (created: Option<Message>)
      modifies `messages
      ensures created.None? <==> exists m :: m in old(messages) && HasKey(m, input.conversation, input.key)
      ensures created.None? ==> messages == old(messages)
      ensures created.Some? ==> messages == old(messages) + [created.value]
      ensures created.Some? ==>
        created.value == Message(|old(messages)|, input.conversation, input.key, input.author, input.text, Pending, request)
    {
      if FindByIdempotencyKey(messages, input.conversation, input.key).Some? {
        return None;
      }
      created := Some(NewMessage(messages, request, input));
      messages := messages + [created.value];
    }

    method UpdateDeliveryStatus(id: Id, delivery: Delivery) returns (updated: Option<Message>)
      modifies `messages
      ensures messages == WithDelivery(old(messages), id, delivery)
      ensures updated == if id < |messages| then Some(messages[id]) else None
    {
      if id >= |messages| {
        return None;
      }
      messages := messages[id := messages[id].(delivery := delivery)];
      updated := Some(messages[id]);
    }

    /** An uninterrupted call does what the request's steps do in a row. */
    method SendOperatorMessage(request: RequestId, input: Input, gate: Gate, resolved: bool, ok: bool) returns (result: Result)
      modifies this
      ensures var s := After(Step, State(old(messages), old(gateway), old(touches), map[], map[]), Script(request, input, gate, resolved, ok));
        && s.messages == messages && s.gateway == gateway && s.touches == touches
        && request in s.requests && s.requests[request] == Finished(result)
      ensures IsAnswered(State(old(messages), old(gateway), old(touches), map[], map[]), State(messages, gateway, touches, map[], map[]),
        request, input, gate, resolved, ok, result)
    {
      hide Step, Script;
      ghost var start := State(messages, gateway, touches, map[], map[]);
      ScriptResult(start, request, input, gate, resolved, ok);
      UninterruptedSend(start, request, input, gate, resolved, ok);
      if !gate.Open? {
        return Thrown(GateError(gate));
      }
      var prior := FindByIdempotencyKey(messages, input.conversation, input.key);
      if prior.Some? {
        return Returned(prior.value);
      }
      if !resolved {
        return Thrown(BadRequest);
      }
      var persisted := CreateOperatorMessage(request, input);
      if persisted.None? {
        assert false; // only another request can take the key between the lookup and the insert
      }
      gateway := gateway + [GatewayCall(request, persisted.value.conversation, persisted.value.id, input.text, ok)];
      var updated := UpdateDeliveryStatus(persisted.value.id, Terminal(ok));
      var finalRow := if updated.Some? then updated.value else persisted.value.(delivery := Terminal(ok));
      touches := touches + [Touch(request, input.conversation, Preview(input.text))];
      result := if ok then Returned(finalRow) else Thrown(BadGateway);
    }
  }

  /** Nothing moves a finished request. */
  lemma {:induction false} FinishedStays(s: State, r: RequestId, events: seq<Event>)
    requires r in s.requests && s.requests[r].Finished? && forall e :: e in events ==> e.request == r
    ensures After(Step, s, events) == s
  {
    if events != [] {
      FinishedStays(s, r, events[..|events| - 1]);
    }
  }

  function Opened(s: State, r: RequestId, input: Input, phase: Phase): State {
    Goto(s.(inputs := s.inputs[r := input]), r, phase)
  }

  lemma ScriptBegins(s: State, r: RequestId, input: Input, gate: Gate)
    requires r !in s.requests
    ensures Step(s, Begin(r, input, gate)) == Opened(s, r, input, if gate.Open? then Gated else Finished(Thrown(GateError(gate))))
  {
  }

  lemma ScriptFinds(s: State, r: RequestId, input: Input)
    ensures var prior := FindByIdempotencyKey(s.messages, input.conversation, input.key);
      Step(Opened(s, r, input, Gated), FindPrior(r)) == Opened(s, r, input, if prior.Some? then Finished(Returned(prior.value)) else Unsent)
  {
    hide FindByIdempotencyKey;
    assert forall p :: Goto(Opened(s, r, input, Gated), r, p) == Opened(s, r, input, p);
  }

  lemma ScriptResolves(s: State, r: RequestId, input: Input, resolved: bool)
    ensures Step(Opened(s, r, input, Unsent), Resolve(r, resolved))
      == Opened(s, r, input, if resolved then Resolved else Finished(Thrown(BadRequest)))
  {
    hide FindByIdempotencyKey;
    assert forall p :: Goto(Opened(s, r, input, Unsent), r, p) == Opened(s, r, input, p);
  }

  lemma ScriptEnded(s: State, r: RequestId, input: Input, result: Result, e: Event)
    requires e.request == r
    ensures Step(Opened(s, r, input, Finished(result)), e) == Opened(s, r, input, Finished(result))
  {
  }

  /** The first three steps end the call or get it ready to insert. */
  lemma ScriptOpens(s: State, r: RequestId, input: Input, gate: Gate, resolved: bool)
    requires r !in s.requests
    ensures var prior := FindByIdempotencyKey(s.messages, input.conversation, input.key);
      Step(Step(Step(s, Begin(r, input, gate)), FindPrior(r)), Resolve(r, resolved)) ==
        Opened(s, r, input,
          if !gate.Open? then Finished(Thrown(GateError(gate)))
          else if prior.Some? then Finished(Returned(prior.value))
          else if !resolved then Finished(Thrown(BadRequest))
          else Resolved)
  {
    hide FindByIdempotencyKey, Step, Opened;
    var prior := FindByIdempotencyKey(s.messages, input.conversation, input.key);
    ScriptBegins(s, r, input, gate);
    if !gate.Open? {
      ScriptEnded(s, r, input, Thrown(GateError(gate)), FindPrior(r));
      ScriptEnded(s, r, input, Thrown(GateError(gate)), Resolve(r, resolved));
    } else {
      ScriptFinds(s, r, input);
      if prior.Some? {
        ScriptEnded(s, r, input, Returned(prior.value), Resolve(r, resolved));
      } else {
        ScriptResolves(s, r, input, resolved);
      }
    }
  }

  lemma ScriptInserts(s: State, r: RequestId, input: Input)
    requires FindByIdempotencyKey(s.messages, input.conversation, input.key).None?
    ensures var message := NewMessage(s.messages, r, input);
      Step(Step(Opened(s, r, input, Resolved), Insert(r)), Recover(r))
        == Opened(s.(messages := s.messages + [message]), r, input, Persisted(message))
  {
    var message := NewMessage(s.messages, r, input);
    assert Goto(Opened(s.(messages := s.messages + [message]), r, input, Resolved), r, Persisted(message))
      == Opened(s.(messages := s.messages + [message]), r, input, Persisted(message));
  }

  lemma ScriptDispatches(s: State, r: RequestId, input: Input, message: Message, ok: bool)
    ensures Step(Opened(s, r, input, Persisted(message)), Dispatch(r, ok))
      == Opened(s.(gateway := s.gateway + [GatewayCall(r, message.conversation, message.id, input.text, ok)]), r, input, Dispatched(message, ok))
  {
    assert Goto(Opened(s, r, input, Persisted(message)), r, Dispatched(message, ok)) == Opened(s, r, input, Dispatched(message, ok));
  }

  lemma ScriptFinalizes(s: State, r: RequestId, input: Input, message: Message, ok: bool)
    ensures Step(Opened(s, r, input, Dispatched(message, ok)), Finalize(r))
      == Opened(s.(messages := WithDelivery(s.messages, message.id, Terminal(ok))), r, input, Finalized(message.(delivery := Terminal(ok)), ok))
  {
    var final := message.(delivery := Terminal(ok));
    assert Goto(Opened(s, r, input, Dispatched(message, ok)), r, Finalized(final, ok)) == Opened(s, r, input, Finalized(final, ok));
  }

  lemma ScriptTouches(s: State, r: RequestId, input: Input, message: Message, ok: bool)
    ensures Step(Opened(s, r, input, Finalized(message, ok)), TouchConversation(r))
      == Opened(s.(touches := s.touches + [Touch(r, input.conversation, Preview(input.text))]), r, input,
           Finished(if ok then Returned(message) else Thrown(BadGateway)))
  {
    var end := Finished(if ok then Returned(message) else Thrown(BadGateway));
    assert Goto(Opened(s, r, input, Finalized(message, ok)), r, end) == Opened(s, r, input, end);
  }

  function Delivered(s: State, r: RequestId, input: Input, ok: bool): State {
    var final := NewMessage(s.messages, r, input).(delivery := Terminal(ok));
    Opened(State(s.messages + [final], s.gateway + [GatewayCall(r, input.conversation, |s.messages|, input.text, ok)],
        s.touches + [Touch(r, input.conversation, Preview(input.text))], s.inputs, s.requests),
      r, input, Finished(if ok then Returned(final) else Thrown(BadGateway)))
  }

  /** The remaining steps insert, dispatch, finalize and touch. */
  lemma ScriptDelivers(s: State, r: RequestId, input: Input, ok: bool)
    requires FindByIdempotencyKey(s.messages, input.conversation, input.key).None?
    ensures After(Step, Opened(s, r, input, Resolved), [Insert(r), Recover(r), Dispatch(r, ok), Finalize(r), TouchConversation(r)])
      == Delivered(s, r, input, ok)
  {
    var message := NewMessage(s.messages, r, input);
    AfterFive(Step, Opened(s, r, input, Resolved), Insert(r), Recover(r), Dispatch(r, ok), Finalize(r), TouchConversation(r));
    var s1 := s.(messages := s.messages + [message]);
    var s2 := s1.(gateway := s.gateway + [GatewayCall(r, input.conversation, |s.messages|, input.text, ok)]);
    var s3 := s2.(messages := WithDelivery(s2.messages, message.id, Terminal(ok)));
    assert s3.messages == s.messages + [message.(delivery := Terminal(ok))];
    ScriptInserts(s, r, input);
    ScriptDispatches(s1, r, input, message, ok);
    ScriptFinalizes(s2, r, input, message, ok);
    ScriptTouches(s3, r, input, message.(delivery := Terminal(ok)), ok);
  }

  lemma ScriptResult(s: State, r: RequestId, input: Input, gate: Gate, resolved: bool, ok: bool)
    requires r !in s.requests
    ensures var prior := FindByIdempotencyKey(s.messages, input.conversation, input.key);
      After(Step, s, Script(r, input, gate, resolved, ok)) ==
        if !gate.Open? then Opened(s, r, input, Finished(Thrown(GateError(gate))))
        else if prior.Some? then Opened(s, r, input, Finished(Returned(prior.value)))
        else if !resolved then Opened(s, r, input, Finished(Thrown(BadRequest)))
        else Delivered(s, r, input, ok)
  {
    var rest := [Insert(r), Recover(r), Dispatch(r, ok), Finalize(r), TouchConversation(r)];
    var ready := Step(Step(Step(s, Begin(r, input, gate)), FindPrior(r)), Resolve(r, resolved));
    hide Step, Script, FindByIdempotencyKey, Delivered;
    ScriptSplits(s, r, input, gate, resolved, ok);
    ScriptOpens(s, r, input, gate, resolved);
    if ready.requests[r].Finished? {
      FinishedStays(ready, r, rest);
    } else {
      ScriptDelivers(s, r, input, ok);
    }
  }

  lemma ScriptSplits(s: State, r: RequestId, input: Input, gate: Gate, resolved: bool, ok: bool)
    ensures After(Step, s, Script(r, input, gate, resolved, ok))
      == After(Step, Step(Step(Step(s, Begin(r, input, gate)), FindPrior(r)), Resolve(r, resolved)),
           [Insert(r), Recover(r), Dispatch(r, ok), Finalize(r), TouchConversation(r)])
  {
    AfterThreeFirst(Step, s, Begin(r, input, gate), FindPrior(r), Resolve(r, resolved),
      [Insert(r), Recover(r), Dispatch(r, ok), Finalize(r), TouchConversation(r)]);
    assert Script(r, input, gate, resolved, ok)
      == [Begin(r, input, gate), FindPrior(r), Resolve(r, resolved)] + [Insert(r), Recover(r), Dispatch(r, ok), Finalize(r), TouchConversation(r)];
  }
}
