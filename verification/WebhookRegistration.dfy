/** Telegram webhook registration (client-agent.repository.ts, telegram-webhook.registrar.ts,
    webhook-registration.reconciler.ts): hire stamps, reconciler ticks on several hosts and queue workers all update the
    one row of a bot by conditional writes. The reconciler's lock is not relied on. */
module WebhookRegistration {
  import opened Wrappers
  import opened Runs

  /** What computeTelegramWebhookFingerprint makes of a URL and a token. */
  type Fingerprint = nat

  datatype Status = Pending | Registering | Registered | Failed | Quarantined

  datatype LastError = Unset | Null | Text(text: string)

  datatype Registration = Registration(
    status: Status,
    fingerprint: Option<Fingerprint>,
    lastAttemptAt: int,
    registeredAt: Option<int>,
    attemptCount: nat,
    lastError: LastError)

  /** The channel row of a bot: whether hire and channel are active, and the sub-document once it exists. */
  datatype Row = Row(active: bool, registration: Option<Registration>)

  /** A write and its conditions. In expectStatus None stands for the missing sub-document; the empty set asks nothing. */
  datatype Write = Write(
    status: Status,
    fingerprint: Option<Fingerprint>,
    lastError: Option<string>,
    incrementAttempt: bool,
    expectStatus: set<Option<Status>>,
    expectLastAttemptAtBefore: Option<int>)

  const LAST_ERROR_MAX_LENGTH := 500

  function TruncateLastError(text: string): string {
    if |text| > LAST_ERROR_MAX_LENGTH then text[..LAST_ERROR_MAX_LENGTH] else text
  }

  function StatusOf(row: Row): Option<Status> {
    if row.registration.Some? then Some(row.registration.value.status) else None
  }

  function FingerprintOf(row: Row): Option<Fingerprint> {
    if row.registration.Some? then row.registration.value.fingerprint else None
  }

  function AttemptsOf(row: Row): nat {
    if row.registration.Some? then row.registration.value.attemptCount else 0
  }

  /** The filters of the update: a missing field differs from every fingerprint and precedes no date. */
  predicate Matches(row: Row, w: Write) {
    && row.active
    && (w.status == Registering && w.fingerprint.Some? ==> FingerprintOf(row) != w.fingerprint)
    && (w.expectStatus != {} ==> StatusOf(row) in w.expectStatus)
    && (w.expectLastAttemptAtBefore.Some? ==>
          row.registration.Some? && row.registration.value.lastAttemptAt < w.expectLastAttemptAtBefore.value)
  }

  function Updated(row: Row, w: Write, now: int): Registration {
    var previous := if row.registration.Some? then row.registration.value else Registration(w.status, None, now, None, 0, Unset);
    Registration(
      w.status,
      if w.fingerprint.Some? then w.fingerprint else previous.fingerprint,
      now,
      if w.status == Registered then Some(now) else previous.registeredAt,
      previous.attemptCount + (if w.incrementAttempt then 1 else 0),
      if w.lastError.Some? then Text(TruncateLastError(w.lastError.value)) else if w.status == Registered then Null else previous.lastError)
  }

  /** One atomic conditional update. It reports a match only if it changed something, so a write that repeats the
      row to the millisecond reports none. */
  function RecordOutcome(row: Row, w: Write, now: int): (result: (Row, bool)) {
    if Matches(row, w) && row.registration != Some(Updated(row, w, now)) then (row.(registration := Some(Updated(row, w, now))), true)
    else (row, false)
  }

  /** Quarantining asks for nothing but an active row. */
  function Quarantine(row: Row, lastError: string, now: int): (result: (Row, bool)) {
    RecordOutcome(row, QuarantineWrite(lastError), now)
  }

  function QuarantineWrite(lastError: string): Write { Write(Quarantined, None, Some(lastError), false, {}, None) }

  // ----- The writes of the three parties -----

  const StampWrite := Write(Pending, None, None, false, {None, Some(Pending), Some(Failed), Some(Registering)}, None)

  const ClaimWrite := Write(Registering, None, None, false, {Some(Pending), Some(Failed), None}, None)

  function ResetWrite(cutoff: int): Write {
    Write(Failed, None, Some("reconciler:stuck_registering_reset"), false, {Some(Registering)}, Some(cutoff))
  }

  function StartWrite(fp: Fingerprint): Write { Write(Registering, Some(fp), None, false, {}, None) }

  function RegisteredWrite(fp: Fingerprint): Write { Write(Registered, Some(fp), None, false, {}, None) }

  function FailedWrite(error: string, terminal: bool): Write { Write(Failed, None, Some(error), terminal, {}, None) }

  const STUCK_REGISTERING_CUTOFF_MS := 30 * 60 * 1000

  /** The reconciler's scan. */
  predicate IsReconcilable(row: Row, cutoff: int, threshold: nat) {
    row.active &&
    match StatusOf(row)
    case None => true
    case Some(Pending) => AttemptsOf(row) < threshold
    case Some(Failed) => AttemptsOf(row) < threshold
    case Some(Registering) => row.registration.value.lastAttemptAt < cutoff && AttemptsOf(row) < threshold
    case Some(_) => false
  }

  const THRESHOLD_EXCEEDED := "reconciler:quarantine_threshold_exceeded"

  /** What a tick does to a row it scanned, given what the row looks like by now. */
  datatype Action = Reset | Quarantining | Claim

  function ActionFor(status: Option<Status>, attempts: nat, threshold: nat): Action {
    if status == Some(Registering) then Reset else if attempts >= threshold then Quarantining else Claim
  }

  function Act(row: Row, action: Action, cutoff: int, now: int): (result: (Row, bool)) {
    match action
    case Reset => RecordOutcome(row, ResetWrite(cutoff), now)
    case Quarantining => Quarantine(row, THRESHOLD_EXCEEDED, now)
    case Claim => RecordOutcome(row, ClaimWrite, now)
  }

  // ----- The transition system of one row -----

  datatype Answer = Accepted | Rejected | Transient

  type WorkerId = nat
  type TickId = nat

  /** Where one attempt of a queue job stands. A retry is a new worker. */
  datatype Worker =
    | Loaded(fp: Fingerprint)
    | Started(fp: Fingerprint)
    | Answered(fp: Fingerprint, answer: Answer)
    | Failing              // the job failed for good and its terminal write is under way
    | Reported(fp: Fingerprint) // the job returned registered: true
    | Gone

  datatype Tick = Scanned(status: Option<Status>, attempts: nat, cutoff: int) | TickDone

  /** One entry for every write that changed the row. */
  datatype Entry =
    | Stamped
    | Claimed(tick: TickId)
    | WasReset(tick: TickId)
    | WasQuarantined(tick: TickId)
    | StartedBy(worker: WorkerId)
    | RegisteredBy(worker: WorkerId)
    | FailedBy(worker: WorkerId)
    | TerminatedBy(worker: WorkerId)

  datatype Call = Call(worker: WorkerId, fp: Fingerprint, answer: Answer)
  datatype StartEntry = StartEntry(worker: WorkerId, fp: Fingerprint)

  /** entries, starts and calls are histories nothing reads. */
  datatype State = State(
    threshold: nat,
    clock: int,
    row: Row,
    workers: map<WorkerId, Worker>,
    ticks: map<TickId, Tick>,
    entries: seq<Entry>,
    starts: seq<StartEntry>,
    calls: seq<Call>)

  datatype Event =
    | ClockTicks(ms: nat)
    | SetActive(active: bool)
    | Stamp
    | Load(worker: WorkerId, fp: Fingerprint)
    | WriteStart(worker: WorkerId)
    | SetWebhook(worker: WorkerId, answer: Answer)
    | WriteAnswer(worker: WorkerId, error: string, final: bool)
    | Abort(worker: WorkerId, final: bool)
    | WriteTerminal(worker: WorkerId, error: string)
    | Scan(tick: TickId, age: nat)
    | TickActs(tick: TickId)

  /** A conditional write together with its entry in the history. */
  function Apply(s: State, result: (Row, bool), entry: Entry): State {
    if result.1 then s.(row := result.0, entries := s.entries + [entry]) else s
  }

  function MoveWorker(s: State, w: WorkerId, worker: Worker): State {
    s.(workers := s.workers[w := worker])
  }

  function StepWorker(s: State, w: WorkerId, e: Event): State {
    if e.Load? && w !in s.workers then
      if !s.row.active then MoveWorker(s, w, Failing)
      else if StatusOf(s.row) == Some(Registered) && FingerprintOf(s.row) == Some(e.fp) then MoveWorker(s, w, Reported(e.fp))
      else MoveWorker(s, w, Loaded(e.fp))
    else if w !in s.workers then s
    else
      match (e, s.workers[w])
      case (WriteStart(_), Loaded(fp)) =>
        var result := RecordOutcome(s.row, StartWrite(fp), s.clock);
        if result.1 then
          MoveWorker(Apply(s, result, StartedBy(w)).(starts := s.starts + [StartEntry(w, fp)]), w, Started(fp))
        else MoveWorker(s, w, Reported(fp))
      case (SetWebhook(_, answer), Started(fp)) =>
        MoveWorker(s.(calls := s.calls + [Call(w, fp, answer)]), w, Answered(fp, answer))
      case (WriteAnswer(_, error, final), Answered(fp, answer)) =>
        if answer.Accepted? then
          MoveWorker(Apply(s, RecordOutcome(s.row, RegisteredWrite(fp), s.clock), RegisteredBy(w)), w, Reported(fp))
        else
          MoveWorker(Apply(s, RecordOutcome(s.row, FailedWrite(error, false), s.clock), FailedBy(w)), w,
            if answer.Rejected? || final then Failing else Gone)
      case (Abort(_, final), worker) =>
        if worker.Reported? || worker.Failing? || worker.Gone? then s else MoveWorker(s, w, if final then Failing else Gone)
      case (WriteTerminal(_, error), Failing) =>
        MoveWorker(Apply(s, RecordOutcome(s.row, FailedWrite(error, true), s.clock), TerminatedBy(w)), w, Gone)
      case _ => s
  }

  function StepTick(s: State, t: TickId, e: Event): State {
    if e.Scan? then
      var cutoff := s.clock - e.age - STUCK_REGISTERING_CUTOFF_MS;
      if t in s.ticks || !IsReconcilable(s.row, cutoff, s.threshold) then s
      else s.(ticks := s.ticks[t := Scanned(StatusOf(s.row), AttemptsOf(s.row), cutoff)])
    else if e.TickActs? && t in s.ticks && s.ticks[t].Scanned? then
      var scanned := s.ticks[t];
      var action := ActionFor(scanned.status, scanned.attempts, s.threshold);
      var entry := match action case Reset => WasReset(t) case Quarantining => WasQuarantined(t) case Claim => Claimed(t);
      Apply(s, Act(s.row, action, scanned.cutoff, s.clock), entry).(ticks := s.ticks[t := TickDone])
    else s
  }

  function Step(s: State, e: Event): State {
    match e
    case ClockTicks(ms) => s.(clock := s.clock + ms)
    case SetActive(active) => s.(row := s.row.(active := active))
    case Stamp => Apply(s, RecordOutcome(s.row, StampWrite, s.clock), Stamped)
    case Scan(t, _) => StepTick(s, t, e)
    case TickActs(t) => StepTick(s, t, e)
    case _ => StepWorker(s, e.worker, e)
  }

  const DEFAULT_QUARANTINE_THRESHOLD := 4

  /** The configured threshold; anything missing or below one falls back to four. */
  function QuarantineThreshold(raw: Option<int>): (threshold: nat)
    ensures threshold >= 1
    ensures raw.Some? && raw.value >= 1 ==> threshold == raw.value
    ensures raw.None? || raw.value < 1 ==> threshold == 4
  {
    if raw.None? || raw.value < 1 then DEFAULT_QUARANTINE_THRESHOLD else raw.value
  }

  /** A bot just hired: no registration yet, nobody at work. */
  function Start(threshold: Option<int>, clock: int): State {
    State(QuarantineThreshold(threshold), clock, Row(true, None), map[], map[], [], [], [])
  }

  function Reached(threshold: Option<int>, clock: int, events: seq<Event>): State {
    After(Step, Start(threshold, clock), events)
  }

  // ----- A registered row was accepted by Telegram -----

  ghost predicate AcceptedFor(calls: seq<Call>, fp: Fingerprint) {
    exists c :: c in calls && c.fp == fp && c.answer.Accepted?
  }

  ghost predicate RegisteredIsAccepted(s: State) {
    && (StatusOf(s.row) == Some(Registered) ==> FingerprintOf(s.row).Some? && AcceptedFor(s.calls, FingerprintOf(s.row).value))
    && (forall w :: w in s.workers && s.workers[w].Answered? ==> Call(w, s.workers[w].fp, s.workers[w].answer) in s.calls)
  }

  /** Only a worker's accepted answer makes a row registered; other writes keep the fingerprint of one that is. */
  lemma RegisteredBySomebody(s: State, e: Event)
    requires StatusOf(Step(s, e).row) == Some(Registered) && !(StatusOf(s.row) == Some(Registered) && FingerprintOf(Step(s, e).row) == FingerprintOf(s.row))
    ensures e.WriteAnswer? && e.worker in s.workers && s.workers[e.worker].Answered? && s.workers[e.worker].answer.Accepted?
    ensures FingerprintOf(Step(s, e).row) == Some(s.workers[e.worker].fp) && Step(s, e).calls == s.calls
  {
  }

  lemma AnswersStayRecorded(s: State, e: Event)
    requires forall w :: w in s.workers && s.workers[w].Answered? ==> Call(w, s.workers[w].fp, s.workers[w].answer) in s.calls
    ensures var s' := Step(s, e);
      (forall w :: w in s'.workers && s'.workers[w].Answered? ==> Call(w, s'.workers[w].fp, s'.workers[w].answer) in s'.calls)
      && forall c :: c in s.calls ==> c in s'.calls
  {
  }

  lemma RegisteredStep(s: State, e: Event)
    requires RegisteredIsAccepted(s)
    ensures RegisteredIsAccepted(Step(s, e))
  {
    var s' := Step(s, e);
    AnswersStayRecorded(s, e);
    if StatusOf(s'.row) == Some(Registered) {
      if StatusOf(s.row) == Some(Registered) && FingerprintOf(s'.row) == FingerprintOf(s.row) {
      } else {
        RegisteredBySomebody(s, e);
        assert Call(e.worker, s.workers[e.worker].fp, s.workers[e.worker].answer) in s'.calls;
      }
    }
  }

  /** In every interleaving a row with status registered carries a fingerprint that Telegram accepted earlier. */
  lemma RegisteredImpliesAccepted(threshold: Option<int>, clock: int, events: seq<Event>)
    requires StatusOf(Reached(threshold, clock, events).row) == Some(Registered)
    ensures var s := Reached(threshold, clock, events);
      FingerprintOf(s.row).Some? && AcceptedFor(s.calls, FingerprintOf(s.row).value)
  {
    forall s, e | RegisteredIsAccepted(s) ensures RegisteredIsAccepted(Step(s, e)) { RegisteredStep(s, e); }
    InvariantHolds(Step, RegisteredIsAccepted, Start(threshold, clock), events);
  }

  // ----- At most one setWebhook call while URL and token stay fixed -----

  /** Every load computes the same fingerprint. */
  predicate FixedConfig(events: seq<Event>, fp: Fingerprint) {
    forall e :: e in events && e.Load? ==> e.fp == fp
  }

  ghost predicate WorkerUses(worker: Worker, fp: Fingerprint) {
    (worker.Loaded? || worker.Started? || worker.Answered? || worker.Reported?) ==> worker.fp == fp
  }

  /** The one start there can be has stored the fingerprint, and the one call was made by the worker that started. */
  ghost predicate OneStart(s: State, fp: Fingerprint) {
    && (forall w :: w in s.workers ==> WorkerUses(s.workers[w], fp))
    && (s.starts == [] || (|s.starts| == 1 && s.starts[0].fp == fp && FingerprintOf(s.row) == Some(fp) && s.starts[0].worker in s.workers))
    && (forall w :: w in s.workers && (s.workers[w].Started? || s.workers[w].Answered?) ==> s.starts == [StartEntry(w, fp)])
    && (s.calls == [] || (s.starts != [] && |s.calls| == 1 && s.calls[0].worker == s.starts[0].worker && s.calls[0].fp == fp
          && !s.workers[s.starts[0].worker].Started?))
    && (forall w :: w in s.workers && s.workers[w].Answered? ==> s.calls == [Call(w, fp, s.workers[w].answer)])
    && (StatusOf(s.row) == Some(Registered) ==> s.calls != [] && s.calls[0].answer.Accepted?)
  }

  /** A step that leaves workers and calls alone and does not register keeps it. */
  lemma OneStartRow(s: State, s': State, fp: Fingerprint)
    requires OneStart(s, fp)
    requires s'.workers == s.workers && s'.starts == s.starts && s'.calls == s.calls
    requires FingerprintOf(s'.row) == FingerprintOf(s.row)
    requires StatusOf(s'.row) == Some(Registered) ==> StatusOf(s.row) == Some(Registered)
    ensures OneStart(s', fp)
  {
  }

  lemma OneStartLoads(s: State, w: WorkerId, fp: Fingerprint)
    requires OneStart(s, fp)
    ensures OneStart(Step(s, Load(w, fp)), fp)
  {
  }

  lemma OneStartBegins(s: State, w: WorkerId, fp: Fingerprint)
    requires OneStart(s, fp)
    ensures OneStart(Step(s, WriteStart(w)), fp)
  {
  }

  lemma OneStartCalls(s: State, w: WorkerId, answer: Answer, fp: Fingerprint)
    requires OneStart(s, fp)
    ensures OneStart(Step(s, SetWebhook(w, answer)), fp)
  {
    if w in s.workers && s.workers[w].Started? {
      assert WorkerUses(s.workers[w], fp);
      assert s.calls == [];
    }
  }

  lemma OneStartAnswers(s: State, w: WorkerId, error: string, final: bool, fp: Fingerprint)
    requires OneStart(s, fp)
    ensures OneStart(Step(s, WriteAnswer(w, error, final)), fp)
  {
  }

  lemma OneStartAborts(s: State, w: WorkerId, final: bool, fp: Fingerprint)
    requires OneStart(s, fp)
    ensures OneStart(Step(s, Abort(w, final)), fp)
  {
  }

  lemma OneStartTerminates(s: State, w: WorkerId, error: string, fp: Fingerprint)
    requires OneStart(s, fp)
    ensures OneStart(Step(s, WriteTerminal(w, error)), fp)
  {
  }

  lemma OneStartTicks(s: State, e: Event, fp: Fingerprint)
    requires OneStart(s, fp) && (e.Scan? || e.TickActs?)
    ensures OneStart(Step(s, e), fp)
  {
    OneStartRow(s, StepTick(s, e.tick, e), fp);
  }

  lemma OneStartOthers(s: State, e: Event, fp: Fingerprint)
    requires OneStart(s, fp) && (e.ClockTicks? || e.SetActive? || e.Stamp?)
    ensures OneStart(Step(s, e), fp)
  {
    OneStartRow(s, Step(s, e), fp);
  }

  lemma OneStartWorker(s: State, e: Event, fp: Fingerprint)
    requires OneStart(s, fp) && (e.Load? ==> e.fp == fp)
    requires !(e.ClockTicks? || e.SetActive? || e.Stamp? || e.Scan? || e.TickActs?)
    ensures OneStart(Step(s, e), fp)
  {
    if e.Load? { OneStartLoads(s, e.worker, fp); }
    else if e.WriteStart? { OneStartBegins(s, e.worker, fp); }
    else if e.SetWebhook? { OneStartCalls(s, e.worker, e.answer, fp); }
    else if e.WriteAnswer? { OneStartAnswers(s, e.worker, e.error, e.final, fp); }
    else if e.Abort? { OneStartAborts(s, e.worker, e.final, fp); }
    else { OneStartTerminates(s, e.worker, e.error, fp); }
  }

  lemma OneStartStep(s: State, e: Event, fp: Fingerprint)
    requires OneStart(s, fp) && (e.Load? ==> e.fp == fp)
    ensures OneStart(Step(s, e), fp)
  {
    if e.ClockTicks? || e.SetActive? || e.Stamp? {
      OneStartOthers(s, e, fp);
    } else if e.Scan? || e.TickActs? {
      OneStartTicks(s, e, fp);
    } else {
      OneStartWorker(s, e, fp);
    }
  }

  lemma {:induction false} OneStartHolds(threshold: Option<int>, clock: int, events: seq<Event>, fp: Fingerprint)
    requires FixedConfig(events, fp)
    ensures OneStart(Reached(threshold, clock, events), fp)
  {
    if events != [] {
      OneStartHolds(threshold, clock, events[..|events| - 1], fp);
      OneStartStep(Reached(threshold, clock, events[..|events| - 1]), events[|events| - 1], fp);
    }
  }

  /** While URL and token stay fixed, at most one setWebhook call is ever started, and the row is registered
      only if that very call was accepted. */
  lemma AtMostOneSetWebhook(threshold: Option<int>, clock: int, events: seq<Event>, fp: Fingerprint)
    requires FixedConfig(events, fp)
    ensures var s := Reached(threshold, clock, events);
      |s.starts| <= 1 && |s.calls| <= 1
      && (StatusOf(s.row) == Some(Registered) ==> |s.calls| == 1 && s.calls[0].answer == Accepted && s.calls[0].fp == fp)
  {
    OneStartHolds(threshold, clock, events, fp);
  }

  // ----- Why registration is not guaranteed -----

  /** The fingerprint is stored, the row is not registered, and nobody is between claiming and answering. */
  ghost predicate IsStuck(s: State, fp: Fingerprint) {
    && FingerprintOf(s.row) == Some(fp)
    && StatusOf(s.row) != Some(Registered)
    && (forall w :: w in s.workers ==> WorkerUses(s.workers[w], fp) && !s.workers[w].Started?)
    && (forall w :: w in s.workers && s.workers[w].Answered? ==> !s.workers[w].answer.Accepted?)
  }

  lemma StuckStep(s: State, e: Event, fp: Fingerprint)
    requires IsStuck(s, fp) && (e.Load? ==> e.fp == fp)
    ensures IsStuck(Step(s, e), fp) && Step(s, e).calls == s.calls
  {
  }

  /** A stuck row stays unregistered and is never tried again for as long as URL and token stay fixed. */
  lemma {:induction false} StuckForever(s: State, events: seq<Event>, fp: Fingerprint)
    requires IsStuck(s, fp) && FixedConfig(events, fp)
    ensures IsStuck(After(Step, s, events), fp) && After(Step, s, events).calls == s.calls
  {
    if events != [] {
      StuckForever(s, events[..|events| - 1], fp);
      StuckStep(After(Step, s, events[..|events| - 1]), events[|events| - 1], fp);
    }
  }

  lemma {:induction false} FreshId(ids: set<WorkerId>) returns (w: WorkerId)
    ensures forall x :: x in ids ==> x < w
  {
    if ids == {} {
      w := 0;
    } else {
      var x :| x in ids;
      var v := FreshId(ids - {x});
      w := if v > x then v else x + 1;
      assert forall y :: y in ids ==> y == x || y in ids - {x};
    }
  }

  lemma AcceptedCompletes(s: State, w: WorkerId, fp: Fingerprint)
    requires w in s.workers && s.workers[w] == Answered(fp, Accepted)
    ensures StatusOf(Step(Step(s, SetActive(true)), WriteAnswer(w, "", false)).row) == Some(Registered)
  {
    var s1 := Step(s, SetActive(true));
    assert Matches(s1.row, RegisteredWrite(fp));
    var result := RecordOutcome(s1.row, RegisteredWrite(fp), s1.clock);
    assert StatusOf(result.0) == Some(Registered);
    assert Step(s1, WriteAnswer(w, "", false)).row == Apply(s1, result, RegisteredBy(w)).row;
  }

  lemma StartedCompletes(s: State, w: WorkerId, fp: Fingerprint) returns (more: seq<Event>)
    requires w in s.workers && s.workers[w] == Started(fp)
    ensures FixedConfig(more, fp) && StatusOf(After(Step, s, more).row) == Some(Registered)
  {
    more := [SetWebhook(w, Accepted), SetActive(true), WriteAnswer(w, "", false)];
    AfterThreeFirst(Step, s, more[0], more[1], more[2], []);
    assert more + [] == more;
    AcceptedCompletes(Step(s, more[0]), w, fp);
  }

  lemma FreshStarts(s: State, w: WorkerId, fp: Fingerprint)
    requires w !in s.workers && FingerprintOf(s.row) != Some(fp)
    ensures var s' := Step(Step(Step(s, SetActive(true)), Load(w, fp)), WriteStart(w)); w in s'.workers && s'.workers[w] == Started(fp)
  {
  }

  /** Unless the row is stuck there is always a way to register it: reload, or let the worker that started finish. */
  lemma UnstuckCompletes(s: State, fp: Fingerprint) returns (more: seq<Event>)
    requires !IsStuck(s, fp) && forall w :: w in s.workers ==> WorkerUses(s.workers[w], fp)
    ensures FixedConfig(more, fp) && StatusOf(After(Step, s, more).row) == Some(Registered)
  {
    if StatusOf(s.row) == Some(Registered) {
      more := [];
    } else if FingerprintOf(s.row) != Some(fp) {
      var w := FreshId(s.workers.Keys);
      var first := [SetActive(true), Load(w, fp), WriteStart(w)];
      FreshStarts(s, w, fp);
      AfterThreeFirst(Step, s, first[0], first[1], first[2], []);
      assert first + [] == first;
      var rest := StartedCompletes(After(Step, s, first), w, fp);
      AfterConcat(Step, s, first, rest);
      more := first + rest;
    } else if w :| w in s.workers && s.workers[w].Started? {
      assert WorkerUses(s.workers[w], fp);
      more := StartedCompletes(s, w, fp);
    } else {
      var w :| w in s.workers && s.workers[w].Answered? && s.workers[w].answer.Accepted?;
      assert WorkerUses(s.workers[w], fp);
      more := [SetActive(true), WriteAnswer(w, "", false)];
      AcceptedCompletes(s, w, fp);
      AfterFirst(Step, s, more[0], [more[1]]);
      AfterFirst(Step, Step(s, more[0]), more[1], []);
      assert more == [more[0]] + [more[1]] && [more[1]] + [] == [more[1]];
    }
  }

  ghost predicate NeverRegisters(s: State, fp: Fingerprint) {
    forall more :: FixedConfig(more, fp) ==> StatusOf(After(Step, s, more).row) != Some(Registered)
  }

  /** When registration is out of reach: in a reachable state, while URL and token stay fixed, no continuation registers
      the row if and only if it is stuck. */
  lemma NeverRegistersIffStuck(threshold: Option<int>, clock: int, events: seq<Event>, fp: Fingerprint)
    requires FixedConfig(events, fp)
    ensures NeverRegisters(Reached(threshold, clock, events), fp) <==> IsStuck(Reached(threshold, clock, events), fp)
  {
    var s := Reached(threshold, clock, events);
    OneStartHolds(threshold, clock, events, fp);
    if IsStuck(s, fp) {
      forall more | FixedConfig(more, fp) ensures StatusOf(After(Step, s, more).row) != Some(Registered) {
        StuckForever(s, more, fp);
      }
    } else {
      var more := UnstuckCompletes(s, fp);
    }
  }

  /** The first call failing for a passing reason is enough to get there, whatever retries follow. */
  lemma TransientFailureIsFinal(threshold: Option<int>, clock: int, fp: Fingerprint, error: string, retries: seq<Event>)
    requires FixedConfig(retries, fp)
    ensures var events := [Load(0, fp), WriteStart(0), SetWebhook(0, Transient), WriteAnswer(0, error, false)];
      StatusOf(Reached(threshold, clock, events + retries).row) != Some(Registered)
      && Reached(threshold, clock, events + retries).calls == [Call(0, fp, Transient)]
  {
    var start := Start(threshold, clock);
    var events := [Load(0, fp), WriteStart(0), SetWebhook(0, Transient), WriteAnswer(0, error, false)];
    AfterConcat(Step, start, events, retries);
    AfterFour(Step, start, events[0], events[1], events[2], events[3]);
    FirstTwoSteps(start, fp);
    FailingSteps(Step(Step(start, Load(0, fp)), WriteStart(0)), fp, error);
    StuckForever(After(Step, start, events), retries, fp);
  }

  lemma FirstTwoSteps(s: State, fp: Fingerprint)
    requires s.row == Row(true, None) && s.workers == map[] && s.calls == []
    ensures var s' := Step(Step(s, Load(0, fp)), WriteStart(0));
      s'.workers == map[0 := Started(fp)] && FingerprintOf(s'.row) == Some(fp) && s'.row.active && s'.calls == []
  {
  }

  lemma FailingSteps(s: State, fp: Fingerprint, error: string)
    requires s.workers == map[0 := Started(fp)] && FingerprintOf(s.row) == Some(fp) && s.row.active && s.calls == []
    ensures var s' := Step(Step(s, SetWebhook(0, Transient)), WriteAnswer(0, error, false));
      IsStuck(s', fp) && s'.calls == [Call(0, fp, Transient)] && s'.row.active && s'.workers.Keys == {0}
  {
    var s1 := Step(s, SetWebhook(0, Transient));
    assert s1.workers[0] == Answered(fp, Transient) && s1.calls == [Call(0, fp, Transient)];
  }

  // ----- When a job that reports success has a registered row -----

  /** A job comes to report success in one of three ways, and whichever it is, its row is registered then if and only if
      it was registered before or the step writes the job's accepted answer to an active row. */
  lemma ReportIsTrueIff(s: State, e: Event, w: WorkerId)
    requires !(w in s.workers && s.workers[w].Reported?)
    requires w in Step(s, e).workers && Step(s, e).workers[w].Reported?
    ensures e.Load? || e.WriteStart? || (e.WriteAnswer? && s.workers[w].answer.Accepted?)
    ensures StatusOf(Step(s, e).row) == Some(Registered) <==> StatusOf(s.row) == Some(Registered) || (e.WriteAnswer? && s.row.active)
  {
    if e.WriteAnswer? && e.worker in s.workers && s.workers[e.worker].Answered? {
      var fp := s.workers[e.worker].fp;
      assert s.row.active ==> Matches(s.row, RegisteredWrite(fp));
      assert s.row.active ==> StatusOf(RecordOutcome(s.row, RegisteredWrite(fp), s.clock).0) == Some(Registered);
    }
  }

  function LoadedAndStarted(s: State, w: WorkerId, fp: Fingerprint): State {
    Step(Step(s, Load(w, fp)), WriteStart(w))
  }

  lemma FreshJob(s: State, w: WorkerId, fp: Fingerprint)
    requires w !in s.workers && s.row.active && StatusOf(s.row) != Some(Registered)
    ensures var s' := LoadedAndStarted(s, w, fp);
      if FingerprintOf(s.row) == Some(fp) then s' == s.(workers := s.workers[w := Reported(fp)])
      else w in s'.workers && s'.workers[w] == Started(fp)
  {
    var s1 := Step(s, Load(w, fp));
    assert s1 == s.(workers := s.workers[w := Loaded(fp)]);
    assert s.workers[w := Loaded(fp)][w := Reported(fp)] == s.workers[w := Reported(fp)];
  }

  lemma ReporterChangesNothing(s: State, w: WorkerId, fp: Fingerprint)
    requires w !in s.workers
    ensures IsStuck(s.(workers := s.workers[w := Reported(fp)]), fp) <==> IsStuck(s, fp)
  {
    var s' := s.(workers := s.workers[w := Reported(fp)]);
    assert forall v :: v in s.workers ==> v in s'.workers && s'.workers[v] == s.workers[v];
  }

  /** In every reachable state, while URL and token stay fixed, a new job on an active row that is not registered reports
      success if and only if the fingerprint is stored, and does nothing else then; and its report stays false for good
      if and only if the row is stuck. */
  lemma StuckJobsReportSuccess(threshold: Option<int>, clock: int, events: seq<Event>, w: WorkerId, fp: Fingerprint)
    requires FixedConfig(events, fp)
    requires var s := Reached(threshold, clock, events); w !in s.workers && s.row.active && StatusOf(s.row) != Some(Registered)
    ensures var s := Reached(threshold, clock, events);
      var s' := LoadedAndStarted(s, w, fp);
      && w in s'.workers && (s'.workers[w] == Reported(fp) <==> FingerprintOf(s.row) == Some(fp))
      && (s'.workers[w] == Reported(fp) ==> s'.row == s.row && s'.calls == s.calls)
      && (s'.workers[w] == Reported(fp) && NeverRegisters(s', fp) <==> IsStuck(s, fp))
  {
    hide Step, IsStuck, NeverRegisters;
    var s := Reached(threshold, clock, events);
    var job := [Load(w, fp), WriteStart(w)];
    FreshJob(s, w, fp);
    if FingerprintOf(s.row) == Some(fp) {
      JobIsARun(threshold, clock, events, w, fp);
      NeverRegistersIffStuck(threshold, clock, events + job, fp);
      ReporterChangesNothing(s, w, fp);
    } else {
      UnstoredIsNotStuck(s, fp);
    }
  }

  lemma JobIsARun(threshold: Option<int>, clock: int, events: seq<Event>, w: WorkerId, fp: Fingerprint)
    requires FixedConfig(events, fp)
    ensures FixedConfig(events + [Load(w, fp), WriteStart(w)], fp)
    ensures Reached(threshold, clock, events + [Load(w, fp), WriteStart(w)]) == LoadedAndStarted(Reached(threshold, clock, events), w, fp)
  {
    hide Step;
    var s := Reached(threshold, clock, events);
    AfterConcat(Step, Start(threshold, clock), events, [Load(w, fp), WriteStart(w)]);
    AfterFirst(Step, s, Load(w, fp), [WriteStart(w)]);
    AfterFirst(Step, Step(s, Load(w, fp)), WriteStart(w), []);
    assert [Load(w, fp)] + [WriteStart(w)] == [Load(w, fp), WriteStart(w)] && [WriteStart(w)] + [] == [WriteStart(w)];
  }

  lemma UnstoredIsNotStuck(s: State, fp: Fingerprint)
    requires FingerprintOf(s.row) != Some(fp)
    ensures !IsStuck(s, fp)
  {
  }

  /** A run to such a report: the first job's call fails in passing, the second job reports success on the failed row. */
  lemma FalseReportRun(threshold: Option<int>, clock: int, fp: Fingerprint, error: string)
    ensures var events := [Load(0, fp), WriteStart(0), SetWebhook(0, Transient), WriteAnswer(0, error, false)];
      var s := Reached(threshold, clock, events + [Load(1, fp), WriteStart(1)]);
      1 in s.workers && s.workers[1] == Reported(fp) && NeverRegisters(s, fp)
  {
    hide Step, IsStuck, NeverRegisters;
    var start := Start(threshold, clock);
    var events := [Load(0, fp), WriteStart(0), SetWebhook(0, Transient), WriteAnswer(0, error, false)];
    AfterFour(Step, start, events[0], events[1], events[2], events[3]);
    FirstTwoSteps(start, fp);
    FailingSteps(Step(Step(start, Load(0, fp)), WriteStart(0)), fp, error);
    StuckIsUnregistered(Reached(threshold, clock, events), fp);
    StuckIsStored(Reached(threshold, clock, events), fp);
    StuckJobsReportSuccess(threshold, clock, events, 1, fp);
    JobIsARun(threshold, clock, events, 1, fp);
  }

  lemma StuckIsStored(s: State, fp: Fingerprint)
    requires IsStuck(s, fp)
    ensures FingerprintOf(s.row) == Some(fp)
  {
  }

  // ----- After a change of URL or token -----

  predicate AtWork(worker: Worker) {
    worker.Loaded? || worker.Started? || worker.Answered?
  }

  ghost predicate AllUse(s: State, fp: Fingerprint) {
    forall w :: w in s.workers && AtWork(s.workers[w]) ==> s.workers[w].fp == fp
  }

  function Calling(s: State): set<WorkerId> {
    set w | w in s.workers && s.workers[w].Started?
  }

  /** How many starts the new fingerprint still has to come. */
  function StartsLeft(s: State, fp: Fingerprint): nat {
    if FingerprintOf(s.row) == Some(fp) then 0 else 1
  }

  /** What has happened since s, with every load computing fp. */
  ghost predicate Since(s: State, s': State, fp: Fingerprint) {
    && AllUse(s', fp)
    && s.starts <= s'.starts && s.calls <= s'.calls
    && |s'.starts| + StartsLeft(s', fp) <= |s.starts| + StartsLeft(s, fp)
    && |s'.calls| + |Calling(s')| <= |s.calls| + |Calling(s)| + |s'.starts| - |s.starts|
    && (|s'.starts| > |s.starts| ==> FingerprintOf(s'.row) == Some(fp))
    && forall k :: |s.calls| <= k < |s'.calls| ==> s'.calls[k].fp == fp
  }

  lemma FingerprintAfter(row: Row, w: Write, now: int)
    ensures var row' := RecordOutcome(row, w, now).0;
      FingerprintOf(row') == FingerprintOf(row) || (w.fingerprint.Some? && FingerprintOf(row') == w.fingerprint)
  {
  }

  lemma SinceStarts(s: State, s': State, w: WorkerId, fp: Fingerprint)
    requires Since(s, s', fp)
    ensures Since(s, Step(s', WriteStart(w)), fp)
  {
    var t := Step(s', WriteStart(w));
    if t.starts != s'.starts {
      assert Calling(t) == Calling(s') + {w};
    } else {
      assert Calling(t) == Calling(s');
    }
  }

  lemma SinceCalls(s: State, s': State, w: WorkerId, answer: Answer, fp: Fingerprint)
    requires Since(s, s', fp)
    ensures Since(s, Step(s', SetWebhook(w, answer)), fp)
  {
    var t := Step(s', SetWebhook(w, answer));
    if t.calls != s'.calls {
      assert Calling(t) == Calling(s') - {w} && w in Calling(s');
    }
  }

  lemma SinceAnswers(s: State, s': State, w: WorkerId, error: string, final: bool, fp: Fingerprint)
    requires Since(s, s', fp)
    ensures Since(s, Step(s', WriteAnswer(w, error, final)), fp)
  {
    hide RecordOutcome;
    if w in s'.workers && s'.workers[w].Answered? {
      FingerprintAfter(s'.row, RegisteredWrite(s'.workers[w].fp), s'.clock);
      FingerprintAfter(s'.row, FailedWrite(error, false), s'.clock);
    }
    assert Calling(Step(s', WriteAnswer(w, error, final))) == Calling(s');
  }

  lemma SinceEnds(s: State, s': State, e: Event, fp: Fingerprint)
    requires Since(s, s', fp) && (e.Abort? || e.WriteTerminal?)
    ensures Since(s, Step(s', e), fp)
  {
    assert Calling(Step(s', e)) == Calling(s') || Calling(Step(s', e)) == Calling(s') - {e.worker};
  }

  lemma SinceLoads(s: State, s': State, w: WorkerId, fp: Fingerprint)
    requires Since(s, s', fp)
    ensures Since(s, Step(s', Load(w, fp)), fp)
  {
    assert Calling(Step(s', Load(w, fp))) == Calling(s');
  }

  lemma SinceOthers(s: State, s': State, e: Event, fp: Fingerprint)
    requires Since(s, s', fp) && (e.ClockTicks? || e.SetActive? || e.Stamp? || e.Scan? || e.TickActs?)
    ensures Since(s, Step(s', e), fp)
  {
    assert Calling(Step(s', e)) == Calling(s');
  }

  lemma SinceStep(s: State, s': State, e: Event, fp: Fingerprint)
    requires Since(s, s', fp) && (e.Load? ==> e.fp == fp)
    ensures Since(s, Step(s', e), fp)
  {
    hide Since, Step;
    match e
    case Load(w, _) => SinceLoads(s, s', w, fp);
    case WriteStart(w) => SinceStarts(s, s', w, fp);
    case SetWebhook(w, answer) => SinceCalls(s, s', w, answer, fp);
    case WriteAnswer(w, error, final) => SinceAnswers(s, s', w, error, final, fp);
    case Abort(_, _) => SinceEnds(s, s', e, fp);
    case WriteTerminal(_, _) => SinceEnds(s, s', e, fp);
    case _ => SinceOthers(s, s', e, fp);
  }

  /** From any state in which no job of another fingerprint is at work, whatever was configured before: at most one more
      start, at most one more call beside those already started, and all of them for the new fingerprint, which the row
      keeps from its start on. */
  lemma {:induction false} ChangeBoundsCalls(s: State, more: seq<Event>, fp: Fingerprint)
    requires AllUse(s, fp) && FixedConfig(more, fp)
    ensures Since(s, After(Step, s, more), fp)
  {
    if more != [] {
      ChangeBoundsCalls(s, more[..|more| - 1], fp);
      SinceStep(s, After(Step, s, more[..|more| - 1]), more[|more| - 1], fp);
    }
  }

  /** So when a change finds no job at work, the row carries the fingerprint of every call made since. */
  lemma QuietChangeIsFollowed(s: State, more: seq<Event>, fp: Fingerprint)
    requires FixedConfig(more, fp) && forall w :: w in s.workers ==> !AtWork(s.workers[w])
    ensures var s' := After(Step, s, more);
      && |s'.calls| <= |s.calls| + 1
      && (|s'.calls| > |s.calls| ==> FingerprintOf(s'.row) == Some(fp) && s'.calls[|s.calls|].fp == fp)
  {
    ChangeBoundsCalls(s, more, fp);
    assert Calling(s) == {};
  }

  /** What Telegram accepted last. */
  function LastAccepted(calls: seq<Call>): Option<Fingerprint> {
    if calls == [] then None
    else if calls[|calls| - 1].answer.Accepted? then Some(calls[|calls| - 1].fp)
    else LastAccepted(calls[..|calls| - 1])
  }

  /** The job may still write the registered status. */
  predicate CanRegister(worker: Worker) {
    worker.Loaded? || worker.Started? || (worker.Answered? && worker.answer.Accepted?)
  }

  /** A load computes another fingerprint only when no job that uses an earlier one can still register it. */
  predicate IsQuietAt(s: State, e: Event) {
    e.Load? ==> forall w :: w in s.workers && CanRegister(s.workers[w]) ==> s.workers[w].fp == e.fp
  }

  ghost predicate IsQuietRun(s: State, events: seq<Event>) {
    forall k: nat :: k < |events| ==> IsQuietAt(After(Step, s, events[..k]), events[k])
  }

  ghost predicate FollowsTelegram(s: State) {
    && (forall w, v :: w in s.workers && v in s.workers && CanRegister(s.workers[w]) && CanRegister(s.workers[v]) ==> s.workers[w].fp == s.workers[v].fp)
    && (forall w :: w in s.workers && CanRegister(s.workers[w]) && !s.workers[w].Loaded? ==> FingerprintOf(s.row) == Some(s.workers[w].fp))
    && (forall w :: w in s.workers && s.workers[w].Answered? && s.workers[w].answer.Accepted? ==> LastAccepted(s.calls) == Some(s.workers[w].fp))
    && (StatusOf(s.row) == Some(Registered) ==> LastAccepted(s.calls) == FingerprintOf(s.row))
  }

  lemma FollowsStart(s: State, w: WorkerId)
    requires FollowsTelegram(s)
    ensures FollowsTelegram(Step(s, WriteStart(w)))
  {
    hide RecordOutcome, LastAccepted;
    if w in s.workers && s.workers[w].Loaded? {
      WriteEffect(s.row, StartWrite(s.workers[w].fp), s.clock);
    }
  }

  lemma FollowsCall(s: State, w: WorkerId, answer: Answer)
    requires FollowsTelegram(s)
    ensures FollowsTelegram(Step(s, SetWebhook(w, answer)))
  {
  }

  lemma FollowsAnswer(s: State, w: WorkerId, error: string, final: bool)
    requires FollowsTelegram(s)
    ensures FollowsTelegram(Step(s, WriteAnswer(w, error, final)))
  {
    hide RecordOutcome, LastAccepted;
    if w in s.workers && s.workers[w].Answered? {
      WriteEffect(s.row, RegisteredWrite(s.workers[w].fp), s.clock);
      WriteEffect(s.row, FailedWrite(error, false), s.clock);
    }
  }

  /** The other events neither register a row nor change its fingerprint, and only a load puts a job to work. */
  lemma OtherEffects(s: State, e: Event)
    requires !(e.WriteStart? || e.SetWebhook? || e.WriteAnswer?)
    ensures var s' := Step(s, e);
      && s'.calls == s.calls && FingerprintOf(s'.row) == FingerprintOf(s.row)
      && (StatusOf(s'.row) == Some(Registered) ==> StatusOf(s.row) == Some(Registered))
      && forall v :: v in s'.workers && CanRegister(s'.workers[v]) ==>
        (v in s.workers && s'.workers[v] == s.workers[v]) || (e.Load? && s'.workers[v] == Loaded(e.fp))
  {
  }

  lemma FollowsOthers(s: State, e: Event)
    requires FollowsTelegram(s) && IsQuietAt(s, e) && !(e.WriteStart? || e.SetWebhook? || e.WriteAnswer?)
    ensures FollowsTelegram(Step(s, e))
  {
    hide LastAccepted, Step;
    OtherEffects(s, e);
  }

  lemma WriteEffect(row: Row, w: Write, now: int)
    ensures var result := RecordOutcome(row, w, now);
      if result.1 then StatusOf(result.0) == Some(w.status) && FingerprintOf(result.0) == (if w.fingerprint.Some? then w.fingerprint else FingerprintOf(row))
      else result.0 == row
  {
  }

  lemma FollowsStep(s: State, e: Event)
    requires FollowsTelegram(s) && IsQuietAt(s, e)
    ensures FollowsTelegram(Step(s, e))
  {
    hide FollowsTelegram, IsQuietAt, Step;
    match e
    case WriteStart(w) => FollowsStart(s, w);
    case SetWebhook(w, answer) => FollowsCall(s, w, answer);
    case WriteAnswer(w, error, final) => FollowsAnswer(s, w, error, final);
    case _ => FollowsOthers(s, e);
  }

  lemma {:induction false} FollowsAlong(s: State, events: seq<Event>)
    requires FollowsTelegram(s) && IsQuietRun(s, events)
    ensures FollowsTelegram(After(Step, s, events))
  {
    if events != [] {
      var rest := events[..|events| - 1];
      forall k: nat | k < |rest| ensures IsQuietAt(After(Step, s, rest[..k]), rest[k]) {
        assert rest[..k] == events[..k];
      }
      FollowsAlong(s, rest);
      FollowsStep(After(Step, s, rest), events[|rest|]);
    }
  }

  /** Over any number of changes, as long as no job of another fingerprint can still register the row then, a registered
      row carries the fingerprint that Telegram accepted last. */
  lemma RegisteredIsLastAccepted(threshold: Option<int>, clock: int, events: seq<Event>)
    requires IsQuietRun(Start(threshold, clock), events)
    requires StatusOf(Reached(threshold, clock, events).row) == Some(Registered)
    ensures var s := Reached(threshold, clock, events); FingerprintOf(s.row) == LastAccepted(s.calls)
  {
    FollowsAlong(Start(threshold, clock), events);
  }

  /** The row is registered under another fingerprint than the one that Telegram accepted last. */
  predicate Strays(s: State) {
    StatusOf(s.row) == Some(Registered) && FingerprintOf(s.row) != LastAccepted(s.calls)
  }

  ghost predicate CanStray(s: State, fp: Fingerprint) {
    exists more :: FixedConfig(more, fp) && Strays(After(Step, s, more))
  }

  ghost predicate HasOldJob(s: State, fp: Fingerprint) {
    exists w :: w in s.workers && CanRegister(s.workers[w]) && s.workers[w].fp != fp
  }

  /** Only loads put a job where it can register. */
  lemma OldJobsAreNotBorn(s: State, e: Event, fp: Fingerprint)
    requires !HasOldJob(s, fp) && (e.Load? ==> e.fp == fp)
    ensures !HasOldJob(Step(s, e), fp)
  {
    hide RecordOutcome, IsReconcilable, ActionFor;
  }

  lemma {:induction false} NoOldJobFollows(s: State, more: seq<Event>, fp: Fingerprint)
    requires FollowsTelegram(s) && !HasOldJob(s, fp) && FixedConfig(more, fp)
    ensures FollowsTelegram(After(Step, s, more)) && !HasOldJob(After(Step, s, more), fp)
  {
    hide FollowsTelegram, Step;
    if more != [] {
      var before, e := After(Step, s, more[..|more| - 1]), more[|more| - 1];
      NoOldJobFollows(s, more[..|more| - 1], fp);
      OldJobsAreNotBorn(before, e, fp);
      FollowsStep(before, e);
    }
  }

  /** The end of a stray run: the new job has its answer from Telegram, then the old job's is recorded. */
  lemma OldAnswerStrays(s: State, w: WorkerId, v: WorkerId, stale: Fingerprint, fp: Fingerprint)
    requires w in s.workers && v in s.workers && w != v && stale != fp && s.row.active
    requires s.workers[w] == Answered(stale, Accepted) && s.workers[v] == Started(fp)
    ensures Strays(Step(Step(s, SetWebhook(v, Accepted)), WriteAnswer(w, "", false)))
  {
    var s1 := Step(s, SetWebhook(v, Accepted));
    assert s1.calls[..|s1.calls| - 1] == s.calls && LastAccepted(s1.calls) == Some(fp);
    AcceptedIsRecorded(s1, w, stale);
  }

  /** A start under a fingerprint the active row does not carry goes through. */
  lemma StartGoesThrough(s: State, w: WorkerId, fp: Fingerprint)
    requires w in s.workers && s.workers[w] == Loaded(fp) && s.row.active && FingerprintOf(s.row) != Some(fp)
    ensures var s' := Step(s, WriteStart(w));
      s'.workers == s.workers[w := Started(fp)] && s'.row.active && FingerprintOf(s'.row) == Some(fp)
  {
  }

  lemma LoadGoesThrough(s: State, w: WorkerId, fp: Fingerprint)
    requires w !in s.workers && s.row.active && FingerprintOf(s.row) != Some(fp)
    ensures var s' := Step(s, Load(w, fp)); s' == s.(workers := s.workers[w := Loaded(fp)])
  {
  }

  /** Beside an old job with its answer, a new one starts while the row carries the old fingerprint. */
  lemma AnsweredJobStrays(s: State, w: WorkerId, v: WorkerId, fp: Fingerprint) returns (more: seq<Event>)
    requires w in s.workers && v !in s.workers && s.row.active
    requires s.workers[w].Answered? && s.workers[w].answer.Accepted? && s.workers[w].fp != fp && FingerprintOf(s.row) == Some(s.workers[w].fp)
    ensures FixedConfig(more, fp) && Strays(After(Step, s, more))
  {
    hide Step;
    more := [Load(v, fp), WriteStart(v), SetWebhook(v, Accepted), WriteAnswer(w, "", false)];
    AfterFour(Step, s, more[0], more[1], more[2], more[3]);
    LoadGoesThrough(s, v, fp);
    StartGoesThrough(Step(s, more[0]), v, fp);
    OldAnswerStrays(Step(Step(s, more[0]), more[1]), w, v, s.workers[w].fp, fp);
  }

  lemma CallIsAccepted(s: State, w: WorkerId, fp: Fingerprint)
    requires w in s.workers && s.workers[w] == Started(fp)
    ensures var s' := Step(s, SetWebhook(w, Accepted)); s'.workers == s.workers[w := Answered(fp, Accepted)] && s'.row == s.row
  {
  }

  lemma StartedJobStrays(s: State, w: WorkerId, v: WorkerId, fp: Fingerprint) returns (more: seq<Event>)
    requires w in s.workers && v !in s.workers && s.row.active
    requires s.workers[w].Started? && s.workers[w].fp != fp && FingerprintOf(s.row) == Some(s.workers[w].fp)
    ensures FixedConfig(more, fp) && Strays(After(Step, s, more))
  {
    hide Step, Strays;
    CallIsAccepted(s, w, s.workers[w].fp);
    var rest := AnsweredJobStrays(Step(s, SetWebhook(w, Accepted)), w, v, fp);
    more := [SetWebhook(w, Accepted)] + rest;
    AfterFirst(Step, s, SetWebhook(w, Accepted), rest);
  }

  /** A loaded old job starts at once, or after the new one if the row carries its fingerprint still. */
  lemma LoadedJobStrays(s: State, w: WorkerId, v: WorkerId, fp: Fingerprint) returns (more: seq<Event>)
    requires w in s.workers && v !in s.workers && s.row.active && s.workers[w].Loaded? && s.workers[w].fp != fp
    ensures FixedConfig(more, fp) && Strays(After(Step, s, more))
  {
    hide Step, Strays;
    var stale := s.workers[w].fp;
    if FingerprintOf(s.row) != Some(stale) {
      StartGoesThrough(s, w, stale);
      var rest := StartedJobStrays(Step(s, WriteStart(w)), w, v, fp);
      more := [WriteStart(w)] + rest;
      AfterFirst(Step, s, WriteStart(w), rest);
    } else {
      var first := [Load(v, fp), WriteStart(v), WriteStart(w), SetWebhook(w, Accepted)];
      AfterFour(Step, s, first[0], first[1], first[2], first[3]);
      LoadGoesThrough(s, v, fp);
      var s1 := Step(s, first[0]);
      StartGoesThrough(s1, v, fp);
      StartGoesThrough(Step(s1, first[1]), w, stale);
      CallIsAccepted(Step(Step(s1, first[1]), first[2]), w, stale);
      var s4 := After(Step, s, first);
      var rest := [SetWebhook(v, Accepted), WriteAnswer(w, "", false)];
      OldAnswerStrays(s4, w, v, stale, fp);
      AfterConcat(Step, s, first, rest);
      AfterFirst(Step, s4, rest[0], [rest[1]]);
      AfterFirst(Step, Step(s4, rest[0]), rest[1], []);
      assert rest == [rest[0]] + [rest[1]] && [rest[1]] + [] == [rest[1]];
      more := first + rest;
    }
  }

  lemma OldJobStrays(s: State, w: WorkerId, fp: Fingerprint)
    requires FollowsTelegram(s) && w in s.workers && CanRegister(s.workers[w]) && s.workers[w].fp != fp
    ensures CanStray(s, fp)
  {
    hide Strays;
    var v := FreshId(s.workers.Keys);
    var s1 := Step(s, SetActive(true));
    assert s1 == s.(row := s.row.(active := true)) && FingerprintOf(s1.row) == FingerprintOf(s.row);
    var rest: seq<Event>;
    if s.workers[w].Loaded? {
      rest := LoadedJobStrays(s1, w, v, fp);
    } else if s.workers[w].Started? {
      rest := StartedJobStrays(s1, w, v, fp);
    } else {
      rest := AnsweredJobStrays(s1, w, v, fp);
    }
    AfterFirst(Step, s, SetActive(true), rest);
    assert FixedConfig([SetActive(true)] + rest, fp);
  }

  /** When a change is undone. After any run whose changes were quiet, with every further load computing fp, some
      continuation leaves the row registered under another fingerprint than the one accepted last, if and only if a job
      of another fingerprint has loaded, started or been accepted and not yet ended. */
  lemma StraysIffOldJob(threshold: Option<int>, clock: int, events: seq<Event>, fp: Fingerprint)
    requires IsQuietRun(Start(threshold, clock), events)
    ensures CanStray(Reached(threshold, clock, events), fp) <==> HasOldJob(Reached(threshold, clock, events), fp)
  {
    hide Step, IsQuietRun;
    var s := Reached(threshold, clock, events);
    FollowsAlong(Start(threshold, clock), events);
    if w :| w in s.workers && CanRegister(s.workers[w]) && s.workers[w].fp != fp {
      OldJobStrays(s, w, fp);
    } else {
      forall more | FixedConfig(more, fp) ensures !Strays(After(Step, s, more)) {
        NoOldJobFollows(s, more, fp);
      }
    }
  }

  /** A job left over from before the change can undo it: its answer is accepted first but recorded last, and the row is
      registered under the old fingerprint although Telegram has the new one. */
  lemma StaleAnswerRun(threshold: Option<int>, clock: int, before: Fingerprint, after: Fingerprint)
    requires before != after
    ensures var first := [Load(0, before), WriteStart(0), SetWebhook(0, Accepted), Load(1, after)];
      var rest := [WriteStart(1), SetWebhook(1, Accepted), WriteAnswer(1, "", false), WriteAnswer(0, "", false)];
      var s := Reached(threshold, clock, first + rest);
      && StatusOf(s.row) == Some(Registered) && FingerprintOf(s.row) == Some(before)
      && s.calls == [Call(0, before, Accepted), Call(1, after, Accepted)]
  {
    hide Step;
    var start := Start(threshold, clock);
    var a, b, c, d := Load(0, before), WriteStart(0), SetWebhook(0, Accepted), Load(1, after);
    var e, f, g, h := WriteStart(1), SetWebhook(1, Accepted), WriteAnswer(1, "", false), WriteAnswer(0, "", false);
    AfterFour(Step, start, a, b, c, d);
    var s4 := Step(Step(Step(Step(start, a), b), c), d);
    AfterConcat(Step, start, [a, b, c, d], [e, f, g, h]);
    AfterFour(Step, s4, e, f, g, h);
    OldJobCalls(start, before, after);
    NewJobOvertakes(s4, before, after);
  }

  lemma OldJobCalls(s: State, before: Fingerprint, after: Fingerprint)
    requires s.row == Row(true, None) && s.workers == map[] && s.calls == []
    ensures var s' := Step(Step(Step(Step(s, Load(0, before)), WriteStart(0)), SetWebhook(0, Accepted)), Load(1, after));
      && s'.workers == map[0 := Answered(before, Accepted), 1 := Loaded(after)] && s'.calls == [Call(0, before, Accepted)]
      && s'.row.active && FingerprintOf(s'.row) == Some(before) && StatusOf(s'.row) == Some(Registering)
  {
    FirstTwoSteps(s, before);
    var s2 := Step(Step(s, Load(0, before)), WriteStart(0));
    var s3 := Step(s2, SetWebhook(0, Accepted));
    assert s3.workers == map[0 := Answered(before, Accepted)] && s3.row == s2.row;
  }

  lemma NewJobOvertakes(s: State, before: Fingerprint, after: Fingerprint)
    requires before != after && s.workers == map[0 := Answered(before, Accepted), 1 := Loaded(after)] && s.calls == [Call(0, before, Accepted)]
    requires s.row.active && FingerprintOf(s.row) == Some(before)
    ensures var s' := Step(Step(Step(Step(s, WriteStart(1)), SetWebhook(1, Accepted)), WriteAnswer(1, "", false)), WriteAnswer(0, "", false));
      StatusOf(s'.row) == Some(Registered) && FingerprintOf(s'.row) == Some(before)
      && s'.calls == [Call(0, before, Accepted), Call(1, after, Accepted)]
  {
    var s1 := Step(s, WriteStart(1));
    assert s1.workers == map[0 := Answered(before, Accepted), 1 := Started(after)] && s1.row.active;
    var s2 := Step(s1, SetWebhook(1, Accepted));
    assert s2.workers == map[0 := Answered(before, Accepted), 1 := Answered(after, Accepted)] && s2.row.active;
    assert s2.calls == [Call(0, before, Accepted), Call(1, after, Accepted)];
    AcceptedIsRecorded(s2, 1, after);
    AcceptedIsRecorded(Step(s2, WriteAnswer(1, "", false)), 0, before);
  }

  lemma AcceptedIsRecorded(s: State, w: WorkerId, fp: Fingerprint)
    requires w in s.workers && s.workers[w] == Answered(fp, Accepted) && s.row.active
    ensures var s' := Step(s, WriteAnswer(w, "", false));
      && StatusOf(s'.row) == Some(Registered) && FingerprintOf(s'.row) == Some(fp) && s'.row.active
      && s'.workers == s.workers[w := Reported(fp)] && s'.calls == s.calls
  {
    assert Matches(s.row, RegisteredWrite(fp));
    var result := RecordOutcome(s.row, RegisteredWrite(fp), s.clock);
    assert StatusOf(result.0) == Some(Registered) && FingerprintOf(result.0) == Some(fp);
  }

  // ----- The reconciler -----

  /** The scan never hands out a row at or over the threshold, so nothing is ever quarantined. */
  ghost predicate NothingToQuarantine(s: State) {
    && s.threshold >= 1
    && StatusOf(s.row) != Some(Quarantined)
    && forall t :: t in s.ticks && s.ticks[t].Scanned? && s.ticks[t].status != Some(Registering) ==> s.ticks[t].attempts < s.threshold
  }

  lemma QuarantineStep(s: State, e: Event)
    requires NothingToQuarantine(s)
    ensures NothingToQuarantine(Step(s, e))
  {
  }

  lemma QuarantineIsDead(threshold: Option<int>, clock: int, events: seq<Event>)
    ensures NothingToQuarantine(Reached(threshold, clock, events))
    ensures var s := Reached(threshold, clock, events);
      forall t :: t in s.ticks && s.ticks[t].Scanned? ==> !ActionFor(s.ticks[t].status, s.ticks[t].attempts, s.threshold).Quarantining?
  {
    forall s, e | NothingToQuarantine(s) ensures NothingToQuarantine(Step(s, e)) { QuarantineStep(s, e); }
    InvariantHolds(Step, NothingToQuarantine, Start(threshold, clock), events);
  }

  /** However many reconcilers run, a tick never changes a row that is registered or quarantined at its write,
      nor one whose stuck attempt was renewed after the scan. */
  lemma TicksSpareSettledRows(threshold: Option<int>, clock: int, events: seq<Event>, t: TickId)
    ensures var s := Reached(threshold, clock, events);
      var s' := Step(s, TickActs(t));
      && (StatusOf(s.row) == Some(Registered) || StatusOf(s.row) == Some(Quarantined) ==> s'.row == s.row)
      && (s'.row != s.row && StatusOf(s.row) == Some(Registering) ==>
            t in s.ticks && s.ticks[t].Scanned? && s.row.registration.value.lastAttemptAt < s.ticks[t].cutoff && StatusOf(s'.row) == Some(Failed))
      && (s'.row != s.row && StatusOf(s.row) != Some(Registering) ==> StatusOf(s'.row) == Some(Registering))
  {
    QuarantineIsDead(threshold, clock, events);
  }

  /** A claim leaves the row registering, and a claim needs a row that is not. */
  ghost predicate ClaimsApart(s: State) {
    && (s.entries != [] && s.entries[|s.entries| - 1].Claimed? ==> StatusOf(s.row) == Some(Registering))
    && forall i :: 0 < i < |s.entries| ==> !(s.entries[i - 1].Claimed? && s.entries[i].Claimed?)
  }

  lemma ClaimsStep(s: State, e: Event)
    requires ClaimsApart(s)
    ensures ClaimsApart(Step(s, e))
  {
  }

  /** Between two claims of a row there is always a write that is not a claim. */
  lemma ClaimsAreSeparated(threshold: Option<int>, clock: int, events: seq<Event>, i: nat, j: nat)
    requires var s := Reached(threshold, clock, events);
      i < j < |s.entries| && s.entries[i].Claimed? && s.entries[j].Claimed?
    ensures exists k :: i < k < j && !Reached(threshold, clock, events).entries[k].Claimed?
  {
    forall s, e | ClaimsApart(s) ensures ClaimsApart(Step(s, e)) { ClaimsStep(s, e); }
    InvariantHolds(Step, ClaimsApart, Start(threshold, clock), events);
    var s := Reached(threshold, clock, events);
    assert !s.entries[j - 1].Claimed?;
  }

  // ----- When a registered row is lost -----

  /** Once the row is registered the one worker that called is done with it. */
  ghost predicate NobodyAtWork(s: State) {
    StatusOf(s.row) == Some(Registered) ==> forall w :: w in s.workers ==> !s.workers[w].Started? && !s.workers[w].Answered?
  }

  ghost predicate LossInv(s: State, fp: Fingerprint) {
    OneStart(s, fp) && NobodyAtWork(s) && NothingToQuarantine(s)
  }

  lemma NobodyAtWorkStep(s: State, e: Event, fp: Fingerprint)
    requires OneStart(s, fp) && NobodyAtWork(s) && (e.Load? ==> e.fp == fp)
    ensures NobodyAtWork(Step(s, e))
  {
    var s' := Step(s, e);
    if StatusOf(s'.row) == Some(Registered) && StatusOf(s.row) != Some(Registered) {
      RegisteredBySomebody(s, e);
      assert forall w :: w in s.workers && s.workers[w].Answered? ==> s.calls == [Call(w, fp, s.workers[w].answer)];
    }
  }

  lemma {:induction false} LossInvHolds(threshold: Option<int>, clock: int, events: seq<Event>, fp: Fingerprint)
    requires FixedConfig(events, fp)
    ensures LossInv(Reached(threshold, clock, events), fp)
  {
    hide OneStart, NobodyAtWork, NothingToQuarantine;
    OneStartHolds(threshold, clock, events, fp);
    QuarantineIsDead(threshold, clock, events);
    if events != [] {
      var before := Reached(threshold, clock, events[..|events| - 1]);
      LossInvHolds(threshold, clock, events[..|events| - 1], fp);
      NobodyAtWorkStep(before, events[|events| - 1], fp);
    } else {
      NothingAtWorkYet(threshold, clock);
    }
  }

  lemma NothingAtWorkYet(threshold: Option<int>, clock: int)
    ensures NobodyAtWork(Start(threshold, clock))
  {
  }

  /** The terminal write of a job that failed for good, to an active row. */
  predicate IsTerminalWrite(s: State, e: Event) {
    e.WriteTerminal? && e.worker in s.workers && s.workers[e.worker].Failing? && s.row.active
  }

  lemma LostByTerminalWrite(s: State, e: Event, fp: Fingerprint)
    requires LossInv(s, fp) && StatusOf(s.row) == Some(Registered) && (e.Load? ==> e.fp == fp)
    ensures StatusOf(Step(s, e).row) != Some(Registered) <==> IsTerminalWrite(s, e)
  {
    assert FingerprintOf(s.row) == Some(fp);
  }

  lemma LostIsStuck(s: State, e: Event, fp: Fingerprint)
    requires LossInv(s, fp) && StatusOf(s.row) == Some(Registered) && IsTerminalWrite(s, e)
    ensures IsStuck(Step(s, e), fp)
  {
    assert FingerprintOf(s.row) == Some(fp);
  }

  /** In every reachable state, while URL and token stay fixed, a registered row stays registered but for one kind of
      step, the terminal write of a job that failed for good; and a row lost to that write is never registered again. */
  lemma LateFailureOverwrites(threshold: Option<int>, clock: int, events: seq<Event>, e: Event, fp: Fingerprint)
    requires FixedConfig(events, fp) && (e.Load? ==> e.fp == fp)
    requires StatusOf(Reached(threshold, clock, events).row) == Some(Registered)
    ensures var s := Reached(threshold, clock, events);
      && (StatusOf(Step(s, e).row) != Some(Registered) <==> IsTerminalWrite(s, e))
      && (IsTerminalWrite(s, e) ==> NeverRegisters(Step(s, e), fp))
  {
    hide LossInv, IsStuck;
    var s := Reached(threshold, clock, events);
    LossInvHolds(threshold, clock, events, fp);
    LostByTerminalWrite(s, e, fp);
    if IsTerminalWrite(s, e) {
      LostIsStuck(s, e, fp);
      forall more | FixedConfig(more, fp) ensures StatusOf(After(Step, Step(s, e), more).row) != Some(Registered) {
        StuckForever(Step(s, e), more, fp);
        StuckIsUnregistered(After(Step, Step(s, e), more), fp);
      }
    }
  }

  lemma StuckIsUnregistered(s: State, fp: Fingerprint)
    requires IsStuck(s, fp)
    ensures StatusOf(s.row) != Some(Registered)
  {
  }

  /** A run in which it happens: one job fails before it writes anything, another registers the row, and then the first
      job's terminal write arrives. */
  lemma LateFailureRun(threshold: Option<int>, clock: int, fp: Fingerprint, error: string)
    ensures var first := [Load(0, fp), Abort(0, true), Load(1, fp), WriteStart(1)];
      var register := [SetWebhook(1, Accepted), SetActive(true), WriteAnswer(1, "", false)];
      && StatusOf(Reached(threshold, clock, first + register).row) == Some(Registered)
      && StatusOf(Reached(threshold, clock, first + register + [WriteTerminal(0, error)]).row) == Some(Failed)
  {
    hide Step;
    var start := Start(threshold, clock);
    var e1, e2, e3, e4 := Load(0, fp), Abort(0, true), Load(1, fp), WriteStart(1);
    var f1, f2, f3 := SetWebhook(1, Accepted), SetActive(true), WriteAnswer(1, "", false);
    var s4 := Step(Step(Step(Step(start, e1), e2), e3), e4);
    var s7 := Step(Step(Step(s4, f1), f2), f3);
    AfterFour(Step, start, e1, e2, e3, e4);
    AfterConcat(Step, start, [e1, e2, e3, e4], [f1, f2, f3]);
    AfterThreeFirst(Step, s4, f1, f2, f3, []);
    assert [f1, f2, f3] + [] == [f1, f2, f3];
    var events := [e1, e2, e3, e4] + [f1, f2, f3];
    assert (events + [WriteTerminal(0, error)])[..|events|] == events;
    AbortThenStart(start, fp);
    RegistersBeside(s4, fp, error);
  }

  lemma AbortThenStart(s: State, fp: Fingerprint)
    requires s.row == Row(true, None) && s.workers == map[]
    ensures var s' := Step(Step(Step(Step(s, Load(0, fp)), Abort(0, true)), Load(1, fp)), WriteStart(1));
      s'.workers == map[0 := Failing, 1 := Started(fp)]
  {
    var s2 := Step(Step(s, Load(0, fp)), Abort(0, true));
    assert s2.workers == map[0 := Failing] && s2.row == s.row;
    var s3 := Step(s2, Load(1, fp));
    assert s3.workers == map[0 := Failing, 1 := Loaded(fp)] && s3.row == s.row;
  }

  lemma RegistersBeside(s: State, fp: Fingerprint, error: string)
    requires s.workers == map[0 := Failing, 1 := Started(fp)]
    ensures var s' := Step(Step(Step(s, SetWebhook(1, Accepted)), SetActive(true)), WriteAnswer(1, "", false));
      StatusOf(s'.row) == Some(Registered) && StatusOf(Step(s', WriteTerminal(0, error)).row) == Some(Failed)
  {
    var s1 := Step(s, SetWebhook(1, Accepted));
    assert s1.workers == map[0 := Failing, 1 := Answered(fp, Accepted)];
    AcceptedCompletes(s1, 1, fp);
    var s3 := Step(Step(s1, SetActive(true)), WriteAnswer(1, "", false));
    assert s3.row.active && s3.workers[0] == Failing;
    TerminalWriteFails(s3, 0, error);
  }

  lemma TerminalWriteFails(s: State, w: WorkerId, error: string)
    requires s.row.active && StatusOf(s.row) == Some(Registered) && w in s.workers && s.workers[w].Failing?
    ensures StatusOf(Step(s, WriteTerminal(w, error)).row) == Some(Failed)
  {
  }

  // ----- The attempt counter -----

  function TerminalWrites(entries: seq<Entry>): nat {
    if entries == [] then 0
    else TerminalWrites(entries[..|entries| - 1]) + (if entries[|entries| - 1].TerminatedBy? then 1 else 0)
  }

  ghost predicate CountsTerminals(s: State) {
    AttemptsOf(s.row) == TerminalWrites(s.entries)
  }

  lemma ApplyCounts(s: State, w: Write, entry: Entry)
    requires CountsTerminals(s) && (w.incrementAttempt <==> entry.TerminatedBy?)
    ensures CountsTerminals(Apply(s, RecordOutcome(s.row, w, s.clock), entry))
  {
    assert (s.entries + [entry])[..|s.entries|] == s.entries;
  }

  lemma CountsStep(s: State, e: Event)
    requires CountsTerminals(s)
    ensures CountsTerminals(Step(s, e))
  {
    if e.Stamp? {
      ApplyCounts(s, StampWrite, Stamped);
    } else if e.TickActs? {
      CountsTick(s, e.tick);
    } else if e.WriteStart? || e.WriteAnswer? || e.WriteTerminal? {
      CountsWorker(s, e.worker, e);
    }
  }

  lemma CountsWorker(s: State, w: WorkerId, e: Event)
    requires CountsTerminals(s) && (e.WriteStart? || e.WriteAnswer? || e.WriteTerminal?)
    ensures CountsTerminals(StepWorker(s, w, e))
  {
    hide RecordOutcome, TerminalWrites;
    if w !in s.workers {
    } else if e.WriteStart? {
      if s.workers[w].Loaded? {
        ApplyCounts(s, StartWrite(s.workers[w].fp), StartedBy(w));
      }
    } else if e.WriteAnswer? {
      if s.workers[w].Answered? {
        ApplyCounts(s, RegisteredWrite(s.workers[w].fp), RegisteredBy(w));
        ApplyCounts(s, FailedWrite(e.error, false), FailedBy(w));
      }
    } else {
      ApplyCounts(s, FailedWrite(e.error, true), TerminatedBy(w));
    }
  }

  lemma CountsTick(s: State, t: TickId)
    requires CountsTerminals(s)
    ensures CountsTerminals(Step(s, TickActs(t)))
  {
    if t in s.ticks && s.ticks[t].Scanned? {
      match ActionFor(s.ticks[t].status, s.ticks[t].attempts, s.threshold)
      case Reset => ApplyCounts(s, ResetWrite(s.ticks[t].cutoff), WasReset(t));
      case Claim => ApplyCounts(s, ClaimWrite, Claimed(t));
      case Quarantining => ApplyCounts(s, QuarantineWrite(THRESHOLD_EXCEEDED), WasQuarantined(t));
    }
  }

  /** A job that wrote its terminal failure is gone, and wrote it once. */
  ghost predicate TerminatedOnce(s: State) {
    && (forall i :: 0 <= i < |s.entries| && s.entries[i].TerminatedBy? ==>
        s.entries[i].worker in s.workers && s.workers[s.entries[i].worker].Gone?)
    && (forall i, j :: 0 <= i < j < |s.entries| && s.entries[i].TerminatedBy? ==> s.entries[j] != s.entries[i])
  }

  lemma TerminatedOnceStep(s: State, e: Event)
    requires TerminatedOnce(s)
    ensures TerminatedOnce(Step(s, e))
  {
    hide RecordOutcome, IsReconcilable, ActionFor;
    if e.WriteTerminal? && e.worker in s.workers && s.workers[e.worker].Failing? {
      assert forall i :: 0 <= i < |s.entries| ==> s.entries[i] != TerminatedBy(e.worker);
    }
  }

  /** No attempt of a job counts twice: in every run each writes at most one terminal failure. */
  lemma OneTerminalWritePerAttempt(threshold: Option<int>, clock: int, events: seq<Event>)
    ensures TerminatedOnce(Reached(threshold, clock, events))
  {
    forall s, e | TerminatedOnce(s) ensures TerminatedOnce(Step(s, e)) { TerminatedOnceStep(s, e); }
    InvariantHolds(Step, TerminatedOnce, Start(threshold, clock), events);
  }

  /** The counter is the number of terminal failures: no claim, reset, retry or stamp moves it. */
  lemma AttemptCountIsTerminalFailures(threshold: Option<int>, clock: int, events: seq<Event>)
    ensures CountsTerminals(Reached(threshold, clock, events))
  {
    forall s, e | CountsTerminals(s) ensures CountsTerminals(Step(s, e)) { CountsStep(s, e); }
    InvariantHolds(Step, CountsTerminals, Start(threshold, clock), events);
  }

  // ----- What a write leaves behind, and how long a fresh attempt is left alone -----

  /** A write that goes through leaves its own time as the last attempt, its status, and of the rest only what it names. */
  lemma WriteIsDated(row: Row, w: Write, now: int)
    requires RecordOutcome(row, w, now).1
    ensures var row' := RecordOutcome(row, w, now).0;
      && row'.active && row.active && row'.registration.Some? && row'.registration.value.lastAttemptAt == now
      && StatusOf(row') == Some(w.status)
      && FingerprintOf(row') == (if w.fingerprint.Some? then w.fingerprint else FingerprintOf(row))
      && AttemptsOf(row') == AttemptsOf(row) + (if w.incrementAttempt then 1 else 0)
    ensures var r := RecordOutcome(row, w, now).0.registration.value;
      && (w.status == Registered ==> r.registeredAt == Some(now))
      && (w.status != Registered && row.registration.Some? ==> r.registeredAt == row.registration.value.registeredAt)
      && (w.lastError.Some? ==> r.lastError.Text? && r.lastError.text <= w.lastError.value)
      && (w.lastError.Some? ==> |r.lastError.text| == if |w.lastError.value| <= 500 then |w.lastError.value| else 500)
      && (w.lastError.None? && w.status == Registered ==> r.lastError == Null)
      && (w.lastError.None? && w.status != Registered && row.registration.Some? ==> r.lastError == row.registration.value.lastError)
  {
  }

  /** A matching write always changes the row unless it repeats it to the millisecond. */
  lemma MatchingWriteLands(row: Row, w: Write, now: int)
    requires row.active
    requires w.status == Registering && w.fingerprint.Some? ==> FingerprintOf(row) != w.fingerprint
    requires w.expectStatus != {} ==> StatusOf(row) in w.expectStatus
    requires w.expectLastAttemptAtBefore.Some? ==>
      row.registration.Some? && row.registration.value.lastAttemptAt < w.expectLastAttemptAtBefore.value
    ensures var row' := RecordOutcome(row, w, now).0;
      row'.registration.Some? && row'.registration.value.lastAttemptAt == now && StatusOf(row') == Some(w.status)
    ensures row.registration.None? || row.registration.value.lastAttemptAt != now ==> RecordOutcome(row, w, now).1
  {
    if RecordOutcome(row, w, now).1 {
      WriteIsDated(row, w, now);
    }
  }

  /** When something was last written to the row. */
  function LastAttempt(row: Row): Option<int> {
    if row.registration.Some? then Some(row.registration.value.lastAttemptAt) else None
  }

  lemma WritesAreDated(row: Row, w: Write, now: int)
    ensures var row' := RecordOutcome(row, w, now).0; row'.registration == row.registration || LastAttempt(row') == Some(now)
  {
    if RecordOutcome(row, w, now).1 {
      WriteIsDated(row, w, now);
    }
  }

  /** Every step that changes the registration dates it, whoever takes it. */
  lemma StepsAreDated(s: State, e: Event)
    ensures Step(s, e).row.registration == s.row.registration || LastAttempt(Step(s, e).row) == Some(s.clock)
    ensures s.clock <= Step(s, e).clock
  {
    hide RecordOutcome, IsReconcilable, ActionFor;
    match e
    case Stamp => WritesAreDated(s.row, StampWrite, s.clock);
    case TickActs(t) =>
      if t in s.ticks && s.ticks[t].Scanned? {
        WritesAreDated(s.row, ResetWrite(s.ticks[t].cutoff), s.clock);
        WritesAreDated(s.row, QuarantineWrite(THRESHOLD_EXCEEDED), s.clock);
        WritesAreDated(s.row, ClaimWrite, s.clock);
      }
    case WriteStart(w) =>
      if w in s.workers && s.workers[w].Loaded? { WritesAreDated(s.row, StartWrite(s.workers[w].fp), s.clock); }
    case WriteAnswer(w, error, _) =>
      if w in s.workers && s.workers[w].Answered? {
        WritesAreDated(s.row, RegisteredWrite(s.workers[w].fp), s.clock);
        WritesAreDated(s.row, FailedWrite(error, false), s.clock);
      }
    case WriteTerminal(_, error) => WritesAreDated(s.row, FailedWrite(error, true), s.clock);
    case _ =>
  }

  /** No tick under way looks back less than the cutoff. */
  ghost predicate CutoffsAreOld(s: State) {
    forall t :: t in s.ticks && s.ticks[t].Scanned? ==> s.ticks[t].cutoff + STUCK_REGISTERING_CUTOFF_MS <= s.clock
  }

  lemma CutoffsStep(s: State, e: Event)
    requires CutoffsAreOld(s)
    ensures CutoffsAreOld(Step(s, e))
  {
    hide RecordOutcome, IsReconcilable, ActionFor, Act;
  }

  lemma {:induction false} CutoffsHold(s: State, events: seq<Event>)
    requires CutoffsAreOld(s)
    ensures CutoffsAreOld(After(Step, s, events))
  {
    if events != [] {
      CutoffsHold(s, events[..|events| - 1]);
      CutoffsStep(After(Step, s, events[..|events| - 1]), events[|events| - 1]);
    }
  }

  /** From a write at time T on, the last attempt is never dated earlier. */
  lemma {:induction false} AttemptNeverGoesBack(s: State, more: seq<Event>, written: int)
    requires LastAttempt(s.row).Some? && written <= LastAttempt(s.row).value && written <= s.clock
    ensures var s' := After(Step, s, more); LastAttempt(s'.row).Some? && written <= LastAttempt(s'.row).value && written <= s'.clock
  {
    hide Step;
    if more != [] {
      AttemptNeverGoesBack(s, more[..|more| - 1], written);
      StepsAreDated(After(Step, s, more[..|more| - 1]), more[|more| - 1]);
    }
  }

  /** Nothing the tick may do next treats the row as a stuck registration: not its write, nor a scan by it. */
  ghost predicate LeavesAlone(s: State, t: TickId) {
    && (WasReset(t) in Step(s, TickActs(t)).entries ==> WasReset(t) in s.entries)
    && forall age: nat :: t !in s.ticks && t in Step(s, Scan(t, age)).ticks ==>
      Step(s, Scan(t, age)).ticks[t].status != Some(Registering)
  }

  /** Until the cutoff has passed, a tick that starts leaves a fresh attempt alone, and so does one under way. */
  lemma NotStuckYet(s: State, t: TickId)
    requires CutoffsAreOld(s) && LastAttempt(s.row).Some? && s.clock <= LastAttempt(s.row).value + STUCK_REGISTERING_CUTOFF_MS
    ensures LeavesAlone(s, t)
  {
    hide Updated;
  }

  /** In every run: whoever changed the row at time T, no tick resets it and no scan hands it out as a stuck registration
      until the clock has passed T by the cutoff of thirty minutes. */
  lemma FreshAttemptIsLeftAlone(threshold: Option<int>, clock: int, before: seq<Event>, e: Event, more: seq<Event>, t: TickId)
    requires var s := Reached(threshold, clock, before); Step(s, e).row.registration != s.row.registration
    requires After(Step, Step(Reached(threshold, clock, before), e), more).clock <= Reached(threshold, clock, before).clock + 30 * 60 * 1000
    ensures LeavesAlone(After(Step, Step(Reached(threshold, clock, before), e), more), t)
  {
    hide Step;
    var s := Reached(threshold, clock, before);
    StepsAreDated(s, e);
    CutoffsHold(Start(threshold, clock), before);
    CutoffsStep(s, e);
    CutoffsHold(Step(s, e), more);
    AttemptNeverGoesBack(Step(s, e), more, s.clock);
    NotStuckYet(After(Step, Step(s, e), more), t);
  }

  /** The row waits for a reconciler: never tried, pending or failed with attempts left, or registering for too long. */
  predicate Waits(row: Row, now: int, threshold: nat) {
    && row.active
    && (row.registration.Some? ==>
      var r := row.registration.value;
      && r.status != Registered && r.status != Quarantined && r.attemptCount < threshold
      && (r.status == Registering ==> r.lastAttemptAt + 30 * 60 * 1000 < now))
  }

  /** A tick that nobody disturbs changes the row exactly if it waits: a registration under way for too long is failed,
      anything else is claimed, and its attempts stay. */
  lemma UndisturbedTick(s: State, t: TickId)
    requires t !in s.ticks && s.threshold >= 1
    ensures var s' := Step(Step(s, Scan(t, 0)), TickActs(t));
      && (s'.entries != s.entries <==> Waits(s.row, s.clock, s.threshold))
      && AttemptsOf(s'.row) == AttemptsOf(s.row) && FingerprintOf(s'.row) == FingerprintOf(s.row)
      && StatusOf(s'.row) == (
        if !Waits(s.row, s.clock, s.threshold) then StatusOf(s.row)
        else if StatusOf(s.row) == Some(Registering) then Some(Failed) else Some(Registering))
  {
    hide Updated;
    if Waits(s.row, s.clock, s.threshold) {
      var s1 := Step(s, Scan(t, 0));
      assert s1.row == s.row && s1.ticks[t] == Scanned(StatusOf(s.row), AttemptsOf(s.row), s.clock - STUCK_REGISTERING_CUTOFF_MS);
      if StatusOf(s.row) == Some(Registering) {
        WaitingRowIsWritten(s.row, ResetWrite(s1.ticks[t].cutoff), s.clock);
      } else {
        WaitingRowIsWritten(s.row, ClaimWrite, s.clock);
      }
    }
  }

  lemma WaitingRowIsWritten(row: Row, w: Write, now: int)
    requires Matches(row, w) && StatusOf(row) != Some(w.status)
    ensures RecordOutcome(row, w, now).1 && StatusOf(RecordOutcome(row, w, now).0) == Some(w.status)
    ensures FingerprintOf(RecordOutcome(row, w, now).0) == (if w.fingerprint.Some? then w.fingerprint else FingerprintOf(row))
    ensures AttemptsOf(RecordOutcome(row, w, now).0) == AttemptsOf(row) + (if w.incrementAttempt then 1 else 0)
  {
  }

  /** A hire's stamp starts a registration over unless it is done or quarantined, and keeps fingerprint and counter. */
  lemma StampMeans(s: State)
    ensures var s' := Step(s, Stamp);
      var open := s.row.active && StatusOf(s.row) != Some(Registered) && StatusOf(s.row) != Some(Quarantined);
      && (if open then StatusOf(s'.row) == Some(Pending) && LastAttempt(s'.row) == Some(s.clock) else s'.row == s.row)
      && FingerprintOf(s'.row) == FingerprintOf(s.row) && AttemptsOf(s'.row) == AttemptsOf(s.row)
      && s'.workers == s.workers && s'.ticks == s.ticks
  {
    var status := StatusOf(s.row);
    match status {
      case None => assert status in StampWrite.expectStatus;
      case Some(value) => assert status == Some(value) && (value.Registered? || value.Quarantined? || status in StampWrite.expectStatus);
    }
    assert Matches(s.row, StampWrite) <==> s.row.active && status in StampWrite.expectStatus;
  }

  /** Quarantining needs nothing but an active row: whatever its status was, it is quarantined with the error given, and
      no attempt is counted. */
  lemma QuarantineMeans(row: Row, error: string, now: int)
    ensures var row' := Quarantine(row, error, now).0;
      && (!row.active ==> row' == row)
      && (row.active ==> StatusOf(row') == Some(Quarantined) && LastAttempt(row') == Some(now))
      && (row.active ==> row'.registration.value.lastError.Text? && row'.registration.value.lastError.text <= error)
      && FingerprintOf(row') == FingerprintOf(row) && AttemptsOf(row') == AttemptsOf(row)
  {
  }

  /** What the fields of the row say of its history. */
  ghost predicate RowIsCoherent(s: State) {
    s.row.registration.Some? ==>
      var r := s.row.registration.value;
      && r.lastAttemptAt <= s.clock
      && (r.registeredAt.Some? ==> r.registeredAt.value <= r.lastAttemptAt)
      && (r.status == Registered ==> r.registeredAt == Some(r.lastAttemptAt) && r.lastError == Null)
      && (r.status == Failed ==> r.lastError.Text?)
      && (r.lastError.Text? ==> |r.lastError.text| <= 500)
  }

  lemma CoherentWrite(s: State, w: Write, entry: Entry)
    requires RowIsCoherent(s) && (w.status == Failed ==> w.lastError.Some?) && (w.status == Registered ==> w.lastError.None?)
    ensures RowIsCoherent(Apply(s, RecordOutcome(s.row, w, s.clock), entry))
  {
  }

  lemma CoherentWorker(s: State, e: Event)
    requires RowIsCoherent(s) && (e.WriteStart? || e.WriteAnswer? || e.WriteTerminal?)
    ensures RowIsCoherent(Step(s, e))
  {
    hide RecordOutcome;
    var w := e.worker;
    if w in s.workers {
      if e.WriteStart? && s.workers[w].Loaded? {
        CoherentWrite(s, StartWrite(s.workers[w].fp), StartedBy(w));
      } else if e.WriteAnswer? && s.workers[w].Answered? {
        CoherentWrite(s, RegisteredWrite(s.workers[w].fp), RegisteredBy(w));
        CoherentWrite(s, FailedWrite(e.error, false), FailedBy(w));
      } else if e.WriteTerminal? {
        CoherentWrite(s, FailedWrite(e.error, true), TerminatedBy(w));
      }
    }
  }

  lemma CoherentTick(s: State, t: TickId)
    requires RowIsCoherent(s)
    ensures RowIsCoherent(Step(s, TickActs(t)))
  {
    hide RecordOutcome, IsReconcilable;
    if t in s.ticks && s.ticks[t].Scanned? {
      CoherentWrite(s, ResetWrite(s.ticks[t].cutoff), WasReset(t));
      CoherentWrite(s, QuarantineWrite(THRESHOLD_EXCEEDED), WasQuarantined(t));
      CoherentWrite(s, ClaimWrite, Claimed(t));
    }
  }

  /** The events that write nothing. */
  lemma CoherentOthers(s: State, e: Event)
    requires RowIsCoherent(s) && !(e.Stamp? || e.TickActs? || e.WriteStart? || e.WriteAnswer? || e.WriteTerminal?)
    ensures RowIsCoherent(Step(s, e))
  {
    hide RecordOutcome, IsReconcilable;
    var s' := Step(s, e);
    assert s'.row.registration == s.row.registration && s.clock <= s'.clock;
  }

  lemma CoherentStep(s: State, e: Event)
    requires RowIsCoherent(s)
    ensures RowIsCoherent(Step(s, e))
  {
    hide RowIsCoherent, RecordOutcome;
    if e.Stamp? {
      CoherentWrite(s, StampWrite, Stamped);
    } else if e.TickActs? {
      CoherentTick(s, e.tick);
    } else if e.WriteStart? || e.WriteAnswer? || e.WriteTerminal? {
      CoherentWorker(s, e);
    } else {
      CoherentOthers(s, e);
    }
  }

  /** In every run a registered row was registered by its last write and carries no error, a failed one carries its
      error, and no stored error is longer than 500 characters. */
  lemma RowTellsItsState(threshold: Option<int>, clock: int, events: seq<Event>)
    ensures RowIsCoherent(Reached(threshold, clock, events))
  {
    forall s, e | RowIsCoherent(s) ensures RowIsCoherent(Step(s, e)) { CoherentStep(s, e); }
    InvariantHolds(Step, RowIsCoherent, Start(threshold, clock), events);
  }

  // ----- A job that nobody disturbs -----

  function JobEvents(w: WorkerId, fp: Fingerprint, answer: Answer, error: string, final: bool): seq<Event> {
    [Load(w, fp), WriteStart(w), SetWebhook(w, answer), WriteAnswer(w, error, final), WriteTerminal(w, error)]
  }

  /** A job that has reported or is failing ignores the steps it is past. */
  lemma PastSteps(s: State, w: WorkerId, answer: Answer, error: string, final: bool)
    requires w in s.workers && (s.workers[w].Failing? || s.workers[w].Reported?)
    ensures Step(s, WriteStart(w)) == s && Step(s, SetWebhook(w, answer)) == s && Step(s, WriteAnswer(w, error, final)) == s
  {
    hide RecordOutcome;
  }

  lemma InactiveJobFails(s: State, w: WorkerId, fp: Fingerprint, error: string)
    requires w !in s.workers && !s.row.active
    ensures var s' := Step(s, Load(w, fp));
      w in s'.workers && s'.workers[w].Failing? && Step(s', WriteTerminal(w, error)) == s.(workers := s.workers[w := Gone])
  {
    assert s.workers[w := Failing][w := Gone] == s.workers[w := Gone];
  }

  lemma StoredJobReports(s: State, w: WorkerId, fp: Fingerprint, error: string)
    requires w !in s.workers && s.row.active && FingerprintOf(s.row) == Some(fp)
    ensures var s' := Step(Step(s, Load(w, fp)), WriteStart(w)); s' == s.(workers := s.workers[w := Reported(fp)]) && Step(s', WriteTerminal(w, error)) == s'
  {
    assert s.workers[w := Loaded(fp)][w := Reported(fp)] == s.workers[w := Reported(fp)];
  }

  lemma JobWithoutWork(s: State, w: WorkerId, fp: Fingerprint, answer: Answer, error: string, final: bool)
    requires w !in s.workers && (!s.row.active || FingerprintOf(s.row) == Some(fp))
    ensures After(Step, s, JobEvents(w, fp, answer, error, final)) == s.(workers := s.workers[w := if s.row.active then Reported(fp) else Gone])
  {
    hide Step;
    var e := JobEvents(w, fp, answer, error, final);
    AfterFive(Step, s, e[0], e[1], e[2], e[3], e[4]);
    if s.row.active {
      StoredJobReports(s, w, fp, error);
      PastSteps(Step(Step(s, e[0]), e[1]), w, answer, error, final);
    } else {
      InactiveJobFails(s, w, fp, error);
      PastSteps(Step(s, e[0]), w, answer, error, final);
    }
  }

  lemma JobStarts(s: State, w: WorkerId, fp: Fingerprint, answer: Answer)
    requires w !in s.workers && s.row.active && FingerprintOf(s.row) != Some(fp)
    ensures var s' := Step(Step(Step(s, Load(w, fp)), WriteStart(w)), SetWebhook(w, answer));
      && w in s'.workers && s'.workers[w] == Answered(fp, answer) && s'.calls == s.calls + [Call(w, fp, answer)]
      && s'.row.active && FingerprintOf(s'.row) == Some(fp) && StatusOf(s'.row) == Some(Registering)
      && AttemptsOf(s'.row) == AttemptsOf(s.row) && s'.clock == s.clock
  {
    hide RecordOutcome;
    LoadGoesThrough(s, w, fp);
    var s1 := Step(s, Load(w, fp));
    MatchingWriteLands(s.row, StartWrite(fp), s.clock);
    NewFingerprintLands(s.row, fp, s.clock);
    WriteIsDated(s.row, StartWrite(fp), s.clock);
    var s2 := Step(s1, WriteStart(w));
    assert s2.workers[w] == Started(fp) && s2.row == RecordOutcome(s.row, StartWrite(fp), s.clock).0;
  }

  lemma NewFingerprintLands(row: Row, fp: Fingerprint, now: int)
    requires row.active && FingerprintOf(row) != Some(fp)
    ensures RecordOutcome(row, StartWrite(fp), now).1
  {
  }

  lemma JobEnds(s: State, w: WorkerId, fp: Fingerprint, answer: Answer, error: string, final: bool)
    requires w in s.workers && s.workers[w] == Answered(fp, answer)
    requires s.row.active && FingerprintOf(s.row) == Some(fp) && StatusOf(s.row) == Some(Registering)
    ensures var s' := Step(Step(s, WriteAnswer(w, error, final)), WriteTerminal(w, error));
      var counted := answer.Rejected? || (answer.Transient? && final);
      && s'.calls == s.calls && w in s'.workers && s'.workers[w] == (if answer.Accepted? then Reported(fp) else Gone)
      && StatusOf(s'.row) == Some(if answer.Accepted? then Registered else Failed) && FingerprintOf(s'.row) == Some(fp)
      && AttemptsOf(s'.row) == AttemptsOf(s.row) + (if counted then 1 else 0)
      && LastAttempt(s'.row) == Some(s.clock)
  {
    hide Updated;
    WaitingRowIsWritten(s.row, RegisteredWrite(fp), s.clock);
    WaitingRowIsWritten(s.row, FailedWrite(error, false), s.clock);
    WriteIsDated(s.row, if answer.Accepted? then RegisteredWrite(fp) else FailedWrite(error, false), s.clock);
    var s1 := Step(s, WriteAnswer(w, error, final));
    assert s1.row.active && w in s1.workers;
    if s1.workers[w].Failing? {
      CountedWriteLands(s1.row, error, s.clock);
      WriteIsDated(s1.row, FailedWrite(error, true), s.clock);
    }
  }

  lemma CountedWriteLands(row: Row, error: string, now: int)
    requires row.active
    ensures RecordOutcome(row, FailedWrite(error, true), now).1
  {
  }

  /** The whole of a job: nothing on an inactive row or on a stored fingerprint; otherwise one call, and a row that is
      registered if Telegram accepts and failed if not, with one attempt counted exactly if the job fails for good. */
  lemma UndisturbedJob(s: State, w: WorkerId, fp: Fingerprint, answer: Answer, error: string, final: bool)
    requires w !in s.workers
    ensures var s' := After(Step, s, JobEvents(w, fp, answer, error, final));
      var idle := !s.row.active || FingerprintOf(s.row) == Some(fp);
      var counted := !idle && (answer.Rejected? || (answer.Transient? && final));
      && s'.calls == (if idle then s.calls else s.calls + [Call(w, fp, answer)])
      && (idle ==> s'.row == s.row)
      && (!idle ==> StatusOf(s'.row) == Some(if answer.Accepted? then Registered else Failed) && FingerprintOf(s'.row) == Some(fp))
      && AttemptsOf(s'.row) == AttemptsOf(s.row) + (if counted then 1 else 0)
      && w in s'.workers && s'.workers[w] == (if s.row.active && (idle || answer.Accepted?) then Reported(fp) else Gone)
  {
    hide Step;
    if !s.row.active || FingerprintOf(s.row) == Some(fp) {
      JobWithoutWork(s, w, fp, answer, error, final);
    } else {
      var e := JobEvents(w, fp, answer, error, final);
      AfterFive(Step, s, e[0], e[1], e[2], e[3], e[4]);
      JobStarts(s, w, fp, answer);
      JobEnds(Step(Step(Step(s, e[0]), e[1]), e[2]), w, fp, answer, error, final);
    }
  }

  // ----- The rows of all bots, and one tick over them with nothing in between -----

  type BotId = nat

  datatype ScannedRow = ScannedRow(bot: BotId, status: Option<Status>, attempts: nat)

  function ScanOf(bot: BotId, row: Row): ScannedRow { ScannedRow(bot, StatusOf(row), AttemptsOf(row)) }

  /** The page a scan returns, in the order the database keeps its rows. */
  function FindReconcilable(rows: map<BotId, Row>, order: seq<BotId>, cutoff: int, threshold: nat, limit: nat): (page: seq<ScannedRow>)
    ensures |page| <= limit && |page| <= |order|
    ensures forall k :: 0 <= k < |page| ==> page[k].bot in order && page[k].bot in rows
    ensures forall k :: 0 <= k < |page| ==> IsReconcilable(rows[page[k].bot], cutoff, threshold) && page[k] == ScanOf(page[k].bot, rows[page[k].bot])
    ensures NoRepeats(order) ==> forall k, l :: 0 <= k < l < |page| ==> page[k].bot != page[l].bot
    ensures forall bot :: |page| < limit && bot in order && bot in rows && IsReconcilable(rows[bot], cutoff, threshold) ==>
      ScanOf(bot, rows[bot]) in page
  {
    if order == [] || limit == 0 then []
    else if order[0] in rows && IsReconcilable(rows[order[0]], cutoff, threshold) then
      var rest := FindReconcilable(rows, order[1..], cutoff, threshold, limit - 1);
      [ScanOf(order[0], rows[order[0]])] + rest
    else FindReconcilable(rows, order[1..], cutoff, threshold, limit)
  }

  predicate NoRepeats(order: seq<BotId>) {
    forall k, l :: 0 <= k < l < |order| ==> order[k] != order[l]
  }

  /** What a tick leaves of a row it scanned: a stuck attempt failed, anything else claimed. */
  function TickEffect(row: Row, cutoff: int, now: int): Row {
    if StatusOf(row) == Some(Registering) then row.(registration := Some(Updated(row, ResetWrite(cutoff), now)))
    else row.(registration := Some(Updated(row, ClaimWrite, now)))
  }

  /** On a row as scanned the write of the tick goes through, and quarantining is not an option. */
  lemma TickWriteMatches(row: Row, cutoff: int, now: int, threshold: nat)
    requires threshold >= 1 && IsReconcilable(row, cutoff, threshold)
    ensures StatusOf(row) == Some(Registering) ==> RecordOutcome(row, ResetWrite(cutoff), now) == (TickEffect(row, cutoff, now), true)
    ensures StatusOf(row) != Some(Registering) ==>
      AttemptsOf(row) < threshold && RecordOutcome(row, ClaimWrite, now) == (TickEffect(row, cutoff, now), true)
  {
  }

  /** A tick is through with the first n rows of its page. */
  ghost predicate TickedSoFar(before: map<BotId, Row>, rows: map<BotId, Row>, page: seq<ScannedRow>, n: nat, probes: seq<BotId>, cutoff: int, now: int)
    requires n <= |page|
  {
    && rows.Keys == before.Keys
    && (forall k :: 0 <= k < |page| ==> page[k].bot in before)
    && (forall k :: 0 <= k < n ==> rows[page[k].bot] == TickEffect(before[page[k].bot], cutoff, now))
    && (forall k :: 0 <= k < n ==> (page[k].bot in probes <==> page[k].status != Some(Registering)))
    && (forall bot :: bot in before && (forall k :: 0 <= k < n ==> page[k].bot != bot) ==> rows[bot] == before[bot])
    && (forall bot :: bot in probes ==> exists k :: 0 <= k < n && page[k].bot == bot)
  }

  lemma TickedNext(before: map<BotId, Row>, rows: map<BotId, Row>, page: seq<ScannedRow>, n: nat, probes: seq<BotId>, cutoff: int, now: int)
    requires n < |page| && TickedSoFar(before, rows, page, n, probes, cutoff, now)
    requires forall k, l :: 0 <= k < l < |page| ==> page[k].bot != page[l].bot
    ensures var bot := page[n].bot;
      rows[bot] == before[bot]
      && TickedSoFar(before, rows[bot := TickEffect(before[bot], cutoff, now)], page, n + 1,
           if page[n].status == Some(Registering) then probes else probes + [bot], cutoff, now)
  {
    var bot := page[n].bot;
    var rows' := rows[bot := TickEffect(before[bot], cutoff, now)];
    forall other | other in before && (forall k :: 0 <= k < n + 1 ==> page[k].bot != other)
      ensures rows'[other] == before[other]
    {
      assert page[n].bot != other;
    }
  }

  class ClientAgentRepository {
    var rows: map<BotId, Row>

    constructor (rows: map<BotId, Row>)
      ensures this.rows == rows
    {
      this.rows := rows;
    }

    method UpdateWebhookRegistrationByTelegramBotId(bot: BotId, w: Write, now: int) returns (matched: bool)
      modifies this
      ensures bot !in old(rows) ==> !matched && rows == old(rows)
      ensures bot in old(rows) ==> rows == old(rows)[bot := RecordOutcome(old(rows)[bot], w, now).0] && matched == RecordOutcome(old(rows)[bot], w, now).1
    {
      matched := false;
      if bot in rows && rows[bot].active {
        var row := rows[bot];
        var filtersPass := true;
        if w.status == Registering && w.fingerprint.Some? {
          filtersPass := FingerprintOf(row) != w.fingerprint;
        }
        if w.expectStatus != {} {
          filtersPass := filtersPass && StatusOf(row) in w.expectStatus;
        }
        if w.expectLastAttemptAtBefore.Some? {
          filtersPass := filtersPass && row.registration.Some? && row.registration.value.lastAttemptAt < w.expectLastAttemptAtBefore.value;
        }
        if filtersPass {
          var fields := if row.registration.Some? then row.registration.value else Registration(w.status, None, now, None, 0, Unset);
          fields := fields.(status := w.status, lastAttemptAt := now);
          if w.fingerprint.Some? {
            fields := fields.(fingerprint := w.fingerprint);
          }
          if w.status == Registered {
            fields := fields.(registeredAt := Some(now), lastError := Null);
          }
          if w.lastError.Some? {
            fields := fields.(lastError := Text(TruncateLastError(w.lastError.value)));
          }
          if w.incrementAttempt {
            fields := fields.(attemptCount := fields.attemptCount + 1);
          }
          matched := row.registration != Some(fields);
          rows := rows[bot := row.(registration := Some(fields))];
        }
      }
      assert bot in old(rows) && !matched ==> rows == old(rows);
    }

    method QuarantineWebhookRegistration(bot: BotId, lastError: string, now: int) returns (matched: bool)
      modifies this
      ensures bot !in old(rows) ==> !matched && rows == old(rows)
      ensures bot in old(rows) ==> rows == old(rows)[bot := Quarantine(old(rows)[bot], lastError, now).0] && matched == Quarantine(old(rows)[bot], lastError, now).1
    {
      matched := UpdateWebhookRegistrationByTelegramBotId(bot, QuarantineWrite(lastError), now);
    }

    /** Undisturbed, a tick acts on every row of its page, never quarantines, and probes exactly the rows it claimed. */
    method Tick(order: seq<BotId>, now: int, threshold: nat, pageSize: nat)
      returns (enqueued: nat, quarantined: nat, stuckReset: nat, dedupAtPort: nat, probes: seq<BotId>, ghost page: seq<ScannedRow>)
      requires threshold >= 1 && NoRepeats(order)
      modifies this
      ensures page == FindReconcilable(old(rows), order, now - STUCK_REGISTERING_CUTOFF_MS, threshold, pageSize)
      ensures quarantined == 0 && dedupAtPort == 0 && enqueued + stuckReset == |page| && |probes| == enqueued
      ensures TickedSoFar(old(rows), rows, page, |page|, probes, now - STUCK_REGISTERING_CUTOFF_MS, now)
    {
      var cutoff := now - STUCK_REGISTERING_CUTOFF_MS;
      var scanned := FindReconcilable(rows, order, cutoff, threshold, pageSize);
      page := scanned;
      enqueued, quarantined, stuckReset, dedupAtPort, probes := 0, 0, 0, 0, [];
      for i := 0 to |scanned|
        invariant quarantined == 0 && dedupAtPort == 0 && enqueued + stuckReset == i && |probes| == enqueued
        invariant TickedSoFar(old(rows), rows, scanned, i, probes, cutoff, now)
      {
        var row := scanned[i];
        TickedNext(old(rows), rows, scanned, i, probes, cutoff, now);
        TickWriteMatches(rows[row.bot], cutoff, now, threshold);
        if row.status == Some(Registering) {
          var matched := UpdateWebhookRegistrationByTelegramBotId(row.bot, ResetWrite(cutoff), now);
          stuckReset, dedupAtPort := stuckReset + (if matched then 1 else 0), dedupAtPort + (if matched then 0 else 1);
        } else if row.attempts >= threshold {
          assert false; // the scan leaves these rows out, so the quarantine branch is dead
        } else {
          var matched := UpdateWebhookRegistrationByTelegramBotId(row.bot, ClaimWrite, now);
          if matched {
            probes := probes + [row.bot];
          }
          enqueued, dedupAtPort := enqueued + (if matched then 1 else 0), dedupAtPort + (if matched then 0 else 1);
        }
      }
    }
  }
}
