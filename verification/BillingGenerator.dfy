/** Billing runs (billing-generator.service.ts): one record per client and period, written by any number of
    generators that run at once over the unique index on (client, period start, period end). */
module BillingGenerator {
  import opened Wrappers
  import opened QuotaPolicy
  import opened JsDate
  import opened Calendar
  import opened Runs

  type ClientId = nat
  type Id = nat

  datatype HireChannel = HireChannel(channelId: Id, amount: nat, active: bool)
  datatype Hire = Hire(agentId: Id, agentAmount: nat, currency: string, channels: seq<HireChannel>)
  datatype Client = Client(id: ClientId, billingAnchor: int, currency: string)

  datatype ItemType = AgentItem | ChannelItem
  datatype LineItem = LineItem(kind: ItemType, referenceId: Id, amount: nat)
  datatype BillingRecord = BillingRecord(client: ClientId, period: BillingPeriod, currency: string, items: seq<LineItem>, total: nat)

  // ----- Line items -----

  function ChannelItems(channels: seq<HireChannel>): seq<LineItem> {
    seq(|channels|, i requires 0 <= i < |channels| => LineItem(ChannelItem, channels[i].channelId, channels[i].amount))
  }

  /** Per hire its agent line, then a line for each of its channels. */
  function ItemsOf(hires: seq<Hire>): seq<LineItem> {
    if hires == [] then []
    else
      var last := hires[|hires| - 1];
      ItemsOf(hires[..|hires| - 1]) + [LineItem(AgentItem, last.agentId, last.agentAmount)] + ChannelItems(last.channels)
  }

  function Sum(items: seq<LineItem>): nat {
    if items == [] then 0 else Sum(items[..|items| - 1]) + items[|items| - 1].amount
  }

  lemma SumAppend(items: seq<LineItem>, item: LineItem)
    ensures Sum(items + [item]) == Sum(items) + item.amount
  {
    assert (items + [item])[..|items|] == items;
  }

  method BuildItems(hires: seq<Hire>) returns (items: seq<LineItem>, totalAmount: nat)
    ensures items == ItemsOf(hires)
    ensures totalAmount == Sum(items)
  {
    items, totalAmount := [], 0;
    for i := 0 to |hires|
      invariant items == ItemsOf(hires[..i])
      invariant totalAmount == Sum(items)
    {
      var ca := hires[i];
      ghost var before := items;
      items := items + [LineItem(AgentItem, ca.agentId, ca.agentAmount)];
      totalAmount := totalAmount + ca.agentAmount;
      SumAppend(before, LineItem(AgentItem, ca.agentId, ca.agentAmount));
      ghost var withAgent := items;
      for j := 0 to |ca.channels|
        invariant items == withAgent + ChannelItems(ca.channels)[..j]
        invariant totalAmount == Sum(items)
      {
        var ch := ca.channels[j];
        SumAppend(items, LineItem(ChannelItem, ch.channelId, ch.amount));
        items := items + [LineItem(ChannelItem, ch.channelId, ch.amount)];
        totalAmount := totalAmount + ch.amount;
      }
      assert hires[..i + 1][..i] == hires[..i];
    }
    assert hires[..|hires|] == hires;
  }

  // ----- The invoice against the quoted total (client-agents.service.ts) -----

  function ChannelsTotal(channels: seq<HireChannel>, activeOnly: bool): nat {
    if channels == [] then 0
    else
      var last := channels[|channels| - 1];
      ChannelsTotal(channels[..|channels| - 1], activeOnly) + if last.active || !activeOnly then last.amount else 0
  }

  function HiresTotal(hires: seq<Hire>, activeOnly: bool): nat {
    if hires == [] then 0
    else
      var last := hires[|hires| - 1];
      HiresTotal(hires[..|hires| - 1], activeOnly) + last.agentAmount + ChannelsTotal(last.channels, activeOnly)
  }

  /** What calculateClientTotal quotes: active channels only, and no answer on mixed currencies. */
  function ClientTotal(hires: seq<Hire>, billingCurrency: string): Option<nat> {
    if exists h :: h in hires && h.currency != billingCurrency then None
    else Some(HiresTotal(hires, true))
  }

  lemma {:induction false} SumConcat(a: seq<LineItem>, b: seq<LineItem>)
    ensures Sum(a + b) == Sum(a) + Sum(b)
  {
    if b == [] {
      assert a + b == a;
    } else {
      SumConcat(a, b[..|b| - 1]);
      assert (a + b)[..|a + b| - 1] == a + b[..|b| - 1];
    }
  }

  lemma {:induction false} SumOfChannels(channels: seq<HireChannel>)
    ensures Sum(ChannelItems(channels)) == ChannelsTotal(channels, false)
  {
    if channels != [] {
      SumOfChannels(channels[..|channels| - 1]);
      assert ChannelItems(channels)[..|channels| - 1] == ChannelItems(channels[..|channels| - 1]);
    }
  }

  /** An invoice totals every agent and every channel of its hires, active or not. */
  lemma {:induction false} InvoiceTotal(hires: seq<Hire>)
    ensures Sum(ItemsOf(hires)) == HiresTotal(hires, false)
  {
    if hires != [] {
      var last := hires[|hires| - 1];
      var earlier := ItemsOf(hires[..|hires| - 1]);
      InvoiceTotal(hires[..|hires| - 1]);
      SumOfChannels(last.channels);
      SumAppend(earlier, LineItem(AgentItem, last.agentId, last.agentAmount));
      SumConcat(earlier + [LineItem(AgentItem, last.agentId, last.agentAmount)], ChannelItems(last.channels));
    }
  }

  predicate InactiveAreFree(channels: seq<HireChannel>) {
    forall c :: c in channels && !c.active ==> c.amount == 0
  }

  lemma {:induction false} ChannelsGap(channels: seq<HireChannel>)
    ensures ChannelsTotal(channels, true) <= ChannelsTotal(channels, false)
    ensures ChannelsTotal(channels, true) == ChannelsTotal(channels, false) <==> InactiveAreFree(channels)
  {
    if channels != [] {
      ChannelsGap(channels[..|channels| - 1]);
      assert channels == channels[..|channels| - 1] + [channels[|channels| - 1]];
    }
  }

  lemma {:induction false} HiresGap(hires: seq<Hire>)
    ensures HiresTotal(hires, true) <= HiresTotal(hires, false)
    ensures HiresTotal(hires, true) == HiresTotal(hires, false) <==> forall h :: h in hires ==> InactiveAreFree(h.channels)
  {
    if hires != [] {
      HiresGap(hires[..|hires| - 1]);
      ChannelsGap(hires[|hires| - 1].channels);
      assert hires == hires[..|hires| - 1] + [hires[|hires| - 1]];
    }
  }

  /** The client is quoted what it is invoiced if and only if every hire is priced in its currency and no inactive
      channel carries a price; a hire in another currency makes the quote fail, but not the invoice. */
  lemma InvoiceEqualsQuote(hires: seq<Hire>, billingCurrency: string)
    ensures ClientTotal(hires, billingCurrency) == Some(Sum(ItemsOf(hires)))
      <==> forall h :: h in hires ==> h.currency == billingCurrency && InactiveAreFree(h.channels)
  {
    InvoiceTotal(hires);
    HiresGap(hires);
  }

  // ----- Line by line -----

  /** How many lines the first n hires take. */
  function LinesBefore(hires: seq<Hire>, n: nat): nat
    requires n <= |hires|
  {
    if n == 0 then 0 else LinesBefore(hires, n - 1) + 1 + |hires[n - 1].channels|
  }

  /** The lines of hire i: its agent first, then its channels in their order. */
  ghost predicate HasLines(items: seq<LineItem>, hires: seq<Hire>, i: nat)
    requires i < |hires|
  {
    var at, h := LinesBefore(hires, i), hires[i];
    && at + 1 + |h.channels| <= |items|
    && items[at] == LineItem(AgentItem, h.agentId, h.agentAmount)
    && forall k :: at < k <= at + |h.channels| ==>
      items[k] == LineItem(ChannelItem, h.channels[k - at - 1].channelId, h.channels[k - at - 1].amount)
  }

  lemma {:induction false} LinesOfPrefix(hires: seq<Hire>, n: nat, i: nat)
    requires i <= n <= |hires|
    ensures LinesBefore(hires[..n], i) == LinesBefore(hires, i)
  {
    if i > 0 {
      LinesOfPrefix(hires, n, i - 1);
    }
  }

  lemma LinesFit(items: seq<LineItem>, more: seq<LineItem>, hires: seq<Hire>, n: nat, i: nat)
    requires i < n <= |hires| && HasLines(items, hires[..n], i)
    ensures HasLines(items + more, hires, i)
  {
    hide LinesBefore;
    LinesOfPrefix(hires, n, i);
    assert hires[..n][i] == hires[i];
    assert forall k :: 0 <= k < |items| ==> (items + more)[k] == items[k];
  }

  lemma LastLines(items: seq<LineItem>, hires: seq<Hire>, n: nat)
    requires n < |hires| && |items| == LinesBefore(hires, n)
    ensures HasLines(items + [LineItem(AgentItem, hires[n].agentId, hires[n].agentAmount)] + ChannelItems(hires[n].channels), hires, n)
  {
  }

  /** An invoice has these lines for each hire, and no other. */
  lemma {:induction false} ItemsAre(hires: seq<Hire>)
    ensures |ItemsOf(hires)| == LinesBefore(hires, |hires|)
    ensures forall i: nat :: i < |hires| ==> HasLines(ItemsOf(hires), hires, i)
  {
    hide HasLines;
    if hires != [] {
      var n := |hires| - 1;
      var earlier := ItemsOf(hires[..n]);
      var more := [LineItem(AgentItem, hires[n].agentId, hires[n].agentAmount)] + ChannelItems(hires[n].channels);
      ItemsAre(hires[..n]);
      LinesOfPrefix(hires, n, n);
      assert ItemsOf(hires) == earlier + more;
      forall i: nat | i < |hires| ensures HasLines(ItemsOf(hires), hires, i) {
        if i < n {
          LinesFit(earlier, more, hires, n, i);
        } else {
          LastLines(earlier, hires, n);
        }
      }
    }
  }

  function WithoutInactive(channels: seq<HireChannel>): seq<HireChannel> {
    if channels == [] then []
    else
      var last := channels[|channels| - 1];
      WithoutInactive(channels[..|channels| - 1]) + (if last.active then [last] else [])
  }

  function ActiveOnly(hires: seq<Hire>): seq<Hire> {
    seq(|hires|, i requires 0 <= i < |hires| => hires[i].(channels := WithoutInactive(hires[i].channels)))
  }

  lemma {:induction false} ChannelsOfActive(channels: seq<HireChannel>)
    ensures ChannelsTotal(channels, true) == ChannelsTotal(WithoutInactive(channels), false)
  {
    if channels != [] {
      var shorter, last := channels[..|channels| - 1], channels[|channels| - 1];
      ChannelsOfActive(shorter);
      assert !last.active ==> WithoutInactive(channels) == WithoutInactive(shorter);
      assert last.active ==> WithoutInactive(channels)[..|WithoutInactive(channels)| - 1] == WithoutInactive(shorter);
    }
  }

  lemma {:induction false} HiresOfActive(hires: seq<Hire>)
    ensures HiresTotal(hires, true) == HiresTotal(ActiveOnly(hires), false)
  {
    if hires != [] {
      var n := |hires| - 1;
      HiresOfActive(hires[..n]);
      ChannelsOfActive(hires[n].channels);
      assert ActiveOnly(hires)[..n] == ActiveOnly(hires[..n]);
    }
  }

  /** A quote, where there is one, is the invoice of the same hires without their inactive channels. */
  lemma QuoteIsActiveInvoice(hires: seq<Hire>, billingCurrency: string)
    ensures ClientTotal(hires, billingCurrency).Some? <==> forall h :: h in hires ==> h.currency == billingCurrency
    ensures ClientTotal(hires, billingCurrency).Some? ==> ClientTotal(hires, billingCurrency).value == Sum(ItemsOf(ActiveOnly(hires)))
  {
    HiresOfActive(hires);
    InvoiceTotal(ActiveOnly(hires));
    assert ClientTotal(hires, billingCurrency).None? <==> exists h :: h in hires && h.currency != billingCurrency;
  }

  // ----- The generator as a transition system -----

  /** Where one call of generateForClient stands. */
  datatype Call =
    | Loaded(client: Client, hires: seq<Hire>)
    | Dated(client: Client, hires: seq<Hire>, period: BillingPeriod)
    | Checked(client: Client, hires: seq<Hire>, period: BillingPeriod)
    | Finished(result: Option<BillingPeriod>)

  /** clockReads remembers the instant every period was computed at; nothing in the system looks at it. */
  datatype State = State(
    anchors: map<ClientId, int>,
    clock: int,
    records: seq<BillingRecord>,
    calls: map<nat, Call>,
    clockReads: set<(ClientId, int)>)

  datatype Event =
    | ClockTicks(ms: nat)
    | FindClient(call: nat, client: ClientId, currency: string, hires: seq<Hire>)
    | ComputePeriod(call: nat)
    | FindExisting(call: nat)
    | CreateRecord(call: nat)

  predicate Exists(records: seq<BillingRecord>, client: ClientId, period: BillingPeriod) {
    exists r :: r in records && r.client == client && r.period == period
  }

  function NewRecord(client: Client, hires: seq<Hire>, period: BillingPeriod): BillingRecord {
    BillingRecord(client.id, period, client.currency, ItemsOf(hires), Sum(ItemsOf(hires)))
  }

  function Step(s: State, e: Event): State {
    match e
    case ClockTicks(ms) => s.(clock := s.clock + ms)
    case FindClient(call, client, currency, hires) =>
      if call in s.calls then s
      else if client !in s.anchors || hires == [] then s.(calls := s.calls[call := Finished(None)])
      else s.(calls := s.calls[call := Loaded(Client(client, s.anchors[client], currency), hires)])
    case ComputePeriod(call) =>
      if call !in s.calls || !s.calls[call].Loaded? then s
      else
        var c := s.calls[call];
        s.(calls := s.calls[call := Dated(c.client, c.hires, ComputedPeriod(DateOf(c.client.billingAnchor), s.clock))],
           clockReads := s.clockReads + {(c.client.id, s.clock)})
    case FindExisting(call) =>
      if call !in s.calls || !s.calls[call].Dated? then s
      else
        var c := s.calls[call];
        s.(calls := s.calls[call :=
          if Exists(s.records, c.client.id, c.period) then Finished(None) else Checked(c.client, c.hires, c.period)])
    case CreateRecord(call) =>
      if call !in s.calls || !s.calls[call].Checked? then s
      else
        var c := s.calls[call];
        if Exists(s.records, c.client.id, c.period) then s.(calls := s.calls[call := Finished(None)])
        else s.(records := s.records + [NewRecord(c.client, c.hires, c.period)],
                calls := s.calls[call := Finished(Some(c.period))])
  }

  function Start(anchors: map<ClientId, int>, clock: int): State {
    State(anchors, clock, [], map[], {})
  }

  /** The period was computed for this client at an instant some call read the clock. */
  ghost predicate WasComputed(s: State, client: ClientId, period: BillingPeriod) {
    client in s.anchors && exists t :: (client, t) in s.clockReads && period == ComputedPeriod(DateOf(s.anchors[client]), t)
  }

  ghost predicate RecordOk(s: State, r: BillingRecord) {
    WasComputed(s, r.client, r.period) && r.total == Sum(r.items)
  }

  ghost predicate CallOk(s: State, c: Call) {
    match c
    case Loaded(client, _) => client.id in s.anchors && client.billingAnchor == s.anchors[client.id]
    case Dated(client, _, period) => WasComputed(s, client.id, period)
    case Checked(client, _, period) => WasComputed(s, client.id, period)
    case Finished(_) => true
  }

  ghost predicate Inv(s: State) {
    && (forall r :: r in s.records ==> RecordOk(s, r))
    && (forall call :: call in s.calls ==> CallOk(s, s.calls[call]))
    && (forall i, j :: 0 <= i < j < |s.records| ==> s.records[i].client != s.records[j].client || s.records[i].period != s.records[j].period)
    && (forall r :: r in s.clockReads ==> r.1 <= s.clock)
  }

  /** Facts about records and calls survive when the clock readings only grow. */
  lemma OkMonotone(s: State, s': State)
    requires s.anchors == s'.anchors && s.clockReads <= s'.clockReads
    ensures forall r :: RecordOk(s, r) ==> RecordOk(s', r)
    ensures forall c :: CallOk(s, c) ==> CallOk(s', c)
  {
    forall client, period | WasComputed(s, client, period)
      ensures WasComputed(s', client, period)
    {
    }
  }

  lemma CallKept(s: State, call: nat, c: Call, s': State)
    requires Inv(s) && CallOk(s', c)
    requires s' == s.(calls := s.calls[call := c]) || s' == s.(calls := s.calls[call := c], clockReads := s'.clockReads)
    requires s.clockReads <= s'.clockReads && forall r :: r in s'.clockReads ==> r.1 <= s.clock
    ensures Inv(s')
  {
    OkMonotone(s, s');
  }

  lemma RecordKept(s: State, r: BillingRecord, s': State)
    requires Inv(s) && s' == s.(records := s.records + [r]) && RecordOk(s', r)
    requires !Exists(s.records, r.client, r.period)
    ensures Inv(s')
  {
    OkMonotone(s, s');
    forall i | 0 <= i < |s.records|
      ensures s.records[i].client != r.client || s.records[i].period != r.period
    {
      assert s.records[i] in s.records;
    }
  }

  lemma InvStep(s: State, e: Event)
    requires Inv(s)
    ensures Inv(Step(s, e))
  {
    var s' := Step(s, e);
    if s' == s {
    } else if e.ClockTicks? {
      OkMonotone(s, s');
    } else {
      var c' := s'.calls[e.call];
      if e.ComputePeriod? {
        assert (s.calls[e.call].client.id, s.clock) in s'.clockReads;
        CallKept(s, e.call, c', s');
      } else if s'.records == s.records {
        CallKept(s, e.call, c', s');
      } else {
        var c := s.calls[e.call];
        var middle := s.(records := s.records + [NewRecord(c.client, c.hires, c.period)]);
        RecordKept(s, NewRecord(c.client, c.hires, c.period), middle);
        CallKept(middle, e.call, c', s');
      }
    }
  }

  lemma InvHolds(anchors: map<ClientId, int>, clock: int, events: seq<Event>)
    ensures Inv(After(Step, Start(anchors, clock), events))
  {
    forall s, e | Inv(s) ensures Inv(Step(s, e)) { InvStep(s, e); }
    InvariantHolds(Step, Inv, Start(anchors, clock), events);
  }

  /** No period of the client was computed at an instant that stretches it. */
  ghost predicate ReadUnstretched(s: State, client: ClientId) {
    client in s.anchors ==> forall t :: (client, t) in s.clockReads ==>
      !IsShortYear(Year(t)) && !IsStretched(DateOf(s.anchors[client]), t)
  }

  /** In every interleaving: totals are right, and as long as no read of the clock stretched a period,
      no two records of a client overlap, so that no instant is billed twice. */
  lemma RecordsAreDisjoint(anchors: map<ClientId, int>, clock: int, events: seq<Event>, client: ClientId)
    requires ReadUnstretched(After(Step, Start(anchors, clock), events), client)
    ensures var s := After(Step, Start(anchors, clock), events);
      && (forall r :: r in s.records ==> r.total == Sum(r.items))
      && (forall i, j :: 0 <= i < j < |s.records| && s.records[i].client == client == s.records[j].client
            ==> !s.records[i].period.Overlaps(s.records[j].period))
  {
    var s := After(Step, Start(anchors, clock), events);
    InvHolds(anchors, clock, events);
    forall i, j | 0 <= i < j < |s.records| && s.records[i].client == client == s.records[j].client
      ensures !s.records[i].period.Overlaps(s.records[j].period)
    {
      var p, q := s.records[i], s.records[j];
      assert RecordOk(s, p) && RecordOk(s, q);
      var anchorDay := DateOf(s.anchors[client]);
      AnchorDayRange(s.anchors[client]);
      var t :| (client, t) in s.clockReads && p.period == ComputedPeriod(anchorDay, t);
      var u :| (client, u) in s.clockReads && q.period == ComputedPeriod(anchorDay, u);
      UnstretchedPeriodsTile(anchorDay, t, u);
    }
  }

  ghost predicate ReadsSince(s: State, clock: int) {
    clock <= s.clock && forall r :: r in s.clockReads ==> clock <= r.1
  }

  lemma ReadsFollowStart(anchors: map<ClientId, int>, clock: int, events: seq<Event>)
    ensures ReadsSince(After(Step, Start(anchors, clock), events), clock)
    ensures After(Step, Start(anchors, clock), events).anchors == anchors
  {
    InvariantHolds(Step, s => ReadsSince(s, clock) && s.anchors == anchors, Start(anchors, clock), events);
  }

  /** Anchored on a day from 1 to 28, a client is never billed twice for an instant, however runs interleave. */
  lemma NoInstantBilledTwice(anchors: map<ClientId, int>, clock: int, events: seq<Event>, client: ClientId, i: nat, j: nat, t: int)
    requires client in anchors ==> DateOf(anchors[client]) <= 28
    requires Year(clock) >= 100
    requires var s := After(Step, Start(anchors, clock), events);
      && i < |s.records| && s.records[i].client == client && s.records[i].period.Contains(t)
      && j < |s.records| && s.records[j].client == client && s.records[j].period.Contains(t)
    ensures i == j
  {
    var s := After(Step, Start(anchors, clock), events);
    ReadsFollowStart(anchors, clock, events);
    forall u | client in s.anchors && (client, u) in s.clockReads
      ensures !IsShortYear(Year(u)) && !IsStretched(DateOf(s.anchors[client]), u)
    {
      MonthsFollowTime(clock, u);
      AnchorDayRange(s.anchors[client]);
      SmallAnchorsAreRegular(DateOf(s.anchors[client]), u);
    }
    RecordsAreDisjoint(anchors, clock, events, client);
  }

  // ----- The generator called on its own -----

  /** One call with nothing in between, on the collection of records. */
  function Generate(records: seq<BillingRecord>, client: Option<Client>, hires: seq<Hire>, now: int)
    : (result: (seq<BillingRecord>, Option<BillingPeriod>))
  {
    if client.None? || hires == [] then (records, None)
    else
      var period := ComputedPeriod(DateOf(client.value.billingAnchor), now);
      if Exists(records, client.value.id, period) then (records, None)
      else (records + [NewRecord(client.value, hires, period)], Some(period))
  }

  /** The record is the client's for the period computed at `now`: in the client's currency, with a line for each of its
      hires and their channels, and their sum. */
  ghost predicate IsInvoiceOf(r: BillingRecord, client: Client, hires: seq<Hire>, now: int) {
    && r.client == client.id && r.currency == client.currency
    && r.period == ComputedPeriod(DateOf(client.billingAnchor), now)
    && |r.items| == LinesBefore(hires, |hires|) && (forall i: nat :: i < |hires| ==> HasLines(r.items, hires, i))
    && r.total == HiresTotal(hires, false)
  }

  /** When a call stores a record, and which. */
  lemma GenerateMeans(records: seq<BillingRecord>, client: Option<Client>, hires: seq<Hire>, now: int)
    ensures var (after, result) := Generate(records, client, hires, now);
      && (result.Some? <==>
        && client.Some? && hires != []
        && forall r :: r in records ==> r.client != client.value.id || r.period != ComputedPeriod(DateOf(client.value.billingAnchor), now))
      && (result.None? ==> after == records)
      && (result.Some? ==>
        && result.value == ComputedPeriod(DateOf(client.value.billingAnchor), now)
        && |after| == |records| + 1 && after[..|records|] == records && IsInvoiceOf(after[|records|], client.value, hires, now))
  {
    hide DateOf, ComputedPeriod;
    ItemsAre(hires);
    InvoiceTotal(hires);
  }

  function Script(call: nat, client: ClientId, currency: string, hires: seq<Hire>): seq<Event> {
    [FindClient(call, client, currency, hires), ComputePeriod(call), FindExisting(call), CreateRecord(call)]
  }

  lemma FinishedIgnores(s: State, call: nat)
    requires call in s.calls && s.calls[call].Finished?
    ensures Step(s, ComputePeriod(call)) == s && Step(s, FindExisting(call)) == s && Step(s, CreateRecord(call)) == s
  {
  }

  /** An uninterrupted call is a run of the transition system, and ends at once for an unknown client. */
  lemma GenerateIsARun(s: State, call: nat, client: ClientId, currency: string, hires: seq<Hire>)
    requires call !in s.calls
    ensures var s' := After(Step, s, Script(call, client, currency, hires));
      var known := if client in s.anchors then Some(Client(client, s.anchors[client], currency)) else None;
      && s'.calls.Keys == s.calls.Keys + {call} && s'.calls[call].Finished?
      && (s'.records, s'.calls[call].result) == Generate(s.records, known, hires, s.clock)
      && s'.anchors == s.anchors && s'.clock == s.clock
      && s'.clockReads == s.clockReads + (if known.None? || hires == [] then {} else {(client, s.clock)})
  {
    hide DateOf, ComputedPeriod, Exists, NewRecord, After;
    AfterFour(Step, s, FindClient(call, client, currency, hires), ComputePeriod(call), FindExisting(call), CreateRecord(call));
    var s1 := Step(s, FindClient(call, client, currency, hires));
    if client !in s.anchors || hires == [] {
      assert s1.calls[call] == Finished(None);
      FinishedIgnores(s1, call);
    } else {
      var known, period := Client(client, s.anchors[client], currency), ComputedPeriod(DateOf(s.anchors[client]), s.clock);
      assert s1.calls[call] == Loaded(known, hires);
      var s2 := Step(s1, ComputePeriod(call));
      assert s2.calls[call] == Dated(known, hires, period) && s2.records == s.records;
      if Exists(s.records, client, period) {
        var s3 := Step(s2, FindExisting(call));
        assert s3.calls[call] == Finished(None);
        FinishedIgnores(s3, call);
      }
    }
  }

  /** A second call in the same period adds nothing. */
  lemma GenerateIsIdempotent(records: seq<BillingRecord>, client: Client, hires: seq<Hire>, laterHires: seq<Hire>, now: int, laterNow: int)
    requires var anchorDay := DateOf(client.billingAnchor);
      ComputedPeriod(anchorDay, now) == ComputedPeriod(anchorDay, laterNow)
    requires hires != []
    ensures var once := Generate(records, Some(client), hires, now).0;
      Generate(once, Some(client), laterHires, laterNow) == (once, None)
  {
    var period := ComputedPeriod(DateOf(client.billingAnchor), now);
    var once := Generate(records, Some(client), hires, now).0;
    if !Exists(records, client.id, period) {
      assert NewRecord(client, hires, period) in once;
    }
  }

  /** A stretched period and the one made at the boundary it skips bill the same instants. */
  lemma StretchedBillsTwice(client: Client, hires: seq<Hire>, now: int)
    requires hires != [] && !IsShortYear(Year(now)) && IsStretched(DateOf(client.billingAnchor), now)
    ensures var next := Boundary(LocalMonth(now), DateOf(client.billingAnchor));
      var records := Generate(Generate([], Some(client), hires, now).0, Some(client), hires, next).0;
      |records| == 2 && records[0].period.Contains(next) && records[1].period.Contains(next)
  {
    hide DateOf, LocalMonth, Boundary, MonthLength, Year;
    var anchorDay := DateOf(client.billingAnchor);
    var n := LocalMonth(now);
    var next := Boundary(n, anchorDay);
    AnchorDayRange(client.billingAnchor);
    StretchedOverlapsNext(anchorDay, now);
    PeriodTrichotomy(anchorDay, now);
    MonthLengthsNeverRiseTwice(n);
    BoundaryMonotone(n - 1, n, anchorDay);
    BoundaryMonotone(n, n + 1, anchorDay);
    BoundaryInMonth(n, anchorDay);
    ComputedContainsNow(anchorDay, next);
    assert Generate([], Some(client), hires, now).0 == [NewRecord(client, hires, ComputedPeriod(anchorDay, now))];
  }

  /** An emptied period is billed on top of the true one it falls in, at the full price each. */
  lemma EmptiedBillsTwice(client: Client, hires: seq<Hire>, now: int)
    requires hires != [] && !IsShortYear(Year(now)) && IsEmptied(DateOf(client.billingAnchor), now)
    ensures var anchorDay := DateOf(client.billingAnchor);
      var t := TruePeriod(anchorDay, now).start;
      var records := Generate(Generate([], Some(client), hires, t).0, Some(client), hires, now).0;
      && t <= now && TruePeriod(anchorDay, t) == TruePeriod(anchorDay, now)
      && |records| == 2 && records[0].total == records[1].total == Sum(ItemsOf(hires))
      && records[0].period == TruePeriod(anchorDay, now) && records[1].period == BillingPeriod(records[0].period.end, records[0].period.end)
  {
    hide DateOf, IsEmptied, IsRegular, TruePeriod, ComputedPeriod, Year;
    var anchorDay := DateOf(client.billingAnchor);
    var t := TruePeriod(anchorDay, now).start;
    AnchorDayRange(client.billingAnchor);
    EmptiedStartsRegularly(anchorDay, now);
    ComputedIsTrueIffRegular(anchorDay, t);
    EmptiedIsEmpty(anchorDay, now);
    TruePeriodContains(anchorDay, now);
    assert Generate([], Some(client), hires, t).0 == [NewRecord(client, hires, ComputedPeriod(anchorDay, t))];
  }

  lemma EmptiedIsEmpty(anchorDay: int, now: int)
    requires 1 <= anchorDay <= 31 && !IsShortYear(Year(now)) && IsEmptied(anchorDay, now)
    ensures var p := ComputedPeriod(anchorDay, now); p.start == p.end == TruePeriod(anchorDay, now).end
  {
    hide ComputedPeriod, TruePeriod;
    PeriodTrichotomy(anchorDay, now);
  }

  /** Two calls within one true period of the client leave one invoice or two; two exactly if the source sees the two
      instants differently: one of them as emptied or stretched and the other not. */
  lemma OneInvoicePerPeriodIff(client: Client, hires: seq<Hire>, laterHires: seq<Hire>, t: int, u: int)
    requires hires != [] && laterHires != [] && !IsShortYear(Year(t)) && !IsShortYear(Year(u))
    requires var anchorDay := DateOf(client.billingAnchor); TruePeriod(anchorDay, t) == TruePeriod(anchorDay, u)
    ensures var anchorDay := DateOf(client.billingAnchor);
      var records := Generate(Generate([], Some(client), hires, t).0, Some(client), laterHires, u).0;
      && 1 <= |records| <= 2
      && (|records| == 1 <==> (IsEmptied(anchorDay, t) <==> IsEmptied(anchorDay, u)) && (IsStretched(anchorDay, t) <==> IsStretched(anchorDay, u)))
  {
    hide DateOf, IsEmptied, IsStretched, TruePeriod, ComputedPeriod, Year;
    var anchorDay := DateOf(client.billingAnchor);
    AnchorDayRange(client.billingAnchor);
    ComputedAgreeIff(anchorDay, t, u);
    assert Generate([], Some(client), hires, t).0 == [NewRecord(client, hires, ComputedPeriod(anchorDay, t))];
  }

  // ----- Which anchors are safe, over all runs -----

  /** Two records of the client bill one instant. */
  ghost predicate SharesAnInstant(s: State, client: ClientId) {
    exists i: nat, j: nat, t :: i < j < |s.records| && s.records[i].client == client == s.records[j].client
      && s.records[i].period.Contains(t) && s.records[j].period.Contains(t)
  }

  /** The period was computed for the client at that instant. */
  predicate ComputedAt(s: State, client: ClientId, period: BillingPeriod, t: int) {
    client in s.anchors && (client, t) in s.clockReads && period == ComputedPeriod(DateOf(s.anchors[client]), t)
  }

  /** Two records of the client were made within one true period. */
  ghost predicate InvoicedTwice(s: State, client: ClientId) {
    exists i: nat, j: nat, t, u :: i < j < |s.records| && s.records[i].client == client == s.records[j].client
      && ComputedAt(s, client, s.records[i].period, t) && ComputedAt(s, client, s.records[j].period, u)
      && TruePeriod(DateOf(s.anchors[client]), t) == TruePeriod(DateOf(s.anchors[client]), u)
  }

  const ONE_HIRE := [Hire(0, 0, "", [])]

  /** One call at t and one at u, with the clock running in between. */
  function TwoCalls(clock: int, t: int, u: int, client: ClientId): seq<Event>
    requires clock <= t <= u
  {
    [ClockTicks(t - clock)] + Script(0, client, "", ONE_HIRE) + [ClockTicks(u - t)] + Script(1, client, "", ONE_HIRE)
  }

  lemma TwoCallsRun(anchors: map<ClientId, int>, clock: int, t: int, u: int, client: ClientId)
    requires clock <= t <= u && client in anchors
    ensures var s := After(Step, Start(anchors, clock), TwoCalls(clock, t, u, client));
      var c := Client(client, anchors[client], "");
      && s.records == Generate(Generate([], Some(c), ONE_HIRE, t).0, Some(c), ONE_HIRE, u).0
      && s.clockReads == {(client, t), (client, u)} && s.anchors == anchors
  {
    hide Script, Generate, Step;
    var start, first, second := Start(anchors, clock), Script(0, client, "", ONE_HIRE), Script(1, client, "", ONE_HIRE);
    var s1 := start.(clock := t);
    var s2 := After(Step, s1, first);
    TickAfter(start, [], t - clock);
    AfterConcat(Step, start, [ClockTicks(t - clock)], first);
    GenerateIsARun(s1, 0, client, "", ONE_HIRE);
    TickAfter(start, [ClockTicks(t - clock)] + first, u - t);
    AfterConcat(Step, start, [ClockTicks(t - clock)] + first + [ClockTicks(u - t)], second);
    GenerateIsARun(s2.(clock := u), 1, client, "", ONE_HIRE);
  }

  lemma TickAfter(s: State, events: seq<Event>, ms: nat)
    ensures var s' := After(Step, s, events); After(Step, s, events + [ClockTicks(ms)]) == s'.(clock := s'.clock + ms)
  {
    assert (events + [ClockTicks(ms)])[..|events|] == events;
  }

  lemma StretchedRunShares(anchors: map<ClientId, int>, clock: int, client: ClientId) returns (events: seq<Event>)
    requires client in anchors && Year(clock) >= 100 && DateOf(anchors[client]) > 28
    ensures SharesAnInstant(After(Step, Start(anchors, clock), events), client)
  {
    hide IsStretched, DateOf, LocalMonth, Year, Boundary, Generate;
    var anchorDay := DateOf(anchors[client]);
    AnchorDayRange(anchors[client]);
    var n := LaterShortFebruary(clock);
    var now := Midnight(n, 1);
    ShortMonthStretches(n, anchorDay);
    var next := Boundary(LocalMonth(now), anchorDay);
    NowBeforeBoundary(anchorDay, now);
    events := TwoCalls(clock, now, next, client);
    TwoCallsRun(anchors, clock, now, next, client);
    StretchedBillsTwice(Client(client, anchors[client], ""), ONE_HIRE, now);
    var s := After(Step, Start(anchors, clock), events);
    InvHolds(anchors, clock, events);
    RecordsAreTheClients(Client(client, anchors[client], ""), now, next);
    assert s.records[0].period.Contains(next) && s.records[1].period.Contains(next);
  }

  lemma NowBeforeBoundary(anchorDay: int, now: int)
    requires IsStretched(anchorDay, now)
    ensures now < Boundary(LocalMonth(now), anchorDay)
  {
  }

  lemma RecordsAreTheClients(client: Client, t: int, u: int)
    ensures forall r :: r in Generate(Generate([], Some(client), ONE_HIRE, t).0, Some(client), ONE_HIRE, u).0 ==> r.client == client.id
  {
    hide ComputedPeriod, DateOf;
  }

  lemma EmptiedRunInvoicesTwice(anchors: map<ClientId, int>, clock: int, client: ClientId) returns (events: seq<Event>)
    requires client in anchors && Year(clock) >= 100 && DateOf(anchors[client]) > 28
    ensures InvoicedTwice(After(Step, Start(anchors, clock), events), client)
  {
    hide IsEmptied, IsRegular, DateOf, LocalMonth, Year, TruePeriod, ComputedPeriod, Generate, MonthLength;
    var anchorDay := DateOf(anchors[client]);
    var c := Client(client, anchors[client], "");
    AnchorDayRange(anchors[client]);
    var n := LaterShortFebruary(clock);
    var now := Midnight(n + 1, 1);
    ShortMonthEmpties(n, anchorDay);
    var t := TruePeriod(anchorDay, now).start;
    EmptiedStartsInMonth(n, anchorDay);
    EmptiedBillsTwice(c, ONE_HIRE, now);
    EmptiedStartsRegularly(anchorDay, now);
    ComputedIsTrueIffRegular(anchorDay, t);
    EmptiedIsEmpty(anchorDay, now);
    events := TwoCalls(clock, t, now, client);
    TwoCallsRun(anchors, clock, t, now, client);
    RecordsAreTheClients(c, t, now);
    var s := After(Step, Start(anchors, clock), events);
    assert s.records[0] in s.records && s.records[1] in s.records;
    assert ComputedAt(s, client, s.records[0].period, t) && ComputedAt(s, client, s.records[1].period, now);
  }

  lemma EmptiedStartsInMonth(n: int, anchorDay: int)
    requires 1 <= anchorDay <= 31 && IsEmptied(anchorDay, Midnight(n + 1, 1))
    ensures Midnight(n, 1) <= TruePeriod(anchorDay, Midnight(n + 1, 1)).start
  {
    hide MonthLength;
    MidnightFields(n + 1, 1);
    BoundaryInMonth(n, anchorDay);
  }

  /** Records made within one true period by an anchor of 1 to 28 are one record. */
  lemma SafeAnchorsInvoiceOnce(anchors: map<ClientId, int>, clock: int, events: seq<Event>, client: ClientId)
    requires client in anchors && Year(clock) >= 100 && DateOf(anchors[client]) <= 28
    ensures !InvoicedTwice(After(Step, Start(anchors, clock), events), client)
  {
    hide DateOf, Year, TruePeriod, ComputedPeriod, IsRegular;
    var s := After(Step, Start(anchors, clock), events);
    var anchorDay := DateOf(anchors[client]);
    InvHolds(anchors, clock, events);
    ReadsFollowStart(anchors, clock, events);
    AnchorDayRange(anchors[client]);
    forall t | (client, t) in s.clockReads ensures ComputedPeriod(anchorDay, t) == TruePeriod(anchorDay, t) {
      LaterYearsAreLong(clock, t);
      SmallAnchorsAreRegular(anchorDay, t);
      ComputedIsTrueIffRegular(anchorDay, t);
    }
  }

  lemma LaterYearsAreLong(t: int, u: int)
    requires t <= u && Year(t) >= 100
    ensures !IsShortYear(Year(u))
  {
    MonthsFollowTime(t, u);
  }

  /** Whenever the generators start: some run bills an instant twice if and only if the anchor day is beyond 28, and
      some run invoices the client twice for one true period if and only if it is. */
  lemma BilledTwiceIff(anchors: map<ClientId, int>, clock: int, client: ClientId)
    requires client in anchors && Year(clock) >= 100
    ensures (exists events :: SharesAnInstant(After(Step, Start(anchors, clock), events), client)) <==> DateOf(anchors[client]) > 28
    ensures (exists events :: InvoicedTwice(After(Step, Start(anchors, clock), events), client)) <==> DateOf(anchors[client]) > 28
  {
    hide DateOf, Year, SharesAnInstant, InvoicedTwice;
    if DateOf(anchors[client]) > 28 {
      var stretched := StretchedRunShares(anchors, clock, client);
      var emptied := EmptiedRunInvoicesTwice(anchors, clock, client);
    } else {
      forall events ensures !SharesAnInstant(After(Step, Start(anchors, clock), events), client) {
        SafeAnchorsShareNothing(anchors, clock, events, client);
      }
      forall events ensures !InvoicedTwice(After(Step, Start(anchors, clock), events), client) {
        SafeAnchorsInvoiceOnce(anchors, clock, events, client);
      }
    }
  }

  lemma SafeAnchorsShareNothing(anchors: map<ClientId, int>, clock: int, events: seq<Event>, client: ClientId)
    requires client in anchors && Year(clock) >= 100 && DateOf(anchors[client]) <= 28
    ensures !SharesAnInstant(After(Step, Start(anchors, clock), events), client)
  {
    hide DateOf, Year;
    var s := After(Step, Start(anchors, clock), events);
    forall i: nat, j: nat, t | i < j < |s.records| && s.records[i].client == client == s.records[j].client
      ensures !(s.records[i].period.Contains(t) && s.records[j].period.Contains(t))
    {
      if s.records[i].period.Contains(t) && s.records[j].period.Contains(t) {
        NoInstantBilledTwice(anchors, clock, events, client, i, j, t);
      }
    }
  }

  /** The record invoices one of the clients for its own hires. */
  ghost predicate IsInvoiceOfSome(r: BillingRecord, clients: seq<(Client, seq<Hire>)>, nows: seq<int>)
    requires |nows| == |clients|
  {
    exists i :: 0 <= i < |clients| && IsInvoiceOf(r, clients[i].0, clients[i].1, nows[i])
  }

  /** The service over its collection. */
  class BillingGeneratorService {
    var records: seq<BillingRecord>

    constructor ()
      ensures records == []
    {
      records := [];
    }

    method GenerateForClient(client: Option<Client>, hires: seq<Hire>, now: int) returns (result: Option<BillingPeriod>)
      modifies this
      ensures (records, result) == Generate(old(records), client, hires, now)
      ensures result.Some? ==> client.Some? && |records| == |old(records)| + 1 && old(records) <= records
      ensures result.Some? ==> IsInvoiceOf(records[|records| - 1], client.value, hires, now)
    {
      GenerateMeans(records, client, hires, now);
      if client.None? || |hires| == 0 {
        return None;
      }
      var period := ComputeCurrentBillingPeriod(client.value.billingAnchor, now);
      if Exists(records, client.value.id, period) {
        return None;
      }
      var items, totalAmount := BuildItems(hires);
      records := records + [BillingRecord(client.value.id, period, client.value.currency, items, totalAmount)];
      result := Some(period);
    }

    /** Every client counts once, as generated or as skipped, and the generated ones are the new records. */
    method GenerateForAllClients(clients: seq<(Client, seq<Hire>)>, nows: seq<int>) returns (generated: nat, skipped: nat)
      requires |nows| == |clients|
      modifies this
      ensures generated + skipped == |clients|
      ensures |records| == |old(records)| + generated && old(records) <= records
      ensures forall i :: 0 <= i < |clients| && clients[i].1 != [] ==>
        Exists(records, clients[i].0.id, ComputedPeriod(DateOf(clients[i].0.billingAnchor), nows[i]))
      ensures forall k :: |old(records)| <= k < |records| ==> IsInvoiceOfSome(records[k], clients, nows)
    {
      generated, skipped := 0, 0;
      for k := 0 to |clients|
        invariant generated + skipped == k
        invariant |records| == |old(records)| + generated && old(records) <= records
        invariant forall n :: |old(records)| <= n < |records| ==> IsInvoiceOfSome(records[n], clients, nows)
        invariant forall i :: 0 <= i < k && clients[i].1 != [] ==>
          Exists(records, clients[i].0.id, ComputedPeriod(DateOf(clients[i].0.billingAnchor), nows[i]))
      {
        ghost var before := records;
        var result := GenerateForClient(Some(clients[k].0), clients[k].1, nows[k]);
        assert before <= records && forall r :: r in before ==> r in records;
        if result.Some? {
          assert records[|before|] in records;
          generated := generated + 1;
        } else {
          skipped := skipped + 1;
        }
      }
    }
  }
}
