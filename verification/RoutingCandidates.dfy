/** The hires that could answer an incoming message (agent-routing.service.ts, client-agent.repository.ts): what the
    database finds for a channel address, and the candidates built from it. */
module RoutingCandidates {
  import opened Wrappers
  import opened Lists
  import opened Numerals
  import opened Sorting

  type Id = string

  datatype ChannelType = WhatsApp | TikTok | Instagram | Telegram | OtherChannel

  datatype HireChannel = HireChannel(
    active: bool, channelId: Id,
    phoneNumberId: Option<string>, tiktokUserId: Option<string>, instagramAccountId: Option<string>, telegramBotId: Option<string>)

  datatype Hire = Hire(client: Id, agent: Id, active: bool, channels: seq<HireChannel>)

  datatype Agent = Agent(name: string, active: bool)

  datatype Candidate = Candidate(hire: Hire, channel: HireChannel, agentName: string)

  /** What the language's library supplies: which characters are white space, lower-casing, the collation of names, and
      which strings are object ids. */
  datatype Library = Library(isSpace: char -> bool, lower: string -> string, collates: (string, string) -> bool, isObjectId: string -> bool)

  /** Names are totally ordered; digits and the plus sign are no white space and have no case. */
  ghost predicate IsLibrary(lib: Library) {
    && IsStrictOrder(lib.collates)
    && (forall a, b :: a != b ==> lib.collates(a, b) || lib.collates(b, a))
    && (forall c :: '0' <= c <= '9' || c == '+' ==> !lib.isSpace(c))
    && KeepsDigits(lib)
  }

  ghost predicate KeepsDigits(lib: Library) {
    forall text :: AllDigits(text) ==> lib.lower(text) == text
  }

  // ----- Text -----

  function TrimStart(isSpace: char -> bool, text: string): string {
    if text != "" && isSpace(text[0]) then TrimStart(isSpace, text[1..]) else text
  }

  function TrimEnd(isSpace: char -> bool, text: string): string {
    if text != "" && isSpace(text[|text| - 1]) then TrimEnd(isSpace, text[..|text| - 1]) else text
  }

  function Trim(lib: Library, text: string): string {
    TrimEnd(lib.isSpace, TrimStart(lib.isSpace, text))
  }

  /** A phone number as it is stored and looked up: digits get a plus sign in front. */
  function NormalizeToE164(lib: Library, value: string): string {
    var trimmed := Trim(lib, value);
    if value == "" then value
    else if trimmed != "" && trimmed[0] == '+' then trimmed
    else if AllDigits(trimmed) then "+" + trimmed
    else trimmed
  }

  lemma {:induction false} TrimStartStarts(isSpace: char -> bool, text: string)
    ensures var r := TrimStart(isSpace, text); r == "" || !isSpace(r[0])
  {
    if text != "" && isSpace(text[0]) {
      TrimStartStarts(isSpace, text[1..]);
    }
  }

  lemma {:induction false} TrimEndEnds(isSpace: char -> bool, text: string)
    ensures var r := TrimEnd(isSpace, text); r <= text && (r == "" || !isSpace(r[|r| - 1]))
  {
    if text != "" && isSpace(text[|text| - 1]) {
      TrimEndEnds(isSpace, text[..|text| - 1]);
    }
  }

  lemma TrimIdempotent(lib: Library, text: string)
    ensures var r := Trim(lib, text); Trim(lib, r) == r && (r == "" || (!lib.isSpace(r[0]) && !lib.isSpace(r[|r| - 1])))
  {
    var start := TrimStart(lib.isSpace, text);
    TrimStartStarts(lib.isSpace, text);
    TrimEndEnds(lib.isSpace, start);
  }

  /** Normalizing twice is normalizing once: a stored number is found by itself. */
  lemma E164Idempotent(lib: Library, value: string)
    requires IsLibrary(lib)
    ensures var r := NormalizeToE164(lib, value); NormalizeToE164(lib, r) == r
  {
    TrimIdempotent(lib, value);
    var trimmed := Trim(lib, value);
    if value != "" && AllDigits(trimmed) && trimmed[0] != '+' {
      var r := "+" + trimmed;
      assert !lib.isSpace(r[0]) && !lib.isSpace(r[|r| - 1]);
      assert Trim(lib, r) == r;
    }
  }

  // ----- Candidates -----

  function AddressOf(channel: HireChannel, kind: ChannelType): Option<string> {
    match kind
    case WhatsApp => channel.phoneNumberId
    case TikTok => channel.tiktokUserId
    case Instagram => channel.instagramAccountId
    case Telegram => channel.telegramBotId
    case OtherChannel => None
  }

  predicate Serves(channel: HireChannel, kind: ChannelType, address: string) {
    channel.active && AddressOf(channel, kind) == Some(address)
  }

  function ServesAt(kind: ChannelType, address: string): HireChannel -> bool {
    (c: HireChannel) => Serves(c, kind, address)
  }

  function Answers(kind: ChannelType, wanted: string): Hire -> bool {
    (h: Hire) => h.active && exists k :: 0 <= k < |h.channels| && Serves(h.channels[k], kind, wanted)
  }

  /** The database is asked for the normalized number, for other channels for the address as it came. */
  function FindActiveByAddress(lib: Library, hires: seq<Hire>, kind: ChannelType, address: string): seq<Hire> {
    Select(Answers(kind, if kind.WhatsApp? then NormalizeToE164(lib, address) else address), hires)
  }

  function CandidateOf(agents: map<Id, Agent>, kind: ChannelType, address: string): Hire -> Option<Candidate> {
    (h: Hire) =>
      var channel := First(ServesAt(kind, address), h.channels);
      if channel.None? || h.agent !in agents || !agents[h.agent].active then None
      else Some(Candidate(h, channel.value, agents[h.agent].name))
  }

  function Candidates(lib: Library, agents: map<Id, Agent>, hires: seq<Hire>, kind: ChannelType, address: string): seq<Candidate> {
    FilterMap(CandidateOf(agents, kind, address), FindActiveByAddress(lib, hires, kind, address))
  }

  /** A hire is a candidate for at most one entry of the list. */
  lemma {:induction false} CandidatesHaveTheirHires(f: Hire -> Option<Candidate>, hires: seq<Hire>)
    requires NoDuplicates(hires) && forall h :: f(h).Some? ==> f(h).value.hire == h
    ensures NoDuplicates(FilterMap(f, hires)) && forall c :: c in FilterMap(f, hires) ==> c.hire in hires && f(c.hire) == Some(c)
  {
    if hires != [] {
      var shorter := hires[..|hires| - 1];
      CandidatesHaveTheirHires(f, shorter);
      var found := FilterMap(f, shorter);
      forall i | 0 <= i < |found| ensures found[i].hire != hires[|hires| - 1] {
        assert found[i] in found;
      }
    }
  }

  /** The same hires in another order make the same candidates in another order, each of them once. */
  lemma CandidatesSame(lib: Library, agents: map<Id, Agent>, a: seq<Hire>, b: seq<Hire>, kind: ChannelType, address: string)
    requires SameElements(a, b) && NoDuplicates(a) && NoDuplicates(b)
    ensures var (c, d) := (Candidates(lib, agents, a, kind, address), Candidates(lib, agents, b, kind, address));
      SameElements(c, d) && NoDuplicates(c) && NoDuplicates(d)
    ensures forall x :: x in Candidates(lib, agents, a, kind, address) ==> x.hire in a && CandidateOf(agents, kind, address)(x.hire) == Some(x)
  {
    var keep := Answers(kind, if kind.WhatsApp? then NormalizeToE164(lib, address) else address);
    SelectElements(keep, a);
    SelectSame(keep, a, b);
    SelectKeepsDistinct(keep, a);
    SelectKeepsDistinct(keep, b);
    FilterMapSame(CandidateOf(agents, kind, address), Select(keep, a), Select(keep, b));
    CandidatesHaveTheirHires(CandidateOf(agents, kind, address), Select(keep, a));
    CandidatesHaveTheirHires(CandidateOf(agents, kind, address), Select(keep, b));
  }

  lemma {:induction false} NothingToTrim(isSpace: char -> bool, text: string)
    requires text != "" && !isSpace(text[0]) && !isSpace(text[|text| - 1])
    ensures TrimEnd(isSpace, TrimStart(isSpace, text)) == text
  {
  }

  /** A number that arrives as digits alone, without the plus sign, never gets a candidate, whoever it belongs to. */
  lemma DigitsAloneNeverRoute(lib: Library, agents: map<Id, Agent>, hires: seq<Hire>, address: string)
    requires IsLibrary(lib) && AllDigits(address)
    requires forall g, k :: g in hires && 0 <= k < |g.channels| && g.channels[k].phoneNumberId.Some? ==>
      NormalizeToE164(lib, g.channels[k].phoneNumberId.value) == g.channels[k].phoneNumberId.value
    ensures NormalizeToE164(lib, address) == "+" + address
    ensures Candidates(lib, agents, hires, WhatsApp, address) == []
  {
    NothingToTrim(lib.isSpace, address);
    var keep := Answers(WhatsApp, NormalizeToE164(lib, address));
    var f := CandidateOf(agents, WhatsApp, address);
    assert |NormalizeToE164(lib, address)| == |address| + 1;
    SelectElements(keep, hires);
    forall g | g in hires ensures f(g).None? {
      FirstIs(ServesAt(WhatsApp, address), g.channels);
    }
    FilterMapNone(f, Select(keep, hires));
  }

  /** Numbers are normalized when stored and when looked up, but candidates are matched against the address as it
      came: an address that is not yet normalized finds its hires and then drops every one of them. */
  lemma OnlyNormalizedNumbersRoute(lib: Library, agents: map<Id, Agent>, hires: seq<Hire>, address: string, h: Hire)
    requires IsLibrary(lib) && h in hires && h.active && h.agent in agents && agents[h.agent].active
    requires forall g, k :: g in hires && 0 <= k < |g.channels| && g.channels[k].phoneNumberId.Some? ==>
      NormalizeToE164(lib, g.channels[k].phoneNumberId.value) == g.channels[k].phoneNumberId.value
    requires exists k :: 0 <= k < |h.channels| && Serves(h.channels[k], WhatsApp, NormalizeToE164(lib, address))
    ensures Candidates(lib, agents, hires, WhatsApp, address) != [] <==> NormalizeToE164(lib, address) == address
  {
    var wanted := NormalizeToE164(lib, address);
    var keep := Answers(WhatsApp, wanted);
    var f := CandidateOf(agents, WhatsApp, address);
    SelectElements(keep, hires);
    FilterMapElements(f, Select(keep, hires));
    FirstIs(ServesAt(WhatsApp, address), h.channels);
    if wanted == address {
      assert h in Select(keep, hires);
      var k :| 0 <= k < |h.channels| && Serves(h.channels[k], WhatsApp, wanted);
      assert h.channels[k] in h.channels;
      assert f(h).value in FilterMap(f, Select(keep, hires));
      assert f(h).value in Candidates(lib, agents, hires, WhatsApp, address);
    } else {
      forall g | g in hires ensures f(g).None? {
        FirstIs(ServesAt(WhatsApp, address), g.channels);
      }
      FilterMapNone(f, Select(keep, hires));
    }
  }

  /** An adapter that normalizes what the provider sent, as the three shipped ones do, is on the safe side: every active
      hire that the query finds for its address comes with a candidate, in whatever form the number was sent. */
  lemma AdapterNumbersRoute(lib: Library, agents: map<Id, Agent>, hires: seq<Hire>, sent: string, h: Hire)
    requires IsLibrary(lib) && h in hires && h.active && h.agent in agents && agents[h.agent].active
    requires forall g, k :: g in hires && 0 <= k < |g.channels| && g.channels[k].phoneNumberId.Some? ==>
      NormalizeToE164(lib, g.channels[k].phoneNumberId.value) == g.channels[k].phoneNumberId.value
    requires exists k :: 0 <= k < |h.channels| && Serves(h.channels[k], WhatsApp, NormalizeToE164(lib, sent))
    ensures Candidates(lib, agents, hires, WhatsApp, NormalizeToE164(lib, sent)) != []
  {
    E164Idempotent(lib, sent);
    OnlyNormalizedNumbersRoute(lib, agents, hires, NormalizeToE164(lib, sent), h);
  }

  // ----- What is trimmed, and who is a candidate -----

  lemma {:induction false} TrimStartCuts(isSpace: char -> bool, text: string) returns (front: string)
    ensures text == front + TrimStart(isSpace, text) && forall k :: 0 <= k < |front| ==> isSpace(front[k])
  {
    front := "";
    if text != "" && isSpace(text[0]) {
      var rest := TrimStartCuts(isSpace, text[1..]);
      front := [text[0]] + rest;
    }
  }

  lemma {:induction false} TrimEndCuts(isSpace: char -> bool, text: string) returns (back: string)
    ensures text == TrimEnd(isSpace, text) + back && forall k :: 0 <= k < |back| ==> isSpace(back[k])
  {
    back := "";
    if text != "" && isSpace(text[|text| - 1]) {
      var rest := TrimEndCuts(isSpace, text[..|text| - 1]);
      back := rest + [text[|text| - 1]];
    }
  }

  predicate IsBlank(lib: Library, text: string) {
    forall k :: 0 <= k < |text| ==> lib.isSpace(text[k])
  }

  /** The text without the white space around it: what is cut off at either end is white space and nothing else, and
      what remains neither begins nor ends with any. */
  ghost predicate IsTrimmed(lib: Library, text: string, r: string) {
    && (exists front, back :: text == front + r + back && IsBlank(lib, front) && IsBlank(lib, back))
    && (r == "" || (!lib.isSpace(r[0]) && !lib.isSpace(r[|r| - 1])))
  }

  lemma TrimIs(lib: Library, text: string)
    ensures IsTrimmed(lib, text, Trim(lib, text))
  {
    var start := TrimStart(lib.isSpace, text);
    var front := TrimStartCuts(lib.isSpace, text);
    var back := TrimEndCuts(lib.isSpace, start);
    TrimIdempotent(lib, text);
    assert text == front + Trim(lib, text) + back && IsBlank(lib, front) && IsBlank(lib, back);
  }

  /** A number with or without white space around it: digits get a plus sign, anything else is only trimmed. */
  lemma NormalizedIs(lib: Library, value: string)
    requires IsLibrary(lib)
    ensures var trimmed := Trim(lib, value);
      IsTrimmed(lib, value, trimmed) && NormalizeToE164(lib, value) == if AllDigits(trimmed) then "+" + trimmed else trimmed
  {
    TrimIs(lib, value);
    var trimmed := Trim(lib, value);
    assert trimmed != "" && trimmed[0] == '+' ==> !AllDigits(trimmed);
    assert value == "" ==> TrimStart(lib.isSpace, value) == "";
  }

  /** The channel is open to the address: each kind of channel has its own field for it. */
  predicate Reaches(channel: HireChannel, kind: ChannelType, address: string) {
    && channel.active
    && (kind == WhatsApp ==> channel.phoneNumberId == Some(address))
    && (kind == TikTok ==> channel.tiktokUserId == Some(address))
    && (kind == Instagram ==> channel.instagramAccountId == Some(address))
    && (kind == Telegram ==> channel.telegramBotId == Some(address))
    && kind != OtherChannel
  }

  lemma ServesIffReaches(channel: HireChannel, kind: ChannelType, address: string)
    ensures Serves(channel, kind, address) <==> Reaches(channel, kind, address)
  {
  }

  /** The candidate stands for an active hire of an active agent, under the agent's name, on the first of the hire's
      channels that the address reaches. A WhatsApp number must also reach one in its normalized form. */
  ghost predicate IsCandidate(lib: Library, agents: map<Id, Agent>, hires: seq<Hire>, kind: ChannelType, address: string, c: Candidate) {
    && c.hire in hires && c.hire.active
    && c.hire.agent in agents && agents[c.hire.agent] == Agent(c.agentName, true)
    && (exists k :: IsFirstReached(c.hire.channels, k, kind, address) && c.channel == c.hire.channels[k])
    && (kind == WhatsApp ==> exists k :: 0 <= k < |c.hire.channels| && Reaches(c.hire.channels[k], kind, NormalizeToE164(lib, address)))
  }

  ghost predicate IsFirstReached(channels: seq<HireChannel>, k: int, kind: ChannelType, address: string) {
    && 0 <= k < |channels| && Reaches(channels[k], kind, address)
    && forall j :: 0 <= j < k ==> !Reaches(channels[j], kind, address)
  }

  lemma FirstServesIff(channels: seq<HireChannel>, kind: ChannelType, address: string, channel: HireChannel)
    ensures First(ServesAt(kind, address), channels) == Some(channel)
      <==> exists k :: IsFirstReached(channels, k, kind, address) && channel == channels[k]
  {
    FirstAtIff(ServesAt(kind, address), channels, channel);
    forall c ensures ServesAt(kind, address)(c) <==> Reaches(c, kind, address) { ServesIffReaches(c, kind, address); }
    if i :| 0 <= i < |channels| && channels[i] == channel && ServesAt(kind, address)(channel) && forall j :: 0 <= j < i ==> !ServesAt(kind, address)(channels[j]) {
      assert IsFirstReached(channels, i, kind, address);
    }
    if k :| IsFirstReached(channels, k, kind, address) && channel == channels[k] {
      assert forall j :: 0 <= j < k ==> !ServesAt(kind, address)(channels[j]);
    }
  }

  lemma AnswersIff(h: Hire, kind: ChannelType, wanted: string)
    ensures Answers(kind, wanted)(h) <==> h.active && exists k :: 0 <= k < |h.channels| && Reaches(h.channels[k], kind, wanted)
  {
    forall c ensures Serves(c, kind, wanted) <==> Reaches(c, kind, wanted) { ServesIffReaches(c, kind, wanted); }
  }

  /** Who is a candidate, for every kind of channel, and that nobody is one twice. */
  lemma CandidatesIff(lib: Library, agents: map<Id, Agent>, hires: seq<Hire>, kind: ChannelType, address: string, c: Candidate)
    ensures c in Candidates(lib, agents, hires, kind, address) <==> IsCandidate(lib, agents, hires, kind, address, c)
    ensures NoDuplicates(hires) ==> NoDuplicates(Candidates(lib, agents, hires, kind, address))
  {
    hide First, Reaches, Serves, NormalizeToE164;
    var wanted := if kind.WhatsApp? then NormalizeToE164(lib, address) else address;
    var keep, f := Answers(kind, wanted), CandidateOf(agents, kind, address);
    SelectElements(keep, hires);
    FilterMapElements(f, Select(keep, hires));
    AnswersIff(c.hire, kind, wanted);
    FirstServesIff(c.hire.channels, kind, address, c.channel);
    if c in Candidates(lib, agents, hires, kind, address) {
      var h :| h in Select(keep, hires) && f(h) == Some(c);
      assert h == c.hire;
    }
    if IsCandidate(lib, agents, hires, kind, address, c) {
      assert f(c.hire) == Some(c);
      assert keep(c.hire);
    }
    if NoDuplicates(hires) {
      SelectKeepsDistinct(keep, hires);
      CandidatesHaveTheirHires(f, Select(keep, hires));
    }
  }
}
