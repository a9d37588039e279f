/** Sticky routing (agent-routing.service.ts, resolveFromRecentHistory): the candidate whose agent last spoke with the
    sender, found by walking the candidates client by client. */
module RecentHistory {
  import opened Wrappers
  import opened Lists
  import opened RoutingCandidates

  datatype Contact = Contact(id: nat, client: Id, channel: Id, identity: string)

  /** `spoken`: sent by the user or an agent. */
  datatype Message = Message(contact: nat, agent: Id, channel: Id, active: bool, spoken: bool, createdAt: int)

  datatype Database = Database(contacts: seq<Contact>, messages: seq<Message>)

  datatype Hit = Hit(createdAt: int, candidate: Candidate)

  function FindContact(db: Database, client: Id, channel: Id, identity: string): Option<Contact> {
    First((k: Contact) => k.client == client && k.channel == channel && k.identity == identity, db.contacts)
  }

  predicate Counts(m: Message, contact: nat, agents: seq<Id>, channels: seq<Id>) {
    m.contact == contact && m.active && m.spoken && m.agent in agents && (channels != [] ==> m.channel in channels)
  }

  function FindLatest(messages: seq<Message>, contact: nat, agents: seq<Id>, channels: seq<Id>): (r: Option<Message>)
    ensures r.Some? ==> r.value in messages && Counts(r.value, contact, agents, channels)
    ensures forall m :: m in messages && Counts(m, contact, agents, channels) ==> r.Some? && m.createdAt <= r.value.createdAt
  {
    if messages == [] then None
    else
      var m := messages[|messages| - 1];
      assert messages == messages[..|messages| - 1] + [m];
      var earlier := FindLatest(messages[..|messages| - 1], contact, agents, channels);
      if Counts(m, contact, agents, channels) && (earlier.None? || earlier.value.createdAt < m.createdAt) then Some(m) else earlier
  }

  function ClientOf(): Candidate -> Id {
    (c: Candidate) => c.hire.client
  }

  function GroupOf(cands: seq<Candidate>, client: Id): seq<Candidate> {
    Select(Keyed(ClientOf(), client), cands)
  }

  function AgentIds(lib: Library, group: seq<Candidate>): seq<Id> {
    FilterMap((c: Candidate) => if lib.isObjectId(c.hire.agent) then Some(c.hire.agent) else None, group)
  }

  function ChannelIds(lib: Library, group: seq<Candidate>): seq<Id> {
    FilterMap((c: Candidate) => if lib.isObjectId(c.channel.channelId) then Some(c.channel.channelId) else None, group)
  }

  function WithAgent(group: seq<Candidate>, agent: Id): Option<Candidate> {
    First((c: Candidate) => c.hire.agent == agent, group)
  }

  /** What the visit of one candidate of a client's group turns up. */
  function HitOf(lib: Library, db: Database, identity: string, group: seq<Candidate>, c: Candidate): Option<Hit> {
    var contact := FindContact(db, c.hire.client, c.channel.channelId, identity);
    if !lib.isObjectId(c.hire.client) || AgentIds(lib, group) == [] || !lib.isObjectId(c.channel.channelId) || contact.None? then None
    else
      var latest := FindLatest(db.messages, contact.value.id, AgentIds(lib, group), ChannelIds(lib, group));
      if latest.None? then None
      else
        var matched := WithAgent(group, latest.value.agent);
        if matched.None? then None else Some(Hit(latest.value.createdAt, matched.value))
  }

  function Later(best: Option<Hit>, hit: Option<Hit>): Option<Hit> {
    if hit.Some? && (best.None? || hit.value.createdAt > best.value.createdAt) then hit else best
  }

  /** The first n candidates of a group, visited one after the other. */
  function BestInGroup(lib: Library, db: Database, identity: string, group: seq<Candidate>, n: nat, best: Option<Hit>): Option<Hit>
    requires n <= |group|
  {
    if n == 0 then best
    else Later(BestInGroup(lib, db, identity, group, n - 1, best), HitOf(lib, db, identity, group, group[n - 1]))
  }

  function ClientsInOrder(cands: seq<Candidate>): seq<Id> {
    KeysInOrder(ClientOf(), cands)
  }

  function BestOf(lib: Library, db: Database, identity: string, cands: seq<Candidate>, clients: seq<Id>): Option<Hit> {
    if clients == [] then None
    else
      var group := GroupOf(cands, clients[|clients| - 1]);
      BestInGroup(lib, db, identity, group, |group|, BestOf(lib, db, identity, cands, clients[..|clients| - 1]))
  }

  function MostRecent(lib: Library, db: Database, identity: string, cands: seq<Candidate>): Option<Candidate> {
    var best := BestOf(lib, db, identity, cands, ClientsInOrder(cands));
    if best.None? then None else Some(best.value.candidate)
  }

  // ----- The loops -----

  /** Groups the candidates in a map that remembers the order of its keys, then walks it. */
  method ResolveFromRecentHistory(lib: Library, db: Database, identity: string, cands: seq<Candidate>) returns (sticky: Option<Candidate>)
    ensures sticky == MostRecent(lib, db, identity, cands)
  {
    var keys, byClient := GroupBy(ClientOf(), cands);
    var best: Option<Hit> := None;
    for k := 0 to |keys|
      invariant best == BestOf(lib, db, identity, cands, keys[..k])
    {
      assert keys[..k + 1][..k] == keys[..k];
      assert keys[k] in keys;
      var group := byClient[keys[k]];
      for n := 0 to |group|
        invariant best == BestInGroup(lib, db, identity, group, n, BestOf(lib, db, identity, cands, keys[..k]))
      {
        var hit := HitOf(lib, db, identity, group, group[n]);
        if hit.Some? && (best.None? || hit.value.createdAt > best.value.createdAt) {
          best := hit;
        }
      }
    }
    assert keys[..|keys|] == keys;
    sticky := if best.None? then None else Some(best.value.candidate);
  }

  // ----- The latest hit of them all -----

  ghost predicate IsHit(lib: Library, db: Database, identity: string, cands: seq<Candidate>, hit: Hit) {
    exists c :: c in cands && HitOf(lib, db, identity, GroupOf(cands, c.hire.client), c) == Some(hit)
  }

  /** A hit that no hit is later than. */
  ghost predicate IsLatestHit(lib: Library, db: Database, identity: string, cands: seq<Candidate>, hit: Hit) {
    && IsHit(lib, db, identity, cands, hit)
    && forall other :: IsHit(lib, db, identity, cands, other) ==> other.createdAt <= hit.createdAt
  }

  /** `best` sums up a number of visits. */
  ghost predicate SumsUp(best: Option<Hit>, hits: set<Hit>) {
    && (best.Some? ==> best.value in hits)
    && forall hit :: hit in hits ==> best.Some? && hit.createdAt <= best.value.createdAt
  }

  function HitsInGroup(lib: Library, db: Database, identity: string, group: seq<Candidate>, n: nat): set<Hit>
    requires n <= |group|
  {
    if n == 0 then {}
    else
      var hit := HitOf(lib, db, identity, group, group[n - 1]);
      HitsInGroup(lib, db, identity, group, n - 1) + (if hit.Some? then {hit.value} else {})
  }

  function HitsOf(lib: Library, db: Database, identity: string, cands: seq<Candidate>, clients: seq<Id>): set<Hit> {
    if clients == [] then {}
    else
      var group := GroupOf(cands, clients[|clients| - 1]);
      HitsOf(lib, db, identity, cands, clients[..|clients| - 1]) + HitsInGroup(lib, db, identity, group, |group|)
  }

  lemma {:induction false} GroupSumsUp(lib: Library, db: Database, identity: string, group: seq<Candidate>, n: nat, best: Option<Hit>, hits: set<Hit>)
    requires n <= |group| && SumsUp(best, hits)
    ensures SumsUp(BestInGroup(lib, db, identity, group, n, best), hits + HitsInGroup(lib, db, identity, group, n))
  {
    if n > 0 {
      GroupSumsUp(lib, db, identity, group, n - 1, best, hits);
    }
  }

  lemma {:induction false} BestSumsUp(lib: Library, db: Database, identity: string, cands: seq<Candidate>, clients: seq<Id>)
    ensures SumsUp(BestOf(lib, db, identity, cands, clients), HitsOf(lib, db, identity, cands, clients))
  {
    if clients != [] {
      var shorter, group := clients[..|clients| - 1], GroupOf(cands, clients[|clients| - 1]);
      BestSumsUp(lib, db, identity, cands, shorter);
      GroupSumsUp(lib, db, identity, group, |group|, BestOf(lib, db, identity, cands, shorter), HitsOf(lib, db, identity, cands, shorter));
    }
  }

  lemma {:induction false} HitsInGroupAre(lib: Library, db: Database, identity: string, group: seq<Candidate>, n: nat, hit: Hit)
    requires n <= |group|
    ensures hit in HitsInGroup(lib, db, identity, group, n) <==> exists k :: 0 <= k < n && HitOf(lib, db, identity, group, group[k]) == Some(hit)
  {
    hide HitOf;
    if n > 0 {
      HitsInGroupAre(lib, db, identity, group, n - 1, hit);
    }
  }

  ghost predicate HitsClient(lib: Library, db: Database, identity: string, cands: seq<Candidate>, client: Id, hit: Hit) {
    exists c :: c in cands && c.hire.client == client && HitOf(lib, db, identity, GroupOf(cands, client), c) == Some(hit)
  }

  lemma GroupHitsAre(lib: Library, db: Database, identity: string, cands: seq<Candidate>, client: Id, hit: Hit)
    ensures var group := GroupOf(cands, client);
      hit in HitsInGroup(lib, db, identity, group, |group|) <==> HitsClient(lib, db, identity, cands, client, hit)
  {
    var group := GroupOf(cands, client);
    SelectElements(Keyed(ClientOf(), client), cands);
    HitsInGroupAre(lib, db, identity, group, |group|, hit);
    if HitsClient(lib, db, identity, cands, client, hit) {
      var c :| c in cands && c.hire.client == client && HitOf(lib, db, identity, group, c) == Some(hit);
      assert c in group;
      var k :| 0 <= k < |group| && group[k] == c;
    }
    if k :| 0 <= k < |group| && HitOf(lib, db, identity, group, group[k]) == Some(hit) {
      assert group[k] in group;
    }
  }

  lemma {:induction false} HitsAre(lib: Library, db: Database, identity: string, cands: seq<Candidate>, clients: seq<Id>, hit: Hit)
    ensures hit in HitsOf(lib, db, identity, cands, clients)
      <==> exists client :: client in clients && HitsClient(lib, db, identity, cands, client, hit)
  {
    hide HitOf, GroupOf;
    if clients != [] {
      var last := clients[|clients| - 1];
      HitsAre(lib, db, identity, cands, clients[..|clients| - 1], hit);
      GroupHitsAre(lib, db, identity, cands, last, hit);
      assert clients == clients[..|clients| - 1] + [last];
    }
  }

  lemma HitHasItsClient(lib: Library, db: Database, identity: string, cands: seq<Candidate>, hit: Hit)
    ensures IsHit(lib, db, identity, cands, hit)
      <==> exists client :: client in ClientsInOrder(cands) && HitsClient(lib, db, identity, cands, client, hit)
  {
    KeysAppear(ClientOf(), cands);
    if IsHit(lib, db, identity, cands, hit) {
      var c :| c in cands && HitOf(lib, db, identity, GroupOf(cands, c.hire.client), c) == Some(hit);
      assert HitsClient(lib, db, identity, cands, c.hire.client, hit);
    }
  }

  /** The loops return the candidate of a latest hit, or nothing when there is no hit at all. */
  lemma MostRecentIsLatestHit(lib: Library, db: Database, identity: string, cands: seq<Candidate>)
    ensures var best := BestOf(lib, db, identity, cands, ClientsInOrder(cands));
      if best.Some? then IsLatestHit(lib, db, identity, cands, best.value)
      else forall hit :: !IsHit(lib, db, identity, cands, hit)
  {
    var clients := ClientsInOrder(cands);
    BestSumsUp(lib, db, identity, cands, clients);
    KeysAppear(ClientOf(), cands);
    forall hit ensures hit in HitsOf(lib, db, identity, cands, clients) <==> IsHit(lib, db, identity, cands, hit) {
      HitsAre(lib, db, identity, cands, clients, hit);
      HitHasItsClient(lib, db, identity, cands, hit);
    }
  }

  // ----- No message of the sender is later -----

  /** The message counts for the sender when the candidate's group is asked about: a spoken, active message of the
      sender's contact on the candidate's channel, by an agent of the group and on a channel of the group. */
  ghost predicate CountsFor(lib: Library, db: Database, identity: string, cands: seq<Candidate>, c: Candidate, m: Message) {
    var group := GroupOf(cands, c.hire.client);
    var contact := FindContact(db, c.hire.client, c.channel.channelId, identity);
    && c in cands && lib.isObjectId(c.hire.client) && lib.isObjectId(c.channel.channelId) && contact.Some?
    && m in db.messages && Counts(m, contact.value.id, AgentIds(lib, group), ChannelIds(lib, group))
  }

  /** The agent of a counted message is one of the group's. */
  lemma CountedAgentIsInGroup(lib: Library, group: seq<Candidate>, agent: Id)
    requires agent in AgentIds(lib, group)
    ensures WithAgent(group, agent).Some? && WithAgent(group, agent).value.hire.agent == agent
  {
    FilterMapElements((c: Candidate) => if lib.isObjectId(c.hire.agent) then Some(c.hire.agent) else None, group);
    FirstIs((c: Candidate) => c.hire.agent == agent, group);
  }

  lemma CountedIsHit(lib: Library, db: Database, identity: string, cands: seq<Candidate>, c: Candidate, m: Message)
    requires CountsFor(lib, db, identity, cands, c, m)
    ensures var hit := HitOf(lib, db, identity, GroupOf(cands, c.hire.client), c); hit.Some? && m.createdAt <= hit.value.createdAt
  {
    hide AgentIds, ChannelIds, WithAgent, GroupOf;
    var group := GroupOf(cands, c.hire.client);
    var contact := FindContact(db, c.hire.client, c.channel.channelId, identity).value;
    var latest := FindLatest(db.messages, contact.id, AgentIds(lib, group), ChannelIds(lib, group));
    CountedAgentIsInGroup(lib, group, latest.value.agent);
  }

  /** Sticky routing picks the agent of a message that no counted message of the sender is later than, and picks nobody
      only if no message counts. */
  lemma NoCountedMessageIsLater(lib: Library, db: Database, identity: string, cands: seq<Candidate>)
    ensures var best := BestOf(lib, db, identity, cands, ClientsInOrder(cands));
      if best.None? then forall c, m :: !CountsFor(lib, db, identity, cands, c, m)
      else (
        && (exists m, k :: Backs(db, cands, best.value, m, k))
        && forall c, m :: CountsFor(lib, db, identity, cands, c, m) ==> m.createdAt <= best.value.createdAt)
  {
    hide CountsFor, HitOf, BestOf;
    var best := BestOf(lib, db, identity, cands, ClientsInOrder(cands));
    MostRecentIsLatestHit(lib, db, identity, cands);
    forall c, m | CountsFor(lib, db, identity, cands, c, m) ensures best.Some? && m.createdAt <= best.value.createdAt {
      CountedIsHit(lib, db, identity, cands, c, m);
      CountedIsCandidate(lib, db, identity, cands, c, m);
      assert IsHit(lib, db, identity, cands, HitOf(lib, db, identity, GroupOf(cands, c.hire.client), c).value);
    }
    if best.Some? {
      var m, k := HitIsBacked(lib, db, identity, cands, best.value);
    }
  }

  lemma CountedIsCandidate(lib: Library, db: Database, identity: string, cands: seq<Candidate>, c: Candidate, m: Message)
    requires CountsFor(lib, db, identity, cands, c, m)
    ensures c in cands
  {
  }

  // ----- The answer does not depend on the order of the candidates -----

  /** One document per contact id, one message per instant. */
  ghost predicate IsDatabase(db: Database) {
    && (forall i, j :: 0 <= i < j < |db.contacts| ==> db.contacts[i].id != db.contacts[j].id)
    && (forall i, j :: 0 <= i < j < |db.messages| ==> db.messages[i].createdAt != db.messages[j].createdAt)
  }

  ghost predicate OneHirePerPair(cands: seq<Candidate>) {
    forall c, d :: c in cands && d in cands && c.hire.client == d.hire.client && c.hire.agent == d.hire.agent ==> c == d
  }

  lemma {:induction false} LatestSame(messages: seq<Message>, contact: nat, agents: seq<Id>, channels: seq<Id>, agents': seq<Id>, channels': seq<Id>)
    requires SameElements(agents, agents') && SameElements(channels, channels')
    ensures FindLatest(messages, contact, agents, channels) == FindLatest(messages, contact, agents', channels')
  {
    assert channels != [] ==> channels[0] in channels';
    assert channels' != [] ==> channels'[0] in channels;
    if messages != [] {
      LatestSame(messages[..|messages| - 1], contact, agents, channels, agents', channels');
    }
  }

  lemma GroupIs(cands: seq<Candidate>, client: Id)
    ensures forall c :: c in GroupOf(cands, client) <==> c in cands && c.hire.client == client
  {
    SelectElements(Keyed(ClientOf(), client), cands);
  }

  lemma AgentMatchSame(a: seq<Candidate>, b: seq<Candidate>, client: Id, agent: Id)
    requires SameElements(a, b) && OneHirePerPair(a)
    ensures WithAgent(GroupOf(a, client), agent) == WithAgent(GroupOf(b, client), agent)
  {
    GroupIs(a, client);
    GroupIs(b, client);
    FirstIs((c: Candidate) => c.hire.agent == agent, GroupOf(a, client));
    FirstIs((c: Candidate) => c.hire.agent == agent, GroupOf(b, client));
  }

  lemma HitSame(lib: Library, db: Database, identity: string, a: seq<Candidate>, b: seq<Candidate>, c: Candidate)
    requires SameElements(a, b) && OneHirePerPair(a)
    ensures HitOf(lib, db, identity, GroupOf(a, c.hire.client), c) == HitOf(lib, db, identity, GroupOf(b, c.hire.client), c)
  {
    var (g, h) := (GroupOf(a, c.hire.client), GroupOf(b, c.hire.client));
    GroupIs(a, c.hire.client);
    GroupIs(b, c.hire.client);
    FilterMapSame((c: Candidate) => if lib.isObjectId(c.hire.agent) then Some(c.hire.agent) else None, g, h);
    FilterMapSame((c: Candidate) => if lib.isObjectId(c.channel.channelId) then Some(c.channel.channelId) else None, g, h);
    assert AgentIds(lib, g) != [] ==> AgentIds(lib, g)[0] in AgentIds(lib, h);
    assert AgentIds(lib, h) != [] ==> AgentIds(lib, h)[0] in AgentIds(lib, g);
    var contact := FindContact(db, c.hire.client, c.channel.channelId, identity);
    if contact.Some? {
      LatestSame(db.messages, contact.value.id, AgentIds(lib, g), ChannelIds(lib, g), AgentIds(lib, h), ChannelIds(lib, h));
      var latest := FindLatest(db.messages, contact.value.id, AgentIds(lib, g), ChannelIds(lib, g));
      if latest.Some? {
        AgentMatchSame(a, b, c.hire.client, latest.value.agent);
      }
    }
  }

  lemma HitsSame(lib: Library, db: Database, identity: string, a: seq<Candidate>, b: seq<Candidate>, hit: Hit)
    requires SameElements(a, b) && OneHirePerPair(a) && IsHit(lib, db, identity, a, hit)
    ensures IsHit(lib, db, identity, b, hit)
  {
    var c :| c in a && HitOf(lib, db, identity, GroupOf(a, c.hire.client), c) == Some(hit);
    HitSame(lib, db, identity, a, b, c);
  }

  /** The message behind a hit says whose contact wrote it and which agent it names. */
  ghost predicate Backs(db: Database, cands: seq<Candidate>, hit: Hit, m: Message, k: Contact) {
    && m in db.messages && m.createdAt == hit.createdAt && k in db.contacts && m.contact == k.id
    && hit.candidate in cands && hit.candidate.hire.client == k.client && hit.candidate.hire.agent == m.agent
  }

  lemma HitIsBacked(lib: Library, db: Database, identity: string, cands: seq<Candidate>, hit: Hit) returns (m: Message, k: Contact)
    requires IsHit(lib, db, identity, cands, hit)
    ensures Backs(db, cands, hit, m, k)
  {
    var c :| c in cands && HitOf(lib, db, identity, GroupOf(cands, c.hire.client), c) == Some(hit);
    var group := GroupOf(cands, c.hire.client);
    k := FindContact(db, c.hire.client, c.channel.channelId, identity).value;
    m := FindLatest(db.messages, k.id, AgentIds(lib, group), ChannelIds(lib, group)).value;
    FirstIs((k: Contact) => k.client == c.hire.client && k.channel == c.channel.channelId && k.identity == identity, db.contacts);
    FirstIs((c: Candidate) => c.hire.agent == m.agent, group);
    GroupIs(cands, c.hire.client);
  }

  lemma SameTimeSameCandidate(lib: Library, db: Database, identity: string, cands: seq<Candidate>, a: Hit, b: Hit)
    requires IsDatabase(db) && OneHirePerPair(cands) && a.createdAt == b.createdAt
    requires IsHit(lib, db, identity, cands, a) && IsHit(lib, db, identity, cands, b)
    ensures a == b
  {
    var m, k := HitIsBacked(lib, db, identity, cands, a);
    var n, l := HitIsBacked(lib, db, identity, cands, b);
    var i :| 0 <= i < |db.messages| && db.messages[i] == m;
    var j :| 0 <= j < |db.messages| && db.messages[j] == n;
    assert m == n;
    var x :| 0 <= x < |db.contacts| && db.contacts[x] == k;
    var y :| 0 <= y < |db.contacts| && db.contacts[y] == l;
    assert k == l;
  }

  lemma LatestHitSame(lib: Library, db: Database, identity: string, a: seq<Candidate>, b: seq<Candidate>, x: Hit, y: Hit)
    requires IsDatabase(db) && SameElements(a, b) && OneHirePerPair(a)
    requires IsLatestHit(lib, db, identity, a, x) && IsLatestHit(lib, db, identity, b, y)
    ensures x == y
  {
    assert OneHirePerPair(b);
    HitsSame(lib, db, identity, a, b, x);
    HitsSame(lib, db, identity, b, a, y);
    SameTimeSameCandidate(lib, db, identity, a, x, y);
  }

  lemma BestForgetsOrder(lib: Library, db: Database, identity: string, a: seq<Candidate>, b: seq<Candidate>, x: Option<Hit>, y: Option<Hit>)
    requires IsDatabase(db) && SameElements(a, b) && OneHirePerPair(a)
    requires if x.Some? then IsLatestHit(lib, db, identity, a, x.value) else forall hit :: !IsHit(lib, db, identity, a, hit)
    requires if y.Some? then IsLatestHit(lib, db, identity, b, y.value) else forall hit :: !IsHit(lib, db, identity, b, hit)
    ensures x == y
  {
    assert OneHirePerPair(b);
    if x.Some? {
      HitsSame(lib, db, identity, a, b, x.value);
      LatestHitSame(lib, db, identity, a, b, x.value, y.value);
    } else if y.Some? {
      HitsSame(lib, db, identity, b, a, y.value);
      assert false;
    }
  }

  /** In whatever order the candidates come, the same one is the most recent. */
  lemma MostRecentForgetsOrder(lib: Library, db: Database, identity: string, a: seq<Candidate>, b: seq<Candidate>)
    requires IsDatabase(db) && SameElements(a, b) && OneHirePerPair(a)
    ensures MostRecent(lib, db, identity, a) == MostRecent(lib, db, identity, b)
  {
    var (x, y) := (BestOf(lib, db, identity, a, ClientsInOrder(a)), BestOf(lib, db, identity, b, ClientsInOrder(b)));
    MostRecentIsLatestHit(lib, db, identity, a);
    MostRecentIsLatestHit(lib, db, identity, b);
    BestForgetsOrder(lib, db, identity, a, b, x, y);
  }

  // ----- The decision on the stored records alone -----

  predicate HasKey(k: Contact, client: Id, channel: Id, identity: string) {
    k.client == client && k.channel == channel && k.identity == identity
  }

  /** The first contact stored for the client, the channel and the sender. */
  ghost predicate IsContactOf(db: Database, k: Contact, client: Id, channel: Id, identity: string) {
    exists i :: IsFirstAt(db, i, k, client, channel, identity)
  }

  ghost predicate IsFirstAt(db: Database, i: int, k: Contact, client: Id, channel: Id, identity: string) {
    && 0 <= i < |db.contacts| && db.contacts[i] == k && HasKey(k, client, channel, identity)
    && forall j :: 0 <= j < i ==> !HasKey(db.contacts[j], client, channel, identity)
  }

  lemma FindContactIff(db: Database, client: Id, channel: Id, identity: string, k: Contact)
    ensures FindContact(db, client, channel, identity) == Some(k) <==> IsContactOf(db, k, client, channel, identity)
  {
    var keep := (k: Contact) => k.client == client && k.channel == channel && k.identity == identity;
    FirstAtIff(keep, db.contacts, k);
    if i :| IsFirstAt(db, i, k, client, channel, identity) {
      assert forall j :: 0 <= j < i ==> keep(db.contacts[j]) == HasKey(db.contacts[j], client, channel, identity);
    }
    if i :| 0 <= i < |db.contacts| && db.contacts[i] == k && keep(k) && forall j :: 0 <= j < i ==> !keep(db.contacts[j]) {
      assert IsFirstAt(db, i, k, client, channel, identity);
    }
  }

  /** The sender and an agent of candidate c's client have this message between them: active, by the user or an agent,
      of the sender's contact on c's channel, and of an agent and on a channel with which the client is a candidate. */
  ghost predicate Spoke(lib: Library, db: Database, identity: string, cands: seq<Candidate>, c: Candidate, k: Contact, m: Message) {
    && c in cands && lib.isObjectId(c.hire.client) && lib.isObjectId(c.channel.channelId)
    && IsContactOf(db, k, c.hire.client, c.channel.channelId, identity)
    && m in db.messages && m.contact == k.id && m.active && m.spoken
    && (exists d :: d in cands && d.hire.client == c.hire.client && lib.isObjectId(d.hire.agent) && d.hire.agent == m.agent)
    && (exists d :: d in cands && d.hire.client == c.hire.client && lib.isObjectId(d.channel.channelId) && d.channel.channelId == m.channel)
  }

  lemma GroupIds(lib: Library, cands: seq<Candidate>, client: Id, id: Id)
    ensures id in AgentIds(lib, GroupOf(cands, client))
      <==> exists d :: d in cands && d.hire.client == client && lib.isObjectId(d.hire.agent) && d.hire.agent == id
    ensures id in ChannelIds(lib, GroupOf(cands, client))
      <==> exists d :: d in cands && d.hire.client == client && lib.isObjectId(d.channel.channelId) && d.channel.channelId == id
  {
    var group := GroupOf(cands, client);
    GroupIs(cands, client);
    var agentOf := (c: Candidate) => if lib.isObjectId(c.hire.agent) then Some(c.hire.agent) else None;
    var channelOf := (c: Candidate) => if lib.isObjectId(c.channel.channelId) then Some(c.channel.channelId) else None;
    FilterMapElements(agentOf, group);
    FilterMapElements(channelOf, group);
    if d :| d in cands && d.hire.client == client && lib.isObjectId(d.hire.agent) && d.hire.agent == id {
      assert d in group && agentOf(d) == Some(id);
    }
    if d :| d in cands && d.hire.client == client && lib.isObjectId(d.channel.channelId) && d.channel.channelId == id {
      assert d in group && channelOf(d) == Some(id);
    }
  }

  lemma CountsForIff(lib: Library, db: Database, identity: string, cands: seq<Candidate>, c: Candidate, m: Message)
    ensures CountsFor(lib, db, identity, cands, c, m) <==> exists k :: Spoke(lib, db, identity, cands, c, k, m)
  {
    hide FindContact, GroupOf, AgentIds, ChannelIds, IsContactOf;
    var contact := FindContact(db, c.hire.client, c.channel.channelId, identity);
    GroupIds(lib, cands, c.hire.client, m.agent);
    GroupIds(lib, cands, c.hire.client, m.channel);
    GroupIds(lib, cands, c.hire.client, c.channel.channelId);
    if CountsFor(lib, db, identity, cands, c, m) {
      FindContactIff(db, c.hire.client, c.channel.channelId, identity, contact.value);
      assert Spoke(lib, db, identity, cands, c, contact.value, m);
    }
    if k :| Spoke(lib, db, identity, cands, c, k, m) {
      FindContactIff(db, c.hire.client, c.channel.channelId, identity, k);
    }
  }

  /** No message between the sender and the candidates' agents is later than the one that x's agent has. */
  ghost predicate SpokeLast(lib: Library, db: Database, identity: string, cands: seq<Candidate>, x: Candidate) {
    exists c, k, m :: IsLast(lib, db, identity, cands, c, k, m) && x in cands && x.hire.client == c.hire.client && x.hire.agent == m.agent
  }

  ghost predicate IsLast(lib: Library, db: Database, identity: string, cands: seq<Candidate>, c: Candidate, k: Contact, m: Message) {
    && Spoke(lib, db, identity, cands, c, k, m)
    && forall d, l, n :: Spoke(lib, db, identity, cands, d, l, n) ==> n.createdAt <= m.createdAt
  }

  lemma HitIsCounted(lib: Library, db: Database, identity: string, cands: seq<Candidate>, hit: Hit) returns (c: Candidate, m: Message)
    requires IsHit(lib, db, identity, cands, hit)
    ensures CountsFor(lib, db, identity, cands, c, m) && m.createdAt == hit.createdAt
    ensures hit.candidate in cands && hit.candidate.hire.client == c.hire.client && hit.candidate.hire.agent == m.agent
  {
    c :| c in cands && HitOf(lib, db, identity, GroupOf(cands, c.hire.client), c) == Some(hit);
    var group := GroupOf(cands, c.hire.client);
    var k := FindContact(db, c.hire.client, c.channel.channelId, identity).value;
    m := FindLatest(db.messages, k.id, AgentIds(lib, group), ChannelIds(lib, group)).value;
    FirstIs((c: Candidate) => c.hire.agent == m.agent, group);
    GroupIs(cands, c.hire.client);
  }

  /** Whoever is picked spoke last, and somebody is picked as soon as anybody spoke. */
  lemma PickedSpokeLast(lib: Library, db: Database, identity: string, cands: seq<Candidate>)
    ensures var sticky := MostRecent(lib, db, identity, cands);
      if sticky.Some? then SpokeLast(lib, db, identity, cands, sticky.value)
      else forall c, k, m :: !Spoke(lib, db, identity, cands, c, k, m)
  {
    hide CountsFor, HitOf, BestOf, Spoke;
    var best := BestOf(lib, db, identity, cands, ClientsInOrder(cands));
    MostRecentIsLatestHit(lib, db, identity, cands);
    NoCountedMessageIsLater(lib, db, identity, cands);
    forall d, l, n | Spoke(lib, db, identity, cands, d, l, n) ensures CountsFor(lib, db, identity, cands, d, n) {
      CountsForIff(lib, db, identity, cands, d, n);
    }
    if best.Some? {
      var c, m := HitIsCounted(lib, db, identity, cands, best.value);
      CountsForIff(lib, db, identity, cands, c, m);
      var k :| Spoke(lib, db, identity, cands, c, k, m);
      assert IsLast(lib, db, identity, cands, c, k, m);
    }
  }

  lemma OneMessagePerInstant(db: Database, m: Message, n: Message)
    requires IsDatabase(db) && m in db.messages && n in db.messages && m.createdAt == n.createdAt
    ensures m == n
  {
    var i :| 0 <= i < |db.messages| && db.messages[i] == m;
    var j :| 0 <= j < |db.messages| && db.messages[j] == n;
  }

  lemma OneContactPerId(db: Database, k: Contact, l: Contact)
    requires IsDatabase(db) && k in db.contacts && l in db.contacts && k.id == l.id
    ensures k == l
  {
    var i :| 0 <= i < |db.contacts| && db.contacts[i] == k;
    var j :| 0 <= j < |db.contacts| && db.contacts[j] == l;
  }

  /** What a message between sender and agent says about the client. */
  lemma SpokeNames(lib: Library, db: Database, identity: string, cands: seq<Candidate>, c: Candidate, k: Contact, m: Message)
    requires Spoke(lib, db, identity, cands, c, k, m)
    ensures m in db.messages && k in db.contacts && m.contact == k.id && k.client == c.hire.client
  {
  }

  lemma LastIsOne(lib: Library, db: Database, identity: string, cands: seq<Candidate>, x: Candidate, y: Candidate)
    requires IsDatabase(db) && OneHirePerPair(cands)
    requires SpokeLast(lib, db, identity, cands, x) && SpokeLast(lib, db, identity, cands, y)
    ensures x == y
  {
    hide Spoke, IsDatabase;
    var c, k, m :| IsLast(lib, db, identity, cands, c, k, m) && x in cands && x.hire.client == c.hire.client && x.hire.agent == m.agent;
    var d, l, n :| IsLast(lib, db, identity, cands, d, l, n) && y in cands && y.hire.client == d.hire.client && y.hire.agent == n.agent;
    SpokeNames(lib, db, identity, cands, c, k, m);
    SpokeNames(lib, db, identity, cands, d, l, n);
    OneMessagePerInstant(db, m, n);
    OneContactPerId(db, k, l);
  }

  /** Recent history picks a candidate if and only if its agent has the latest message with the sender. */
  lemma MostRecentIff(lib: Library, db: Database, identity: string, cands: seq<Candidate>, x: Candidate)
    requires IsDatabase(db) && OneHirePerPair(cands)
    ensures MostRecent(lib, db, identity, cands) == Some(x) <==> SpokeLast(lib, db, identity, cands, x)
  {
    hide MostRecent, Spoke, OneHirePerPair, IsDatabase;
    PickedSpokeLast(lib, db, identity, cands);
    if SpokeLast(lib, db, identity, cands, x) && MostRecent(lib, db, identity, cands).Some? {
      LastIsOne(lib, db, identity, cands, x, MostRecent(lib, db, identity, cands).value);
    }
  }
}
