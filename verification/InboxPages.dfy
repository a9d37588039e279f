/** The three paged lists of the inbox (conversations, one conversation's thread, contacts), their filters, and the
    writes that other requests make to the conversations while a reader pages through them. */
module InboxPages {
  import opened Wrappers
  import opened Lists
  import opened KeysetPagination
  import opened CursorCodec
  import opened Runs

  // ----- The conversation list -----

  datatype Status = Open | Closed | Archived

  datatype Conversation = Conversation(client: nat, channel: nat, agent: Option<nat>, status: Status, nameLower: string)

  datatype InboxQuery = InboxQuery(client: nat, status: Status, channel: Option<nat>, agent: Option<nat>, q: string)

  predicate IsSubstring(part: string, text: string) {
    exists k :: 0 <= k <= |text| && part <= text[k..]
  }

  predicate Matches(query: InboxQuery, c: Conversation) {
    && c.client == query.client && c.status == query.status
    && (query.channel.Some? ==> c.channel == query.channel.value)
    && (query.agent.Some? ==> c.agent == query.agent)
    && (query.q != "" ==> IsSubstring(query.q, c.nameLower))
  }

  function InboxFilter(query: InboxQuery): Row<Conversation> -> bool {
    (r: Row<Conversation>) => Matches(query, r.body)
  }

  function FindInboxPage(rows: seq<Row<Conversation>>, query: InboxQuery, cursor: Option<Key>, limit: nat): Page<Conversation>
    requires limit >= 1
  {
    FindPage(Descending, rows, InboxFilter(query), cursor, limit)
  }

  // ----- The message thread and the contact list -----

  datatype MessageType = User | Agent | Human | Summary

  datatype Message = Message(conversation: nat, active: bool, kind: MessageType)

  /** The thread shows neither summaries nor inactive messages. */
  predicate IsShown(m: Message, conversation: nat) {
    m.conversation == conversation && m.active && !m.kind.Summary?
  }

  function ThreadFilter(conversation: nat): Row<Message> -> bool {
    (r: Row<Message>) => IsShown(r.body, conversation)
  }

  datatype Contact = Contact(client: nat)

  function ContactFilter(client: nat): Row<Contact> -> bool {
    (r: Row<Contact>) => r.body.client == client
  }

  // ----- Reading a list through the wire -----

  ghost predicate Encodable<T(!new)>(rows: seq<Row<T>>) {
    forall r :: r in rows ==> IsCursor(r.key)
  }

  /** What a reader gets who sends back each time the text received with the last page. */
  function ReadAll<T(!new)>(dir: Direction, rows: seq<Row<T>>, matches: Row<T> -> bool, raw: Option<string>, limit: nat): Option<seq<seq<Row<T>>>>
    requires limit >= 1 && DistinctIds(rows) && Encodable(rows)
    decreases Remaining(dir, rows, matches, raw)
  {
    var decoded := DecodeCursor(raw);
    if decoded.BadRequest? then None
    else
      var cursor := if decoded.NoCursor? then None else Some(decoded.cursor);
      var page := FindPage(dir, rows, matches, cursor, limit);
      NextPageContinues(dir, rows, matches, cursor, limit);
      if page.nextCursor.None? then Some([page.items])
      else
        NextIsEncodable(dir, rows, matches, cursor, limit);
        CursorRoundTrip(page.nextCursor.value);
        var rest := ReadAll(dir, rows, matches, Some(EncodeCursor(page.nextCursor.value)), limit);
        if rest.None? then None else Some([page.items] + rest.value)
  }

  function Remaining<T(!new)>(dir: Direction, rows: seq<Row<T>>, matches: Row<T> -> bool, raw: Option<string>): nat {
    match DecodeCursor(raw)
    case BadRequest => 0
    case NoCursor => |Listing(dir, rows, matches, None)|
    case At(cursor) => |Listing(dir, rows, matches, Some(cursor))|
  }

  lemma NextIsEncodable<T(!new)>(dir: Direction, rows: seq<Row<T>>, matches: Row<T> -> bool, cursor: Option<Key>, limit: nat)
    requires limit >= 1 && DistinctIds(rows) && Encodable(rows)
    requires FindPage(dir, rows, matches, cursor, limit).nextCursor.Some?
    ensures IsCursor(FindPage(dir, rows, matches, cursor, limit).nextCursor.value)
  {
    NextPageContinues(dir, rows, matches, cursor, limit);
    ListingIs(dir, rows, matches, cursor);
    assert Listing(dir, rows, matches, cursor)[limit - 1] in Listing(dir, rows, matches, cursor);
  }

  lemma {:induction false} ReadAllTraverses<T(!new)>(dir: Direction, rows: seq<Row<T>>, matches: Row<T> -> bool, raw: Option<string>, limit: nat)
    requires limit >= 1 && DistinctIds(rows) && Encodable(rows) && !DecodeCursor(raw).BadRequest?
    ensures var decoded := DecodeCursor(raw);
      ReadAll(dir, rows, matches, raw, limit)
      == Some(Traverse(dir, rows, matches, if decoded.NoCursor? then None else Some(decoded.cursor), limit))
    decreases Remaining(dir, rows, matches, raw)
  {
    var decoded := DecodeCursor(raw);
    var cursor := if decoded.NoCursor? then None else Some(decoded.cursor);
    var page := FindPage(dir, rows, matches, cursor, limit);
    NextPageContinues(dir, rows, matches, cursor, limit);
    if page.nextCursor.Some? {
      NextIsEncodable(dir, rows, matches, cursor, limit);
      CursorRoundTrip(page.nextCursor.value);
      ReadAllTraverses(dir, rows, matches, Some(EncodeCursor(page.nextCursor.value)), limit);
    }
  }

  /** On a store that holds still, the pages read through the wire from no cursor on are never refused and are, end to
      end, the whole filtered list in its order. */
  lemma ReadAllReadsEverything<T(!new)>(dir: Direction, rows: seq<Row<T>>, matches: Row<T> -> bool, limit: nat)
    requires limit >= 1 && DistinctIds(rows) && Encodable(rows)
    ensures var pages := ReadAll(dir, rows, matches, None, limit);
      pages.Some? && WellCut(pages.value, limit)
      && InOrder(dir, Flatten(pages.value))
      && forall r :: r in Flatten(pages.value) <==> r in rows && matches(r)
  {
    ReadAllTraverses(dir, rows, matches, None, limit);
    PagesAreTheListing(dir, rows, matches, None, limit);
    ListingIs(dir, rows, matches, None);
  }

  /** From the text of a cursor on, the pages are the rest of the list. */
  lemma ReadAllGoesOn<T(!new)>(dir: Direction, rows: seq<Row<T>>, matches: Row<T> -> bool, cursor: Key, limit: nat)
    requires limit >= 1 && DistinctIds(rows) && Encodable(rows) && IsCursor(cursor)
    ensures var pages := ReadAll(dir, rows, matches, Some(EncodeCursor(cursor)), limit);
      && pages.Some? && InOrder(dir, Flatten(pages.value))
      && forall r :: r in Flatten(pages.value) <==> r in rows && matches(r) && Before(dir, cursor, r.key)
  {
    hide ReadAll, Traverse, DecodeCursor, EncodeCursor;
    CursorRoundTrip(cursor);
    ReadAllTraverses(dir, rows, matches, Some(EncodeCursor(cursor)), limit);
    PagesAreTheListing(dir, rows, matches, Some(cursor), limit);
    ListingIs(dir, rows, matches, Some(cursor));
  }

  // ----- What the three lists show, and in which order -----

  /** Latest first; of two at one time the one with the greater id first. */
  ghost predicate LatestFirst<T>(rows: seq<Row<T>>) {
    forall j, k :: 0 <= j < k < |rows| ==>
      rows[j].key.t > rows[k].key.t || (rows[j].key.t == rows[k].key.t && rows[j].key.i > rows[k].key.i)
  }

  ghost predicate OldestFirst<T>(rows: seq<Row<T>>) {
    forall j, k :: 0 <= j < k < |rows| ==>
      rows[j].key.t < rows[k].key.t || (rows[j].key.t == rows[k].key.t && rows[j].key.i < rows[k].key.i)
  }

  /** The conversation is the client's own and has the status asked for, and the channel, the agent and the part of the
      contact's name if they were asked for. */
  ghost predicate IsAskedFor(query: InboxQuery, c: Conversation) {
    && c.client == query.client && c.status == query.status
    && (query.channel == None || query.channel == Some(c.channel))
    && (query.agent == None || query.agent == c.agent)
    && (query.q == "" || exists front, back :: c.nameLower == front + query.q + back)
  }

  lemma MatchesIff(query: InboxQuery, c: Conversation)
    ensures Matches(query, c) <==> IsAskedFor(query, c)
  {
    if IsSubstring(query.q, c.nameLower) {
      var k :| 0 <= k <= |c.nameLower| && query.q <= c.nameLower[k..];
      assert c.nameLower == c.nameLower[..k] + query.q + c.nameLower[k + |query.q|..];
    }
    if front, back :| c.nameLower == front + query.q + back {
      assert c.nameLower[|front|..] == query.q + back;
    }
  }

  /** The inbox: every conversation asked for, none that was not, latest first. */
  lemma InboxIsReadInFull(rows: seq<Row<Conversation>>, query: InboxQuery, limit: nat)
    requires limit >= 1 && DistinctIds(rows) && Encodable(rows)
    ensures var pages := ReadAll(Descending, rows, InboxFilter(query), None, limit);
      pages.Some? && LatestFirst(Flatten(pages.value)) && forall r :: r in Flatten(pages.value) <==> r in rows && IsAskedFor(query, r.body)
  {
    ReadAllReadsEverything(Descending, rows, InboxFilter(query), limit);
    forall c ensures Matches(query, c) <==> IsAskedFor(query, c) { MatchesIff(query, c); }
  }

  /** Read from the text of a cursor on: those of them whose time lies before the cursor's, or equals it with a smaller id. */
  lemma InboxFromCursor(rows: seq<Row<Conversation>>, query: InboxQuery, cursor: Key, limit: nat)
    requires limit >= 1 && DistinctIds(rows) && Encodable(rows) && IsCursor(cursor)
    ensures var pages := ReadAll(Descending, rows, InboxFilter(query), Some(EncodeCursor(cursor)), limit);
      && pages.Some? && LatestFirst(Flatten(pages.value))
      && forall r :: r in Flatten(pages.value) <==>
        r in rows && IsAskedFor(query, r.body) && (r.key.t < cursor.t || (r.key.t == cursor.t && r.key.i < cursor.i))
  {
    hide ReadAll, Matches, IsAskedFor, EncodeCursor;
    ReadAllGoesOn(Descending, rows, InboxFilter(query), cursor, limit);
    forall c ensures Matches(query, c) <==> IsAskedFor(query, c) { MatchesIff(query, c); }
  }

  /** The thread: every active message of the conversation that is no summary, the oldest first. */
  lemma ThreadIsReadInFull(rows: seq<Row<Message>>, conversation: nat, limit: nat)
    requires limit >= 1 && DistinctIds(rows) && Encodable(rows)
    ensures var pages := ReadAll(Ascending, rows, ThreadFilter(conversation), None, limit);
      && pages.Some? && OldestFirst(Flatten(pages.value))
      && forall r :: r in Flatten(pages.value) <==>
        r in rows && r.body.conversation == conversation && r.body.active && r.body.kind in {User, Agent, Human}
  {
    ReadAllReadsEverything(Ascending, rows, ThreadFilter(conversation), limit);
  }

  /** The contacts: every contact of the client, the latest first. */
  lemma ContactsAreReadInFull(rows: seq<Row<Contact>>, client: nat, limit: nat)
    requires limit >= 1 && DistinctIds(rows) && Encodable(rows)
    ensures var pages := ReadAll(Descending, rows, ContactFilter(client), None, limit);
      pages.Some? && LatestFirst(Flatten(pages.value)) && forall r :: r in Flatten(pages.value) <==> r in rows && r.body.client == client
  {
    ReadAllReadsEverything(Descending, rows, ContactFilter(client), limit);
  }

  // ----- Writes between the page reads -----

  datatype Write =
    | Touch(i: nat, at: int)
    | SetStatus(i: nat, client: nat, status: Status)
    | InsertRow(row: Row<Conversation>)

  function TouchRow(r: Row<Conversation>, w: Write): Row<Conversation> {
    match w
    case Touch(i, at) => if r.key.i == i then r.(key := Key(at, i)) else r
    case SetStatus(i, client, status) =>
      if r.key.i == i && r.body.client == client then r.(body := r.body.(status := status)) else r
    case InsertRow(_) => r
  }

  function Map(rows: seq<Row<Conversation>>, w: Write): (rows': seq<Row<Conversation>>)
    ensures |rows'| == |rows| && forall k :: 0 <= k < |rows| ==> rows'[k] == TouchRow(rows[k], w)
  {
    seq(|rows|, k requires 0 <= k < |rows| => TouchRow(rows[k], w))
  }

  /** Ids are unique: a row with a known id is not inserted. */
  function Apply(rows: seq<Row<Conversation>>, w: Write): seq<Row<Conversation>> {
    if !w.InsertRow? then Map(rows, w)
    else if exists k :: 0 <= k < |rows| && rows[k].key.i == w.row.key.i then rows
    else rows + [w.row]
  }

  /** A write touches one conversation or appends one: a touch its time, an operator its status if it is the operator's
      client's. */
  lemma WriteMeans(rows: seq<Row<Conversation>>, w: Write, k: nat)
    requires k < |rows|
    ensures var rows', was := Apply(rows, w), rows[k];
      && |rows'| == |rows| + (if w.InsertRow? && forall j :: 0 <= j < |rows| ==> rows[j].key.i != w.row.key.i then 1 else 0)
      && (|rows'| > |rows| ==> rows'[|rows|] == w.row)
      && rows'[k] == (
        if w.Touch? && w.i == was.key.i then Row(Key(w.at, was.key.i), was.body)
        else if w.SetStatus? && w.i == was.key.i && w.client == was.body.client then Row(was.key, was.body.(status := w.status))
        else was)
  {
  }

  lemma ApplyKeepsDistinct(rows: seq<Row<Conversation>>, w: Write)
    requires DistinctIds(rows)
    ensures DistinctIds(Apply(rows, w))
  {
  }

  /** A touch with a time earlier than the one already stored. */
  ghost predicate Lowers(rows: seq<Row<Conversation>>, w: Write) {
    w.Touch? && exists k :: 0 <= k < |rows| && rows[k].key.i == w.i && w.at < rows[k].key.t
  }

  /** The touch overwrites whatever is stored, so a write keeps every conversation from moving down the list exactly
      when it is not a touch that carries an earlier time. */
  lemma WriteEvolvesIffNotLowering(rows: seq<Row<Conversation>>, w: Write)
    requires DistinctIds(rows)
    ensures Evolves(Descending, rows, Apply(rows, w)) <==> !Lowers(rows, w)
  {
    var rows' := Apply(rows, w);
    if Lowers(rows, w) {
      var k :| 0 <= k < |rows| && rows[k].key.i == w.i && w.at < rows[k].key.t;
      assert rows[k] in rows && rows'[k] in rows';
      forall r | r in rows' && r.key.i == w.i ensures r == rows'[k] {
        ApplyKeepsDistinct(rows, w);
        OneRowPerId(rows', r, rows'[k]);
      }
      assert !SurvivesIn(Descending, rows[k], rows');
    } else {
      forall r | r in rows ensures SurvivesIn(Descending, r, rows') {
        var k :| 0 <= k < |rows| && rows[k] == r;
        assert rows'[k] in rows';
      }
    }
  }

  lemma EvolvesTransitive<T(!new)>(dir: Direction, a: seq<Row<T>>, b: seq<Row<T>>, c: seq<Row<T>>)
    requires Evolves(dir, a, b) && Evolves(dir, b, c)
    ensures Evolves(dir, a, c)
  {
    forall r | r in a ensures SurvivesIn(dir, r, c) {
      var r' :| r' in b && r'.key.i == r.key.i && !Before(dir, r.key, r'.key);
      assert SurvivesIn(dir, r', c);
      var r'' :| r'' in c && r''.key.i == r'.key.i && !Before(dir, r'.key, r''.key);
    }
  }

  ghost predicate NeverLowers(rows: seq<Row<Conversation>>, writes: seq<Write>) {
    forall k: nat :: k < |writes| ==> !LowersAt(rows, writes, k)
  }

  ghost predicate LowersAt(rows: seq<Row<Conversation>>, writes: seq<Write>, k: nat)
    requires k < |writes|
  {
    Lowers(After(Apply, rows, writes[..k]), writes[k])
  }

  lemma {:induction false} WritesEvolve(rows: seq<Row<Conversation>>, writes: seq<Write>)
    requires DistinctIds(rows) && NeverLowers(rows, writes)
    ensures DistinctIds(After(Apply, rows, writes)) && Evolves(Descending, rows, After(Apply, rows, writes))
  {
    if writes == [] {
      forall r | r in rows ensures SurvivesIn(Descending, r, rows) {
        assert !Before(Descending, r.key, r.key);
      }
    } else {
      var n := |writes| - 1;
      forall k: nat | k < n ensures !LowersAt(rows, writes[..n], k) {
        assert writes[..n][..k] == writes[..k] && !LowersAt(rows, writes, k);
      }
      WritesEvolve(rows, writes[..n]);
      var before := After(Apply, rows, writes[..n]);
      assert !LowersAt(rows, writes, n);
      ApplyKeepsDistinct(before, writes[n]);
      WriteEvolvesIffNotLowering(before, writes[n]);
      EvolvesTransitive(Descending, rows, before, Apply(before, writes[n]));
    }
  }

  /** The store each page is read from: the batch of writes in front of it has been applied. */
  function StoreAt(rows: seq<Row<Conversation>>, batches: seq<seq<Write>>, k: nat): seq<Row<Conversation>>
    requires k <= |batches|
  {
    if k == 0 then rows else After(Apply, StoreAt(rows, batches, k - 1), batches[k - 1])
  }

  function Stores(rows: seq<Row<Conversation>>, batches: seq<seq<Write>>): seq<seq<Row<Conversation>>> {
    seq(|batches| + 1, k requires 0 <= k <= |batches| => StoreAt(rows, batches, k))
  }

  /** Throughout the reading, every touch carries a time no earlier than the one it overwrites. */
  ghost predicate OnlyRaises(rows: seq<Row<Conversation>>, batches: seq<seq<Write>>) {
    forall k: nat :: k < |batches| ==> NeverLowers(StoreAt(rows, batches, k), batches[k])
  }

  lemma {:induction false} WritesKeepDistinct(rows: seq<Row<Conversation>>, writes: seq<Write>)
    requires DistinctIds(rows)
    ensures DistinctIds(After(Apply, rows, writes))
  {
    if writes != [] {
      var shorter := writes[..|writes| - 1];
      WritesKeepDistinct(rows, shorter);
      ApplyKeepsDistinct(After(Apply, rows, shorter), writes[|writes| - 1]);
    }
  }

  lemma {:induction false} StoreStaysDistinct(rows: seq<Row<Conversation>>, batches: seq<seq<Write>>, k: nat)
    requires DistinctIds(rows) && k <= |batches|
    ensures DistinctIds(StoreAt(rows, batches, k))
  {
    if k > 0 {
      StoreStaysDistinct(rows, batches, k - 1);
      WritesKeepDistinct(StoreAt(rows, batches, k - 1), batches[k - 1]);
    }
  }

  lemma StoresAreDistinct(rows: seq<Row<Conversation>>, batches: seq<seq<Write>>)
    requires DistinctIds(rows)
    ensures AllDistinct(Stores(rows, batches))
  {
    forall k: nat | k <= |batches| ensures DistinctIds(Stores(rows, batches)[k]) {
      StoreStaysDistinct(rows, batches, k);
    }
  }

  lemma StoreEvolves(rows: seq<Row<Conversation>>, batches: seq<seq<Write>>, k: nat)
    requires DistinctIds(rows) && OnlyRaises(rows, batches) && k <= |batches|
    ensures k > 0 ==> Evolves(Descending, StoreAt(rows, batches, k - 1), StoreAt(rows, batches, k))
  {
    if k > 0 {
      StoreStaysDistinct(rows, batches, k - 1);
      WritesEvolve(StoreAt(rows, batches, k - 1), batches[k - 1]);
    }
  }

  lemma StoresEvolve(rows: seq<Row<Conversation>>, batches: seq<seq<Write>>)
    requires DistinctIds(rows) && OnlyRaises(rows, batches)
    ensures EvolvesThrough(Descending, Stores(rows, batches))
  {
    StoresAreDistinct(rows, batches);
    forall k: nat | k <= |batches| ensures EvolvesAt(Descending, Stores(rows, batches), k) {
      StoreEvolves(rows, batches, k);
    }
  }

  /** While others raise times, change statuses and insert conversations between the page reads, the reader never sees
      a conversation on two pages. */
  lemma NoConversationTwice(rows: seq<Row<Conversation>>, batches: seq<seq<Write>>, query: InboxQuery, limit: nat,
      pages: seq<Page<Conversation>>, j: nat, k: nat, row: Row<Conversation>, again: Row<Conversation>)
    requires limit >= 1 && DistinctIds(rows) && OnlyRaises(rows, batches)
    requires IsTraversal(Descending, InboxFilter(query), limit, Stores(rows, batches), pages)
    requires j < k < |pages| && row in pages[j].items && again in pages[k].items
    ensures row.key.i != again.key.i
  {
    StoresEvolve(rows, batches);
    NothingIsReadTwice(Descending, InboxFilter(query), limit, Stores(rows, batches), pages, j, k, row, again);
  }

  predicate Concerns(w: Write, i: nat) {
    !w.InsertRow? && w.i == i
  }

  lemma {:induction false} UnconcernedStays(rows: seq<Row<Conversation>>, writes: seq<Write>, row: Row<Conversation>)
    requires row in rows && forall w :: w in writes ==> !Concerns(w, row.key.i)
    ensures row in After(Apply, rows, writes)
  {
    if writes != [] {
      var n := |writes| - 1;
      UnconcernedStays(rows, writes[..n], row);
      var before := After(Apply, rows, writes[..n]);
      var k :| 0 <= k < |before| && before[k] == row;
      assert !Concerns(writes[n], row.key.i);
      assert Apply(before, writes[n])[k] == row;
    }
  }

  lemma {:induction false} UnconcernedInStore(rows: seq<Row<Conversation>>, batches: seq<seq<Write>>, row: Row<Conversation>, k: nat)
    requires row in rows && k <= |batches|
    requires forall n, w :: 0 <= n < |batches| && w in batches[n] ==> !Concerns(w, row.key.i)
    ensures row in StoreAt(rows, batches, k)
  {
    if k > 0 {
      UnconcernedInStore(rows, batches, row, k - 1);
      UnconcernedStays(StoreAt(rows, batches, k - 1), batches[k - 1], row);
    }
  }

  /** A matching conversation that no write concerns is read exactly once by the time the reader reaches the end,
      whatever is written to the others: even if they are moved down the list. */
  lemma UntouchedConversationOnce(rows: seq<Row<Conversation>>, batches: seq<seq<Write>>, query: InboxQuery, limit: nat,
      pages: seq<Page<Conversation>>, row: Row<Conversation>)
    requires limit >= 1 && DistinctIds(rows)
    requires IsTraversal(Descending, InboxFilter(query), limit, Stores(rows, batches), pages)
    requires pages[|pages| - 1].nextCursor.None?
    requires row in rows && Matches(query, row.body)
    requires forall n, w :: 0 <= n < |batches| && w in batches[n] ==> !Concerns(w, row.key.i)
    ensures exists j: nat :: IsReadOnlyAt(pages, row, j)
  {
    StoresAreDistinct(rows, batches);
    forall k | 0 <= k <= |batches| ensures row in Stores(rows, batches)[k] {
      UnconcernedInStore(rows, batches, row, k);
    }
    UntouchedIsReadOnce(Descending, InboxFilter(query), limit, Stores(rows, batches), pages, row);
  }

  lemma TouchMovesOnlyIt(rows: seq<Row<Conversation>>, row: Row<Conversation>, at: int)
    requires DistinctIds(rows) && row in rows
    ensures var rows' := Apply(rows, Touch(row.key.i, at));
      DistinctIds(rows') && forall r :: r in rows' && r.key.i == row.key.i <==> r == row.(key := Key(at, row.key.i))
  {
    var rows', moved := Apply(rows, Touch(row.key.i, at)), row.(key := Key(at, row.key.i));
    ApplyKeepsDistinct(rows, Touch(row.key.i, at));
    var k :| 0 <= k < |rows| && rows[k] == row;
    assert rows'[k] == moved;
    forall r | r in rows' && r.key.i == row.key.i ensures r == moved {
      OneRowPerId(rows', r, moved);
    }
  }

  ghost predicate MetAgain(pages: seq<seq<Row<Conversation>>>, i: nat) {
    exists again :: again in Flatten(pages) && again.key.i == i
  }

  lemma MetIffAhead(rows: seq<Row<Conversation>>, query: InboxQuery, next: Key, limit: nat, i: nat)
    requires limit >= 1 && DistinctIds(rows)
    ensures MetAgain(Traverse(Descending, rows, InboxFilter(query), Some(next), limit), i)
      <==> exists r :: r in rows && r.key.i == i && Matches(query, r.body) && Before(Descending, next, r.key)
  {
    PagesAreTheListing(Descending, rows, InboxFilter(query), Some(next), limit);
    ListingIs(Descending, rows, InboxFilter(query), Some(next));
  }

  /** A touch rewrites the time of a conversation already read: it is met again on the way to the end exactly when
      the new time puts it past the cursor, which takes a touch that lowers. */
  lemma TouchedIsReadAgainIff(rows: seq<Row<Conversation>>, query: InboxQuery, cursor: Option<Key>, limit: nat, row: Row<Conversation>, at: int)
    requires limit >= 1 && DistinctIds(rows)
    requires var page := FindInboxPage(rows, query, cursor, limit); row in page.items && page.nextCursor.Some?
    ensures var next := FindInboxPage(rows, query, cursor, limit).nextCursor.value;
      var rows' := Apply(rows, Touch(row.key.i, at));
      DistinctIds(rows')
      && (MetAgain(Traverse(Descending, rows', InboxFilter(query), Some(next), limit), row.key.i)
        <==> Before(Descending, next, Key(at, row.key.i)))
      && (Before(Descending, next, Key(at, row.key.i)) ==> at < row.key.t)
  {
    var next := FindInboxPage(rows, query, cursor, limit).nextCursor.value;
    FindPageReads(Descending, rows, InboxFilter(query), cursor, limit);
    TouchMovesOnlyIt(rows, row, at);
    MetIffAhead(Apply(rows, Touch(row.key.i, at)), query, next, limit, row.key.i);
  }
}
