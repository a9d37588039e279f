/** Keyset pagination, as the inbox list, the message thread and the contact list read their pages: filter, keep what
    lies strictly after the cursor, sort on (timestamp, id), read one row more than the page holds. */
module KeysetPagination {
  import opened Wrappers
  import opened Lists
  import opened Sorting

  /** The pair a list is sorted on; ids are unique, timestamps need not be. */
  datatype Key = Key(t: int, i: nat)

  datatype Row<T> = Row(key: Key, body: T)

  datatype Direction = Ascending | Descending

  /** Strictly earlier in the list. */
  predicate Before(dir: Direction, a: Key, b: Key) {
    match dir
    case Ascending => a.t < b.t || (a.t == b.t && a.i < b.i)
    case Descending => b.t < a.t || (a.t == b.t && b.i < a.i)
  }

  predicate IsPast(dir: Direction, cursor: Option<Key>, key: Key) {
    cursor.Some? ==> Before(dir, cursor.value, key)
  }

  // ----- Filter and sort -----

  ghost predicate DistinctIds<T>(rows: seq<Row<T>>) {
    forall i, j :: 0 <= i < j < |rows| ==> rows[i].key.i != rows[j].key.i
  }

  lemma {:induction false} SelectKeepsIds<T(!new)>(keep: Row<T> -> bool, rows: seq<Row<T>>)
    requires DistinctIds(rows)
    ensures DistinctIds(Select(keep, rows))
  {
    if rows != [] {
      var shorter, last := rows[..|rows| - 1], rows[|rows| - 1];
      SelectKeepsIds(keep, shorter);
      SelectElements(keep, shorter);
      var kept := Select(keep, shorter);
      forall i | 0 <= i < |kept| ensures kept[i].key.i != last.key.i {
        assert kept[i] in shorter;
      }
    }
  }

  function ListOrder<T>(dir: Direction): (Row<T>, Row<T>) -> bool {
    (a: Row<T>, b: Row<T>) => Before(dir, a.key, b.key)
  }

  ghost predicate InOrder<T>(dir: Direction, rows: seq<Row<T>>) {
    forall i, j :: 0 <= i < j < |rows| ==> Before(dir, rows[i].key, rows[j].key)
  }

  // ----- One page -----

  function Ahead<T>(dir: Direction, matches: Row<T> -> bool, cursor: Option<Key>): Row<T> -> bool {
    (r: Row<T>) => matches(r) && IsPast(dir, cursor, r.key)
  }

  /** The rows of the list after the cursor, all of them, in list order. */
  function Listing<T>(dir: Direction, rows: seq<Row<T>>, matches: Row<T> -> bool, cursor: Option<Key>): seq<Row<T>> {
    Sort(ListOrder(dir), Select(Ahead(dir, matches, cursor), rows))
  }

  datatype Page<T> = Page(items: seq<Row<T>>, nextCursor: Option<Key>)

  /** The query reads limit + 1 rows; a row too many is what says that there is a next page. */
  function Cut<T>(listing: seq<Row<T>>, limit: nat): Page<T>
    requires limit >= 1
  {
    var read := if |listing| <= limit + 1 then listing else listing[..limit + 1];
    if |read| <= limit then Page(read, None)
    else Page(read[..limit], Some(read[limit - 1].key))
  }

  function FindPage<T>(dir: Direction, rows: seq<Row<T>>, matches: Row<T> -> bool, cursor: Option<Key>, limit: nat): Page<T>
    requires limit >= 1
  {
    Cut(Listing(dir, rows, matches, cursor), limit)
  }

  lemma ListingIs<T(!new)>(dir: Direction, rows: seq<Row<T>>, matches: Row<T> -> bool, cursor: Option<Key>)
    requires DistinctIds(rows)
    ensures InOrder(dir, Listing(dir, rows, matches, cursor))
    ensures forall r :: r in Listing(dir, rows, matches, cursor) <==> r in rows && matches(r) && IsPast(dir, cursor, r.key)
  {
    var kept := Select(Ahead(dir, matches, cursor), rows);
    SelectElements(Ahead(dir, matches, cursor), rows);
    SelectKeepsIds(Ahead(dir, matches, cursor), rows);
    SortKeepsElements(ListOrder(dir), kept);
    SortSorts(ListOrder(dir), kept);
  }

  /** In a sorted list, what comes after an entry is exactly what stands behind it. */
  lemma BehindIsAfter<T>(dir: Direction, listing: seq<Row<T>>, n: nat, r: Row<T>)
    requires InOrder(dir, listing) && n < |listing|
    ensures r in listing[n + 1..] <==> r in listing && Before(dir, listing[n].key, r.key)
  {
    if r in listing[n + 1..] {
      var k :| 0 <= k < |listing| - n - 1 && listing[n + 1..][k] == r;
      assert listing[n + 1 + k] == r;
    }
    if r in listing && Before(dir, listing[n].key, r.key) {
      var k :| 0 <= k < |listing| && listing[k] == r;
      assert k > n;
      assert listing[n + 1..][k - n - 1] == r;
    }
  }

  /** Asking for what comes after an entry of the list gives the list from the next entry on. */
  lemma ListingFrom<T(!new)>(dir: Direction, rows: seq<Row<T>>, matches: Row<T> -> bool, cursor: Option<Key>, n: nat)
    requires DistinctIds(rows) && n < |Listing(dir, rows, matches, cursor)|
    ensures var listing := Listing(dir, rows, matches, cursor);
      Listing(dir, rows, matches, Some(listing[n].key)) == listing[n + 1..]
  {
    var listing := Listing(dir, rows, matches, cursor);
    var rest := Listing(dir, rows, matches, Some(listing[n].key));
    ListingIs(dir, rows, matches, cursor);
    ListingIs(dir, rows, matches, Some(listing[n].key));
    assert listing[n] in listing;
    forall r ensures r in rest <==> r in listing[n + 1..] {
      BehindIsAfter(dir, listing, n, r);
    }
    SortedIsUnique(ListOrder(dir), rest, listing[n + 1..]);
  }

  /** The page is the head of the list after the cursor; the next page starts exactly where this one stops. */
  lemma NextPageContinues<T(!new)>(dir: Direction, rows: seq<Row<T>>, matches: Row<T> -> bool, cursor: Option<Key>, limit: nat)
    requires limit >= 1 && DistinctIds(rows)
    ensures var listing, page := Listing(dir, rows, matches, cursor), FindPage(dir, rows, matches, cursor, limit);
      if page.nextCursor.None? then |listing| <= limit && page.items == listing
      else (
        && |listing| > limit && page.items == listing[..limit] && page.nextCursor.value == listing[limit - 1].key
        && Listing(dir, rows, matches, page.nextCursor) == listing[limit..])
  {
    hide Listing;
    var listing := Listing(dir, rows, matches, cursor);
    if |listing| > limit {
      assert listing[..limit + 1][..limit] == listing[..limit];
      ListingFrom(dir, rows, matches, cursor, limit - 1);
    }
  }

  // ----- A store that holds still -----

  /** The pages a reader sees who follows the cursors to the end; fewer rows lie ahead of every next cursor. */
  function Traverse<T(!new)>(dir: Direction, rows: seq<Row<T>>, matches: Row<T> -> bool, cursor: Option<Key>, limit: nat): seq<seq<Row<T>>>
    requires limit >= 1 && DistinctIds(rows)
    decreases |Listing(dir, rows, matches, cursor)|
  {
    var page := FindPage(dir, rows, matches, cursor, limit);
    NextPageContinues(dir, rows, matches, cursor, limit);
    if page.nextCursor.None? then [page.items]
    else [page.items] + Traverse(dir, rows, matches, page.nextCursor, limit)
  }

  /** Full pages first, and a last page that is empty only when the list is. */
  ghost predicate WellCut<T>(pages: seq<seq<T>>, limit: nat) {
    && pages != []
    && (forall k :: 0 <= k < |pages| - 1 ==> |pages[k]| == limit)
    && |pages[|pages| - 1]| <= limit
    && (pages[|pages| - 1] == [] ==> |pages| == 1)
  }

  /** A list cut into pages without any store or cursor. */
  function CutAll<T>(listing: seq<T>, limit: nat): seq<seq<T>>
    requires limit >= 1
  {
    if |listing| <= limit then [listing] else [listing[..limit]] + CutAll(listing[limit..], limit)
  }

  lemma {:induction false} CutAllIsWellCut<T>(listing: seq<T>, limit: nat)
    requires limit >= 1
    ensures Flatten(CutAll(listing, limit)) == listing && WellCut(CutAll(listing, limit), limit)
  {
    var pages := CutAll(listing, limit);
    if |listing| > limit {
      CutAllIsWellCut(listing[limit..], limit);
      assert pages[1..] == CutAll(listing[limit..], limit);
    } else {
      assert Flatten(pages) == listing + Flatten(pages[1..]);
    }
  }

  lemma {:induction false} TraverseCutsTheListing<T(!new)>(dir: Direction, rows: seq<Row<T>>, matches: Row<T> -> bool, cursor: Option<Key>, limit: nat)
    requires limit >= 1 && DistinctIds(rows)
    ensures Traverse(dir, rows, matches, cursor, limit) == CutAll(Listing(dir, rows, matches, cursor), limit)
    decreases |Listing(dir, rows, matches, cursor)|
  {
    var page := FindPage(dir, rows, matches, cursor, limit);
    NextPageContinues(dir, rows, matches, cursor, limit);
    if page.nextCursor.Some? {
      TraverseCutsTheListing(dir, rows, matches, page.nextCursor, limit);
    }
  }

  /** The pages laid end to end are the whole list after the cursor, in order: no row lost, repeated or moved. */
  lemma PagesAreTheListing<T(!new)>(dir: Direction, rows: seq<Row<T>>, matches: Row<T> -> bool, cursor: Option<Key>, limit: nat)
    requires limit >= 1 && DistinctIds(rows)
    ensures var pages := Traverse(dir, rows, matches, cursor, limit);
      Flatten(pages) == Listing(dir, rows, matches, cursor) && WellCut(pages, limit)
  {
    TraverseCutsTheListing(dir, rows, matches, cursor, limit);
    CutAllIsWellCut(Listing(dir, rows, matches, cursor), limit);
  }

  // ----- A store that others write to between the page reads -----

  ghost predicate SurvivesIn<T(!new)>(dir: Direction, row: Row<T>, rows: seq<Row<T>>) {
    exists r :: r in rows && r.key.i == row.key.i && !Before(dir, row.key, r.key)
  }

  /** Rows may be added, change their bodies and move towards the front of the list; none moves back or vanishes. */
  ghost predicate Evolves<T(!new)>(dir: Direction, rows: seq<Row<T>>, rows': seq<Row<T>>) {
    forall r :: r in rows ==> SurvivesIn(dir, r, rows')
  }

  ghost predicate AllDistinct<T(!new)>(stores: seq<seq<Row<T>>>) {
    forall k :: 0 <= k < |stores| ==> DistinctIds(stores[k])
  }

  ghost predicate EvolvesThrough<T(!new)>(dir: Direction, stores: seq<seq<Row<T>>>) {
    AllDistinct(stores) && forall k: nat :: k < |stores| ==> EvolvesAt(dir, stores, k)
  }

  ghost predicate EvolvesAt<T(!new)>(dir: Direction, stores: seq<seq<Row<T>>>, k: nat)
    requires k < |stores|
  {
    k > 0 ==> Evolves(dir, stores[k - 1], stores[k])
  }

  function CursorAt<T>(pages: seq<Page<T>>, k: nat): Option<Key>
    requires k <= |pages|
  {
    if k == 0 then None else pages[k - 1].nextCursor
  }

  /** pages[k] is read from stores[k] with the cursor that page k - 1 handed out. */
  ghost predicate IsTraversal<T(!new)>(dir: Direction, matches: Row<T> -> bool, limit: nat, stores: seq<seq<Row<T>>>, pages: seq<Page<T>>)
    requires limit >= 1
  {
    && |stores| == |pages|
    && (forall k :: 0 <= k < |pages| - 1 ==> pages[k].nextCursor.Some?)
    && (forall k: nat :: k < |pages| ==> IsPageAt(dir, matches, limit, stores, pages, k))
  }

  ghost predicate IsPageAt<T(!new)>(dir: Direction, matches: Row<T> -> bool, limit: nat, stores: seq<seq<Row<T>>>, pages: seq<Page<T>>, k: nat)
    requires limit >= 1 && k < |stores| == |pages|
  {
    pages[k] == FindPage(dir, stores[k], matches, CursorAt(pages, k), limit)
  }

  /** All that the concurrent results need of a page: it holds matching rows past its cursor, none past the one it
      hands out, and what it leaves ahead is past that one. */
  ghost predicate Reads<T(!new)>(dir: Direction, rows: seq<Row<T>>, matches: Row<T> -> bool, cursor: Option<Key>, page: Page<T>) {
    && (forall r :: r in page.items ==> r in rows && matches(r) && IsPast(dir, cursor, r.key))
    && (page.nextCursor.Some? ==> IsPast(dir, cursor, page.nextCursor.value))
    && (forall r :: r in page.items && page.nextCursor.Some? ==> !Before(dir, page.nextCursor.value, r.key))
    && (forall r :: r in rows && matches(r) && IsPast(dir, cursor, r.key) ==>
      r in page.items || (page.nextCursor.Some? && Before(dir, page.nextCursor.value, r.key)))
  }

  lemma FindPageReads<T(!new)>(dir: Direction, rows: seq<Row<T>>, matches: Row<T> -> bool, cursor: Option<Key>, limit: nat)
    requires limit >= 1 && DistinctIds(rows)
    ensures Reads(dir, rows, matches, cursor, FindPage(dir, rows, matches, cursor, limit))
  {
    hide Listing, FindPage;
    var listing, page := Listing(dir, rows, matches, cursor), FindPage(dir, rows, matches, cursor, limit);
    NextPageContinues(dir, rows, matches, cursor, limit);
    ListingIs(dir, rows, matches, cursor);
    if page.nextCursor.Some? {
      var last := listing[limit - 1];
      assert last in listing;
      assert listing == listing[..limit] + listing[limit..];
      forall r ensures r in page.items <==> r in listing && !Before(dir, last.key, r.key) {
        BehindIsAfter(dir, listing, limit - 1, r);
        assert r in listing <==> r in listing[..limit] || r in listing[limit..];
        if r in listing[..limit] {
          HeadIsNotBehind(dir, listing, limit, r);
        }
      }
    }
  }

  lemma HeadIsNotBehind<T>(dir: Direction, listing: seq<Row<T>>, n: nat, r: Row<T>)
    requires InOrder(dir, listing) && n <= |listing| && r in listing[..n]
    ensures r !in listing[n..]
  {
    var i :| 0 <= i < n && listing[..n][i] == r;
    forall j | 0 <= j < |listing| - n ensures listing[n..][j] != r {
      assert Before(dir, listing[i].key, listing[n + j].key);
    }
  }

  ghost predicate ReadsThrough<T(!new)>(dir: Direction, matches: Row<T> -> bool, stores: seq<seq<Row<T>>>, pages: seq<Page<T>>) {
    |stores| == |pages| && forall k: nat :: k < |pages| ==> ReadsAt(dir, matches, stores, pages, k)
  }

  ghost predicate ReadsAt<T(!new)>(dir: Direction, matches: Row<T> -> bool, stores: seq<seq<Row<T>>>, pages: seq<Page<T>>, k: nat)
    requires k < |pages| == |stores|
  {
    Reads(dir, stores[k], matches, CursorAt(pages, k), pages[k]) && (k > 0 ==> pages[k - 1].nextCursor.Some?)
  }

  lemma TraversalReads<T(!new)>(dir: Direction, matches: Row<T> -> bool, limit: nat, stores: seq<seq<Row<T>>>, pages: seq<Page<T>>)
    requires limit >= 1 && AllDistinct(stores) && IsTraversal(dir, matches, limit, stores, pages)
    ensures ReadsThrough(dir, matches, stores, pages)
  {
    forall k: nat | k < |pages| ensures ReadsAt(dir, matches, stores, pages, k) {
      assert IsPageAt(dir, matches, limit, stores, pages, k);
      FindPageReads(dir, stores[k], matches, CursorAt(pages, k), limit);
    }
  }

  /** What has been read lies behind every later cursor. */
  lemma {:induction false} CursorStaysPast<T(!new)>(dir: Direction, matches: Row<T> -> bool, stores: seq<seq<Row<T>>>,
      pages: seq<Page<T>>, j: nat, k: nat, row: Row<T>)
    requires ReadsThrough(dir, matches, stores, pages)
    requires j < k < |pages| && row in pages[j].items
    ensures pages[k - 1].nextCursor.Some? && !Before(dir, pages[k - 1].nextCursor.value, row.key)
  {
    assert ReadsAt(dir, matches, stores, pages, k - 1) && ReadsAt(dir, matches, stores, pages, k);
    if j < k - 1 {
      CursorStaysPast(dir, matches, stores, pages, j, k - 1, row);
    }
  }

  lemma {:induction false} EvolvesAlong<T(!new)>(dir: Direction, stores: seq<seq<Row<T>>>, j: nat, k: nat, row: Row<T>)
    requires EvolvesThrough(dir, stores)
    requires j <= k < |stores| && row in stores[j]
    ensures SurvivesIn(dir, row, stores[k])
  {
    if j == k {
      assert row in stores[k] && !Before(dir, row.key, row.key);
    } else {
      EvolvesAlong(dir, stores, j, k - 1, row);
      var r :| r in stores[k - 1] && r.key.i == row.key.i && !Before(dir, row.key, r.key);
      assert EvolvesAt(dir, stores, k);
      var r' :| r' in stores[k] && r'.key.i == r.key.i && !Before(dir, r.key, r'.key);
    }
  }

  lemma OneRowPerId<T>(rows: seq<Row<T>>, a: Row<T>, b: Row<T>)
    requires DistinctIds(rows) && a in rows && b in rows
    ensures a.key.i == b.key.i ==> a == b
  {
    var i :| 0 <= i < |rows| && rows[i] == a;
    var j :| 0 <= j < |rows| && rows[j] == b;
  }

  /** While rows only move towards the front, no traversal reads an id on two of its pages. */
  lemma NothingIsReadTwice<T(!new)>(dir: Direction, matches: Row<T> -> bool, limit: nat,
      stores: seq<seq<Row<T>>>, pages: seq<Page<T>>, j: nat, k: nat, row: Row<T>, again: Row<T>)
    requires limit >= 1 && EvolvesThrough(dir, stores) && IsTraversal(dir, matches, limit, stores, pages)
    requires j < k < |pages| && row in pages[j].items && again in pages[k].items
    ensures row.key.i != again.key.i
  {
    TraversalReads(dir, matches, limit, stores, pages);
    ReadRowsDiffer(dir, matches, stores, pages, j, k, row, again);
  }

  lemma ReadRowsDiffer<T(!new)>(dir: Direction, matches: Row<T> -> bool, stores: seq<seq<Row<T>>>, pages: seq<Page<T>>,
      j: nat, k: nat, row: Row<T>, again: Row<T>)
    requires EvolvesThrough(dir, stores) && ReadsThrough(dir, matches, stores, pages)
    requires j < k < |pages| && row in pages[j].items && again in pages[k].items
    ensures row.key.i != again.key.i
  {
    CursorStaysPast(dir, matches, stores, pages, j, k, row);
    assert ReadsAt(dir, matches, stores, pages, j);
    assert ReadsAt(dir, matches, stores, pages, k);
    EvolvesAlong(dir, stores, j, k, row);
    var r :| r in stores[k] && r.key.i == row.key.i && !Before(dir, row.key, r.key);
    OneRowPerId(stores[k], r, again);
  }

  /** A row that stays as it is and matches throughout is either read already or still ahead of the cursor. */
  lemma {:induction false} ReadOrAhead<T(!new)>(dir: Direction, matches: Row<T> -> bool, stores: seq<seq<Row<T>>>,
      pages: seq<Page<T>>, row: Row<T>, k: nat)
    requires ReadsThrough(dir, matches, stores, pages)
    requires matches(row) && forall n :: 0 <= n < |stores| ==> row in stores[n]
    requires k <= |pages|
    ensures (exists j :: 0 <= j < k && row in pages[j].items)
      || if k == 0 then true else pages[k - 1].nextCursor.Some? && Before(dir, pages[k - 1].nextCursor.value, row.key)
  {
    if k > 0 {
      ReadOrAhead(dir, matches, stores, pages, row, k - 1);
      assert row in stores[k - 1];
      assert ReadsAt(dir, matches, stores, pages, k - 1);
    }
  }

  /** A row that has been read is not read again where it stands. */
  lemma ReadRowStaysBehind<T(!new)>(dir: Direction, matches: Row<T> -> bool, stores: seq<seq<Row<T>>>, pages: seq<Page<T>>,
      j: nat, k: nat, row: Row<T>)
    requires ReadsThrough(dir, matches, stores, pages) && j < k < |pages| && row in pages[j].items
    ensures row !in pages[k].items
  {
    CursorStaysPast(dir, matches, stores, pages, j, k, row);
    assert ReadsAt(dir, matches, stores, pages, k);
  }

  ghost predicate IsReadOnlyAt<T(!new)>(pages: seq<Page<T>>, row: Row<T>, j: nat) {
    && j < |pages| && row in pages[j].items
    && forall k, r :: 0 <= k < |pages| && r in pages[k].items && r.key.i == row.key.i ==> k == j && r == row
  }

  /** A traversal that reached its end has read every row that stood still and matched throughout, exactly once,
      whatever others did to the rest. */
  lemma UntouchedIsReadOnce<T(!new)>(dir: Direction, matches: Row<T> -> bool, limit: nat,
      stores: seq<seq<Row<T>>>, pages: seq<Page<T>>, row: Row<T>)
    requires limit >= 1 && AllDistinct(stores) && IsTraversal(dir, matches, limit, stores, pages)
    requires |pages| > 0 && pages[|pages| - 1].nextCursor.None?
    requires matches(row) && forall n :: 0 <= n < |stores| ==> row in stores[n]
    ensures exists j: nat :: IsReadOnlyAt(pages, row, j)
  {
    TraversalReads(dir, matches, limit, stores, pages);
    ReadOrAhead(dir, matches, stores, pages, row, |pages|);
    var j: nat :| j < |pages| && row in pages[j].items;
    forall k: nat, r | k < |pages| && r in pages[k].items && r.key.i == row.key.i ensures k == j && r == row {
      assert ReadsAt(dir, matches, stores, pages, k);
      OneRowPerId(stores[k], r, row);
      if k < j {
        ReadRowStaysBehind(dir, matches, stores, pages, k, j, row);
      } else if j < k {
        ReadRowStaysBehind(dir, matches, stores, pages, j, k, row);
      }
    }
    assert IsReadOnlyAt(pages, row, j);
  }
}
