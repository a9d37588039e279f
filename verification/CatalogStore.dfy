/** Catalog items in the database (client-catalog-item.repository.ts): upserts by (client, sku), written in chunks of
    one transaction each. */
module CatalogStore {
  import opened Wrappers
  import opened Lists

  datatype Kind = Product | Service

  datatype Item = Item(
    sku: string, name: string, kind: Kind,
    description: Option<string>, unitAmountMinor: Option<int>, currency: Option<string>)

  datatype Stored = Stored(
    name: string, kind: Kind,
    description: Option<string>, unitAmountMinor: Option<int>, currency: Option<string>,
    active: bool, deactivatedAt: Option<int>)

  /** The unique index. */
  datatype Key = Key(client: string, sku: string)

  type Store = map<Key, Stored>

  function Get(store: Store, key: Key): Option<Stored> {
    if key in store then Some(store[key]) else None
  }

  function Or<T>(first: Option<T>, kept: Option<T>): Option<T> {
    if first.Some? then first else kept
  }

  /** What an update leaves: an optional field that the item does not have keeps its stored value. */
  function Overlay(stored: Option<Stored>, item: Item): Stored {
    var before := if stored.Some? then stored.value else Stored("", Product, None, None, None, true, None);
    Stored(item.name, item.kind, Or(item.description, before.description), Or(item.unitAmountMinor, before.unitAmountMinor),
           Or(item.currency, before.currency), true, None)
  }

  function Upsert(store: Store, client: string, item: Item): Store {
    var key := Key(client, item.sku);
    store[key := Overlay(Get(store, key), item)]
  }

  function UpsertAll(store: Store, client: string, items: seq<Item>): Store {
    if items == [] then store
    else Upsert(UpsertAll(store, client, items[..|items| - 1]), client, items[|items| - 1])
  }

  ghost predicate DistinctSkus(items: seq<Item>) {
    forall i, j :: 0 <= i < j < |items| ==> items[i].sku != items[j].sku
  }

  // ----- What a list of upserts does to one key -----

  predicate Mentions(items: seq<Item>, client: string, key: Key) {
    key.client == client && exists i :: 0 <= i < |items| && items[i].sku == key.sku
  }

  lemma {:induction false} UnmentionedStays(store: Store, client: string, items: seq<Item>, key: Key)
    requires !Mentions(items, client, key)
    ensures Get(UpsertAll(store, client, items), key) == Get(store, key)
  {
    if items != [] {
      UnmentionedStays(store, client, items[..|items| - 1], key);
    }
  }

  lemma {:induction false} MentionedIsOverlaid(store: Store, client: string, items: seq<Item>, k: nat)
    requires DistinctSkus(items) && k < |items|
    ensures Get(UpsertAll(store, client, items), Key(client, items[k].sku)) == Some(Overlay(Get(store, Key(client, items[k].sku)), items[k]))
  {
    var shorter := items[..|items| - 1];
    if k < |shorter| {
      MentionedIsOverlaid(store, client, shorter, k);
    } else {
      UnmentionedStays(store, client, shorter, Key(client, items[k].sku));
    }
  }

  lemma SameStore(a: Store, b: Store)
    requires forall key :: Get(a, key) == Get(b, key)
    ensures a == b
  {
    forall key ensures key in a <==> key in b {
      assert Get(a, key) == Get(b, key);
    }
    forall key | key in a ensures a[key] == b[key] {
      assert Get(a, key) == Get(b, key);
    }
  }

  /** Upserts of distinct SKUs commute: an unordered bulk write may take them in any order. */
  lemma UpsertsCommute(store: Store, client: string, a: seq<Item>, b: seq<Item>)
    requires DistinctSkus(a) && DistinctSkus(b) && SameElements(a, b)
    ensures UpsertAll(store, client, a) == UpsertAll(store, client, b)
  {
    forall key ensures Get(UpsertAll(store, client, a), key) == Get(UpsertAll(store, client, b), key) {
      if Mentions(a, client, key) {
        var i :| 0 <= i < |a| && a[i].sku == key.sku;
        assert a[i] in b;
        var j :| 0 <= j < |b| && b[j] == a[i];
        MentionedIsOverlaid(store, client, a, i);
        MentionedIsOverlaid(store, client, b, j);
      } else {
        assert forall j :: 0 <= j < |b| ==> b[j] in a;
        UnmentionedStays(store, client, a, key);
        UnmentionedStays(store, client, b, key);
      }
    }
    SameStore(UpsertAll(store, client, a), UpsertAll(store, client, b));
  }

  /** What is read back for an imported item: all that the item says, active again; an optional field it does not have
      is the one stored before, if any was. */
  ghost predicate ReadsBack(before: Option<Stored>, item: Item, s: Stored) {
    && s.name == item.name && s.kind == item.kind && s.active && s.deactivatedAt == None
    && (item.description.Some? ==> s.description == item.description)
    && (item.unitAmountMinor.Some? ==> s.unitAmountMinor == item.unitAmountMinor)
    && (item.currency.Some? ==> s.currency == item.currency)
    && (item.description.None? ==> s.description == (if before.Some? then before.value.description else None))
    && (item.unitAmountMinor.None? ==> s.unitAmountMinor == (if before.Some? then before.value.unitAmountMinor else None))
    && (item.currency.None? ==> s.currency == (if before.Some? then before.value.currency else None))
  }

  /** After a list of upserts each of its items reads back, and every other entry is as it was: those of other clients
      and those whose SKU is not in the list. */
  lemma UpsertsReadBack(store: Store, client: string, items: seq<Item>)
    requires DistinctSkus(items)
    ensures var after := UpsertAll(store, client, items);
      && (forall k :: 0 <= k < |items| ==> var key := Key(client, items[k].sku); key in after && ReadsBack(Get(store, key), items[k], after[key]))
      && (forall key: Key :: key.client != client || (forall k :: 0 <= k < |items| ==> items[k].sku != key.sku) ==> Get(after, key) == Get(store, key))
  {
    var after := UpsertAll(store, client, items);
    forall k | 0 <= k < |items|
      ensures var key := Key(client, items[k].sku); key in after && ReadsBack(Get(store, key), items[k], after[key])
    {
      MentionedIsOverlaid(store, client, items, k);
    }
    forall key: Key | key.client != client || (forall k :: 0 <= k < |items| ==> items[k].sku != key.sku) ensures Get(after, key) == Get(store, key) {
      UnmentionedStays(store, client, items, key);
    }
  }

  lemma OverlayTwice(stored: Option<Stored>, item: Item)
    ensures Overlay(Some(Overlay(stored, item)), item) == Overlay(stored, item)
  {
  }

  /** After any prefix has been committed, writing the whole list gives what one uninterrupted run would have given. */
  lemma RerunConverges(store: Store, client: string, items: seq<Item>, n: nat)
    requires DistinctSkus(items) && n <= |items|
    ensures UpsertAll(UpsertAll(store, client, items[..n]), client, items) == UpsertAll(store, client, items)
  {
    var partial := UpsertAll(store, client, items[..n]);
    forall key ensures Get(UpsertAll(partial, client, items), key) == Get(UpsertAll(store, client, items), key) {
      if Mentions(items, client, key) {
        var i :| 0 <= i < |items| && items[i].sku == key.sku;
        MentionedIsOverlaid(partial, client, items, i);
        MentionedIsOverlaid(store, client, items, i);
        if i < n {
          MentionedIsOverlaid(store, client, items[..n], i);
          OverlayTwice(Get(store, key), items[i]);
        } else {
          UnmentionedStays(store, client, items[..n], key);
        }
      } else {
        UnmentionedStays(partial, client, items, key);
        UnmentionedStays(store, client, items, key);
        UnmentionedStays(store, client, items[..n], key);
      }
    }
    SameStore(UpsertAll(partial, client, items), UpsertAll(store, client, items));
  }

  /** The store after attempts that each broke off, the k-th of them after committing cuts[k] items. */
  function AfterAttempts(store: Store, client: string, items: seq<Item>, cuts: seq<nat>): Store {
    if cuts == [] then store
    else
      var n := cuts[|cuts| - 1];
      UpsertAll(AfterAttempts(store, client, items, cuts[..|cuts| - 1]), client, if n <= |items| then items[..n] else items)
  }

  /** However often the import broke off and wherever, the attempt that succeeds leaves the same store. */
  lemma {:induction false} RetriesConverge(store: Store, client: string, items: seq<Item>, cuts: seq<nat>)
    requires DistinctSkus(items)
    ensures UpsertAll(AfterAttempts(store, client, items, cuts), client, items) == UpsertAll(store, client, items)
  {
    if cuts != [] {
      var n, before := cuts[|cuts| - 1], AfterAttempts(store, client, items, cuts[..|cuts| - 1]);
      RetriesConverge(store, client, items, cuts[..|cuts| - 1]);
      assert items[..|items|] == items;
      RerunConverges(before, client, items, if n <= |items| then n else |items|);
    }
  }

  lemma {:induction false} UpsertAllConcat(store: Store, client: string, a: seq<Item>, b: seq<Item>)
    ensures UpsertAll(store, client, a + b) == UpsertAll(UpsertAll(store, client, a), client, b)
  {
    if b == [] {
      assert a + b == a;
    } else {
      UpsertAllConcat(store, client, a, b[..|b| - 1]);
      assert (a + b)[..|a + b| - 1] == a + b[..|b| - 1];
    }
  }

  // ----- Chunks -----

  const CATALOG_IMPORT_DB_CHUNK_SIZE := 500

  function ChunkCount(items: seq<Item>): nat {
    (|items| + CATALOG_IMPORT_DB_CHUNK_SIZE - 1) / CATALOG_IMPORT_DB_CHUNK_SIZE
  }

  /** How many items the first n chunks hold. */
  function Committed(items: seq<Item>, n: nat): (k: nat)
    ensures k <= |items|
    ensures n == ChunkCount(items) ==> k == |items|
  {
    if n * CATALOG_IMPORT_DB_CHUNK_SIZE <= |items| then n * CATALOG_IMPORT_DB_CHUNK_SIZE else |items|
  }

  /** The first n chunks, each in the order in which its unordered bulk write takes it. */
  function Worked(items: seq<Item>, order: seq<Item> -> seq<Item>, n: nat): seq<Item> {
    if n == 0 then []
    else Worked(items, order, n - 1) + order(items[Committed(items, n - 1)..Committed(items, n)])
  }

  /** Takes every element of a list, and none twice. */
  ghost predicate Reorders(order: seq<Item> -> seq<Item>) {
    forall s :: SameElements(order(s), s) && (NoDuplicates(s) ==> NoDuplicates(order(s)))
  }

  lemma ReorderedChunk(store: Store, client: string, chunk: seq<Item>, order: seq<Item> -> seq<Item>)
    requires Reorders(order) && DistinctSkus(chunk)
    ensures UpsertAll(store, client, order(chunk)) == UpsertAll(store, client, chunk)
  {
    var taken := order(chunk);
    assert SameElements(taken, chunk) && NoDuplicates(taken);
    forall i, j | 0 <= i < j < |taken| ensures taken[i].sku != taken[j].sku {
      assert taken[i] in chunk && taken[j] in chunk;
      var x :| 0 <= x < |chunk| && chunk[x] == taken[i];
      var y :| 0 <= y < |chunk| && chunk[y] == taken[j];
      assert x != y;
    }
    UpsertsCommute(store, client, taken, chunk);
  }

  lemma WriteChunk(store: Store, client: string, items: seq<Item>, order: seq<Item> -> seq<Item>, from: nat, to: nat)
    requires Reorders(order) && DistinctSkus(items) && from <= to <= |items|
    ensures UpsertAll(UpsertAll(store, client, items[..from]), client, order(items[from..to])) == UpsertAll(store, client, items[..to])
  {
    hide UpsertAll;
    var chunk := items[from..to];
    assert forall i :: 0 <= i < |chunk| ==> chunk[i] == items[from + i];
    ReorderedChunk(UpsertAll(store, client, items[..from]), client, chunk, order);
    UpsertAllConcat(store, client, items[..from], chunk);
    assert items[..from] + chunk == items[..to];
  }

  lemma ConcatChunk(store: Store, client: string, worked: seq<Item>, chunk: seq<Item>, prefix: seq<Item>)
    requires UpsertAll(store, client, worked) == UpsertAll(store, client, prefix)
    ensures UpsertAll(store, client, worked + chunk) == UpsertAll(UpsertAll(store, client, prefix), client, chunk)
  {
    UpsertAllConcat(store, client, worked, chunk);
  }

  /** With distinct SKUs the committed chunks amount to a prefix of the list, whatever order each was written in. */
  lemma {:induction false} CommittedChunksAreAPrefix(store: Store, client: string, items: seq<Item>, order: seq<Item> -> seq<Item>, n: nat)
    requires Reorders(order) && DistinctSkus(items)
    ensures UpsertAll(store, client, Worked(items, order, n)) == UpsertAll(store, client, items[..Committed(items, n)])
  {
    hide UpsertAll;
    if n == 0 {
      assert Worked(items, order, 0) == [] == items[..Committed(items, 0)];
    } else {
      var from, to := Committed(items, n - 1), Committed(items, n);
      CommittedChunksAreAPrefix(store, client, items, order, n - 1);
      ConcatChunk(store, client, Worked(items, order, n - 1), order(items[from..to]), items[..from]);
      WriteChunk(store, client, items, order, from, to);
    }
  }

  datatype BulkResult = AllCommitted | BulkChunkError(committedChunks: nat)

  class ClientCatalogItemRepository {
    var store: Store

    constructor ()
      ensures store == map[]
    {
      store := map[];
    }

    /** `broken` is the number of the chunk whose transaction fails, if one does; a transaction leaves all or nothing. */
    method BulkUpsertChunked(client: string, items: seq<Item>, order: seq<Item> -> seq<Item>, broken: Option<nat>) returns (result: BulkResult)
      modifies this
      ensures result == if broken.Some? && broken.value < ChunkCount(items) then BulkChunkError(broken.value) else AllCommitted
      ensures var n := if result.BulkChunkError? then result.committedChunks else ChunkCount(items);
        store == UpsertAll(old(store), client, Worked(items, order, n))
    {
      hide Upsert, Overlay;
      var committedChunks, i := 0, 0;
      while i < |items|
        invariant i == committedChunks * CATALOG_IMPORT_DB_CHUNK_SIZE && committedChunks <= ChunkCount(items)
        invariant broken.Some? ==> committedChunks <= broken.value || ChunkCount(items) <= broken.value
        invariant store == UpsertAll(old(store), client, Worked(items, order, committedChunks))
        decreases |items| - i
      {
        var end := if i + CATALOG_IMPORT_DB_CHUNK_SIZE <= |items| then i + CATALOG_IMPORT_DB_CHUNK_SIZE else |items|;
        var chunk := items[i..end];
        if broken == Some(committedChunks) {
          return BulkChunkError(committedChunks);
        }
        UpsertAllConcat(old(store), client, Worked(items, order, committedChunks), order(chunk));
        BulkWrite(client, order(chunk));
        committedChunks := committedChunks + 1;
        i := i + CATALOG_IMPORT_DB_CHUNK_SIZE;
      }
      result := AllCommitted;
    }

    method BulkWrite(client: string, chunk: seq<Item>)
      modifies this
      ensures store == UpsertAll(old(store), client, chunk)
    {
      for k := 0 to |chunk|
        invariant store == UpsertAll(old(store), client, chunk[..k])
      {
        assert chunk[..k + 1][..k] == chunk[..k];
        var key := Key(client, chunk[k].sku);
        store := store[key := Overlay(Get(store, key), chunk[k])];
      }
      assert chunk[..|chunk|] == chunk;
    }
  }
}
