/** Catalog import (catalog-import.extract.ts, client-catalog-items.service.ts): the file is cut into work units, each
    unit comes back as a batch of rows, the batches are merged by SKU and the merged list is written in chunks. */
module CatalogImport {
  import opened Wrappers
  import opened Lists
  import opened CatalogStore

  // ----- Work units -----

  const CATALOG_IMPORT_ROWS_PER_LLM_BATCH := 75
  const CATALOG_IMPORT_UNSTRUCTURED_TEXT_CHUNK_CHARS := 12_000

  datatype Extract<R> = Tabular(rows: seq<R>) | Unstructured(text: string, multimodal: bool)

  datatype WorkUnit<R> = Rows(rows: seq<R>) | Whole(text: string, attached: bool) | Excerpt(part: nat, text: string)

  /** Consecutive slices of the given size; only the last may be shorter, none is empty. */
  function Chunks<T>(s: seq<T>, size: nat): seq<seq<T>>
    requires size >= 1
  {
    if s == [] then [] else if |s| <= size then [s] else [s[..size]] + Chunks(s[size..], size)
  }

  lemma {:induction false} ChunksPartition<T>(s: seq<T>, size: nat)
    requires size >= 1
    ensures var chunks := Chunks(s, size);
      Flatten(chunks) == s
      && (forall k :: 0 <= k < |chunks| ==> 1 <= |chunks[k]| <= size && (k < |chunks| - 1 ==> |chunks[k]| == size))
  {
    var chunks := Chunks(s, size);
    if |s| > size {
      ChunksPartition(s[size..], size);
      assert chunks[1..] == Chunks(s[size..], size);
    } else if s != [] {
      assert chunks[1..] == [] && Flatten(chunks) == s + Flatten<T>([]);
    }
  }

  /** What a unit carries of the input. */
  function RowsIn<R>(units: seq<WorkUnit<R>>): seq<seq<R>> {
    seq(|units|, k requires 0 <= k < |units| => if units[k].Rows? then units[k].rows else [])
  }

  function TextsIn<R>(units: seq<WorkUnit<R>>): seq<string> {
    seq(|units|, k requires 0 <= k < |units| => if units[k].Rows? then "" else units[k].text)
  }

  function RowUnits<R>(chunks: seq<seq<R>>): seq<WorkUnit<R>> {
    seq(|chunks|, k requires 0 <= k < |chunks| => Rows(chunks[k]))
  }

  function Excerpts<R>(chunks: seq<string>): seq<WorkUnit<R>> {
    seq(|chunks|, k requires 0 <= k < |chunks| => Excerpt(k + 1, chunks[k]))
  }

  function WorkUnits<R>(extract: Extract<R>): seq<WorkUnit<R>> {
    match extract
    case Tabular(rows) => RowUnits(Chunks(rows, CATALOG_IMPORT_ROWS_PER_LLM_BATCH))
    case Unstructured(text, multimodal) =>
      if multimodal then [Whole(text, true)]
      else if |text| <= CATALOG_IMPORT_UNSTRUCTURED_TEXT_CHUNK_CHARS then [Whole(text, false)]
      else Excerpts(Chunks(text, CATALOG_IMPORT_UNSTRUCTURED_TEXT_CHUNK_CHARS))
  }

  lemma ChunksStep<T>(s: seq<T>, size: nat)
    requires size >= 1 && s != []
    ensures var end := if size <= |s| then size else |s|; Chunks(s, size) == [s[..end]] + Chunks(s[end..], size)
  {
    if |s| <= size {
      assert s[..|s|] == s && s[|s|..] == [];
    }
  }

  /** What is left from position i on. */
  function Rest<T>(s: seq<T>, i: nat): seq<T> {
    if i <= |s| then s[i..] else []
  }

  lemma SliceStep<T>(s: seq<T>, i: nat, size: nat)
    requires size >= 1 && i < |s|
    ensures var end := if i + size <= |s| then i + size else |s|;
      Chunks(Rest(s, i), size) == [s[i..end]] + Chunks(Rest(s, i + size), size)
  {
    var end := if i + size <= |s| then i + size else |s|;
    ChunksStep(s[i..], size);
    assert s[i..][..end - i] == s[i..end] && s[i..][end - i..] == s[end..] == Rest(s, i + size);
  }

  method Slices<T>(s: seq<T>, size: nat) returns (slices: seq<seq<T>>)
    requires size >= 1
    ensures slices == Chunks(s, size)
  {
    slices := [];
    var i := 0;
    assert Rest(s, 0) == s;
    while i < |s|
      invariant 0 <= i
      invariant slices + Chunks(Rest(s, i), size) == Chunks(s, size)
      decreases |s| - i
    {
      hide *;
      var end := if i + size <= |s| then i + size else |s|;
      SliceStep(s, i, size);
      assert slices + ([s[i..end]] + Chunks(Rest(s, i + size), size)) == slices + [s[i..end]] + Chunks(Rest(s, i + size), size);
      slices := slices + [s[i..end]];
      i := i + size;
    }
  }

  method BuildLlmWorkUnits<R>(extract: Extract<R>) returns (units: seq<WorkUnit<R>>)
    ensures units == WorkUnits(extract)
  {
    match extract
    case Tabular(rows) =>
      var slices := Slices(rows, CATALOG_IMPORT_ROWS_PER_LLM_BATCH);
      units := RowUnits(slices);
    case Unstructured(text, multimodal) =>
      if multimodal {
        return [Whole(text, true)];
      }
      if |text| <= CATALOG_IMPORT_UNSTRUCTURED_TEXT_CHUNK_CHARS {
        return [Whole(text, false)];
      }
      var slices := Slices(text, CATALOG_IMPORT_UNSTRUCTURED_TEXT_CHUNK_CHARS);
      units := Excerpts(slices);
  }

  /** The units carry the whole input, each row or character once and in order, within the size of a batch. */
  lemma UnitsPartition<R(!new)>(extract: Extract<R>)
    ensures var units := WorkUnits(extract);
      match extract
      case Tabular(rows) =>
        Flatten(RowsIn(units)) == rows
        && forall k :: 0 <= k < |units| ==> units[k].Rows? && 1 <= |units[k].rows| <= 75 && (k < |units| - 1 ==> |units[k].rows| == 75)
      case Unstructured(text, multimodal) =>
        Flatten(TextsIn(units)) == text
        && (multimodal ==> units == [Whole(text, true)])
        && (!multimodal ==> forall k :: 0 <= k < |units| ==>
          !units[k].Rows? && |units[k].text| <= 12_000 && (k < |units| - 1 ==> |units[k].text| == 12_000)
          && (units[k].Excerpt? ==> units[k].part == k + 1) && (units[k].Whole? ==> !units[k].attached)
          && (units[k].Whole? <==> |text| <= 12_000))
  {
    var units := WorkUnits(extract);
    match extract
    case Tabular(rows) =>
      var chunks := Chunks(rows, CATALOG_IMPORT_ROWS_PER_LLM_BATCH);
      ChunksPartition(rows, CATALOG_IMPORT_ROWS_PER_LLM_BATCH);
      assert RowsIn(units) == chunks;
    case Unstructured(text, multimodal) =>
      if multimodal || |text| <= CATALOG_IMPORT_UNSTRUCTURED_TEXT_CHUNK_CHARS {
        assert TextsIn(units) == [text] && Flatten([text]) == text + Flatten<char>([]);
      } else {
        var chunks := Chunks(text, CATALOG_IMPORT_UNSTRUCTURED_TEXT_CHUNK_CHARS);
        ChunksPartition(text, CATALOG_IMPORT_UNSTRUCTURED_TEXT_CHUNK_CHARS);
        assert TextsIn(units) == chunks;
      }
  }

  // ----- Rows -----

  /** Trimming and upper-casing, as the language does them. */
  datatype TextOps = TextOps(trim: string -> string, upper: string -> string)

  ghost predicate IsTextOps(ops: TextOps) {
    forall s :: ops.trim(ops.trim(s)) == ops.trim(s)
  }

  predicate IsLetter(c: char) {
    'a' <= c <= 'z' || 'A' <= c <= 'Z'
  }

  function ParseText(ops: TextOps, text: Option<string>): Option<string> {
    if text.Some? then Some(ops.trim(text.value)) else None
  }

  /** A row of a batch as the catalog schema accepts it. */
  function Parse(ops: TextOps, raw: Item): Option<Item> {
    var sku, name := ops.trim(raw.sku), ops.trim(raw.name);
    var description, currency := ParseText(ops, raw.description), ParseText(ops, raw.currency);
    if !(1 <= |sku| <= 120 && 1 <= |name| <= 200) then None
    else if description.Some? && |description.value| > 4000 then None
    else if raw.unitAmountMinor.Some? && raw.unitAmountMinor.value < 0 then None
    else if currency.Some? && !IsCurrencyCode(currency.value) then None
    else if raw.unitAmountMinor.Some? && currency.None? then None
    else Some(Item(sku, name, raw.kind, description, raw.unitAmountMinor, if currency.Some? then Some(ops.upper(currency.value)) else None))
  }

  predicate IsCurrencyCode(s: string) {
    |s| == 3 && forall k :: 0 <= k < 3 ==> IsLetter(s[k])
  }

  /** What the schema accepts, and as what: a SKU and a name that are not blank, within the lengths of the schema once
      trimmed; no negative price, and none without a currency; a currency of three letters, in upper case. */
  ghost predicate IsParsed(ops: TextOps, raw: Item, item: Item) {
    && item.sku == ops.trim(raw.sku) && item.sku != "" && |item.sku| <= 120
    && item.name == ops.trim(raw.name) && item.name != "" && |item.name| <= 200
    && item.kind == raw.kind
    && (if raw.description.None? then item.description == None
        else item.description == Some(ops.trim(raw.description.value)) && |item.description.value| <= 4000)
    && item.unitAmountMinor == raw.unitAmountMinor
    && (item.unitAmountMinor.Some? ==> item.unitAmountMinor.value >= 0 && item.currency.Some?)
    && (if raw.currency.None? then item.currency == None
        else
          var code := ops.trim(raw.currency.value);
          |code| == 3 && IsLetter(code[0]) && IsLetter(code[1]) && IsLetter(code[2]) && item.currency == Some(ops.upper(code)))
  }

  lemma ParseIff(ops: TextOps, raw: Item, item: Item)
    ensures Parse(ops, raw) == Some(item) <==> IsParsed(ops, raw, item)
  {
    var code := ParseText(ops, raw.currency);
    if code.Some? && |code.value| == 3 {
      assert IsCurrencyCode(code.value) <==> IsLetter(code.value[0]) && IsLetter(code.value[1]) && IsLetter(code.value[2]);
    }
  }

  /** Upper-casing three letters gives three letters that neither operation changes further. */
  ghost predicate KeepsCodes(ops: TextOps) {
    forall s :: IsCurrencyCode(s) ==> var t := ops.upper(s); IsCurrencyCode(t) && ops.upper(t) == t && ops.trim(t) == t
  }

  /** An accepted row is accepted again as the very same item, so comparing parsed rows is comparing items. */
  lemma ParseIsStable(ops: TextOps, raw: Item)
    requires IsTextOps(ops) && KeepsCodes(ops) && Parse(ops, raw).Some?
    ensures Parse(ops, Parse(ops, raw).value) == Parse(ops, raw)
  {
    var item := Parse(ops, raw).value;
    if raw.currency.Some? {
      assert IsCurrencyCode(ops.trim(raw.currency.value));
      assert ParseText(ops, item.currency) == item.currency;
    }
  }

  datatype ImportError = SkuConflict | RowInvalid | Empty

  function SkuOf(ops: TextOps): Item -> string {
    (raw: Item) => ops.trim(raw.sku)
  }

  // ----- Conflicts within a batch -----

  /** Compares the rows of a group from index k on with its first row. */
  function RestError(ops: TextOps, group: seq<Item>, k: nat): Option<ImportError>
    requires 1 <= k <= |group|
    decreases |group| - k
  {
    if k == |group| then None
    else if Parse(ops, group[k]).None? then Some(RowInvalid)
    else if Parse(ops, group[k]) != Parse(ops, group[0]) then Some(SkuConflict)
    else RestError(ops, group, k + 1)
  }

  function GroupError(ops: TextOps, group: seq<Item>): Option<ImportError> {
    if |group| < 2 then None
    else if Parse(ops, group[0]).None? then Some(RowInvalid)
    else RestError(ops, group, 1)
  }

  /** The first complaint, going through the SKUs in the order in which they first appear. */
  function FirstError(ops: TextOps, batch: seq<Item>, keys: seq<string>): Option<ImportError> {
    if keys == [] then None
    else
      var error := FirstError(ops, batch, keys[..|keys| - 1]);
      if error.Some? then error else GroupError(ops, Select(Keyed(SkuOf(ops), keys[|keys| - 1]), batch))
  }

  function BatchError(ops: TextOps, batch: seq<Item>): Option<ImportError> {
    FirstError(ops, batch, KeysInOrder(SkuOf(ops), batch))
  }

  method AssertNoConflictingDuplicatesInBatch(ops: TextOps, batch: seq<Item>) returns (error: Option<ImportError>)
    ensures error == BatchError(ops, batch)
  {
    hide Parse, KeysInOrder, Select;
    var keys, bySku := GroupBy(SkuOf(ops), batch);
    error := None;
    var n := 0;
    while n < |keys| && error.None?
      invariant n <= |keys| && error == FirstError(ops, batch, keys[..n])
    {
      assert keys[..n + 1][..n] == keys[..n];
      assert keys[n] in keys;
      var group := bySku[keys[n]];
      if |group| >= 2 {
        if Parse(ops, group[0]).None? {
          error := Some(RowInvalid);
        }
        var i := 1;
        while i < |group| && error.None?
          invariant 1 <= i <= |group|
          invariant error.None? ==> GroupError(ops, group) == RestError(ops, group, i)
          invariant error.Some? ==> error == GroupError(ops, group)
        {
          if Parse(ops, group[i]).None? {
            error := Some(RowInvalid);
          } else if Parse(ops, group[i]) != Parse(ops, group[0]) {
            error := Some(SkuConflict);
          }
          i := i + 1;
        }
      }
      n := n + 1;
    }
    if error.None? {
      assert keys[..|keys|] == keys;
    } else {
      FirstErrorStays(ops, batch, keys, n);
    }
  }

  lemma {:induction false} FirstErrorStays(ops: TextOps, batch: seq<Item>, keys: seq<string>, n: nat)
    requires n <= |keys| && FirstError(ops, batch, keys[..n]).Some?
    ensures FirstError(ops, batch, keys) == FirstError(ops, batch, keys[..n])
  {
    if n < |keys| {
      assert keys[..|keys| - 1][..n] == keys[..n];
      FirstErrorStays(ops, batch, keys[..|keys| - 1], n);
    } else {
      assert keys[..n] == keys;
    }
  }

  /** Two rows of one SKU both parse, and to the same item. */
  ghost predicate Agree(ops: TextOps, a: Item, b: Item) {
    Parse(ops, a).Some? && Parse(ops, a) == Parse(ops, b)
  }

  ghost predicate NoConflict(ops: TextOps, batch: seq<Item>) {
    forall i, j :: 0 <= i < j < |batch| && ops.trim(batch[i].sku) == ops.trim(batch[j].sku) ==> Agree(ops, batch[i], batch[j])
  }

  lemma {:induction false} RestErrorIff(ops: TextOps, group: seq<Item>, k: nat)
    requires 1 <= k <= |group| && Parse(ops, group[0]).Some?
    ensures RestError(ops, group, k).None? <==> forall j :: k <= j < |group| ==> Agree(ops, group[0], group[j])
    decreases |group| - k
  {
    if k < |group| {
      RestErrorIff(ops, group, k + 1);
    }
  }

  lemma GroupErrorIff(ops: TextOps, group: seq<Item>)
    ensures GroupError(ops, group).None? <==> |group| < 2 || forall j :: 0 <= j < |group| ==> Agree(ops, group[0], group[j])
  {
    if |group| >= 2 && Parse(ops, group[0]).Some? {
      RestErrorIff(ops, group, 1);
    }
  }

  lemma {:induction false} FirstErrorIff(ops: TextOps, batch: seq<Item>, keys: seq<string>)
    ensures FirstError(ops, batch, keys).None?
      <==> forall k :: k in keys ==> GroupError(ops, Select(Keyed(SkuOf(ops), k), batch)).None?
  {
    if keys != [] {
      FirstErrorIff(ops, batch, keys[..|keys| - 1]);
      assert keys == keys[..|keys| - 1] + [keys[|keys| - 1]];
    }
  }

  /** The rows of one SKU, two of them at least, are where two positions of the batch share that SKU. */
  lemma {:induction false} SharedSku(ops: TextOps, batch: seq<Item>, i: nat, j: nat)
    requires i < j < |batch| && ops.trim(batch[i].sku) == ops.trim(batch[j].sku)
    ensures var group := Select(Keyed(SkuOf(ops), ops.trim(batch[i].sku)), batch);
      |group| >= 2 && batch[i] in group && batch[j] in group
  {
    var keep := Keyed(SkuOf(ops), ops.trim(batch[i].sku));
    SelectElements(keep, batch);
    if j == |batch| - 1 {
      SelectElements(keep, batch[..j]);
      assert batch[i] in batch[..j];
      assert batch[i] in Select(keep, batch[..j]);
    } else {
      SharedSku(ops, batch[..|batch| - 1], i, j);
    }
  }

  lemma {:induction false} GroupPositions(keep: Item -> bool, batch: seq<Item>, x: nat, y: nat) returns (i: nat, j: nat)
    requires x < y < |Select(keep, batch)|
    ensures i < j < |batch| && batch[i] == Select(keep, batch)[x] && batch[j] == Select(keep, batch)[y]
  {
    var n := |batch| - 1;
    if y < |Select(keep, batch[..n])| {
      i, j := GroupPositions(keep, batch[..n], x, y);
    } else {
      j := n;
      SelectElements(keep, batch[..n]);
      var row := Select(keep, batch[..n])[x];
      assert row in batch[..n];
      i :| 0 <= i < n && batch[i] == row;
    }
  }

  /** A batch passes exactly when any two of its rows with the same trimmed SKU are the same item. */
  lemma BatchPassesIff(ops: TextOps, batch: seq<Item>)
    ensures BatchError(ops, batch).None? <==> NoConflict(ops, batch)
  {
    var key := SkuOf(ops);
    FirstErrorIff(ops, batch, KeysInOrder(key, batch));
    KeysAppear(key, batch);
    if BatchError(ops, batch).None? {
      forall i, j | 0 <= i < j < |batch| && ops.trim(batch[i].sku) == ops.trim(batch[j].sku)
        ensures Agree(ops, batch[i], batch[j])
      {
        var k := ops.trim(batch[i].sku);
        assert batch[i] in batch && key(batch[i]) == k;
        SharedSku(ops, batch, i, j);
        GroupErrorIff(ops, Select(Keyed(key, k), batch));
      }
    } else {
      var k :| k in KeysInOrder(key, batch) && GroupError(ops, Select(Keyed(key, k), batch)).Some?;
      ConflictingPair(ops, batch, k);
    }
  }

  /** Two rows of one SKU that are the reason for a complaint: one of them does not parse, or they parse apart. */
  ghost predicate IsReason(ops: TextOps, error: ImportError, a: Item, b: Item) {
    && ops.trim(a.sku) == ops.trim(b.sku)
    && (error == RowInvalid || error == SkuConflict)
    && (error == RowInvalid ==> Parse(ops, a).None? || Parse(ops, b).None?)
    && (error == SkuConflict ==> Parse(ops, a).Some? && Parse(ops, b).Some? && Parse(ops, a) != Parse(ops, b))
  }

  lemma {:induction false} RestErrorHasReason(ops: TextOps, group: seq<Item>, k: nat) returns (j: nat)
    requires 1 <= k <= |group| && Parse(ops, group[0]).Some? && RestError(ops, group, k).Some?
    requires forall i :: 0 <= i < |group| ==> ops.trim(group[i].sku) == ops.trim(group[0].sku)
    ensures k <= j < |group| && IsReason(ops, RestError(ops, group, k).value, group[0], group[j])
    decreases |group| - k
  {
    if Parse(ops, group[k]).None? || Parse(ops, group[k]) != Parse(ops, group[0]) {
      j := k;
    } else {
      j := RestErrorHasReason(ops, group, k + 1);
    }
  }

  lemma {:induction false} FirstErrorFrom(ops: TextOps, batch: seq<Item>, keys: seq<string>) returns (k: string)
    requires FirstError(ops, batch, keys).Some?
    ensures GroupError(ops, Select(Keyed(SkuOf(ops), k), batch)) == FirstError(ops, batch, keys)
  {
    if FirstError(ops, batch, keys[..|keys| - 1]).Some? {
      k := FirstErrorFrom(ops, batch, keys[..|keys| - 1]);
    } else {
      k := keys[|keys| - 1];
    }
  }

  /** Every complaint names its kind of reason: two rows of the batch with one SKU. */
  lemma ComplaintHasReason(ops: TextOps, batch: seq<Item>) returns (i: nat, j: nat)
    requires BatchError(ops, batch).Some?
    ensures i < j < |batch| && IsReason(ops, BatchError(ops, batch).value, batch[i], batch[j])
  {
    hide Parse;
    var k := FirstErrorFrom(ops, batch, KeysInOrder(SkuOf(ops), batch));
    var keep := Keyed(SkuOf(ops), k);
    var group := Select(keep, batch);
    SelectElements(keep, batch);
    assert forall x :: 0 <= x < |group| ==> group[x] in group;
    var y := 1;
    if Parse(ops, group[0]).Some? {
      y := RestErrorHasReason(ops, group, 1);
    }
    i, j := GroupPositions(keep, batch, 0, y);
  }

  lemma ConflictingPair(ops: TextOps, batch: seq<Item>, k: string)
    requires GroupError(ops, Select(Keyed(SkuOf(ops), k), batch)).Some?
    ensures !NoConflict(ops, batch)
  {
    var keep := Keyed(SkuOf(ops), k);
    var group := Select(keep, batch);
    GroupErrorIff(ops, group);
    SelectElements(keep, batch);
    var y := if Agree(ops, group[0], group[1]) then (var y :| 2 <= y < |group| && !Agree(ops, group[0], group[y]); y) else 1;
    var i, j := GroupPositions(keep, batch, 0, y);
    assert group[0] in group && group[y] in group;
    assert !Agree(ops, batch[i], batch[j]);
  }

  // ----- Merging -----

  /** A map that remembers the order in which its keys were first set. */
  datatype OrderedMap = OrderedMap(keys: seq<string>, items: map<string, Item>)

  type Merged = m: OrderedMap | forall k :: k in m.keys ==> k in m.items witness OrderedMap([], map[])

  const NOTHING: Merged := OrderedMap([], map[])

  ghost predicate IsMerged(ops: TextOps, m: Merged) {
    && NoDuplicates(m.keys)
    && (forall k :: k in m.keys <==> k in m.items)
    && (forall k :: k in m.items ==> m.items[k].sku == k)
  }

  function Put(m: Merged, k: string, item: Item): Merged {
    OrderedMap(if k in m.items then m.keys else m.keys + [k], m.items[k := item])
  }

  function Values(m: Merged): seq<Item> {
    seq(|m.keys|, i requires 0 <= i < |m.keys| => m.items[m.keys[i]])
  }

  /** None when a row does not parse. */
  function MergeRows(ops: TextOps, m: Merged, rows: seq<Item>): Option<Merged> {
    if rows == [] then Some(m)
    else
      var before, parsed := MergeRows(ops, m, rows[..|rows| - 1]), Parse(ops, rows[|rows| - 1]);
      if before.None? || parsed.None? then None else Some(Put(before.value, ops.trim(parsed.value.sku), parsed.value))
  }

  datatype Outcome = Merging(merged: Merged) | Failed(error: ImportError)

  function MergeBatches(ops: TextOps, batches: seq<seq<Item>>): Outcome {
    if batches == [] then Merging(NOTHING)
    else
      var before, batch := MergeBatches(ops, batches[..|batches| - 1]), batches[|batches| - 1];
      if before.Failed? then before
      else if BatchError(ops, batch).Some? then Failed(BatchError(ops, batch).value)
      else
        var m := MergeRows(ops, before.merged, batch);
        if m.None? then Failed(RowInvalid) else Merging(m.value)
  }

  /** Every SKU once, under its own name. */
  lemma {:induction false} MergeRowsIsMerged(ops: TextOps, m: Merged, rows: seq<Item>)
    requires IsTextOps(ops) && IsMerged(ops, m)
    ensures MergeRows(ops, m, rows).Some? ==> IsMerged(ops, MergeRows(ops, m, rows).value)
  {
    if rows != [] {
      MergeRowsIsMerged(ops, m, rows[..|rows| - 1]);
    }
  }

  lemma {:induction false} BatchesAreMerged(ops: TextOps, batches: seq<seq<Item>>)
    requires IsTextOps(ops)
    ensures MergeBatches(ops, batches).Merging? ==> IsMerged(ops, MergeBatches(ops, batches).merged)
  {
    if batches != [] {
      var shorter := batches[..|batches| - 1];
      BatchesAreMerged(ops, shorter);
      if MergeBatches(ops, shorter).Merging? {
        MergeRowsIsMerged(ops, MergeBatches(ops, shorter).merged, batches[|batches| - 1]);
      }
    }
  }

  /** So the list that goes to the database has distinct SKUs, which is what makes its chunks safe to redo. */
  lemma MergedSkusAreDistinct(ops: TextOps, batches: seq<seq<Item>>)
    requires IsTextOps(ops) && MergeBatches(ops, batches).Merging?
    ensures var m := MergeBatches(ops, batches).merged; IsMerged(ops, m) && DistinctSkus(Values(m))
  {
    BatchesAreMerged(ops, batches);
    var m := MergeBatches(ops, batches).merged;
    assert forall i :: 0 <= i < |m.keys| ==> m.keys[i] in m.keys;
  }

  lemma ParsedSku(ops: TextOps, raw: Item)
    ensures Parse(ops, raw).Some? ==> Parse(ops, raw).value.sku == ops.trim(raw.sku)
  {
  }

  /** The rows that a merge takes a SKU from. */
  predicate HasSku(ops: TextOps, rows: seq<Item>, k: string) {
    exists i :: 0 <= i < |rows| && ops.trim(rows[i].sku) == k
  }

  /** The last row decides its own SKU and no other. */
  lemma MergeStep(ops: TextOps, m: Merged, rows: seq<Item>, k: string)
    requires rows != [] && MergeRows(ops, m, rows).Some?
    ensures MergeRows(ops, m, rows[..|rows| - 1]).Some?
    ensures IsTextOps(ops) ==>
      var r, before, last := MergeRows(ops, m, rows).value, MergeRows(ops, m, rows[..|rows| - 1]).value, rows[|rows| - 1];
      if ops.trim(last.sku) == k then k in r.items && Parse(ops, last) == Some(r.items[k])
      else (k in r.items <==> k in before.items) && (k in before.items ==> r.items[k] == before.items[k])
  {
    ParsedSku(ops, rows[|rows| - 1]);
  }

  lemma {:induction false} UnmentionedSkuStays(ops: TextOps, m: Merged, rows: seq<Item>, k: string)
    requires IsTextOps(ops) && MergeRows(ops, m, rows).Some? && !HasSku(ops, rows, k)
    ensures var r := MergeRows(ops, m, rows).value;
      (k in r.items <==> k in m.items) && (k in m.items ==> r.items[k] == m.items[k])
  {
    hide Parse;
    if rows != [] {
      assert forall i :: 0 <= i < |rows| - 1 ==> rows[..|rows| - 1][i] == rows[i];
      MergeStep(ops, m, rows, k);
      UnmentionedSkuStays(ops, m, rows[..|rows| - 1], k);
    }
  }

  /** The row a merged item comes from. */
  lemma {:induction false} MergedFrom(ops: TextOps, m: Merged, rows: seq<Item>, k: string) returns (i: nat)
    requires IsTextOps(ops) && MergeRows(ops, m, rows).Some? && HasSku(ops, rows, k)
    ensures var r := MergeRows(ops, m, rows).value;
      k in r.items && i < |rows| && ops.trim(rows[i].sku) == k && Parse(ops, rows[i]) == Some(r.items[k])
  {
    hide Parse, MergeRows;
    var n := |rows| - 1;
    MergeStep(ops, m, rows, k);
    if ops.trim(rows[n].sku) == k {
      i := n;
    } else {
      assert rows == rows[..n] + [rows[n]];
      i := MergedFrom(ops, m, rows[..n], k);
    }
  }

  lemma {:induction false} MergesIffAllParse(ops: TextOps, m: Merged, rows: seq<Item>)
    ensures MergeRows(ops, m, rows).Some? <==> forall row :: row in rows ==> Parse(ops, row).Some?
  {
    if rows != [] {
      MergesIffAllParse(ops, m, rows[..|rows| - 1]);
      assert rows == rows[..|rows| - 1] + [rows[|rows| - 1]];
    }
  }

  /** In a batch that passed the check, every row of a SKU is what the merge ends up with. */
  lemma AnyRowDecides(ops: TextOps, m: Merged, rows: seq<Item>, i: nat)
    requires IsTextOps(ops) && MergeRows(ops, m, rows).Some? && NoConflict(ops, rows) && i < |rows|
    ensures var r := MergeRows(ops, m, rows).value; ops.trim(rows[i].sku) in r.items && Parse(ops, rows[i]) == Some(r.items[ops.trim(rows[i].sku)])
  {
    var j := MergedFrom(ops, m, rows, ops.trim(rows[i].sku));
    assert i < j ==> Agree(ops, rows[i], rows[j]);
    assert j < i ==> Agree(ops, rows[j], rows[i]);
  }

  lemma {:induction false} TwoPositions(s: seq<Item>, x: Item) returns (p: nat, q: nat)
    requires multiset(s)[x] >= 2
    ensures p < q < |s| && s[p] == s[q] == x
  {
    var n := |s| - 1;
    assert s == s[..n] + [s[n]];
    if multiset(s[..n])[x] >= 2 {
      p, q := TwoPositions(s[..n], x);
    } else {
      assert x in multiset(s[..n]);
      p :| 0 <= p < n && s[..n][p] == x;
      q := n;
    }
  }

  lemma RepeatedTwice(s: seq<Item>, i: nat, j: nat)
    requires i < j < |s| && s[i] == s[j]
    ensures multiset(s)[s[i]] >= 2
  {
    assert s == s[..j] + s[j..];
    assert s[i] in s[..j] && s[j..][0] in s[j..];
  }

  /** A batch that passes the check passes it in every order. */
  lemma PassesInAnyOrder(ops: TextOps, a: seq<Item>, b: seq<Item>)
    requires multiset(a) == multiset(b) && NoConflict(ops, a)
    ensures NoConflict(ops, b)
  {
    forall i, j | 0 <= i < j < |b| && ops.trim(b[i].sku) == ops.trim(b[j].sku) ensures Agree(ops, b[i], b[j]) {
      if b[i] == b[j] {
        RepeatedTwice(b, i, j);
        var p, q := TwoPositions(a, b[i]);
      } else {
        assert b[i] in multiset(b) && b[j] in multiset(b);
        var p :| 0 <= p < |a| && a[p] == b[i];
        var q :| 0 <= q < |a| && a[q] == b[j];
        assert p < q ==> Agree(ops, a[p], a[q]);
        assert q < p ==> Agree(ops, a[q], a[p]);
      }
    }
  }

  /** A batch that passes the check merges to the same map whatever order its rows come in. */
  lemma MergeForgetsOrder(ops: TextOps, m: Merged, a: seq<Item>, b: seq<Item>)
    requires IsTextOps(ops) && multiset(a) == multiset(b) && BatchError(ops, a).None?
    ensures BatchError(ops, b).None?
    ensures var x, y := MergeRows(ops, m, a), MergeRows(ops, m, b);
      x.Some? == y.Some? && (x.Some? ==> x.value.items == y.value.items)
  {
    BatchPassesIff(ops, a);
    BatchPassesIff(ops, b);
    PassesInAnyOrder(ops, a, b);
    forall x ensures x in a <==> x in b {
      assert x in a <==> x in multiset(a);
    }
    MergeSame(ops, m, a, b);
  }

  lemma MergeSameAt(ops: TextOps, m: Merged, a: seq<Item>, b: seq<Item>, k: string)
    requires IsTextOps(ops) && SameElements(a, b) && NoConflict(ops, a) && NoConflict(ops, b)
    requires MergeRows(ops, m, a).Some? && MergeRows(ops, m, b).Some?
    ensures var x, y := MergeRows(ops, m, a).value.items, MergeRows(ops, m, b).value.items;
      (k in x <==> k in y) && (k in x ==> x[k] == y[k])
  {
    hide Parse, MergeRows, NoConflict;
    if HasSku(ops, a, k) {
      var i :| 0 <= i < |a| && ops.trim(a[i].sku) == k;
      assert a[i] in b;
      var j :| 0 <= j < |b| && b[j] == a[i];
      AnyRowDecides(ops, m, a, i);
      AnyRowDecides(ops, m, b, j);
    } else {
      assert forall j :: 0 <= j < |b| ==> b[j] in a;
      UnmentionedSkuStays(ops, m, a, k);
      UnmentionedSkuStays(ops, m, b, k);
    }
  }

  lemma MergeSame(ops: TextOps, m: Merged, a: seq<Item>, b: seq<Item>)
    requires IsTextOps(ops) && SameElements(a, b) && NoConflict(ops, a) && NoConflict(ops, b)
    ensures var x, y := MergeRows(ops, m, a), MergeRows(ops, m, b);
      x.Some? == y.Some? && (x.Some? ==> x.value.items == y.value.items)
  {
    hide Parse, MergeRows, HasSku, NoConflict;
    MergesIffAllParse(ops, m, a);
    MergesIffAllParse(ops, m, b);
    if MergeRows(ops, m, a).Some? {
      var x, y := MergeRows(ops, m, a).value.items, MergeRows(ops, m, b).value.items;
      forall k ensures (k in x <==> k in y) && (k in x ==> x[k] == y[k]) {
        MergeSameAt(ops, m, a, b, k);
      }
    }
  }

  lemma MergeBatchesStep(ops: TextOps, batches: seq<seq<Item>>)
    requires batches != []
    ensures var before, batch := MergeBatches(ops, batches[..|batches| - 1]), batches[|batches| - 1];
      MergeBatches(ops, batches) ==
        if before.Failed? then before
        else if BatchError(ops, batch).Some? then Failed(BatchError(ops, batch).value)
        else if MergeRows(ops, before.merged, batch).None? then Failed(RowInvalid)
        else Merging(MergeRows(ops, before.merged, batch).value)
  {
    hide BatchError, MergeRows;
  }

  lemma {:induction false} MergedBatchesPass(ops: TextOps, batches: seq<seq<Item>>, n: nat)
    requires MergeBatches(ops, batches).Merging? && n < |batches|
    ensures MergeBatches(ops, batches[..n]).Merging? && BatchError(ops, batches[n]).None? && MergeBatches(ops, batches[..n + 1]).Merging?
    ensures MergeRows(ops, MergeBatches(ops, batches[..n]).merged, batches[n]) == Some(MergeBatches(ops, batches[..n + 1]).merged)
  {
    hide MergeBatches, MergeRows, BatchError;
    MergeBatchesStep(ops, batches);
    if n < |batches| - 1 {
      var shorter := batches[..|batches| - 1];
      MergedBatchesPass(ops, shorter, n);
      assert shorter[..n] == batches[..n] && shorter[..n + 1] == batches[..n + 1];
    } else {
      assert batches[..n + 1] == batches && batches[..n] == batches[..|batches| - 1];
    }
  }

  lemma {:induction false} LaterBatchesKeep(ops: TextOps, batches: seq<seq<Item>>, n: nat, k: string)
    requires IsTextOps(ops) && MergeBatches(ops, batches).Merging? && n <= |batches| && MergeBatches(ops, batches[..n]).Merging?
    requires forall later :: n <= later < |batches| ==> !HasSku(ops, batches[later], k)
    ensures var r, before := MergeBatches(ops, batches).merged.items, MergeBatches(ops, batches[..n]).merged.items;
      (k in r <==> k in before) && (k in r ==> r[k] == before[k])
  {
    if n < |batches| {
      var shorter := batches[..|batches| - 1];
      assert shorter[..n] == batches[..n];
      LaterBatchesKeep(ops, shorter, n, k);
      UnmentionedSkuStays(ops, MergeBatches(ops, shorter).merged, batches[|batches| - 1], k);
    } else {
      assert batches[..n] == batches;
    }
  }

  /** Of all the batches that mention a SKU the last one decides, by any of its rows for that SKU. */
  lemma LastBatchWins(ops: TextOps, batches: seq<seq<Item>>, n: nat, i: nat)
    requires IsTextOps(ops) && MergeBatches(ops, batches).Merging? && n < |batches| && i < |batches[n]|
    requires forall later :: n < later < |batches| ==> !HasSku(ops, batches[later], ops.trim(batches[n][i].sku))
    ensures var r, k := MergeBatches(ops, batches).merged.items, ops.trim(batches[n][i].sku);
      k in r && Parse(ops, batches[n][i]) == Some(r[k])
  {
    var k := ops.trim(batches[n][i].sku);
    MergedBatchesPass(ops, batches, n);
    BatchPassesIff(ops, batches[n]);
    AnyRowDecides(ops, MergeBatches(ops, batches[..n]).merged, batches[n], i);
    LaterBatchesKeep(ops, batches, n + 1, k);
  }

  /** And nothing is merged that no batch mentions. */
  lemma NothingFromNowhere(ops: TextOps, batches: seq<seq<Item>>, k: string)
    requires IsTextOps(ops) && MergeBatches(ops, batches).Merging?
    requires forall n :: 0 <= n < |batches| ==> !HasSku(ops, batches[n], k)
    ensures k !in MergeBatches(ops, batches).merged.items
  {
    assert batches[..0] == [];
    LaterBatchesKeep(ops, batches, 0, k);
  }

  /** The merge goes through if and only if every batch passes the check and every row parses. */
  lemma {:induction false} MergesIff(ops: TextOps, batches: seq<seq<Item>>)
    ensures MergeBatches(ops, batches).Merging?
      <==> forall n :: 0 <= n < |batches| ==> NoConflict(ops, batches[n]) && forall row :: row in batches[n] ==> Parse(ops, row).Some?
  {
    hide Parse, NoConflict, BatchError, MergeRows;
    if batches != [] {
      var shorter, last := batches[..|batches| - 1], batches[|batches| - 1];
      MergesIff(ops, shorter);
      BatchPassesIff(ops, last);
      if MergeBatches(ops, shorter).Merging? {
        MergesIffAllParse(ops, MergeBatches(ops, shorter).merged, last);
      }
    }
  }

  /** The first batch that is not in order decides how the import is refused: a conflict within it comes before a row
      that does not parse. */
  lemma {:induction false} FirstFailureDecides(ops: TextOps, batches: seq<seq<Item>>) returns (n: nat)
    requires MergeBatches(ops, batches).Failed?
    ensures n < |batches| && MergeBatches(ops, batches[..n]).Merging?
    ensures MergeBatches(ops, batches).error == if BatchError(ops, batches[n]).Some? then BatchError(ops, batches[n]).value else RowInvalid
    ensures BatchError(ops, batches[n]).Some? || HasBadRow(ops, batches[n])
  {
    hide *;
    NothingMerges(ops, batches);
    MergeBatchesStep(ops, batches);
    var shorter, last := batches[..|batches| - 1], batches[|batches| - 1];
    if MergeBatches(ops, shorter).Failed? {
      n := FirstFailureDecides(ops, shorter);
      assert shorter[..n] == batches[..n] && shorter[n] == batches[n];
    } else {
      n := |batches| - 1;
      BadRowStopsIt(ops, MergeBatches(ops, shorter).merged, last);
    }
  }

  lemma NothingMerges(ops: TextOps, batches: seq<seq<Item>>)
    ensures batches == [] ==> MergeBatches(ops, batches).Merging?
  {
  }

  ghost predicate HasBadRow(ops: TextOps, rows: seq<Item>) {
    exists row :: row in rows && Parse(ops, row).None?
  }

  lemma BadRowStopsIt(ops: TextOps, m: Merged, rows: seq<Item>)
    ensures MergeRows(ops, m, rows).None? <==> HasBadRow(ops, rows)
  {
    hide Parse, MergeRows;
    MergesIffAllParse(ops, m, rows);
  }

  // ----- The order of the list, and what an import leaves behind -----

  /** All rows of all batches, one behind the other. */
  function AllRows(batches: seq<seq<Item>>): seq<Item> {
    if batches == [] then [] else AllRows(batches[..|batches| - 1]) + batches[|batches| - 1]
  }

  lemma KeysStep(ops: TextOps, seen: seq<Item>, rows: seq<Item>)
    requires rows != []
    ensures var before, k := KeysInOrder(SkuOf(ops), seen + rows[..|rows| - 1]), ops.trim(rows[|rows| - 1].sku);
      KeysInOrder(SkuOf(ops), seen + rows) == if k in before then before else before + [k]
  {
    assert (seen + rows)[..|seen + rows| - 1] == seen + rows[..|rows| - 1];
  }

  lemma {:induction false} RowsKeepOrder(ops: TextOps, m: Merged, seen: seq<Item>, rows: seq<Item>)
    requires IsTextOps(ops) && IsMerged(ops, m) && m.keys == KeysInOrder(SkuOf(ops), seen) && MergeRows(ops, m, rows).Some?
    ensures MergeRows(ops, m, rows).value.keys == KeysInOrder(SkuOf(ops), seen + rows)
  {
    if rows == [] {
      assert seen + rows == seen;
    } else {
      hide Parse, KeysInOrder;
      var shorter := rows[..|rows| - 1];
      RowsKeepOrder(ops, m, seen, shorter);
      MergeRowsIsMerged(ops, m, shorter);
      ParsedSku(ops, rows[|rows| - 1]);
      KeysStep(ops, seen, rows);
      assert MergeRows(ops, m, rows).value
        == Put(MergeRows(ops, m, shorter).value, ops.trim(ops.trim(rows[|rows| - 1].sku)), Parse(ops, rows[|rows| - 1]).value);
    }
  }

  /** The merged list has the SKUs in the order in which the batches first mention them. */
  lemma {:induction false} MergedInOrderOfAppearance(ops: TextOps, batches: seq<seq<Item>>)
    requires IsTextOps(ops) && MergeBatches(ops, batches).Merging?
    ensures MergeBatches(ops, batches).merged.keys == KeysInOrder(SkuOf(ops), AllRows(batches))
  {
    if batches != [] {
      var shorter := batches[..|batches| - 1];
      MergedInOrderOfAppearance(ops, shorter);
      BatchesAreMerged(ops, shorter);
      RowsKeepOrder(ops, MergeBatches(ops, shorter).merged, AllRows(shorter), batches[|batches| - 1]);
    }
  }

  /** A complete import, from row to record: for every SKU that the batches mention, any row for it of the last batch
      that does reads back from the store as the schema accepted it; all other entries are as they were. */
  lemma ImportReadsBack(ops: TextOps, batches: seq<seq<Item>>, store: Store, client: string, n: nat, i: nat)
    requires IsTextOps(ops) && MergeBatches(ops, batches).Merging? && n < |batches| && i < |batches[n]|
    requires forall later :: n < later < |batches| ==> !HasSku(ops, batches[later], ops.trim(batches[n][i].sku))
    ensures var after, key := UpsertAll(store, client, ListOf(MergeBatches(ops, batches))), Key(client, ops.trim(batches[n][i].sku));
      && key in after && Parse(ops, batches[n][i]).Some? && ReadsBack(Get(store, key), Parse(ops, batches[n][i]).value, after[key])
    ensures var after := UpsertAll(store, client, ListOf(MergeBatches(ops, batches)));
      forall key: Key :: key.client != client || (forall b :: 0 <= b < |batches| ==> !HasSku(ops, batches[b], key.sku)) ==>
        Get(after, key) == Get(store, key)
  {
    hide Parse, MergeBatches, HasSku, ReadsBack;
    var list, k := ListOf(MergeBatches(ops, batches)), ops.trim(batches[n][i].sku);
    MergedSkusAreDistinct(ops, batches);
    LastBatchWins(ops, batches, n, i);
    UpsertsReadBack(store, client, list);
    var place := PlaceInList(ops, MergeBatches(ops, batches).merged, k);
    forall key: Key | key.client != client || (forall b :: 0 <= b < |batches| ==> !HasSku(ops, batches[b], key.sku))
      ensures key.client != client || forall x :: 0 <= x < |list| ==> list[x].sku != key.sku
    {
      if key.client == client {
        NothingFromNowhere(ops, batches, key.sku);
        ListedIsMerged(ops, MergeBatches(ops, batches).merged, key.sku);
      }
    }
  }

  lemma PlaceInList(ops: TextOps, m: Merged, k: string) returns (place: nat)
    requires IsMerged(ops, m) && k in m.items
    ensures place < |Values(m)| && Values(m)[place] == m.items[k] && m.items[k].sku == k
  {
    place :| 0 <= place < |m.keys| && m.keys[place] == k;
  }

  lemma ListedIsMerged(ops: TextOps, m: Merged, k: string)
    requires IsMerged(ops, m) && k !in m.items
    ensures forall x :: 0 <= x < |Values(m)| ==> Values(m)[x].sku != k
  {
    assert forall x :: 0 <= x < |m.keys| ==> m.keys[x] in m.keys;
  }

  // ----- The service -----

  datatype ImportResult = Upserted(count: nat) | Refused(error: ImportError) | ChunkFailed(committedChunks: nat)

  class ClientCatalogItemsService {
    const repository: ClientCatalogItemRepository

    constructor (repository: ClientCatalogItemRepository)
      ensures this.repository == repository
    {
      this.repository := repository;
    }

    /** `batches` are the rows returned for the work units, one batch for each. */
    method Merge(ops: TextOps, batches: seq<seq<Item>>) returns (outcome: Outcome)
      ensures outcome == MergeBatches(ops, batches)
    {
      var merged := NOTHING;
      for u := 0 to |batches|
        invariant MergeBatches(ops, batches[..u]) == Merging(merged)
      {
        assert batches[..u + 1][..u] == batches[..u];
        var error := AssertNoConflictingDuplicatesInBatch(ops, batches[u]);
        if error.Some? {
          FailureStays(ops, batches, u + 1);
          return Failed(error.value);
        }
        ghost var before := merged;
        for i := 0 to |batches[u]|
          invariant MergeRows(ops, before, batches[u][..i]) == Some(merged)
        {
          assert batches[u][..i + 1][..i] == batches[u][..i];
          var parsed := Parse(ops, batches[u][i]);
          if parsed.None? {
            UnparsedRow(ops, before, batches[u], i);
            FailureStays(ops, batches, u + 1);
            return Failed(RowInvalid);
          }
          merged := Put(merged, ops.trim(parsed.value.sku), parsed.value);
        }
        assert batches[u][..|batches[u]|] == batches[u];
      }
      assert batches[..|batches|] == batches;
      outcome := Merging(merged);
    }

    method ImportFromUpload(ops: TextOps, client: string, batches: seq<seq<Item>>, order: seq<Item> -> seq<Item>, broken: Option<nat>)
      returns (result: ImportResult)
      requires IsTextOps(ops) && Reorders(order)
      modifies repository
      ensures result == ResultOf(MergeBatches(ops, batches), broken)
      ensures repository.store == match result
        case Refused(_) => old(repository.store)
        case ChunkFailed(n) => UpsertAll(old(repository.store), client, ListOf(MergeBatches(ops, batches))[..Committed(ListOf(MergeBatches(ops, batches)), n)])
        case Upserted(_) => UpsertAll(old(repository.store), client, ListOf(MergeBatches(ops, batches)))
    {
      var outcome := Merge(ops, batches);
      if outcome.Failed? {
        return Refused(outcome.error);
      }
      if outcome.merged.keys == [] {
        return Refused(Empty);
      }
      MergedSkusAreDistinct(ops, batches);
      var list := Values(outcome.merged);
      ghost var was := repository.store;
      var written := repository.BulkUpsertChunked(client, list, order, broken);
      CommittedChunksAreAPrefix(was, client, list, order, if written.BulkChunkError? then written.committedChunks else ChunkCount(list));
      match written
      case BulkChunkError(n) => result := ChunkFailed(n);
      case AllCommitted =>
        assert list[..|list|] == list;
        result := Upserted(|list|);
    }
  }

  function ListOf(outcome: Outcome): seq<Item> {
    if outcome.Merging? then Values(outcome.merged) else []
  }

  function ResultOf(outcome: Outcome, broken: Option<nat>): ImportResult {
    var list := ListOf(outcome);
    if outcome.Failed? then Refused(outcome.error)
    else if list == [] then Refused(Empty)
    else if broken.Some? && broken.value < ChunkCount(list) then ChunkFailed(broken.value)
    else Upserted(|list|)
  }

  /** What the caller is told: the reason of a refusal, that there was nothing to import, how many chunks of 500 items
      were written before one broke, or how many SKUs the batches had. */
  lemma ResultMeans(ops: TextOps, batches: seq<seq<Item>>, broken: Option<nat>)
    requires IsTextOps(ops)
    ensures var outcome, result, list := MergeBatches(ops, batches), ResultOf(MergeBatches(ops, batches), broken), ListOf(MergeBatches(ops, batches));
      && (outcome.Failed? ==> result == Refused(outcome.error) && list == [])
      && (outcome.Merging? && result.Refused? ==> result.error == Empty)
      && (outcome.Merging? ==> (result == Refused(Empty) <==> outcome.merged.items == map[]) && |list| == |outcome.merged.keys|)
      && (result.ChunkFailed? ==> broken == Some(result.committedChunks))
      && (result.ChunkFailed? ==> Committed(list, result.committedChunks) == 500 * result.committedChunks < |list|)
      && (result.Upserted? ==> list != [] && result.count == |list| && (broken.Some? ==> 500 * broken.value >= |list|))
  {
    hide Parse, MergeBatches;
    var outcome := MergeBatches(ops, batches);
    if outcome.Merging? {
      MergedSkusAreDistinct(ops, batches);
      NothingMerged(ops, outcome.merged);
      ChunksBefore(ListOf(outcome), if broken.Some? then broken.value else 0);
    }
  }

  lemma NothingMerged(ops: TextOps, m: Merged)
    requires IsMerged(ops, m)
    ensures Values(m) == [] <==> m.items == map[]
  {
    assert m.keys != [] ==> m.keys[0] in m.items;
  }

  lemma ChunksBefore(list: seq<Item>, n: nat)
    ensures n < ChunkCount(list) <==> 500 * n < |list|
  {
  }

  lemma {:induction false} FailureStays(ops: TextOps, batches: seq<seq<Item>>, n: nat)
    requires n <= |batches| && MergeBatches(ops, batches[..n]).Failed?
    ensures MergeBatches(ops, batches) == MergeBatches(ops, batches[..n])
  {
    if n < |batches| {
      assert batches[..|batches| - 1][..n] == batches[..n];
      FailureStays(ops, batches[..|batches| - 1], n);
    } else {
      assert batches[..n] == batches;
    }
  }

  lemma UnparsedRow(ops: TextOps, m: Merged, rows: seq<Item>, i: nat)
    requires i < |rows| && Parse(ops, rows[i]).None?
    ensures MergeRows(ops, m, rows).None?
  {
    MergesIffAllParse(ops, m, rows);
    assert rows[i] in rows;
  }
}
