/**
 * The write-back cache over a spreadsheet in apps/self-interview/sheetlog-kv.ts: one preload,
 * reads from memory, and debounced flushes that write and delete in two network calls.
 */
module SheetlogKv {
  import opened Outcomes

  /** JSON text of a value, and the value a cell's text is read as. */
  datatype Codec<!V> = Codec(stringify: V -> string, parse: string -> V)

  datatype Row = Row(id: nat, content: string)

  /** The remote sheet, by key; row ids are positive and never shared. */
  type Sheet = map<string, Row>

  /** Where a flush stands: it has sent its upserts, or its deletions. */
  datatype Flush =
    | Idle
    | Upserting(batch: map<string, string>, doomed: set<string>)
    | Deleting(doomed: set<string>, ids: set<nat>)

  datatype State<+V> = State(
    cache: map<string, V>,
    rowIds: map<string, nat>,
    loaded: bool,
    dirty: set<string>,
    deleted: set<string>,
    flush: Flush)

  /** The adapter's memory and the sheet it talks to. */
  datatype World<+V> = World(kv: State<V>, sheet: Sheet)

  datatype Event<+V> =
    | Listed                                   // the preload's response arrives
    | Set(key: string, value: V)
    | Delete(key: string)
    | FlushDue                                 // the debounce timer fires
    | Upserted(newIds: map<string, nat>)       // the sheet has taken the batch, numbering new rows
    | Deleted                                  // the sheet has dropped the rows

  function Fresh<V>(): State<V> {
    State(map[], map[], false, {}, {}, Idle)
  }

  // ---- what each stretch of code does ----

  function Loaded<V>(c: Codec<V>, kv: State<V>, sheet: Sheet): State<V> {
    kv.(cache := kv.cache + (map k | k in sheet :: c.parse(sheet[k].content)),
        rowIds := kv.rowIds + (map k | k in sheet && sheet[k].id != 0 :: sheet[k].id),
        loaded := true)
  }

  function AfterSet<V>(kv: State<V>, key: string, v: V): State<V> {
    kv.(cache := kv.cache[key := v], dirty := kv.dirty + {key}, deleted := kv.deleted - {key})
  }

  function AfterDelete<V>(kv: State<V>, key: string): State<V> {
    kv.(cache := kv.cache - {key}, dirty := kv.dirty - {key}, deleted := kv.deleted + {key})
  }

  function Batch<V>(c: Codec<V>, kv: State<V>): map<string, string> {
    map k | k in kv.dirty - kv.deleted && k in kv.cache :: c.stringify(kv.cache[k])
  }

  /** The second half of a flush: delete by the row ids that are known, if any. */
  function BeginDeleting<V>(kv: State<V>, doomed: set<string>): State<V> {
    var ids := set k | k in doomed && k in kv.rowIds && kv.rowIds[k] != 0 :: kv.rowIds[k];
    kv.(flush := if ids == {} then Idle else Deleting(doomed, ids))
  }

  function BeginFlush<V>(c: Codec<V>, kv: State<V>): State<V> {
    var batch, doomed := Batch(c, kv), kv.deleted;
    var kv' := kv.(dirty := {}, deleted := {});
    if batch != map[] then kv'.(flush := Upserting(batch, doomed)) else BeginDeleting(kv', doomed)
  }

  function EndDeleting<V>(kv: State<V>, doomed: set<string>): State<V> {
    kv.(rowIds := kv.rowIds - doomed, flush := Idle)
  }

  function UpsertRows(sheet: Sheet, batch: map<string, string>, newIds: map<string, nat>): Sheet {
    sheet + map k | k in batch ::
      Row(if k in sheet then sheet[k].id else if k in newIds then newIds[k] else 0, batch[k])
  }

  function WithoutRows(sheet: Sheet, ids: set<nat>): Sheet {
    map k | k in sheet && sheet[k].id !in ids :: sheet[k]
  }

  /** Operations wait for the preload; a flush starts only when none is in flight. */
  predicate Enabled<V>(w: World<V>, ev: Event<V>) {
    match ev
    case Listed => !w.kv.loaded
    case Set(_, _) => w.kv.loaded
    case Delete(_) => w.kv.loaded
    case FlushDue => w.kv.loaded && w.kv.flush.Idle?
    case Upserted(newIds) => w.kv.flush.Upserting? && NewIdsFit(w.sheet, w.kv.flush.batch, newIds)
    case Deleted => w.kv.flush.Deleting?
  }

  /** The sheet gives each new row a positive id of its own. */
  predicate NewIdsFit(sheet: Sheet, batch: map<string, string>, newIds: map<string, nat>) {
    && (forall k :: k in batch && k !in sheet ==> k in newIds)
    && (forall k :: k in newIds ==> newIds[k] != 0 && forall q :: q in sheet ==> sheet[q].id != newIds[k])
    && (forall k, q :: k in newIds && q in newIds && k != q ==> newIds[k] != newIds[q])
  }

  function Next<V>(c: Codec<V>, w: World<V>, ev: Event<V>): World<V> {
    if !Enabled(w, ev) then w
    else
      match ev
      case Listed => w.(kv := Loaded(c, w.kv, w.sheet))
      case Set(k, v) => w.(kv := AfterSet(w.kv, k, v))
      case Delete(k) => w.(kv := AfterDelete(w.kv, k))
      case FlushDue => w.(kv := BeginFlush(c, w.kv))
      case Upserted(newIds) =>
        World(BeginDeleting(w.kv, w.kv.flush.doomed), UpsertRows(w.sheet, w.kv.flush.batch, newIds))
      case Deleted => World(EndDeleting(w.kv, w.kv.flush.doomed), WithoutRows(w.sheet, w.kv.flush.ids))
  }

  function Play<V>(c: Codec<V>, w: World<V>, events: seq<Event<V>>): World<V> {
    if events == [] then w else Next(c, Play(c, w, events[..|events| - 1]), events[|events| - 1])
  }

  // ---- the same stretches on the mutable adapter ----

  datatype ListedRow = ListedRow(key: string, id: nat, content: string)

  function CacheFrom<V>(c: Codec<V>, cache: map<string, V>, rows: seq<ListedRow>): map<string, V> {
    if rows == [] then cache
    else
      var before, row := CacheFrom(c, cache, rows[..|rows| - 1]), rows[|rows| - 1];
      if row.key != "" then before[row.key := c.parse(row.content)] else before
  }

  function IdsFrom(ids: map<string, nat>, rows: seq<ListedRow>): map<string, nat> {
    if rows == [] then ids
    else
      var before, row := IdsFrom(ids, rows[..|rows| - 1]), rows[|rows| - 1];
      if row.key != "" && row.id != 0 then before[row.key := row.id] else before
  }

  predicate HasRow(rows: seq<ListedRow>, k: string) {
    exists i :: 0 <= i < |rows| && rows[i].key == k
  }

  ghost predicate Consistent(rows: seq<ListedRow>, sheet: Sheet) {
    forall i :: 0 <= i < |rows| ==>
      rows[i].key != "" && rows[i].key in sheet && sheet[rows[i].key] == Row(rows[i].id, rows[i].content)
  }

  /** The response lists exactly the rows of the sheet, in any order. */
  ghost predicate Lists(rows: seq<ListedRow>, sheet: Sheet) {
    Consistent(rows, sheet) && forall k :: k in sheet <==> HasRow(rows, k)
  }

  lemma HasRowSnoc(rows: seq<ListedRow>, k: string)
    requires rows != []
    ensures HasRow(rows, k) <==> HasRow(rows[..|rows| - 1], k) || rows[|rows| - 1].key == k
  {
    var front := rows[..|rows| - 1];
    if i :| 0 <= i < |rows| && rows[i].key == k {
      assert i < |front| ==> front[i].key == k;
    }
    if i :| 0 <= i < |front| && front[i].key == k {
      assert rows[i].key == k;
    }
  }

  lemma {:induction false} CacheFromAt<V>(c: Codec<V>, cache: map<string, V>, rows: seq<ListedRow>, sheet: Sheet,
                                          k: string)
    requires Consistent(rows, sheet)
    ensures var r := CacheFrom(c, cache, rows);
            && (k in r <==> k in cache || HasRow(rows, k))
            && (k in r && HasRow(rows, k) ==> k in sheet && r[k] == c.parse(sheet[k].content))
            && (k in r && !HasRow(rows, k) ==> r[k] == cache[k])
  {
    if rows != [] {
      CacheFromAt(c, cache, rows[..|rows| - 1], sheet, k);
      HasRowSnoc(rows, k);
    }
  }

  lemma {:induction false} IdsFromAt(ids: map<string, nat>, rows: seq<ListedRow>, sheet: Sheet, k: string)
    requires Consistent(rows, sheet)
    ensures var r := IdsFrom(ids, rows);
            && (k in r <==> k in ids || (HasRow(rows, k) && k in sheet && sheet[k].id != 0))
            && (k in r ==>
                  r[k] == if HasRow(rows, k) && k in sheet && sheet[k].id != 0 then sheet[k].id else ids[k])
  {
    if rows != [] {
      IdsFromAt(ids, rows[..|rows| - 1], sheet, k);
      HasRowSnoc(rows, k);
    }
  }

  lemma ListedRowsFillCache<V>(c: Codec<V>, cache: map<string, V>, rows: seq<ListedRow>, sheet: Sheet)
    requires Lists(rows, sheet)
    ensures CacheFrom(c, cache, rows) == cache + map k | k in sheet :: c.parse(sheet[k].content)
  {
    var got, want := CacheFrom(c, cache, rows), cache + map k | k in sheet :: c.parse(sheet[k].content);
    forall k
      ensures k in got <==> k in want
      ensures k in got && k in want ==> got[k] == want[k]
    {
      CacheFromAt(c, cache, rows, sheet, k);
    }
  }

  lemma ListedRowsFillIds(ids: map<string, nat>, rows: seq<ListedRow>, sheet: Sheet)
    requires Lists(rows, sheet)
    ensures IdsFrom(ids, rows) == ids + map k | k in sheet && sheet[k].id != 0 :: sheet[k].id
  {
    var got, want := IdsFrom(ids, rows), ids + map k | k in sheet && sheet[k].id != 0 :: sheet[k].id;
    forall k
      ensures k in got <==> k in want
      ensures k in got && k in want ==> got[k] == want[k]
    {
      IdsFromAt(ids, rows, sheet, k);
    }
  }

  lemma ListedRowsLoad<V>(c: Codec<V>, kv: State<V>, rows: seq<ListedRow>, sheet: Sheet)
    requires Lists(rows, sheet)
    ensures Loaded(c, kv, sheet)
         == kv.(cache := CacheFrom(c, kv.cache, rows), rowIds := IdsFrom(kv.rowIds, rows), loaded := true)
  {
    ListedRowsFillCache(c, kv.cache, rows, sheet);
    ListedRowsFillIds(kv.rowIds, rows, sheet);
  }

  class SheetlogKV<V> {
    const codec: Codec<V>
    var cache: map<string, V>
    var rowIds: map<string, nat>
    var loaded: bool
    var dirtyKeys: set<string>
    var deletedKeys: set<string>
    var flush: Flush

    function Memory(): State<V>
      reads this
    {
      State(cache, rowIds, loaded, dirtyKeys, deletedKeys, flush)
    }

    constructor (codec: Codec<V>)
      ensures this.codec == codec && Memory() == Fresh()
    {
      this.codec := codec;
      cache, rowIds, loaded := map[], map[], false;
      dirtyKeys, deletedKeys, flush := {}, {}, Idle;
    }

    /** Fills the memory row by row; rows without a key are skipped, and ids of 0 are not kept. */
    method Preload(rows: seq<ListedRow>, ghost sheet: Sheet)
      requires !loaded && Lists(rows, sheet)
      modifies this
      ensures Memory() == Loaded(codec, old(Memory()), sheet)
    {
      for i := 0 to |rows|
        invariant !loaded && dirtyKeys == old(dirtyKeys) && deletedKeys == old(deletedKeys) && flush == old(flush)
        invariant cache == CacheFrom(codec, old(cache), rows[..i])
        invariant rowIds == IdsFrom(old(rowIds), rows[..i])
      {
        var row := rows[i];
        assert rows[..i + 1][..i] == rows[..i];
        if row.key != "" {
          if row.id != 0 {
            rowIds := rowIds[row.key := row.id];
          }
          cache := cache[row.key := codec.parse(row.content)];
        }
      }
      assert rows[..|rows|] == rows;
      ListedRowsLoad(codec, old(Memory()), rows, sheet);
      loaded := true;
    }

    method Get(key: string) returns (v: Option<V>)
      ensures v == if key in cache then Some(cache[key]) else None
    {
      v := if key in cache then Some(cache[key]) else None;
    }

    method Put(key: string, value: V)
      modifies this
      ensures Memory() == AfterSet(old(Memory()), key, value)
    {
      cache := cache[key := value];
      dirtyKeys := dirtyKeys + {key};
      deletedKeys := deletedKeys - {key};
    }

    method Remove(key: string)
      modifies this
      ensures Memory() == AfterDelete(old(Memory()), key)
    {
      cache := cache - {key};
      dirtyKeys := dirtyKeys - {key};
      deletedKeys := deletedKeys + {key};
    }

    /** Collects and clears the pending keys, then sends the upserts or goes straight to the deletions. */
    method StartFlush()
      requires flush.Idle?
      modifies this
      ensures Memory() == BeginFlush(codec, old(Memory()))
    {
      var batch := map k | k in dirtyKeys - deletedKeys && k in cache :: codec.stringify(cache[k]);
      var doomed := deletedKeys;
      dirtyKeys, deletedKeys := {}, {};
      if batch != map[] {
        flush := Upserting(batch, doomed);
      } else {
        SendDeletions(doomed);
      }
    }

    method SendDeletions(doomed: set<string>)
      modifies this
      ensures Memory() == BeginDeleting(old(Memory()), doomed)
    {
      var ids := set k | k in doomed && k in rowIds && rowIds[k] != 0 :: rowIds[k];
      flush := if ids == {} then Idle else Deleting(doomed, ids);
    }

    /** Goes on with the deletions once the sheet has taken the batch. */
    method FinishUpserts()
      requires flush.Upserting?
      modifies this
      ensures Memory() == BeginDeleting(old(Memory()), old(flush).doomed)
    {
      SendDeletions(flush.doomed);
    }

    /** Forgets the row ids once the sheet has dropped the rows. */
    method FinishDeletions()
      requires flush.Deleting?
      modifies this
      ensures Memory() == EndDeleting(old(Memory()), old(flush).doomed)
    {
      rowIds := rowIds - flush.doomed;
      flush := Idle;
    }
  }

  // ---- coherence ----

  ghost predicate FaithfulCodec<V(!new)>(c: Codec<V>) {
    forall v :: c.parse(c.stringify(v)) == v
  }

  ghost predicate ProperSheet(sheet: Sheet) {
    && (forall k :: k in sheet ==> sheet[k].id != 0)
    && (forall k, q :: k in sheet && q in sheet && k != q ==> sheet[k].id != sheet[q].id)
  }

  /** The sheet holds for key what the cache holds. */
  ghost predicate Agrees<V>(c: Codec<V>, w: World<V>, key: string) {
    (key in w.kv.cache <==> key in w.sheet)
    && (key in w.kv.cache && key in w.sheet ==> c.parse(w.sheet[key].content) == w.kv.cache[key])
  }

  predicate Batched(f: Flush, key: string) {
    f.Upserting? && key in f.batch
  }

  predicate Doomed(f: Flush, key: string) {
    !f.Idle? && key in f.doomed
  }

  predicate Pending<V>(kv: State<V>, key: string) {
    key in kv.dirty || key in kv.deleted || Batched(kv.flush, key) || Doomed(kv.flush, key)
  }

  /** Per key: what is in flight, or not pending at all, reflects the cache. */
  ghost predicate KeyCoherent<V>(c: Codec<V>, w: World<V>, key: string) {
    var kv := w.kv;
    && (key in kv.dirty ==> key in kv.cache && key !in kv.deleted)
    && (key in kv.deleted ==> key !in kv.cache)
    && (Batched(kv.flush, key) ==> !Doomed(kv.flush, key))
    && (Batched(kv.flush, key) && key !in kv.dirty && key !in kv.deleted ==>
          key in kv.cache && c.parse(kv.flush.batch[key]) == kv.cache[key])
    && (Doomed(kv.flush, key) && key !in kv.dirty && key !in kv.deleted ==> key !in kv.cache)
    && (key in kv.rowIds ==> key in w.sheet && w.sheet[key].id == kv.rowIds[key])
    && (!Pending(kv, key) ==> Agrees(c, w, key))
    && (kv.flush.Deleting? && key in w.sheet ==> (w.sheet[key].id in kv.flush.ids <==> key in kv.flush.doomed))
  }

  ghost predicate Coherent<V>(c: Codec<V>, w: World<V>) {
    ProperSheet(w.sheet)
    && (if w.kv.loaded then forall key :: KeyCoherent(c, w, key) else w.kv == Fresh())
  }

  /** Every doomed key that is on the sheet has a known row id. */
  ghost predicate IdsKnown<V>(kv: State<V>, sheet: Sheet, doomed: set<string>) {
    forall key :: key in doomed && key in sheet ==> key in kv.rowIds
  }

  /** The condition under which a deletion reaches the sheet, at the moment a flush collects it. */
  ghost predicate DeletionsKnown<V>(w: World<V>, ev: Event<V>) {
    ev.FlushDue? ==> IdsKnown(w.kv, w.sheet, w.kv.deleted)
  }

  /** While the upserts are in flight, the ids of the rows to delete stay known. */
  ghost predicate DoomedKnown<V>(w: World<V>) {
    w.kv.flush.Upserting? ==> IdsKnown(w.kv, w.sheet, w.kv.flush.doomed)
  }

  lemma DeletingCoherent<V(!new)>(c: Codec<V>, kv: State<V>, sheet: Sheet, doomed: set<string>, key: string)
    requires ProperSheet(sheet) && IdsKnown(kv, sheet, doomed)
    requires forall k :: k in kv.rowIds ==> k in sheet && sheet[k].id == kv.rowIds[k]
    requires key in kv.dirty ==> key in kv.cache && key !in kv.deleted
    requires key in kv.deleted ==> key !in kv.cache
    requires key in doomed && key !in kv.dirty && key !in kv.deleted ==> key !in kv.cache
    requires key !in kv.dirty && key !in kv.deleted && key !in doomed ==> Agrees(c, World(kv, sheet), key)
    ensures KeyCoherent(c, World(BeginDeleting(kv, doomed), sheet), key)
  {
    var ids := set k | k in doomed && k in kv.rowIds && kv.rowIds[k] != 0 :: kv.rowIds[k];
    if key in sheet && key in doomed {
      assert kv.rowIds[key] in ids;
    }
    if key in sheet && sheet[key].id in ids {
      var k :| k in doomed && k in kv.rowIds && kv.rowIds[k] != 0 && kv.rowIds[k] == sheet[key].id;
      assert k == key;
    }
  }

  lemma NextCoherent<V(!new)>(c: Codec<V>, w: World<V>, ev: Event<V>)
    requires FaithfulCodec(c) && Coherent(c, w) && DoomedKnown(w) && DeletionsKnown(w, ev)
    ensures Coherent(c, Next(c, w, ev)) && DoomedKnown(Next(c, w, ev))
  {
    if Enabled(w, ev) {
      match ev
      case Listed => ListedCoherent(c, w);
      case Set(k, v) => SetCoherent(c, w, k, v);
      case Delete(k) => DeleteCoherent(c, w, k);
      case FlushDue => FlushCoherent(c, w);
      case Upserted(newIds) => UpsertCoherent(c, w, newIds);
      case Deleted => DeletedCoherent(c, w);
    }
  }

  lemma ListedCoherent<V(!new)>(c: Codec<V>, w: World<V>)
    requires Coherent(c, w) && !w.kv.loaded
    ensures Coherent(c, Next(c, w, Listed)) && DoomedKnown(Next(c, w, Listed))
  {
  }

  lemma SetCoherent<V(!new)>(c: Codec<V>, w: World<V>, k: string, v: V)
    requires Coherent(c, w) && w.kv.loaded && DoomedKnown(w)
    ensures Coherent(c, Next(c, w, Set(k, v))) && DoomedKnown(Next(c, w, Set(k, v)))
  {
    forall key
      ensures KeyCoherent(c, Next(c, w, Set(k, v)), key)
    {
      assert KeyCoherent(c, w, key);
    }
  }

  lemma DeleteCoherent<V(!new)>(c: Codec<V>, w: World<V>, k: string)
    requires Coherent(c, w) && w.kv.loaded && DoomedKnown(w)
    ensures Coherent(c, Next(c, w, Delete(k))) && DoomedKnown(Next(c, w, Delete(k)))
  {
    forall key
      ensures KeyCoherent(c, Next(c, w, Delete(k)), key)
    {
      assert KeyCoherent(c, w, key);
    }
  }

  lemma FlushCoherent<V(!new)>(c: Codec<V>, w: World<V>)
    requires FaithfulCodec(c) && Coherent(c, w) && Enabled(w, FlushDue) && IdsKnown(w.kv, w.sheet, w.kv.deleted)
    ensures Coherent(c, Next(c, w, FlushDue)) && DoomedKnown(Next(c, w, FlushDue))
  {
    var batch, kv' := Batch(c, w.kv), w.kv.(dirty := {}, deleted := {});
    forall key
      ensures KeyCoherent(c, Next(c, w, FlushDue), key)
    {
      assert KeyCoherent(c, w, key);
      if batch == map[] {
        assert key in w.kv.dirty ==> key in batch;
        assert forall k :: k in w.kv.rowIds ==> KeyCoherent(c, w, k);
        DeletingCoherent(c, kv', w.sheet, w.kv.deleted, key);
      }
    }
  }

  lemma UpsertedRow(sheet: Sheet, batch: map<string, string>, newIds: map<string, nat>, k: string)
    requires NewIdsFit(sheet, batch, newIds)
    ensures var sheet' := UpsertRows(sheet, batch, newIds);
            && (k in sheet' <==> k in sheet || k in batch)
            && (k in sheet ==> sheet'[k].id == sheet[k].id)
            && (k in sheet' && k !in sheet ==> k in newIds && sheet'[k].id == newIds[k])
  {
  }

  lemma UpsertKeepsSheetProper(sheet: Sheet, batch: map<string, string>, newIds: map<string, nat>)
    requires ProperSheet(sheet) && NewIdsFit(sheet, batch, newIds)
    ensures var sheet' := UpsertRows(sheet, batch, newIds);
            ProperSheet(sheet') && forall k :: k in sheet ==> k in sheet' && sheet'[k].id == sheet[k].id
  {
    var sheet' := UpsertRows(sheet, batch, newIds);
    forall k
      ensures k in sheet' ==> sheet'[k].id != 0
      ensures k in sheet ==> k in sheet' && sheet'[k].id == sheet[k].id
    {
      UpsertedRow(sheet, batch, newIds, k);
    }
    forall k, q | k in sheet' && q in sheet' && k != q
      ensures sheet'[k].id != sheet'[q].id
    {
      UpsertedRow(sheet, batch, newIds, k);
      UpsertedRow(sheet, batch, newIds, q);
    }
  }

  lemma RowIdsTrue<V(!new)>(c: Codec<V>, w: World<V>)
    requires w.kv.loaded && Coherent(c, w)
    ensures forall k :: k in w.kv.rowIds ==> k in w.sheet && w.sheet[k].id == w.kv.rowIds[k]
    ensures forall k :: Batched(w.kv.flush, k) ==> !Doomed(w.kv.flush, k)
  {
    forall k
      ensures k in w.kv.rowIds ==> k in w.sheet && w.sheet[k].id == w.kv.rowIds[k]
      ensures Batched(w.kv.flush, k) ==> !Doomed(w.kv.flush, k)
    {
      assert KeyCoherent(c, w, k);
    }
  }

  lemma UpsertCoherent<V(!new)>(c: Codec<V>, w: World<V>, newIds: map<string, nat>)
    requires Coherent(c, w) && Enabled(w, Upserted(newIds)) && DoomedKnown(w) && w.kv.loaded
    ensures Coherent(c, Next(c, w, Upserted(newIds))) && DoomedKnown(Next(c, w, Upserted(newIds)))
  {
    var f := w.kv.flush;
    var sheet' := UpsertRows(w.sheet, f.batch, newIds);
    UpsertKeepsSheetProper(w.sheet, f.batch, newIds);
    RowIdsTrue(c, w);
    assert IdsKnown(w.kv, sheet', f.doomed) by {
      forall k | k in f.doomed && k in sheet'
        ensures k in w.kv.rowIds
      {
        assert Doomed(f, k) && !Batched(f, k);
      }
    }
    forall key
      ensures KeyCoherent(c, Next(c, w, Upserted(newIds)), key)
    {
      UpsertedKey(c, w, newIds, key);
      DeletingCoherent(c, w.kv, sheet', f.doomed, key);
    }
  }

  lemma UpsertedKey<V(!new)>(c: Codec<V>, w: World<V>, newIds: map<string, nat>, key: string)
    requires KeyCoherent(c, w, key) && Enabled(w, Upserted(newIds))
    ensures var sheet' := UpsertRows(w.sheet, w.kv.flush.batch, newIds);
            key !in w.kv.dirty && key !in w.kv.deleted && key !in w.kv.flush.doomed ==>
              Agrees(c, World(w.kv, sheet'), key)
  {
  }

  lemma DeletedCoherent<V(!new)>(c: Codec<V>, w: World<V>)
    requires Coherent(c, w) && w.kv.flush.Deleting? && w.kv.loaded
    ensures Coherent(c, Next(c, w, Deleted)) && DoomedKnown(Next(c, w, Deleted))
  {
    forall key
      ensures KeyCoherent(c, Next(c, w, Deleted), key)
    {
      assert KeyCoherent(c, w, key);
    }
  }

  // ---- what it means ----

  /** Every deletion a history's flushes collect is of a key whose row id is known, or not on the sheet. */
  ghost predicate AllDeletionsKnown<V(!new)>(c: Codec<V>, w: World<V>, events: seq<Event<V>>) {
    events != [] ==>
      && AllDeletionsKnown(c, w, events[..|events| - 1])
      && DeletionsKnown(Play(c, w, events[..|events| - 1]), events[|events| - 1])
  }

  lemma {:induction false} PlayCoherent<V(!new)>(c: Codec<V>, sheet: Sheet, events: seq<Event<V>>)
    requires FaithfulCodec(c) && ProperSheet(sheet) && AllDeletionsKnown(c, World(Fresh(), sheet), events)
    ensures var w := Play(c, World(Fresh(), sheet), events); Coherent(c, w) && DoomedKnown(w)
  {
    if events != [] {
      PlayCoherent(c, sheet, events[..|events| - 1]);
      NextCoherent(c, Play(c, World(Fresh(), sheet), events[..|events| - 1]), events[|events| - 1]);
    }
  }

  /** What the sheet says, as values. */
  function Readable<V>(c: Codec<V>, sheet: Sheet): map<string, V> {
    map k | k in sheet :: c.parse(sheet[k].content)
  }

  /**
   * Write-back coherence: for every history of operations and flushes, with operations free to
   * run between a flush's network calls, once nothing is pending the sheet reads as the cache.
   */
  lemma QuietSheetEqualsCache<V(!new)>(c: Codec<V>, sheet: Sheet, events: seq<Event<V>>)
    requires FaithfulCodec(c) && ProperSheet(sheet) && AllDeletionsKnown(c, World(Fresh(), sheet), events)
    ensures var w := Play(c, World(Fresh(), sheet), events);
            w.kv.loaded && w.kv.dirty == {} && w.kv.deleted == {} && w.kv.flush == Idle ==>
              Readable(c, w.sheet) == w.kv.cache
  {
    PlayCoherent(c, sheet, events);
    var w := Play(c, World(Fresh(), sheet), events);
    if w.kv.loaded && w.kv.dirty == {} && w.kv.deleted == {} && w.kv.flush == Idle {
      QuietAgrees(c, w);
    }
  }

  /** What an operation does to a plain map. */
  function PlainAfter<V>(plain: map<string, V>, ev: Event<V>): map<string, V> {
    match ev
    case Set(k, v) => plain[k := v]
    case Delete(k) => plain - {k}
    case _ => plain
  }

  /** A plain map driven by the same operations, started from what the sheet held. */
  function Plain<V>(c: Codec<V>, w: World<V>, events: seq<Event<V>>): map<string, V> {
    if events == [] then Readable(c, w.sheet)
    else
      var front, ev := events[..|events| - 1], events[|events| - 1];
      if Enabled(Play(c, w, front), ev) then PlainAfter(Plain(c, w, front), ev) else Plain(c, w, front)
  }

  lemma NextIsPlain<V(!new)>(c: Codec<V>, w: World<V>, ev: Event<V>)
    requires w.kv.loaded && Enabled(w, ev)
    ensures Next(c, w, ev).kv.loaded && Next(c, w, ev).kv.cache == PlainAfter(w.kv.cache, ev)
  {
  }

  lemma BeforePreload<V(!new)>(c: Codec<V>, sheet: Sheet, ev: Event<V>)
    ensures var w := World(Fresh(), sheet);
            if ev.Listed? then Next(c, w, ev).kv.loaded && Next(c, w, ev).kv.cache == Readable(c, sheet)
            else Next(c, w, ev) == w && !Enabled(w, ev)
  {
    assert map[] + Readable(c, sheet) == Readable(c, sheet);
  }

  /** Reads match that map from the moment the preload is in; no write is lost to it. */
  lemma {:induction false} ReadsMatchPlainMap<V(!new)>(c: Codec<V>, sheet: Sheet, events: seq<Event<V>>)
    ensures var w0 := World(Fresh(), sheet);
            var w := Play(c, w0, events);
            && (w.kv.loaded ==> w.kv.cache == Plain(c, w0, events))
            && (!w.kv.loaded ==> w == w0 && Plain(c, w0, events) == Readable(c, sheet))
  {
    if events != [] {
      var front, ev := events[..|events| - 1], events[|events| - 1];
      ReadsMatchPlainMap(c, sheet, front);
      var w := Play(c, World(Fresh(), sheet), front);
      if !w.kv.loaded {
        BeforePreload(c, sheet, ev);
      } else if Enabled(w, ev) {
        NextIsPlain(c, w, ev);
      }
    }
  }

  /** A flush from beginning to end with nothing in between; a call that is not made is skipped. */
  function Flushed<V>(c: Codec<V>, w: World<V>, newIds: map<string, nat>): World<V> {
    Next(c, Next(c, Next(c, w, FlushDue), Upserted(newIds)), Deleted)
  }

  ghost predicate RowIdsHold(rowIds: map<string, nat>, sheet: Sheet) {
    forall k :: k in rowIds ==> k in sheet && sheet[k].id == rowIds[k]
  }

  /** The deleting half takes a doomed key off the sheet exactly when its row id is known. */
  lemma DeletingHalfRemovesIff<V(!new)>(c: Codec<V>, kv: State<V>, sheet: Sheet, doomed: set<string>, key: string)
    requires ProperSheet(sheet) && RowIdsHold(kv.rowIds, sheet) && kv.loaded
    requires key in doomed && key in sheet
    ensures var after := Next(c, World(BeginDeleting(kv, doomed), sheet), Deleted);
            && after.kv.flush.Idle? && after.kv.dirty == kv.dirty && after.kv.deleted == kv.deleted
            && (key !in after.sheet <==> key in kv.rowIds)
  {
    var ids := set k | k in doomed && k in kv.rowIds && kv.rowIds[k] != 0 :: kv.rowIds[k];
    if key in kv.rowIds {
      assert kv.rowIds[key] in ids;
    }
  }

  /** The upserting half leaves the rows of doomed keys, and all known ids, as they are. */
  lemma UpsertingHalfSpares<V(!new)>(c: Codec<V>, w: World<V>, newIds: map<string, nat>)
    requires Coherent(c, w) && w.kv.loaded && w.kv.flush.Idle?
    requires NewIdsFit(w.sheet, Batch(c, w.kv), newIds)
    ensures var sheet' := UpsertRows(w.sheet, Batch(c, w.kv), newIds);
            && ProperSheet(sheet') && RowIdsHold(w.kv.rowIds, sheet')
            && forall k :: k in w.kv.deleted ==> (k in sheet' <==> k in w.sheet)
  {
    RowIdsTrue(c, w);
    UpsertKeepsSheetProper(w.sheet, Batch(c, w.kv), newIds);
  }

  /** What a whole flush amounts to: the upserts, if any, then the deleting half. */
  lemma FlushedIs<V(!new)>(c: Codec<V>, w: World<V>, newIds: map<string, nat>)
    requires w.kv.loaded && w.kv.flush.Idle? && NewIdsFit(w.sheet, Batch(c, w.kv), newIds)
    ensures var batch, cleared := Batch(c, w.kv), w.kv.(dirty := {}, deleted := {});
            var sent := cleared.(flush := Upserting(batch, w.kv.deleted));
            Flushed(c, w, newIds)
            == if batch != map[]
               then Next(c, World(BeginDeleting(sent, w.kv.deleted), UpsertRows(w.sheet, batch, newIds)), Deleted)
               else Next(c, World(BeginDeleting(cleared, w.kv.deleted), w.sheet), Deleted)
  {
  }

  /**
   * The condition on row ids is exact. Whatever else is pending, a flush from a coherent state
   * leaves a deleted key's row on the sheet exactly when its row id is unknown, and with the row
   * the key comes back at the next preload.
   */
  lemma DeletionReachesSheetIff<V(!new)>(c: Codec<V>, w: World<V>, newIds: map<string, nat>, key: string)
    requires Coherent(c, w) && w.kv.loaded && w.kv.flush.Idle? && NewIdsFit(w.sheet, Batch(c, w.kv), newIds)
    requires key in w.kv.deleted && key in w.sheet
    ensures var after := Flushed(c, w, newIds);
            && after.kv.flush.Idle? && after.kv.dirty == {} && after.kv.deleted == {}
            && (key !in after.sheet <==> key in w.kv.rowIds)
            && (key !in Readable(c, after.sheet) <==> key in w.kv.rowIds)
  {
    var cleared := w.kv.(dirty := {}, deleted := {});
    FlushedIs(c, w, newIds);
    RowIdsTrue(c, w);
    UpsertingHalfSpares(c, w, newIds);
    if Batch(c, w.kv) != map[] {
      DeletingHalfRemovesIff(c, cleared.(flush := Upserting(Batch(c, w.kv), w.kv.deleted)),
                             UpsertRows(w.sheet, Batch(c, w.kv), newIds), w.kv.deleted, key);
    } else {
      DeletingHalfRemovesIff(c, cleared, w.sheet, w.kv.deleted, key);
    }
  }

  lemma FlushedIsCoherent<V(!new)>(c: Codec<V>, w: World<V>, newIds: map<string, nat>)
    requires FaithfulCodec(c) && Coherent(c, w) && w.kv.flush.Idle? && IdsKnown(w.kv, w.sheet, w.kv.deleted)
    ensures Coherent(c, Flushed(c, w, newIds))
  {
    NextCoherent(c, w, FlushDue);
    NextCoherent(c, Next(c, w, FlushDue), Upserted(newIds));
    NextCoherent(c, Next(c, Next(c, w, FlushDue), Upserted(newIds)), Deleted);
  }

  lemma QuietAgrees<V(!new)>(c: Codec<V>, w: World<V>)
    requires Coherent(c, w) && w.kv.loaded && w.kv.dirty == {} && w.kv.deleted == {} && w.kv.flush.Idle?
    ensures Readable(c, w.sheet) == w.kv.cache
  {
    forall key
      ensures key in Readable(c, w.sheet) <==> key in w.kv.cache
      ensures key in Readable(c, w.sheet) ==> Readable(c, w.sheet)[key] == w.kv.cache[key]
    {
      assert KeyCoherent(c, w, key) && !Pending(w.kv, key);
    }
  }

  lemma FlushedSettles<V(!new)>(c: Codec<V>, w: World<V>, newIds: map<string, nat>)
    requires w.kv.loaded && w.kv.flush.Idle? && NewIdsFit(w.sheet, Batch(c, w.kv), newIds)
    ensures var kv := Flushed(c, w, newIds).kv;
            kv.loaded && kv.dirty == {} && kv.deleted == {} && kv.flush.Idle? && kv.cache == w.kv.cache
  {
    FlushedIs(c, w, newIds);
  }

  /**
   * Whatever is pending, one undisturbed flush makes the sheet read as the cache exactly when
   * every deleted key that is on the sheet has a known row id.
   */
  lemma FlushSettlesSheetIff<V(!new)>(c: Codec<V>, w: World<V>, newIds: map<string, nat>)
    requires FaithfulCodec(c) && Coherent(c, w) && w.kv.loaded && w.kv.flush.Idle?
    requires NewIdsFit(w.sheet, Batch(c, w.kv), newIds)
    ensures var after := Flushed(c, w, newIds);
            Readable(c, after.sheet) == after.kv.cache <==> IdsKnown(w.kv, w.sheet, w.kv.deleted)
  {
    FlushedSettles(c, w, newIds);
    if IdsKnown(w.kv, w.sheet, w.kv.deleted) {
      FlushedIsCoherent(c, w, newIds);
      QuietAgrees(c, Flushed(c, w, newIds));
    } else {
      var key :| key in w.kv.deleted && key in w.sheet && key !in w.kv.rowIds;
      DeletionReachesSheetIff(c, w, newIds, key);
      assert KeyCoherent(c, w, key);
    }
  }

  lemma PlayOneMore<V(!new)>(c: Codec<V>, w: World<V>, events: seq<Event<V>>, ev: Event<V>)
    ensures Play(c, w, events + [ev]) == Next(c, Play(c, w, events), ev)
  {
    assert (events + [ev])[..|events + [ev]| - 1] == events;
  }

  lemma PlayFour<V(!new)>(c: Codec<V>, w: World<V>, e: seq<Event<V>>)
    requires |e| == 4
    ensures Play(c, w, e) == Next(c, Next(c, Next(c, Next(c, w, e[0]), e[1]), e[2]), e[3])
  {
    PlayOneMore(c, w, [], e[0]);
    PlayOneMore(c, w, [] + [e[0]], e[1]);
    PlayOneMore(c, w, [] + [e[0]] + [e[1]], e[2]);
    PlayOneMore(c, w, [] + [e[0]] + [e[1]] + [e[2]], e[3]);
    assert [] + [e[0]] + [e[1]] + [e[2]] + [e[3]] == e;
  }

  /** A quiet adapter writes a new key and flushes it. */
  lemma WriteAndFlush<V(!new)>(c: Codec<V>, w: World<V>, k: string, v: V, n: nat)
    requires w.kv.loaded && w.kv.dirty == {} && w.kv.deleted == {} && w.kv.flush.Idle?
    requires k !in w.sheet && NewIdsFit(w.sheet, map[k := c.stringify(v)], map[k := n])
    ensures Next(c, Next(c, Next(c, w, Set(k, v)), FlushDue), Upserted(map[k := n]))
         == World(w.kv.(cache := w.kv.cache[k := v]), w.sheet[k := Row(n, c.stringify(v))])
  {
    var batch := map[k := c.stringify(v)];
    FlushOfOne(c, w, k, v);
    assert UpsertRows(w.sheet, batch, map[k := n]) == w.sheet[k := Row(n, c.stringify(v))];
  }

  lemma FlushOfOne<V(!new)>(c: Codec<V>, w: World<V>, k: string, v: V)
    requires w.kv.loaded && w.kv.dirty == {} && w.kv.deleted == {} && w.kv.flush.Idle?
    ensures Next(c, Next(c, w, Set(k, v)), FlushDue)
         == World(w.kv.(cache := w.kv.cache[k := v], flush := Upserting(map[k := c.stringify(v)], {})), w.sheet)
  {
    var w2 := Next(c, w, Set(k, v));
    assert w2.kv.dirty == {k} && w2.kv.deleted == {};
    assert Batch(c, w2.kv) == map[k := c.stringify(v)];
    assert k in Batch(c, w2.kv);
  }

  /** A key new since the preload is written and flushed: its row id is not learnt. */
  lemma WrittenReachesSheet<V(!new)>(c: Codec<V>, sheet: Sheet, k: string, v: V, n: nat)
    requires k !in sheet && NewIdsFit(sheet, map[k := c.stringify(v)], map[k := n])
    ensures var w := Play(c, World(Fresh(), sheet), [Listed, Set(k, v), FlushDue, Upserted(map[k := n])]);
            && w.sheet == sheet[k := Row(n, c.stringify(v))]
            && w.kv.loaded && w.kv.dirty == {} && w.kv.deleted == {} && w.kv.flush.Idle?
            && w.kv.cache == Readable(c, sheet)[k := v] && k !in w.kv.rowIds
  {
    PlayFour(c, World(Fresh(), sheet), [Listed, Set(k, v), FlushDue, Upserted(map[k := n])]);
    BeforePreload(c, sheet, Event<V>.Listed);
    WriteAndFlush(c, Next(c, World(Fresh(), sheet), Event<V>.Listed), k, v, n);
  }

  /**
   * A history that meets the failing case: a key written after the preload and flushed, then
   * deleted and flushed. Nothing is pending, the cache has lost the key, and the sheet keeps it.
   */
  lemma DeletedKeyStaysOnSheet<V(!new)>(c: Codec<V>, sheet: Sheet, k: string, v: V, n: nat)
    requires k !in sheet && NewIdsFit(sheet, map[k := c.stringify(v)], map[k := n])
    ensures var w := Play(c, World(Fresh(), sheet),
                          [Listed, Set(k, v), FlushDue, Upserted(map[k := n]), Delete(k), FlushDue]);
            && w.kv.loaded && w.kv.dirty == {} && w.kv.deleted == {} && w.kv.flush.Idle?
            && k !in w.kv.cache && w.sheet == sheet[k := Row(n, c.stringify(v))]
  {
    WrittenReachesSheet(c, sheet, k, v, n);
    var w0, four := World(Fresh(), sheet), [Listed, Set(k, v), FlushDue, Upserted(map[k := n])];
    PlayOneMore(c, w0, four, Delete(k));
    PlayOneMore(c, w0, four + [Delete(k)], FlushDue);
    assert four + [Delete(k)] + [FlushDue] == [Listed, Set(k, v), FlushDue, Upserted(map[k := n]), Delete(k), FlushDue];
    var w5 := Next(c, Play(c, w0, four), Delete(k));
    assert Batch(c, w5.kv) == map[];
  }
}
