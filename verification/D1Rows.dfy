/** Rows of the messaging table, and the full-text index its triggers keep beside it. */
module D1Rows {
  import opened Outcomes

  // ---- items and rows ----

  /** A property that may be missing, null or text. */
  datatype MaybeText = Missing | NullText | Text(text: string)

  /** F is the item's free-form fields object. */
  datatype Item<+F> = Item(
    id: string,
    receivedAt: string,
    source: Option<string>,
    sourceVersion: Option<string>,
    sentAt: Option<string>,
    summary: MaybeText,
    body: MaybeText,
    bodyRef: Option<string>,
    rawRef: Option<string>,
    threadId: Option<string>,
    fields: Option<F>,
    labels: Option<seq<string>>)

  /** The written columns; None is SQL's NULL. */
  datatype Columns = Columns(
    id: string,
    receivedAt: string,
    channel: Option<string>,
    summary: Option<string>,
    body: Option<string>,
    bodyRef: Option<string>,
    rawRef: Option<string>,
    threadId: Option<string>,
    fields: Option<string>,
    labels: Option<string>,
    fromEmail: Option<string>,
    fromDisplay: Option<string>,
    subject: Option<string>,
    source: Option<string>,
    sourceVersion: Option<string>,
    sentAt: Option<string>)

  /** JSON for fields and labels, and the string properties that are read out of fields. */
  datatype Json<!F> = Json(
    none: F,
    stringify: F -> string,
    parse: string -> Option<F>,
    stringifyLabels: seq<string> -> string,
    parseLabels: string -> Option<seq<string>>,
    text: (F, string) -> Option<string>)

  function OrNull(t: MaybeText): Option<string> {
    if t.Text? then Some(t.text) else None
  }

  function EncodeItemRow<F>(j: Json<F>, item: Item<F>): Columns {
    var fields := if item.fields.Some? then item.fields.value else j.none;
    var addr := j.text(fields, "from_addr");
    Columns(item.id, item.receivedAt, item.source, OrNull(item.summary), OrNull(item.body),
            item.bodyRef, item.rawRef, item.threadId, Some(j.stringify(fields)),
            if item.labels.Some? then Some(j.stringifyLabels(item.labels.value)) else None,
            j.text(fields, "from_email"),
            if addr.Some? then addr else j.text(fields, "from_display"),
            OrNull(item.summary), item.source, item.sourceVersion, item.sentAt)
  }

  /** An optional column that is read back only when truthy. */
  function Truthy(c: Option<string>): Option<string> {
    if c.Some? && c.value != "" then c else None
  }

  function DecodeItemRow<F>(j: Json<F>, row: Columns): Item<F> {
    var text := Truthy(row.fields);
    var parsed := if text.Some? then j.parse(text.value) else None;
    var labels := Truthy(row.labels);
    Item(row.id, row.receivedAt,
         Some(if row.source.Some? then row.source.value else if row.channel.Some? then row.channel.value else ""),
         Truthy(row.sourceVersion), Truthy(row.sentAt),
         if row.summary.Some? then Text(row.summary.value) else Missing,
         if row.body.Some? then Text(row.body.value) else Missing,
         Truthy(row.bodyRef), Truthy(row.rawRef), Truthy(row.threadId),
         Some(if parsed.Some? then parsed.value else j.none),
         if labels.Some? then j.parseLabels(labels.value) else None)
  }

  ghost predicate FaithfulJson<F(!new)>(j: Json<F>) {
    && (forall f :: j.stringify(f) != "" && j.parse(j.stringify(f)) == Some(f))
    && (forall l :: j.stringifyLabels(l) != "" && j.parseLabels(j.stringifyLabels(l)) == Some(l))
  }

  /** What a caller can check before storing: nothing that the row cannot tell from absence. */
  predicate Plain<F>(item: Item<F>) {
    && item.source.Some? && item.fields.Some?
    && !item.summary.NullText? && !item.body.NullText?
    && item.sourceVersion != Some("") && item.sentAt != Some("")
    && item.bodyRef != Some("") && item.rawRef != Some("") && item.threadId != Some("")
  }

  /** Storing and reading back returns the very item exactly when it is plain. */
  lemma RowRoundTripIff<F(!new)>(j: Json<F>, item: Item<F>)
    requires FaithfulJson(j)
    ensures DecodeItemRow(j, EncodeItemRow(j, item)) == item <==> Plain(item)
  {
    var fields := if item.fields.Some? then item.fields.value else j.none;
    assert j.stringify(fields) != "" && j.parse(j.stringify(fields)) == Some(fields);
    if item.labels.Some? {
      assert j.stringifyLabels(item.labels.value) != "";
      assert j.parseLabels(j.stringifyLabels(item.labels.value)) == item.labels;
    }
  }

  /** And reading back is stable: a decoded item is plain, so a second trip changes nothing. */
  lemma DecodedIsPlain<F(!new)>(j: Json<F>, row: Columns)
    requires FaithfulJson(j)
    ensures Plain(DecodeItemRow(j, row))
    ensures DecodeItemRow(j, EncodeItemRow(j, DecodeItemRow(j, row))) == DecodeItemRow(j, row)
  {
    RowRoundTripIff(j, DecodeItemRow(j, row));
  }

  // ---- the full-text index ----

  /** The columns the index covers. */
  datatype Projection = Projection(summary: Option<string>, body: Option<string>, fromDisplay: Option<string>,
                                   subject: Option<string>)

  function Project(c: Columns): Projection {
    Projection(c.summary, c.body, c.fromDisplay, c.subject)
  }

  datatype Stored = Stored(rowid: nat, cols: Columns)

  /**
   * An external-content index: inserting needs a row id it does not hold, and the 'delete'
   * command needs the very values that were indexed; otherwise its postings are corrupt.
   */
  datatype Fts = Intact(entries: map<nat, Projection>) | Corrupt

  function FtsInsert(f: Fts, rowid: nat, p: Projection): Fts {
    if f.Intact? && rowid !in f.entries then Intact(f.entries[rowid := p]) else Corrupt
  }

  function FtsDelete(f: Fts, rowid: nat, p: Projection): Fts {
    if f.Intact? && rowid in f.entries && f.entries[rowid] == p then Intact(f.entries - {rowid}) else Corrupt
  }

  /** Rows by primary key, and the index. */
  datatype Db = Db(rows: map<string, Stored>, fts: Fts)

  const EMPTY := Db(map[], Intact(map[]))

  /** The two AFTER UPDATE triggers, in the order they fire. */
  function FtsUpdate(f: Fts, rowid: nat, before: Projection, after: Projection, deleteFirst: bool): Fts {
    if deleteFirst then FtsInsert(FtsDelete(f, rowid, before), rowid, after)
    else FtsDelete(FtsInsert(f, rowid, after), rowid, before)
  }

  /** INSERT ... ON CONFLICT(id) DO UPDATE: a known id keeps its row id, a new one gets newRowid. */
  function Upsert(db: Db, cols: Columns, newRowid: nat, deleteFirst: bool): Db {
    if cols.id in db.rows then
      var before := db.rows[cols.id];
      Db(db.rows[cols.id := Stored(before.rowid, cols)],
         FtsUpdate(db.fts, before.rowid, Project(before.cols), Project(cols), deleteFirst))
    else Db(db.rows[cols.id := Stored(newRowid, cols)], FtsInsert(db.fts, newRowid, Project(cols)))
  }

  function Delete(db: Db, id: string): Db {
    if id in db.rows then Db(db.rows - {id}, FtsDelete(db.fts, db.rows[id].rowid, Project(db.rows[id].cols))) else db
  }

  datatype Statement = UpsertRow(cols: Columns, newRowid: nat) | DeleteRow(id: string)

  function Execute(db: Db, s: Statement, deleteFirst: bool): Db {
    match s
    case UpsertRow(cols, newRowid) => Upsert(db, cols, newRowid, deleteFirst)
    case DeleteRow(id) => Delete(db, id)
  }

  function ExecuteAll(db: Db, ss: seq<Statement>, deleteFirst: bool): Db {
    if ss == [] then db else Execute(ExecuteAll(db, ss[..|ss| - 1], deleteFirst), ss[|ss| - 1], deleteFirst)
  }

  ghost predicate UnusedRowid(db: Db, rowid: nat) {
    forall id :: id in db.rows ==> db.rows[id].rowid != rowid
  }

  /** A new row gets a row id no row has. */
  ghost predicate Allocates(db: Db, s: Statement) {
    s.UpsertRow? && s.cols.id !in db.rows ==> UnusedRowid(db, s.newRowid)
  }

  ghost predicate AllAllocate(db: Db, ss: seq<Statement>, deleteFirst: bool) {
    ss != [] ==>
      && AllAllocate(db, ss[..|ss| - 1], deleteFirst)
      && Allocates(ExecuteAll(db, ss[..|ss| - 1], deleteFirst), ss[|ss| - 1])
  }

  /** Row ids are distinct, and the index holds exactly the projection of each row. */
  ghost predicate Mirrors(db: Db) {
    && (forall a, b :: a in db.rows && b in db.rows && a != b ==> db.rows[a].rowid != db.rows[b].rowid)
    && db.fts.Intact?
    && (forall id :: id in db.rows ==>
          db.rows[id].rowid in db.fts.entries && db.fts.entries[db.rows[id].rowid] == Project(db.rows[id].cols))
    && (forall r :: r in db.fts.entries ==> exists id :: id in db.rows && db.rows[id].rowid == r)
  }

  lemma UpsertMirrors(db: Db, cols: Columns, newRowid: nat)
    requires Mirrors(db) && Allocates(db, UpsertRow(cols, newRowid))
    ensures Mirrors(Upsert(db, cols, newRowid, true))
  {
    var db' := Upsert(db, cols, newRowid, true);
    forall r | r in db'.fts.entries
      ensures exists id :: id in db'.rows && db'.rows[id].rowid == r
    {
      if r == db'.rows[cols.id].rowid {
      } else {
        var id :| id in db.rows && db.rows[id].rowid == r;
        assert id in db'.rows && db'.rows[id].rowid == r;
      }
    }
  }

  lemma DeleteMirrors(db: Db, id: string)
    requires Mirrors(db)
    ensures Mirrors(Delete(db, id))
  {
    var db' := Delete(db, id);
    if id in db.rows {
      forall r | r in db'.fts.entries
        ensures exists k :: k in db'.rows && db'.rows[k].rowid == r
      {
        var k :| k in db.rows && db.rows[k].rowid == r;
        assert k in db'.rows && db'.rows[k].rowid == r;
      }
    }
  }

  /** Updating a stored row keeps the mirror exactly when the delete trigger fires first. */
  lemma UpdateNeedsDeleteFirst(db: Db, cols: Columns, newRowid: nat, deleteFirst: bool)
    requires Mirrors(db) && cols.id in db.rows
    ensures Mirrors(Upsert(db, cols, newRowid, deleteFirst)) <==> deleteFirst
  {
    if deleteFirst {
      UpsertMirrors(db, cols, newRowid);
    } else {
      assert db.rows[cols.id].rowid in db.fts.entries;
    }
  }

  /** Some statement writes a row that is already there. */
  predicate Updates(db: Db, ss: seq<Statement>, deleteFirst: bool) {
    ss != [] &&
      (Updates(db, ss[..|ss| - 1], deleteFirst)
       || (ss[|ss| - 1].UpsertRow? && ss[|ss| - 1].cols.id in ExecuteAll(db, ss[..|ss| - 1], deleteFirst).rows))
  }

  /** A broken index stays broken. */
  lemma CorruptStays(db: Db, s: Statement, deleteFirst: bool)
    requires db.fts.Corrupt?
    ensures Execute(db, s, deleteFirst).fts.Corrupt?
  {
  }

  lemma UpdateCorrupts(db: Db, cols: Columns, newRowid: nat)
    requires Mirrors(db) && cols.id in db.rows
    ensures Upsert(db, cols, newRowid, false).fts.Corrupt?
  {
    assert db.rows[cols.id].rowid in db.fts.entries;
  }

  lemma InsertMirrors(db: Db, cols: Columns, newRowid: nat, deleteFirst: bool)
    requires Mirrors(db) && Allocates(db, UpsertRow(cols, newRowid)) && cols.id !in db.rows
    ensures Mirrors(Upsert(db, cols, newRowid, deleteFirst))
  {
    UpsertMirrors(db, cols, newRowid);
  }

  lemma StatementMirrors(db: Db, s: Statement, deleteFirst: bool)
    requires Mirrors(db) && Allocates(db, s)
    ensures var update := s.UpsertRow? && s.cols.id in db.rows;
            if deleteFirst || !update then Mirrors(Execute(db, s, deleteFirst))
            else Execute(db, s, deleteFirst).fts.Corrupt?
  {
    match s
    case UpsertRow(cols, newRowid) =>
      if cols.id !in db.rows {
        InsertMirrors(db, cols, newRowid, deleteFirst);
      } else if deleteFirst {
        UpsertMirrors(db, cols, newRowid);
      } else {
        UpdateCorrupts(db, cols, newRowid);
      }
    case DeleteRow(id) => DeleteMirrors(db, id);
  }

  /**
   * Over any statements the triggers keep the index equal to the projection of the rows exactly
   * when the delete trigger fires before the insert trigger, or no stored row is ever updated.
   * SQLite leaves the order of two AFTER UPDATE triggers open.
   */
  lemma {:induction false} TriggersMirrorIff(ss: seq<Statement>, deleteFirst: bool)
    requires AllAllocate(EMPTY, ss, deleteFirst)
    ensures var db := ExecuteAll(EMPTY, ss, deleteFirst);
            if deleteFirst || !Updates(EMPTY, ss, deleteFirst) then Mirrors(db) else db.fts.Corrupt?
  {
    if ss != [] {
      var front, s := ss[..|ss| - 1], ss[|ss| - 1];
      TriggersMirrorIff(front, deleteFirst);
      var db := ExecuteAll(EMPTY, front, deleteFirst);
      if db.fts.Corrupt? {
        CorruptStays(db, s, deleteFirst);
      } else {
        StatementMirrors(db, s, deleteFirst);
      }
    }
  }

  /** The search: rows joined to index entries that match. */
  function Search(db: Db, matches: Projection -> bool): set<string> {
    if db.fts.Corrupt? then {}
    else set id | id in db.rows && db.rows[id].rowid in db.fts.entries && matches(db.fts.entries[db.rows[id].rowid])
  }

  /** So, in that order or without updates, a search finds a row exactly when the row as last written matches. */
  lemma SearchIsCurrent(ss: seq<Statement>, deleteFirst: bool, matches: Projection -> bool, id: string)
    requires AllAllocate(EMPTY, ss, deleteFirst) && (deleteFirst || !Updates(EMPTY, ss, deleteFirst))
    ensures var db := ExecuteAll(EMPTY, ss, deleteFirst);
            id in Search(db, matches) <==> id in db.rows && matches(Project(db.rows[id].cols))
  {
    TriggersMirrorIff(ss, deleteFirst);
  }

  lemma {:induction false} RowsAreLastWritten(ss: seq<Statement>, deleteFirst: bool, id: string)
    ensures var db := ExecuteAll(EMPTY, ss, deleteFirst);
            match LastWrite(ss, id) {
              case None => id !in db.rows
              case Some(cols) => id in db.rows && db.rows[id].cols == cols
            }
  {
    if ss != [] {
      RowsAreLastWritten(ss[..|ss| - 1], deleteFirst, id);
    }
  }

  /** The columns most recently upserted under id and not deleted since. */
  function LastWrite(ss: seq<Statement>, id: string): Option<Columns> {
    if ss == [] then None
    else match ss[|ss| - 1]
      case UpsertRow(cols, _) => if cols.id == id then Some(cols) else LastWrite(ss[..|ss| - 1], id)
      case DeleteRow(k) => if k == id then None else LastWrite(ss[..|ss| - 1], id)
  }

  // ---- what is written of an item, and found again ----

  /**
   * The columns beside the item's own: its source as the channel, its summary as the subject, the
   * sender's address from the fields, and as display name the full address field, or else the name.
   */
  lemma DerivedColumns<F>(j: Json<F>, item: Item<F>, f: F)
    requires item.fields == Some(f)
    ensures var row := EncodeItemRow(j, item);
            && row.channel == item.source && row.fromEmail == j.text(f, "from_email")
            && row.fromDisplay == (match j.text(f, "from_addr")
                                   case Some(address) => Some(address)
                                   case None => j.text(f, "from_display"))
            && row.subject == (match item.summary case Text(t) => Some(t) case _ => None)
  {
  }

  /**
   * So a search over stored items, in the order of triggers that keeps the index or without updates,
   * finds an item exactly when its summary, body and display name as last stored match.
   */
  lemma SearchFindsItems<F(!new)>(j: Json<F>, ss: seq<Statement>, deleteFirst: bool, matches: Projection -> bool,
                                  item: Item<F>, f: F)
    requires AllAllocate(EMPTY, ss, deleteFirst) && (deleteFirst || !Updates(EMPTY, ss, deleteFirst))
    requires LastWrite(ss, item.id) == Some(EncodeItemRow(j, item)) && item.fields == Some(f)
    ensures var summary := match item.summary case Text(t) => Some(t) case _ => None;
            var body := match item.body case Text(t) => Some(t) case _ => None;
            var display := match j.text(f, "from_addr")
                           case Some(address) => Some(address)
                           case None => j.text(f, "from_display");
            item.id in Search(ExecuteAll(EMPTY, ss, deleteFirst), matches)
            <==> matches(Projection(summary, body, display, summary))
  {
    SearchIsCurrent(ss, deleteFirst, matches, item.id);
    RowsAreLastWritten(ss, deleteFirst, item.id);
  }
}
