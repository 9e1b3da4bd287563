/** The one-way copy of src/sync.ts, behind the push, pull and baseline-free sync modes. */
module SyncCopy {
  import opened Outcomes
  import opened Adapter
  import opened CompactHash
  import opened SyncSpec
  import opened SyncAccounting
  import opened Selection

  datatype CopyOptions<!V> = CopyOptions(
    prefix: string,
    targetPrefix: string,
    transform: Option<(string, Js<V>) -> Routed<V>>,
    overwrite: bool,
    skipUnchanged: bool,
    dryRun: bool,
    filterKeys: Option<set<string>>)

  /** same says that one adapter is copied to itself. */
  datatype CopyEnv<!V> = CopyEnv(
    from: Backend<V>,
    to: Backend<V>,
    same: bool,
    text: V -> seq<CodeUnit>,
    opts: CopyOptions<V>)

  datatype CopyWorld<+V> = CopyWorld(from: Contents<V>, to: Contents<V>, res: SyncResult)

  /** valuesEqual: null and undefined equal only themselves, values are compared as text. */
  predicate SameValue<V>(text: V -> seq<CodeUnit>, a: Js<V>, b: Js<V>) {
    match (a, b)
    case (Val(v), Val(u)) => text(v) == text(u)
    case (Null, Null) => true
    case (Undefined, Undefined) => true
    case _ => false
  }

  function Destination<V>(opts: CopyOptions<V>, key: string, x: Js<V>): Routed<V> {
    match opts.transform
    case None => Routed(opts.targetPrefix + key, x)
    case Some(f) => f(key, x)
  }

  function WithFrom<V>(e: CopyEnv<V>, w: CopyWorld<V>, c: Contents<V>): CopyWorld<V> {
    if e.same then w.(from := c, to := c) else w.(from := c)
  }

  function WithTo<V>(e: CopyEnv<V>, w: CopyWorld<V>, c: Contents<V>): CopyWorld<V> {
    if e.same then w.(from := c, to := c) else w.(to := c)
  }

  function Report<V>(w: CopyWorld<V>, v: Verdict, key: string): CopyWorld<V> {
    w.(res := Note(w.res, v, key))
  }

  /** Writing one routed value, after the existence and equality checks. */
  function CopyTo<V>(e: CopyEnv<V>, w: CopyWorld<V>, key: string, k: string, y: Js<V>): CopyWorld<V> {
    var (h, t1) := HasOp(e.to, w.to, k);
    var w1 := WithTo(e, w, t1);
    if h.Thrown? then Report(w1, Failed, key)
    else if h.value && !e.opts.overwrite then Report(w1, Skipped, key)
    else
      var (g, t2) := if h.value && e.opts.skipUnchanged then GetOp(e.to, t1, k) else (Ok(Undefined), t1);
      var w2 := WithTo(e, w, t2);
      if g.Thrown? then Report(w2, Failed, key)
      else if h.value && e.opts.skipUnchanged && SameValue(e.text, y, g.value) then Report(w2, Skipped, key)
      else
        var (ok, t3) := if e.opts.dryRun then (true, t2) else SetOp(e.to, t2, k, y);
        var w3 := WithTo(e, w, t3);
        if !ok then Report(w3, Failed, key) else Report(w3, if h.value then Updated else Created, k)
  }

  function CopyKey<V>(e: CopyEnv<V>, w: CopyWorld<V>, key: string): CopyWorld<V> {
    var (r, f) := GetOp(e.from, w.from, key);
    var w1 := WithFrom(e, w, f);
    if r.Thrown? then Report(w1, Failed, key)
    else if !r.value.Val? then Report(w1, Skipped, key)
    else
      match Destination(e.opts, key, r.value)
      case Raised => Report(w1, Failed, key)
      case Dropped => Report(w1, Skipped, key)
      case Routed(k, y) => CopyTo(e, w1, key, k, y)
  }

  function CopyAll<V>(e: CopyEnv<V>, w: CopyWorld<V>, keys: seq<string>): CopyWorld<V> {
    if keys == [] then w else CopyKey(e, CopyAll(e, w, keys[..|keys| - 1]), keys[|keys| - 1])
  }

  function Filter(keys: seq<string>, keep: Option<set<string>>): seq<string> {
    if keep.None? || keys == [] then keys
    else
      var front := Filter(keys[..|keys| - 1], keep);
      if keys[|keys| - 1] in keep.value then front + [keys[|keys| - 1]] else front
  }

  datatype CopyFinish<+V> = CopyFinish(settled: bool, world: CopyWorld<V>)

  function ListedForCopy<V>(e: CopyEnv<V>, from: Contents<V>): seq<string> {
    var r := KeysOp(e.from, from, e.opts.prefix).0;
    if r.Ok? then Filter(r.value, e.opts.filterKeys) else []
  }

  function Copy<V>(e: CopyEnv<V>, from: Contents<V>, to: Contents<V>): CopyFinish<V> {
    var (r, f) := KeysOp(e.from, from, e.opts.prefix);
    var w := WithFrom(e, CopyWorld(from, to, EmptyResult(e.opts.dryRun)), f);
    if r.Thrown? then CopyFinish(false, w) else CopyFinish(true, CopyAll(e, w, ListedForCopy(e, from)))
  }

  method CopyKeys<V>(from: StorageAdapter<V>, to: StorageAdapter<V>, text: V -> seq<CodeUnit>, opts: CopyOptions<V>)
    returns (outcome: Reply<SyncResult>)
    modifies from, to
    ensures var f := Copy(CopyEnv(from.backend, to.backend, from == to, text, opts), old(from.State()),
                          old(to.State()));
            && from.State() == f.world.from && to.State() == f.world.to
            && outcome == if f.settled then Ok(f.world.res) else Thrown
  {
    ghost var e := CopyEnv(from.backend, to.backend, from == to, text, opts);
    var listed := from.Keys(opts.prefix);
    if listed.Thrown? {
      return Thrown;
    }
    var keys := Filter(listed.value, opts.filterKeys);
    var res := EmptyResult(opts.dryRun);
    ghost var start := CopyWorld(from.State(), to.State(), res);
    var i := 0;
    while i < |keys|
      invariant 0 <= i <= |keys|
      invariant CopyWorld(from.State(), to.State(), res) == CopyAll(e, start, keys[..i])
    {
      assert keys[..i + 1][..i] == keys[..i];
      res := CopyOne(from, to, text, opts, keys[i], res);
      i := i + 1;
    }
    assert keys[..|keys|] == keys;
    outcome := Ok(res);
  }

  method CopyOne<V>(from: StorageAdapter<V>, to: StorageAdapter<V>, text: V -> seq<CodeUnit>, opts: CopyOptions<V>,
                    key: string, res: SyncResult) returns (res': SyncResult)
    modifies from, to
    ensures CopyWorld(from.State(), to.State(), res')
         == CopyKey(CopyEnv(from.backend, to.backend, from == to, text, opts),
                    CopyWorld(old(from.State()), old(to.State()), res), key)
  {
    var value := from.Get(key);
    if value.Thrown? {
      return Note(res, Failed, key);
    }
    if !value.value.Val? {
      return Note(res, Skipped, key);
    }
    var finalKey, finalValue := opts.targetPrefix + key, value.value;
    if opts.transform.Some? {
      match opts.transform.value(key, value.value) {
        case Raised => return Note(res, Failed, key);
        case Dropped => return Note(res, Skipped, key);
        case Routed(k, y) => finalKey, finalValue := k, y;
      }
    }
    res' := CopyWritten(from, to, text, opts, key, finalKey, finalValue, res);
  }

  method CopyWritten<V>(ghost from: StorageAdapter<V>, to: StorageAdapter<V>, text: V -> seq<CodeUnit>,
                        opts: CopyOptions<V>,
                        key: string, finalKey: string, finalValue: Js<V>, res: SyncResult)
    returns (res': SyncResult)
    modifies to
    ensures CopyWorld(from.State(), to.State(), res')
         == CopyTo(CopyEnv(from.backend, to.backend, from == to, text, opts),
                   CopyWorld(old(from.State()), old(to.State()), res), key, finalKey, finalValue)
  {
    var present := to.Has(finalKey);
    if present.Thrown? {
      return Note(res, Failed, key);
    }
    if present.value && !opts.overwrite {
      return Note(res, Skipped, key);
    }
    if present.value && opts.skipUnchanged {
      var targetValue := to.Get(finalKey);
      if targetValue.Thrown? {
        return Note(res, Failed, key);
      }
      if SameValue(text, finalValue, targetValue.value) {
        return Note(res, Skipped, key);
      }
    }
    var ok := true;
    if !opts.dryRun {
      ok := to.Set(finalKey, finalValue);
    }
    if !ok {
      return Note(res, Failed, key);
    }
    res' := Note(res, if present.value then Updated else Created, finalKey);
  }

  // ---- accounting ----

  lemma CopyKeyKeepsFrom<V>(e: CopyEnv<V>, w: CopyWorld<V>, key: string)
    requires !e.same
    ensures CopyKey(e, w, key).from.data == w.from.data
  {
  }

  /** One line of the report: a verdict, and the key it is reported under. */
  datatype Line = Line(verdict: Verdict, name: string)

  function NoteAll(r: SyncResult, lines: seq<Line>): SyncResult {
    if lines == [] then r
    else Note(NoteAll(r, lines[..|lines| - 1]), lines[|lines| - 1].verdict, lines[|lines| - 1].name)
  }

  function NamesOf(lines: seq<Line>, v: Verdict): seq<string> {
    if lines == [] then []
    else NamesOf(lines[..|lines| - 1], v) + if lines[|lines| - 1].verdict == v then [lines[|lines| - 1].name] else []
  }

  /** The value under key was x when it was read, and is sent to the key called name. */
  ghost predicate SentTo<V(!new)>(e: CopyEnv<V>, from: Contents<V>, key: string, x: Js<V>, name: string) {
    (e.same || x == Held(from, key)) && Destination(e.opts, key, x).Routed? && Destination(e.opts, key, x).key == name
  }

  /** Skipped and failed keys are reported as listed, written ones under the key their value was sent to. */
  ghost predicate Reports<V(!new)>(e: CopyEnv<V>, from: Contents<V>, key: string, line: Line) {
    if line.verdict.Skipped? || line.verdict.Failed? then line.name == key
    else (line.verdict.Created? || line.verdict.Updated?) && exists x :: SentTo(e, from, key, x, line.name)
  }

  lemma CopyToNotesOnce<V>(e: CopyEnv<V>, w: CopyWorld<V>, key: string, k: string, y: Js<V>) returns (line: Line)
    ensures CopyTo(e, w, key, k, y).res == Note(w.res, line.verdict, line.name)
    ensures if line.verdict.Skipped? || line.verdict.Failed? then line.name == key
            else (line.verdict.Created? || line.verdict.Updated?) && line.name == k
  {
    var r := CopyTo(e, w, key, k, y).res;
    line := if r == Note(w.res, Skipped, key) then Line(Skipped, key)
            else if r == Note(w.res, Failed, key) then Line(Failed, key)
            else if r == Note(w.res, Created, k) then Line(Created, k)
            else Line(Updated, k);
  }

  lemma CopyKeyNotesOnce<V(!new)>(e: CopyEnv<V>, w: CopyWorld<V>, key: string) returns (line: Line)
    ensures CopyKey(e, w, key).res == Note(w.res, line.verdict, line.name) && Reports(e, w.from, key, line)
  {
    var (x, c) := GetOp(e.from, w.from, key);
    if x.Ok? && x.value.Val? && Destination(e.opts, key, x.value).Routed? {
      var d := Destination(e.opts, key, x.value);
      line := CopyToNotesOnce(e, WithFrom(e, w, c), key, d.key, d.value);
      assert SentTo(e, w.from, key, x.value, d.key);
    } else {
      var failed := x.Thrown? || (x.value.Val? && Destination(e.opts, key, x.value).Raised?);
      line := Line(if failed then Failed else Skipped, key);
    }
  }

  lemma NoteExtends(r: SyncResult, line: Line, v: Verdict)
    ensures ListOf(Note(r, line.verdict, line.name).keys, v)
         == ListOf(r.keys, v) + if line.verdict == v then [line.name] else []
  {
  }

  /** Every list holds just the names with its verdict, in order. */
  lemma {:induction false} LinesFillLists(dryRun: bool, lines: seq<Line>, v: Verdict)
    ensures ListOf(NoteAll(EmptyResult(dryRun), lines).keys, v) == NamesOf(lines, v)
    ensures Tallied(NoteAll(EmptyResult(dryRun), lines))
  {
    if lines != [] {
      var front, last := lines[..|lines| - 1], lines[|lines| - 1];
      LinesFillLists(dryRun, front, v);
      NoteExtends(NoteAll(EmptyResult(dryRun), front), last, v);
      NoteKeepsTally(NoteAll(EmptyResult(dryRun), front), last.verdict, last.name);
    }
  }

  lemma {:induction false} CopyKeepsFrom<V>(e: CopyEnv<V>, w: CopyWorld<V>, keys: seq<string>)
    requires !e.same
    ensures CopyAll(e, w, keys).from.data == w.from.data
  {
    if keys != [] {
      CopyKeepsFrom(e, w, keys[..|keys| - 1]);
      CopyKeyKeepsFrom(e, CopyAll(e, w, keys[..|keys| - 1]), keys[|keys| - 1]);
    }
  }

  lemma ReportsAtStart<V(!new)>(e: CopyEnv<V>, from: Contents<V>, from': Contents<V>, key: string, line: Line)
    requires Reports(e, from', key, line) && (!e.same ==> from.data == from'.data)
    ensures Reports(e, from, key, line)
  {
    if x :| SentTo(e, from', key, x, line.name) {
      assert SentTo(e, from, key, x, line.name);
    }
  }

  lemma {:induction false} CopyWritesLines<V(!new)>(e: CopyEnv<V>, w: CopyWorld<V>, keys: seq<string>)
      returns (lines: seq<Line>)
    ensures CopyAll(e, w, keys).res == NoteAll(w.res, lines)
    ensures |lines| == |keys| && forall i :: 0 <= i < |keys| ==> Reports(e, w.from, keys[i], lines[i])
  {
    if keys == [] {
      lines := [];
    } else {
      var front, last := keys[..|keys| - 1], keys[|keys| - 1];
      var before := CopyWritesLines(e, w, front);
      var mid := CopyAll(e, w, front);
      var line := CopyKeyNotesOnce(e, mid, last);
      if !e.same {
        CopyKeepsFrom(e, w, front);
      }
      ReportsAtStart(e, w.from, mid.from, last, line);
      lines := before + [line];
      assert lines[..|before|] == before;
    }
  }

  /**
   * Whatever fails and whatever the transform does, the report has one line for each listed key:
   * a verdict, under the key as listed when it was skipped or failed and under the key its value
   * was sent to when it was written. Each list holds just the names with its verdict, in order,
   * and each counter is its list's length.
   */
  lemma CopyAccounts<V(!new)>(e: CopyEnv<V>, w: CopyWorld<V>, keys: seq<string>) returns (lines: seq<Line>)
    requires w.res == EmptyResult(e.opts.dryRun)
    ensures |lines| == |keys| && forall i :: 0 <= i < |keys| ==> Reports(e, w.from, keys[i], lines[i])
    ensures var r := CopyAll(e, w, keys).res;
            && Tallied(r) && r.deleted == 0 && r.conflicts == 0
            && (forall v :: ListOf(r.keys, v) == NamesOf(lines, v))
            && r.created + r.updated + r.skipped + |r.errors| == |keys|
  {
    lines := CopyWritesLines(e, w, keys);
    var r := CopyAll(e, w, keys).res;
    forall v
      ensures ListOf(r.keys, v) == NamesOf(lines, v) && Tallied(r)
    {
      LinesFillLists(e.opts.dryRun, lines, v);
    }
    assert ListOf(r.keys, Created) == NamesOf(lines, Created) && Tallied(r);
    assert ListOf(r.keys, Updated) == NamesOf(lines, Updated) && ListOf(r.keys, Skipped) == NamesOf(lines, Skipped);
    assert ListOf(r.keys, Failed) == NamesOf(lines, Failed);
    assert ListOf(r.keys, Deleted) == NamesOf(lines, Deleted);
    assert ListOf(r.keys, Conflicting) == NamesOf(lines, Conflicting);
    LinesAreCounted(lines);
  }

  /** With only those four verdicts, the four lists have a name for each line. */
  lemma {:induction false} LinesAreCounted(lines: seq<Line>)
    requires forall i :: 0 <= i < |lines| ==> !lines[i].verdict.Deleted? && !lines[i].verdict.Conflicting?
    ensures |NamesOf(lines, Created)| + |NamesOf(lines, Updated)|
            + |NamesOf(lines, Skipped)| + |NamesOf(lines, Failed)| == |lines|
    ensures NamesOf(lines, Deleted) == [] && NamesOf(lines, Conflicting) == []
  {
    if lines != [] {
      LinesAreCounted(lines[..|lines| - 1]);
    }
  }

  ghost predicate KeepsKeys<V(!new)>(opts: CopyOptions<V>) {
    forall k, x :: Destination(opts, k, x).Routed? ==> Destination(opts, k, x).key == k
  }

  /** When keys are written under themselves, the lists together hold exactly the listed keys. */
  lemma {:induction false} KeyPreservingCopyAccounts<V(!new)>(e: CopyEnv<V>, w: CopyWorld<V>, keys: seq<string>)
    requires Tallied(w.res) && Ledger(w.res.keys) == multiset{} && KeepsKeys(e.opts)
    ensures Tallied(CopyAll(e, w, keys).res)
    ensures Ledger(CopyAll(e, w, keys).res.keys) == multiset(keys)
  {
    if keys != [] {
      var front, last := keys[..|keys| - 1], keys[|keys| - 1];
      KeyPreservingCopyAccounts(e, w, front);
      assert keys == front + [last];
      var mid := CopyAll(e, w, front);
      var line := CopyKeyNotesOnce(e, mid, last);
      assert line.name == last;
      NoteAccounts(mid.res, line.verdict, last);
    }
  }

  function MergeResults(a: SyncResult, b: SyncResult): SyncResult {
    SyncResult(a.created + b.created, a.updated + b.updated, a.skipped + b.skipped,
               a.deleted + b.deleted, a.conflicts + b.conflicts, a.errors + b.errors,
               KeyLists(a.keys.created + b.keys.created, a.keys.updated + b.keys.updated,
                        a.keys.skipped + b.keys.skipped, a.keys.deleted + b.keys.deleted,
                        a.keys.conflicts + b.keys.conflicts, a.keys.errors + b.keys.errors),
               a.dryRun, if b.baseline.Some? then b.baseline else a.baseline)
  }

  /** Merging two tallied results keeps the tally and every reported key. */
  lemma MergeAccounts(a: SyncResult, b: SyncResult)
    requires Tallied(a) && Tallied(b)
    ensures Tallied(MergeResults(a, b))
    ensures Ledger(MergeResults(a, b).keys) == Ledger(a.keys) + Ledger(b.keys)
  {
    var m := MergeResults(a, b).keys;
    assert multiset(m.created) == multiset(a.keys.created) + multiset(b.keys.created);
    assert multiset(m.updated) == multiset(a.keys.updated) + multiset(b.keys.updated);
    assert multiset(m.skipped) == multiset(a.keys.skipped) + multiset(b.keys.skipped);
    assert multiset(m.deleted) == multiset(a.keys.deleted) + multiset(b.keys.deleted);
    assert multiset(m.conflicts) == multiset(a.keys.conflicts) + multiset(b.keys.conflicts);
    assert multiset(m.errors) == multiset(a.keys.errors) + multiset(b.keys.errors);
  }

  /** Every list is the first's followed by the second's; a baseline of the second goes before the first's. */
  lemma MergeKeepsLists(a: SyncResult, b: SyncResult, v: Verdict)
    ensures ListOf(MergeResults(a, b).keys, v) == ListOf(a.keys, v) + ListOf(b.keys, v)
    ensures MergeResults(a, b).errors == a.errors + b.errors && MergeResults(a, b).dryRun == a.dryRun
    ensures MergeResults(a, b).baseline == match b.baseline
                                           case Some(entries) => Some(entries)
                                           case None => a.baseline
  {
  }

  // ---- what no fault, transform or listing can change ----

  /** One adapter on both sides has one state. */
  ghost predicate OneState<V>(e: CopyEnv<V>, w: CopyWorld<V>) {
    e.same ==> w.from == w.to
  }

  lemma DryKeyWritesNothing<V>(e: CopyEnv<V>, w: CopyWorld<V>, key: string)
    requires e.opts.dryRun && OneState(e, w)
    ensures var w' := CopyKey(e, w, key);
            OneState(e, w') && w'.from.data == w.from.data && w'.to.data == w.to.data
  {
  }

  /** A dry copy writes nothing. */
  lemma {:induction false} DryCopyWritesNothing<V>(e: CopyEnv<V>, w: CopyWorld<V>, keys: seq<string>)
    requires e.opts.dryRun && OneState(e, w)
    ensures var w' := CopyAll(e, w, keys);
            OneState(e, w') && w'.from.data == w.from.data && w'.to.data == w.to.data
  {
    if keys != [] {
      DryCopyWritesNothing(e, w, keys[..|keys| - 1]);
      DryKeyWritesNothing(e, CopyAll(e, w, keys[..|keys| - 1]), keys[|keys| - 1]);
    }
  }

  /** Every cell of before is still there, as it was. */
  ghost predicate Untouched<V(!new)>(before: map<string, Js<V>>, after: map<string, Js<V>>) {
    forall q :: q in before ==> q in after && after[q] == before[q]
  }

  lemma KeyKeepsPresent<V(!new)>(e: CopyEnv<V>, w: CopyWorld<V>, key: string)
    requires !e.opts.overwrite && OneState(e, w)
    ensures OneState(e, CopyKey(e, w, key)) && Untouched(w.to.data, CopyKey(e, w, key).to.data)
  {
  }

  /** Without overwriting, whatever the destination holds stays. */
  lemma {:induction false} CopyKeepsPresent<V(!new)>(e: CopyEnv<V>, w: CopyWorld<V>, keys: seq<string>)
    requires !e.opts.overwrite && OneState(e, w)
    ensures OneState(e, CopyAll(e, w, keys)) && Untouched(w.to.data, CopyAll(e, w, keys).to.data)
  {
    if keys != [] {
      CopyKeepsPresent(e, w, keys[..|keys| - 1]);
      KeyKeepsPresent(e, CopyAll(e, w, keys[..|keys| - 1]), keys[|keys| - 1]);
    }
  }

  // ---- what a healthy copy does to one key ----

  ghost predicate HealthyCopy<V>(e: CopyEnv<V>) {
    Reliable(e.from) && Reliable(e.to) && ListsOnce(e.from) && !e.same
  }

  /** Different keys of the listing are never written under one key. */
  ghost predicate MapsApart<V(!new)>(opts: CopyOptions<V>, keys: seq<string>) {
    forall k, k', x, x' :: (k in keys && k' in keys && k != k'
                            && Destination(opts, k, x).Routed? && Destination(opts, k', x').Routed?) ==>
                             Destination(opts, k, x).key != Destination(opts, k', x').key
  }

  /** What the destination holds under k after y is copied there. */
  function Copied<V>(e: CopyEnv<V>, to: Contents<V>, k: string, y: Js<V>): Js<V> {
    if k in to.data && (!e.opts.overwrite || (e.opts.skipUnchanged && SameValue(e.text, y, Held(to, k))))
    then Held(to, k)
    else Canonical(e.to, y)
  }

  lemma CopyToEffect<V(!new)>(e: CopyEnv<V>, w: CopyWorld<V>, key: string, k: string, y: Js<V>)
    requires Reliable(e.to) && !e.opts.dryRun && !e.same
    ensures var w' := CopyTo(e, w, key, k, y);
            w'.from == w.from && w'.to.data == w.to.data[k := Copied(e, w.to, k, y)]
  {
  }

  /** null, undefined and text: when the destination's value is not written again. */
  predicate ReadsTheSame<V>(text: V -> seq<CodeUnit>, y: Js<V>, there: Js<V>) {
    (y.Val? && there.Val? && text(y.v) == text(there.v)) || (y.Null? && there.Null?)
    || (y.Undefined? && there.Undefined?)
  }

  /** How copying one value is reported, and under which key. */
  lemma CopyIsReported<V(!new)>(e: CopyEnv<V>, w: CopyWorld<V>, key: string)
    requires HealthyCopy(e)
    ensures var r := CopyKey(e, w, key).res;
            match Held(w.from, key)
            case Val(v) =>
              (match Destination(e.opts, key, Val(v))
               case Raised => r == Note(w.res, Failed, key)
               case Dropped => r == Note(w.res, Skipped, key)
               case Routed(q, y) =>
                 r == if q !in w.to.data then Note(w.res, Created, q)
                      else if !e.opts.overwrite then Note(w.res, Skipped, key)
                      else if e.opts.skipUnchanged && ReadsTheSame(e.text, y, w.to.data[q])
                      then Note(w.res, Skipped, key)
                      else Note(w.res, Updated, q))
            case _ => r == Note(w.res, Skipped, key)
  {
  }

  /** Every listed key leaves the cells of other keys alone. */
  lemma {:induction false} CopyElsewhere<V(!new)>(e: CopyEnv<V>, w: CopyWorld<V>, keys: seq<string>, q: string)
    requires HealthyCopy(e) && !e.opts.dryRun
    requires forall k :: k in keys && Held(w.from, k).Val? ==>
               var d := Destination(e.opts, k, Held(w.from, k)); d.Routed? ==> d.key != q
    ensures var w' := CopyAll(e, w, keys);
            && w'.from.data == w.from.data
            && (q in w'.to.data <==> q in w.to.data) && Held(w'.to, q) == Held(w.to, q)
  {
    if keys != [] {
      var front, last := keys[..|keys| - 1], keys[|keys| - 1];
      assert keys == front + [last] && last in keys;
      CopyElsewhere(e, w, front, q);
      CopyKeyElsewhere(e, CopyAll(e, w, front), last, q);
    }
  }

  /** Copying one more key does not disturb a cell it is not routed to. */
  lemma CopyKeyElsewhere<V(!new)>(e: CopyEnv<V>, w: CopyWorld<V>, key: string, q: string)
    requires HealthyCopy(e) && !e.opts.dryRun
    requires Held(w.from, key).Val? && Destination(e.opts, key, Held(w.from, key)).Routed? ==>
               Destination(e.opts, key, Held(w.from, key)).key != q
    ensures var w' := CopyKey(e, w, key);
            && w'.from.data == w.from.data
            && (q in w'.to.data <==> q in w.to.data) && Held(w'.to, q) == Held(w.to, q)
  {
    var x := Held(w.from, key);
    if x.Val? && Destination(e.opts, key, x).Routed? {
      var d := Destination(e.opts, key, x);
      CopyToEffect(e, w.(from := Tick(w.from)), key, d.key, d.value);
    }
  }

  lemma CopyKeyHere<V(!new)>(e: CopyEnv<V>, w: CopyWorld<V>, key: string)
    requires HealthyCopy(e) && !e.opts.dryRun
    requires Held(w.from, key).Val? && Destination(e.opts, key, Held(w.from, key)).Routed?
    ensures var d := Destination(e.opts, key, Held(w.from, key));
            var w' := CopyKey(e, w, key);
            && w'.from.data == w.from.data
            && d.key in w'.to.data && w'.to.data[d.key] == Copied(e, w.to, d.key, d.value)
  {
    var d := Destination(e.opts, key, Held(w.from, key));
    CopyToEffect(e, w.(from := Tick(w.from)), key, d.key, d.value);
  }

  /** No other listed key is written under q. */
  ghost predicate AloneUnder<V(!new)>(e: CopyEnv<V>, from: Contents<V>, keys: seq<string>, key: string, q: string) {
    forall k :: k in keys && k != key && Held(from, k).Val? ==>
      var d := Destination(e.opts, k, Held(from, k)); d.Routed? ==> d.key != q
  }

  /** A listed key with a value and a destination of its own arrives there, by the overwrite and equality rules. */
  lemma {:induction false} CopyArrives<V(!new)>(e: CopyEnv<V>, w: CopyWorld<V>, keys: seq<string>, i: nat)
    requires HealthyCopy(e) && !e.opts.dryRun && NoDuplicates(keys)
    requires i < |keys| && Held(w.from, keys[i]).Val?
    requires Destination(e.opts, keys[i], Held(w.from, keys[i])).Routed?
    requires AloneUnder(e, w.from, keys, keys[i], Destination(e.opts, keys[i], Held(w.from, keys[i])).key)
    ensures var d := Destination(e.opts, keys[i], Held(w.from, keys[i]));
            var w' := CopyAll(e, w, keys);
            && w'.from.data == w.from.data
            && d.key in w'.to.data && w'.to.data[d.key] == Copied(e, w.to, d.key, d.value)
  {
    var front, last := keys[..|keys| - 1], keys[|keys| - 1];
    assert keys == front + [last] && last in keys && keys[i] in keys;
    assert forall k :: k in front ==> k in keys;
    var mid := CopyAll(e, w, front);
    if i == |front| {
      assert last !in front;
      CopyElsewhere(e, w, front, Destination(e.opts, last, Held(w.from, last)).key);
      CopyKeyHere(e, mid, last);
    } else {
      CopyArrives(e, w, front, i);
      assert keys[i] != last;
      CopyKeyElsewhere(e, mid, last, Destination(e.opts, keys[i], Held(w.from, keys[i])).key);
    }
  }

  /** So when listed keys map apart. */
  lemma CopyHere<V(!new)>(e: CopyEnv<V>, w: CopyWorld<V>, keys: seq<string>, i: nat)
    requires HealthyCopy(e) && !e.opts.dryRun && MapsApart(e.opts, keys) && NoDuplicates(keys)
    requires i < |keys| && Held(w.from, keys[i]).Val?
    requires Destination(e.opts, keys[i], Held(w.from, keys[i])).Routed?
    ensures var d := Destination(e.opts, keys[i], Held(w.from, keys[i]));
            var w' := CopyAll(e, w, keys);
            && w'.from.data == w.from.data
            && d.key in w'.to.data && w'.to.data[d.key] == Copied(e, w.to, d.key, d.value)
  {
    assert keys[i] in keys;
    CopyArrives(e, w, keys, i);
  }

  function Keeps(keep: Option<set<string>>): string -> bool {
    k => keep.Some? ==> k in keep.value
  }

  lemma FilterMore(front: seq<string>, last: string, keep: Option<set<string>>)
    ensures Filter(front + [last], keep)
         == if Keeps(keep)(last) then Filter(front, keep) + [last] else Filter(front, keep)
  {
    assert (front + [last])[..|front|] == front;
  }

  /** Filtering leaves the listing's keys that are kept, in its order. */
  lemma {:induction false} FilterSelects(keys: seq<string>, keep: Option<set<string>>)
    ensures Selects(keys, Keeps(keep), Filter(keys, keep))
    ensures forall k :: Keeps(keep)(k) == (keep.None? || k in keep.value)
  {
    if keys == [] {
      SelectsNone(Keeps(keep));
    } else {
      var front, last := keys[..|keys| - 1], keys[|keys| - 1];
      assert keys == front + [last];
      FilterSelects(front, keep);
      FilterMore(front, last, keep);
      SelectsMore(front, Keeps(keep), Filter(front, keep), last);
    }
  }

  lemma FilterMembers(keys: seq<string>, keep: Option<set<string>>, k: string)
    ensures k in Filter(keys, keep) <==> k in keys && (keep.Some? ==> k in keep.value)
  {
    if keep.Some? && keys != [] {
      FilterMembers(keys[..|keys| - 1], keep, k);
      assert keys == keys[..|keys| - 1] + [keys[|keys| - 1]];
    }
  }

  lemma FilterDistinct(keys: seq<string>, keep: Option<set<string>>)
    requires NoDuplicates(keys)
    ensures NoDuplicates(Filter(keys, keep))
  {
    if keep.Some? && keys != [] {
      var front, last := keys[..|keys| - 1], keys[|keys| - 1];
      FilterDistinct(front, keep);
      FilterMembers(front, keep, last);
    }
  }

  // ---- dry runs ----

  function DryCopy<V>(e: CopyEnv<V>): CopyEnv<V> {
    e.(opts := e.opts.(dryRun := true))
  }

  lemma CopyToRehearsed<V(!new)>(e: CopyEnv<V>, w: CopyWorld<V>, d: CopyWorld<V>, key: string, k: string, y: Js<V>)
    requires HealthyCopy(e) && !e.opts.dryRun
    requires w.res.(dryRun := true) == d.res
    requires (k in w.to.data <==> k in d.to.data) && Held(w.to, k) == Held(d.to, k)
    ensures var w', d' := CopyTo(e, w, key, k, y), CopyTo(DryCopy(e), d, key, k, y);
            && w'.res.(dryRun := true) == d'.res
            && d'.to.data == d.to.data && d'.from == d.from
  {
  }

  lemma CopyKeyRehearsed<V(!new)>(e: CopyEnv<V>, w: CopyWorld<V>, d: CopyWorld<V>, key: string)
    requires HealthyCopy(e) && !e.opts.dryRun
    requires w.res.(dryRun := true) == d.res && w.from.data == d.from.data
    requires Held(w.from, key).Val? && Destination(e.opts, key, Held(w.from, key)).Routed? ==>
               var k := Destination(e.opts, key, Held(w.from, key)).key;
               (k in w.to.data <==> k in d.to.data) && Held(w.to, k) == Held(d.to, k)
    ensures var w', d' := CopyKey(e, w, key), CopyKey(DryCopy(e), d, key);
            && w'.res.(dryRun := true) == d'.res
            && d'.to.data == d.to.data && d'.from.data == d.from.data
  {
    var x := Held(w.from, key);
    if x.Val? && Destination(e.opts, key, x).Routed? {
      var r := Destination(e.opts, key, x);
      CopyToRehearsed(e, w.(from := Tick(w.from)), d.(from := Tick(d.from)), key, r.key, r.value);
    }
  }

  /**
   * When listed keys map to different keys, a dry copy writes nothing and reports what the
   * failure-free copy then reports.
   */
  lemma {:induction false} DryCopyPredicts<V(!new)>(e: CopyEnv<V>, w: CopyWorld<V>, keys: seq<string>)
    requires HealthyCopy(e) && !e.opts.dryRun && MapsApart(e.opts, keys) && NoDuplicates(keys)
    ensures var w', d' := CopyAll(e, w, keys), CopyAll(DryCopy(e), w.(res := w.res.(dryRun := true)), keys);
            && d'.res == w'.res.(dryRun := true)
            && d'.from.data == w.from.data == w'.from.data && d'.to.data == w.to.data
  {
    if keys != [] {
      var front, last := keys[..|keys| - 1], keys[|keys| - 1];
      assert keys == front + [last] && last in keys;
      assert forall k :: k in front ==> k in keys;
      DryCopyPredicts(e, w, front);
      var mid, d := CopyAll(e, w, front), CopyAll(DryCopy(e), w.(res := w.res.(dryRun := true)), front);
      var x := Held(w.from, last);
      if x.Val? && Destination(e.opts, last, x).Routed? {
        CopyElsewhere(e, w, front, Destination(e.opts, last, x).key);
      }
      CopyKeyKeepsFrom(e, mid, last);
      CopyKeyRehearsed(e, mid, d, last);
    }
  }
}
