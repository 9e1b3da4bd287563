/**
 * What one bidirectional sync of src/sync.ts does, as a function of the two stores,
 * the fault schedules of the adapters and the caller's options. SyncBidirectional
 * carries it out on mutable adapters; the theorems are stated about this function.
 */
module SyncSpec {
  import opened Outcomes
  import opened Adapter
  import opened SyncDiff
  import opened CompactHash

  const BASELINE_PREFIX := "__sync_baseline:"

  /** How values become text to hash, and how a baseline is packed into a stored value. */
  datatype Codec<!V> = Codec(
    text: V -> seq<CodeUnit>,
    pack: (string, Entries) -> V,
    unpack: V -> Option<Entries>)

  /** A transform's outcome: it throws, drops the key with null, or names a key and value to write. */
  datatype Routed<+V> = Raised | Dropped | Routed(key: string, value: Js<V>)

  datatype WriteTo = SourceOnly | TargetOnly | Both

  /** A conflict callback's outcome: it throws, declines with null, or picks a value. */
  datatype Decision<+V> = Raise | Decline | Pick(value: Js<V>, writeTo: WriteTo)

  datatype Resolution<!V> =
    | SkipConflicts
    | SourceWins
    | TargetWins
    | Callback(decide: (string, Js<V>, Js<V>) -> Decision<V>)

  datatype Options<!V> = Options(
    prefix: string,
    targetPrefix: string,
    transform: Option<(string, Js<V>) -> Routed<V>>,
    dryRun: bool,
    syncId: string,
    resolution: Resolution<V>,
    detectDeletions: Option<bool>,
    baseline: Option<Entries>)

  /** Where the baseline is kept: with one of the two stores, or in a third adapter. */
  datatype Home = InSource | InTarget | Apart

  /** same says that one adapter is given as both sides. */
  datatype Env<!V> = Env(
    source: Backend<V>,
    target: Backend<V>,
    apart: Backend<V>,
    home: Home,
    same: bool,
    codec: Codec<V>,
    opts: Options<V>)

  datatype KeyLists = KeyLists(
    created: seq<string>,
    updated: seq<string>,
    skipped: seq<string>,
    deleted: seq<string>,
    conflicts: seq<string>,
    errors: seq<string>)

  /** errors lists the key of each error record, in order. */
  datatype SyncResult = SyncResult(
    created: nat,
    updated: nat,
    skipped: nat,
    deleted: nat,
    conflicts: nat,
    errors: seq<string>,
    keys: KeyLists,
    dryRun: bool,
    baseline: Option<Entries>)

  function EmptyResult(dryRun: bool): SyncResult {
    SyncResult(0, 0, 0, 0, 0, [], KeyLists([], [], [], [], [], []), dryRun, None)
  }

  datatype Verdict = Created | Updated | Skipped | Deleted | Conflicting | Failed

  function Note(r: SyncResult, v: Verdict, key: string): SyncResult {
    match v
    case Created => r.(created := r.created + 1, keys := r.keys.(created := r.keys.created + [key]))
    case Updated => r.(updated := r.updated + 1, keys := r.keys.(updated := r.keys.updated + [key]))
    case Skipped => r.(skipped := r.skipped + 1, keys := r.keys.(skipped := r.keys.skipped + [key]))
    case Deleted => r.(deleted := r.deleted + 1, keys := r.keys.(deleted := r.keys.deleted + [key]))
    case Conflicting => r.(conflicts := r.conflicts + 1, keys := r.keys.(conflicts := r.keys.conflicts + [key]))
    case Failed => r.(errors := r.errors + [key], keys := r.keys.(errors := r.keys.errors + [key]))
  }

  /** The three stores and the result so far; apart is used only when the baseline lives apart. */
  datatype World<+V> = World(source: Contents<V>, target: Contents<V>, apart: Contents<V>, res: SyncResult)

  function HomeOf<V>(e: Env<V>, w: World<V>): Contents<V> {
    match e.home
    case InSource => w.source
    case InTarget => w.target
    case Apart => w.apart
  }

  function WithSource<V>(e: Env<V>, w: World<V>, c: Contents<V>): World<V> {
    if e.same then w.(source := c, target := c) else w.(source := c)
  }

  function WithTarget<V>(e: Env<V>, w: World<V>, c: Contents<V>): World<V> {
    if e.same then w.(source := c, target := c) else w.(target := c)
  }

  function WithHome<V>(e: Env<V>, w: World<V>, c: Contents<V>): World<V> {
    match e.home
    case InSource => WithSource(e, w, c)
    case InTarget => WithTarget(e, w, c)
    case Apart => w.(apart := c)
  }

  function HomeBackend<V>(e: Env<V>): Backend<V> {
    match e.home
    case InSource => e.source
    case InTarget => e.target
    case Apart => e.apart
  }

  // ---- hashing ----

  function HashOf<V>(codec: Codec<V>, v: V): string {
    CompactHashOf(codec.text(v))
  }

  /** compactHash throws on undefined: JSON.stringify gives undefined, which has no length. */
  predicate Hashable<V>(x: Js<V>) {
    !x.Undefined?
  }

  // ---- scanning a side ----

  /** The values a scan found, by source-space key, with the order in which the keys were first met. */
  datatype Snapshot<+V> = Snapshot(order: seq<string>, values: map<string, V>)

  datatype Scanned<+V> = Scanned(ok: bool, contents: Contents<V>, snap: Snapshot<V>)

  function Hashed<V>(codec: Codec<V>, snap: Snapshot<V>): Hashes {
    map k | k in snap.values :: HashOf(codec, snap.values[k])
  }

  function Seen<V>(snap: Snapshot<V>, key: string): Js<V> {
    if key in snap.values then Val(snap.values[key]) else Undefined
  }

  function Record<V>(snap: Snapshot<V>, key: string, v: V): Snapshot<V> {
    Snapshot(if key in snap.values then snap.order else snap.order + [key], snap.values[key := v])
  }

  /** s.slice(n) */
  function Slice(s: string, n: nat): string {
    if n <= |s| then s[n..] else ""
  }

  function ScanKey<V>(b: Backend<V>, x: Scanned<V>, key: string, strip: nat): Scanned<V> {
    if BASELINE_PREFIX <= key then x
    else
      var (r, c) := GetOp(b, x.contents, key);
      if r.Thrown? then Scanned(false, c, x.snap)
      else if !r.value.Val? then x.(contents := c)
      else Scanned(true, c, Record(x.snap, Slice(key, strip), r.value.v))
  }

  function Scan<V>(b: Backend<V>, c: Contents<V>, keys: seq<string>, strip: nat): Scanned<V> {
    if keys == [] then Scanned(true, c, Snapshot([], map[]))
    else
      var x := Scan(b, c, keys[..|keys| - 1], strip);
      if x.ok then ScanKey(b, x, keys[|keys| - 1], strip) else x
  }

  // ---- carrying out the diff ----

  datatype Phase = Push | Pull | DropSource | DropTarget | Resolve
  datatype Job = Job(phase: Phase, key: string)

  /** What stays fixed while the jobs run. */
  datatype Ctx<!V> = Ctx(env: Env<V>, source: Snapshot<V>, target: Snapshot<V>)

  datatype Side = AtSource | AtTarget

  function Write<V>(e: Env<V>, w: World<V>, side: Side, key: string, x: Js<V>): (bool, World<V>) {
    if e.opts.dryRun then (true, w)
    else match side
      case AtSource => var (ok, c) := SetOp(e.source, w.source, key, x); (ok, WithSource(e, w, c))
      case AtTarget => var (ok, c) := SetOp(e.target, w.target, key, x); (ok, WithTarget(e, w, c))
  }

  function Erase<V>(e: Env<V>, w: World<V>, side: Side, key: string): (bool, World<V>) {
    if e.opts.dryRun then (true, w)
    else match side
      case AtSource => var (ok, c) := DeleteOp(e.source, w.source, key); (ok, WithSource(e, w, c))
      case AtTarget => var (ok, c) := DeleteOp(e.target, w.target, key); (ok, WithTarget(e, w, c))
  }

  function Noted<V>(w: World<V>, v: Verdict, key: string): World<V> {
    w.(res := Note(w.res, v, key))
  }

  /** The key on one side for a source-space key, before any transform. */
  function SideKey(targetPrefix: string, side: Side, key: string): string {
    if side == AtTarget then targetPrefix + key else key
  }

  function Route<V>(opts: Options<V>, side: Side, key: string, x: Js<V>): Routed<V> {
    match opts.transform
    case None => Routed(SideKey(opts.targetPrefix, side, key), x)
    case Some(f) => f(key, x)
  }

  /** Transform, write, then hash what was written: the body shared by push, pull and the wins. */
  function Deliver<V>(e: Env<V>, w: World<V>, side: Side, key: string, x: Js<V>, v: Verdict): World<V> {
    match Route(e.opts, side, key, x)
    case Raised => Noted(w, Failed, key)
    case Dropped => Noted(w, Skipped, key)
    case Routed(k, y) =>
      var (ok, w') := Write(e, w, side, k, y);
      Noted(w', if ok && Hashable(y) then v else Failed, key)
  }

  function Settle<V>(e: Env<V>, w: World<V>, key: string, d: Decision<V>): World<V> {
    match d
    case Raise => Noted(w, Failed, key)
    case Decline => Noted(w, Conflicting, key)
    case Pick(x, to) =>
      if !Hashable(x) then Noted(w, Failed, key)
      else
        var (ok1, w1) := if to != TargetOnly then Write(e, w, AtSource, key, x) else (true, w);
        if !ok1 then Noted(w1, Failed, key)
        else
          var (ok2, w2) := if to == SourceOnly then (true, w1)
                           else Write(e, w1, AtTarget, e.opts.targetPrefix + key, x);
          Noted(w2, if ok2 then Updated else Failed, key)
  }

  function Step<V>(c: Ctx<V>, w: World<V>, job: Job): World<V> {
    var e, key := c.env, job.key;
    match job.phase
    case Push => Deliver(e, w, AtTarget, key, Seen(c.source, key), if key in c.target.values then Updated else Created)
    case Pull => Deliver(e, w, AtSource, key, Seen(c.target, key), if key in c.source.values then Updated else Created)
    case DropSource =>
      var (ok, w') := Erase(e, w, AtSource, key);
      Noted(w', if ok then Deleted else Failed, key)
    case DropTarget =>
      var (ok, w') := Erase(e, w, AtTarget, e.opts.targetPrefix + key);
      Noted(w', if ok then Deleted else Failed, key)
    case Resolve =>
      match e.opts.resolution
      case SkipConflicts => Noted(w, Conflicting, key)
      case SourceWins => Deliver(e, w, AtTarget, key, Seen(c.source, key), Updated)
      case TargetWins => Deliver(e, w, AtSource, key, Seen(c.target, key), Updated)
      case Callback(decide) => Settle(e, w, key, decide(key, Seen(c.source, key), Seen(c.target, key)))
  }

  function RunJobs<V>(c: Ctx<V>, w: World<V>, jobs: seq<Job>): World<V> {
    if jobs == [] then w else Step(c, RunJobs(c, w, jobs[..|jobs| - 1]), jobs[|jobs| - 1])
  }

  function Tag(phase: Phase, keys: seq<string>): seq<Job> {
    seq(|keys|, i requires 0 <= i < |keys| => Job(phase, keys[i]))
  }

  function JobsOf(d: Diff): seq<Job> {
    Tag(Push, d.toPush) + Tag(Pull, d.toPull)
    + Tag(DropSource, d.deleteFromSource) + Tag(DropTarget, d.deleteFromTarget)
    + Tag(Resolve, d.conflicts)
  }

  // ---- the new baseline ----

  datatype Rebuilt<+V> = Rebuilt(ok: bool, world: World<V>, entries: Entries)

  function HashRead<V>(codec: Codec<V>, x: Js<V>): string {
    if x.Val? then HashOf(codec, x.v) else ""
  }

  function AddEntry(entries: Entries, key: string, s: string, t: string): Entries {
    if s != "" || t != "" then entries[key := Entry(s, t)] else entries
  }

  function RebuildKey<V>(c: Ctx<V>, d: Diff, x: Rebuilt<V>, key: string): Rebuilt<V> {
    var e, codec := c.env, c.env.codec;
    if key in d.deleteFromSource || key in d.deleteFromTarget then x
    else if (key in d.toPush || key in d.toPull || key in d.conflicts) && !e.opts.dryRun then
      var (r, s) := GetOp(e.source, x.world.source, key);
      var w := WithSource(e, x.world, s);
      if r.Thrown? then Rebuilt(false, w, x.entries)
      else
        var (r', t) := GetOp(e.target, w.target, e.opts.targetPrefix + key);
        var w' := WithTarget(e, w, t);
        if r'.Thrown? then Rebuilt(false, w', x.entries)
        else Rebuilt(true, w', AddEntry(x.entries, key, HashRead(codec, r.value), HashRead(codec, r'.value)))
    else x.(entries := AddEntry(x.entries, key, HashRead(codec, Seen(c.source, key)),
                                HashRead(codec, Seen(c.target, key))))
  }

  function Rebuild<V>(c: Ctx<V>, d: Diff, w: World<V>, keys: seq<string>): Rebuilt<V> {
    if keys == [] then Rebuilt(true, w, map[])
    else
      var x := Rebuild(c, d, w, keys[..|keys| - 1]);
      if x.ok then RebuildKey(c, d, x, keys[|keys| - 1]) else x
  }

  // ---- the whole run ----

  function BaselineKey(syncId: string): string {
    BASELINE_PREFIX + syncId
  }

  function LoadBaseline<V>(e: Env<V>, w: World<V>): (Option<Entries>, World<V>) {
    if e.opts.baseline.Some? then (e.opts.baseline, w)
    else if e.opts.syncId == "" then (None, w)
    else
      var (r, c) := GetOp(HomeBackend(e), HomeOf(e, w), BaselineKey(e.opts.syncId));
      (if r.Ok? && r.value.Val? then e.codec.unpack(r.value.v) else None, WithHome(e, w, c))
  }

  /** A run that got as far as the diff; the world is where the jobs start. */
  datatype Prepared<!V> =
    | Aborted(world: World<V>)
    | Ready(world: World<V>, ctx: Ctx<V>, keys: seq<string>, sides: Sides)

  function Prepare<V>(e: Env<V>, w: World<V>): Prepared<V> {
    var (sk, s0) := KeysOp(e.source, w.source, e.opts.prefix);
    var w1 := WithSource(e, w.(res := EmptyResult(e.opts.dryRun)), s0);
    if sk.Thrown? then Aborted(w1)
    else
      var (tk, t0) := KeysOp(e.target, w1.target, e.opts.targetPrefix + e.opts.prefix);
      var w2 := WithTarget(e, w1, t0);
      if tk.Thrown? then Aborted(w2)
      else
        var ss := Scan(e.source, w2.source, sk.value, 0);
        var w3 := WithSource(e, w2, ss.contents);
        if !ss.ok then Aborted(w3)
        else
          var ts := Scan(e.target, w3.target, tk.value, |e.opts.targetPrefix|);
          var w4 := WithTarget(e, w3, ts.contents);
          if !ts.ok then Aborted(w4)
          else
            var (baseline, w5) := LoadBaseline(e, w4);
            var detect := if e.opts.detectDeletions.Some? then e.opts.detectDeletions.value else baseline.Some?;
            Ready(w5, Ctx(e, ss.snap, ts.snap),
                  ss.snap.order + Fresh(ss.snap.order, ts.snap.order),
                  Sides(Hashed(e.codec, ss.snap), Hashed(e.codec, ts.snap), baseline, detect))
  }

  function SaveBaseline<V>(e: Env<V>, w: World<V>, entries: Entries): World<V> {
    var w' := w.(res := w.res.(baseline := Some(entries)));
    if e.opts.dryRun then w'
    else
      var (_, c) := SetOp(HomeBackend(e), HomeOf(e, w'), BaselineKey(e.opts.syncId),
                          Val(e.codec.pack(e.opts.syncId, entries)));
      WithHome(e, w', c)
  }

  /** settled is false when the promise rejects, which leaves the writes already made. */
  datatype Finish<+V> = Finish(settled: bool, world: World<V>)

  function Executed<V>(p: Prepared<V>): World<V>
    requires p.Ready?
  {
    RunJobs(p.ctx, p.world, JobsOf(DiffOf(p.keys, p.sides)))
  }

  function Reread<V>(p: Prepared<V>): Rebuilt<V>
    requires p.Ready?
  {
    Rebuild(p.ctx, DiffOf(p.keys, p.sides), Executed(p), p.keys)
  }

  /** Whether the run keeps a baseline of its own. */
  predicate KeepsBaseline<V>(opts: Options<V>) {
    opts.syncId != "" && opts.baseline.None?
  }

  function Conclude<V>(p: Prepared<V>): Finish<V>
    requires p.Ready?
  {
    if !KeepsBaseline(p.ctx.env.opts) then Finish(true, Executed(p))
    else
      var x := Reread(p);
      if x.ok then Finish(true, SaveBaseline(p.ctx.env, x.world, x.entries)) else Finish(false, x.world)
  }

  function Sync<V>(e: Env<V>, w: World<V>): Finish<V> {
    var p := Prepare(e, w);
    if p.Ready? then Conclude(p) else Finish(false, p.world)
  }
}
