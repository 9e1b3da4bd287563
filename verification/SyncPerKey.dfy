/**
 * A sync seen one key at a time: without failures, what happens to a key depends only on
 * that key's two values and its baseline entry.
 */
module SyncPerKey {
  import opened Outcomes
  import opened Adapter
  import opened SyncDiff
  import opened CompactHash
  import opened SyncSpec
  import opened SyncAccounting

  /** The value a reader finds under a key: missing keys and stored nulls read the same. */
  function View<V(!new)>(c: Contents<V>, key: string): Option<V> {
    if key in c.data && c.data[key].Val? then Some(c.data[key].v) else None
  }

  function SourceView<V(!new)>(w: World<V>, key: string): Option<V> {
    View(w.source, key)
  }

  function TargetView<V(!new)>(e: Env<V>, w: World<V>, key: string): Option<V> {
    View(w.target, e.opts.targetPrefix + key)
  }

  /** No operation fails, each store lists each of its keys once, and there are two of them. */
  ghost predicate Healthy<V(!new)>(e: Env<V>) {
    && Reliable(e.source) && Reliable(e.target) && Reliable(e.apart)
    && ListsOnce(e.source) && ListsOnce(e.target) && !e.same
  }

  /** Writes for a key go to that key's own cells: a transform keeps the key and there is no prefix. */
  ghost predicate Aligned<V(!new)>(opts: Options<V>) {
    opts.transform.Some? ==>
      && opts.targetPrefix == ""
      && forall k, x :: opts.transform.value(k, x).Routed? ==> opts.transform.value(k, x).key == k
  }

  /** A key the caller may sync: under the prefix and not a baseline's on either side. */
  predicate InScope<V(!new)>(opts: Options<V>, key: string) {
    && opts.prefix <= key
    && !(BASELINE_PREFIX <= key)
    && !(BASELINE_PREFIX <= opts.targetPrefix + key)
  }

  // ---- the reference: one key's fate ----

  function Arrives<V(!new)>(b: Backend<V>, r: Routed<V>, before: Option<V>): Option<V> {
    if !r.Routed? then before else if r.value.Val? then Some(b.canon(r.value.v)) else None
  }

  function AsJs<V(!new)>(o: Option<V>): Js<V> {
    if o.Some? then Val(o.value) else Undefined
  }

  datatype Pair<+V> = Pair(s: Option<V>, t: Option<V>)

  function Sent<V(!new)>(e: Env<V>, key: string, x: Pair<V>): Pair<V> {
    x.(t := Arrives(e.target, Route(e.opts, AtTarget, key, AsJs(x.s)), x.t))
  }

  function Fetched<V(!new)>(e: Env<V>, key: string, x: Pair<V>): Pair<V> {
    x.(s := Arrives(e.source, Route(e.opts, AtSource, key, AsJs(x.t)), x.s))
  }

  function Settled<V(!new)>(e: Env<V>, x: Pair<V>, d: Decision<V>): Pair<V> {
    if !d.Pick? || d.value.Undefined? then x
    else
      var s := if d.value.Val? then Some(e.source.canon(d.value.v)) else None;
      var t := if d.value.Val? then Some(e.target.canon(d.value.v)) else None;
      Pair(if d.writeTo == TargetOnly then x.s else s, if d.writeTo == SourceOnly then x.t else t)
  }

  /** What a reader finds on the two sides after a sync that classified the key as c. */
  function After<V(!new)>(e: Env<V>, c: Class, key: string, x: Pair<V>): Pair<V> {
    match c
    case ToPush => Sent(e, key, x)
    case ToPull => Fetched(e, key, x)
    case DeleteFromSource => x.(s := None)
    case DeleteFromTarget => x.(t := None)
    case Conflict =>
      (match e.opts.resolution
       case SkipConflicts => x
       case SourceWins => Sent(e, key, x)
       case TargetWins => Fetched(e, key, x)
       case Callback(decide) => Settled(e, x, decide(key, AsJs(x.s), AsJs(x.t))))
    case Unchanged => x
    case Gone => x
  }

  function Fingerprint<V(!new)>(codec: Codec<V>, o: Option<V>): string {
    if o.Some? then HashOf(codec, o.value) else ""
  }

  function EntryFor<V(!new)>(codec: Codec<V>, x: Pair<V>): Option<Entry> {
    if x.s.None? && x.t.None? then None else Some(Entry(Fingerprint(codec, x.s), Fingerprint(codec, x.t)))
  }

  function PairAt<V(!new)>(e: Env<V>, w: World<V>, key: string): Pair<V> {
    Pair(SourceView(w, key), TargetView(e, w, key))
  }

  /** The baseline a run starts from. */
  function StartBaseline<V(!new)>(e: Env<V>, w: World<V>): Option<Entries> {
    if e.opts.baseline.Some? then e.opts.baseline
    else if e.opts.syncId == "" then None
    else
      var v := View(HomeOf(e, w), BaselineKey(e.opts.syncId));
      if v.Some? then e.codec.unpack(v.value) else None
  }

  function Detects<V(!new)>(e: Env<V>, w: World<V>): bool {
    if e.opts.detectDeletions.Some? then e.opts.detectDeletions.value else StartBaseline(e, w).Some?
  }

  function ClassAt<V(!new)>(e: Env<V>, w: World<V>, key: string): Class {
    Classify(Fingerprint(e.codec, SourceView(w, key)), Fingerprint(e.codec, TargetView(e, w, key)),
             EntryAt(StartBaseline(e, w), key), Detects(e, w))
  }

  lemma FingerprintIsTruthy<V(!new)>(codec: Codec<V>, o: Option<V>)
    ensures Fingerprint(codec, o) == "" <==> o.None?
  {
    if o.Some? {
      HashShape(codec.text(o.value));
    }
  }

  // ---- scanning finds exactly the views ----

  lemma ScanKeyReads<V(!new)>(b: Backend<V>, x: Scanned<V>, key: string, strip: nat)
    requires x.ok && ScanKey(b, x, key, strip).ok
    ensures var y := ScanKey(b, x, key, strip);
            && y.contents.data == x.contents.data
            && y.snap.values == if !(BASELINE_PREFIX <= key) && View(x.contents, key).Some?
                                then x.snap.values[Slice(key, strip) := View(x.contents, key).value]
                                else x.snap.values
  {
  }

  /** A scan that goes through maps k to what p + k holds, for keys that all start with p. */
  lemma {:induction false} ScanFinds<V(!new)>(b: Backend<V>, c: Contents<V>, keys: seq<string>, p: string, k: string)
    requires Scan(b, c, keys, |p|).ok
    requires forall key :: key in keys ==> p <= key
    ensures var x := Scan(b, c, keys, |p|);
            && x.contents.data == c.data
            && Seen(x.snap, k)
               == if p + k in keys && !(BASELINE_PREFIX <= p + k) then AsJs(View(c, p + k)) else Undefined
  {
    if keys != [] {
      var front, last := keys[..|keys| - 1], keys[|keys| - 1];
      assert keys == front + [last];
      assert last in keys && forall key :: key in front ==> key in keys;
      ScanFinds(b, c, front, p, k);
      var x := Scan(b, c, front, |p|);
      ScanKeyReads(b, x, last, |p|);
      assert last == p + last[|p|..];
      assert p + k == last <==> k == last[|p|..];
    }
  }

  lemma {:induction false} ReliableScan<V(!new)>(b: Backend<V>, c: Contents<V>, keys: seq<string>, strip: nat)
    requires Reliable(b)
    ensures Scan(b, c, keys, strip).ok
  {
    if keys != [] {
      ReliableScan(b, c, keys[..|keys| - 1], strip);
    }
  }

  lemma ListedKeys<V(!new)>(b: Backend<V>, c: Contents<V>, prefix: string)
    requires ListsOnce(b) && KeysOp(b, c, prefix).0.Ok?
    ensures var (r, c') := KeysOp(b, c, prefix);
            && c'.data == c.data
            && forall k :: k in r.value <==> k in c.data && prefix <= k
  {
    var ks := set k | k in c.data && prefix <= k;
    assert forall k :: k in b.list(c.clock, ks) <==> k in ks;
  }

  lemma PrefixPlus(p: string, q: string, k: string)
    ensures p + q <= p + k <==> q <= k
  {
    if p + q <= p + k {
      assert forall i :: 0 <= i < |q| ==> q[i] == (p + q)[|p| + i] == (p + k)[|p| + i] == k[i];
    }
    if q <= k {
      assert p + k == (p + q) + k[|q|..];
    }
  }

  ghost predicate SameData<V(!new)>(w: World<V>, w': World<V>) {
    w.source.data == w'.source.data && w.target.data == w'.target.data && w.apart.data == w'.apart.data
  }

  /** Listing and scanning one side, whose keys all carry p. */
  lemma SideSees<V(!new)>(b: Backend<V>, c: Contents<V>, p: string, prefix: string, k: string)
    requires ListsOnce(b) && KeysOp(b, c, p + prefix).0.Ok?
    requires var (r, c') := KeysOp(b, c, p + prefix); Scan(b, c', r.value, |p|).ok
    ensures var (r, c') := KeysOp(b, c, p + prefix);
            var x := Scan(b, c', r.value, |p|);
            && x.contents.data == c.data
            && Seen(x.snap, k) == if prefix <= k && !(BASELINE_PREFIX <= p + k) then AsJs(View(c, p + k)) else Undefined
  {
    ListedKeys(b, c, p + prefix);
    var (r, c') := KeysOp(b, c, p + prefix);
    forall key | key in r.value
      ensures p <= key
    {
      assert p <= p + prefix <= key;
    }
    ScanFinds(b, c', r.value, p, k);
    PrefixPlus(p, prefix, k);
  }

  /** There are two stores, and each lists each of its keys once. */
  ghost predicate Paired<V(!new)>(e: Env<V>) {
    !e.same && ListsOnce(e.source) && ListsOnce(e.target)
  }

  lemma LoadReads<V(!new)>(e: Env<V>, w: World<V>)
    requires !e.same
    ensures SameData(w, LoadBaseline(e, w).1)
  {
  }

  /** A run that reaches the diff has written nothing and seen each in-scope key as it is, whatever failed. */
  lemma PrepareReadsKey<V(!new)>(e: Env<V>, w: World<V>, k: string)
    requires Paired(e) && Prepare(e, w).Ready?
    ensures var p := Prepare(e, w);
            && SameData(w, p.world) && p.ctx.env == e
            && p.sides.source == Hashed(e.codec, p.ctx.source) && p.sides.target == Hashed(e.codec, p.ctx.target)
            && Seen(p.ctx.source, k) == (if e.opts.prefix <= k && !(BASELINE_PREFIX <= k)
                                         then AsJs(SourceView(w, k)) else Undefined)
            && Seen(p.ctx.target, k) == (if e.opts.prefix <= k && !(BASELINE_PREFIX <= e.opts.targetPrefix + k)
                                         then AsJs(TargetView(e, w, k)) else Undefined)
  {
    assert "" + e.opts.prefix == e.opts.prefix && "" + k == k;
    SideSees(e.source, w.source, "", e.opts.prefix, k);
    SideSees(e.target, w.target, e.opts.targetPrefix, e.opts.prefix, k);
    var (sk, s0) := KeysOp(e.source, w.source, e.opts.prefix);
    var (tk, t0) := KeysOp(e.target, w.target, e.opts.targetPrefix + e.opts.prefix);
    var ss := Scan(e.source, s0, sk.value, 0);
    var ts := Scan(e.target, t0, tk.value, |e.opts.targetPrefix|);
    LoadReads(e, w.(source := ss.contents, target := ts.contents, res := EmptyResult(e.opts.dryRun)));
  }

  lemma LoadsStartBaseline<V(!new)>(e: Env<V>, w: World<V>, w': World<V>)
    requires Healthy(e) && SameData(w, w')
    ensures LoadBaseline(e, w').0 == StartBaseline(e, w)
  {
  }

  /** A healthy run reaches the diff, with the baseline it starts from. */
  lemma PrepareSees<V(!new)>(e: Env<V>, w: World<V>)
    requires Healthy(e)
    ensures var p := Prepare(e, w);
            && p.Ready? && SameData(w, p.world) && p.ctx.env == e
            && p.sides.baseline == StartBaseline(e, w) && p.sides.detectDeletions == Detects(e, w)
            && p.sides.source == Hashed(e.codec, p.ctx.source) && p.sides.target == Hashed(e.codec, p.ctx.target)
  {
    var (sk, s0) := KeysOp(e.source, w.source, e.opts.prefix);
    var (tk, t0) := KeysOp(e.target, w.target, e.opts.targetPrefix + e.opts.prefix);
    ReliableScan(e.source, s0, sk.value, 0);
    ReliableScan(e.target, t0, tk.value, |e.opts.targetPrefix|);
    assert Prepare(e, w).Ready?;
    PrepareReadsKey(e, w, "");
    var ss := Scan(e.source, s0, sk.value, 0);
    var ts := Scan(e.target, t0, tk.value, |e.opts.targetPrefix|);
    ScansRead(e, w);
    LoadsStartBaseline(e, w, w.(source := ss.contents, target := ts.contents, res := EmptyResult(e.opts.dryRun)));
  }

  lemma ScansRead<V(!new)>(e: Env<V>, w: World<V>)
    requires Healthy(e)
    ensures var (sk, s0) := KeysOp(e.source, w.source, e.opts.prefix);
            var (tk, t0) := KeysOp(e.target, w.target, e.opts.targetPrefix + e.opts.prefix);
            && Scan(e.source, s0, sk.value, 0).contents.data == w.source.data
            && Scan(e.target, t0, tk.value, |e.opts.targetPrefix|).contents.data == w.target.data
  {
    var (sk, s0) := KeysOp(e.source, w.source, e.opts.prefix);
    var (tk, t0) := KeysOp(e.target, w.target, e.opts.targetPrefix + e.opts.prefix);
    ReliableScan(e.source, s0, sk.value, 0);
    ReliableScan(e.target, t0, tk.value, |e.opts.targetPrefix|);
    assert "" + e.opts.prefix == e.opts.prefix;
    SideSees(e.source, w.source, "", e.opts.prefix, "");
    SideSees(e.target, w.target, e.opts.targetPrefix, e.opts.prefix, "");
  }

  // ---- each job touches only its own key ----

  function PhaseClass(phase: Phase): Class {
    match phase
    case Push => ToPush
    case Pull => ToPull
    case DropSource => DeleteFromSource
    case DropTarget => DeleteFromTarget
    case Resolve => Conflict
  }

  lemma WriteElsewhere<V(!new)>(e: Env<V>, w: World<V>, side: Side, key: string, x: Js<V>, k: string)
    requires !e.same && key != SideKey(e.opts.targetPrefix, side, k)
    ensures PairAt(e, Write(e, w, side, key, x).1, k) == PairAt(e, w, k)
  {
  }

  lemma DeliverElsewhere<V(!new)>(e: Env<V>, w: World<V>, side: Side, key: string, x: Js<V>, v: Verdict, k: string)
    requires !e.same && Aligned(e.opts) && key != k
    ensures PairAt(e, Deliver(e, w, side, key, x, v), k) == PairAt(e, w, k)
  {
    var r := Route(e.opts, side, key, x);
    if r.Routed? {
      assert r.key == SideKey(e.opts.targetPrefix, side, key);
      SideKeysDiffer(e.opts.targetPrefix, side, key, k);
      WriteElsewhere(e, w, side, r.key, r.value, k);
    }
  }

  lemma SideKeysDiffer(tp: string, side: Side, a: string, b: string)
    requires a != b
    ensures SideKey(tp, side, a) != SideKey(tp, side, b)
  {
    assert (tp + a)[|tp|..] == a && (tp + b)[|tp|..] == b;
  }

  lemma SettleElsewhere<V(!new)>(e: Env<V>, w: World<V>, key: string, d: Decision<V>, k: string)
    requires !e.same && key != k
    ensures PairAt(e, Settle(e, w, key, d), k) == PairAt(e, w, k)
  {
    SideKeysDiffer(e.opts.targetPrefix, AtTarget, key, k);
    if d.Pick? && Hashable(d.value) && d.writeTo != TargetOnly {
      WriteElsewhere(e, w, AtSource, key, d.value, k);
    }
  }

  /** A job leaves every other key alone, even when it fails. */
  lemma StepElsewhere<V(!new)>(c: Ctx<V>, w: World<V>, job: Job, k: string)
    requires !c.env.same && Aligned(c.env.opts) && job.key != k
    ensures PairAt(c.env, Step(c, w, job), k) == PairAt(c.env, w, k)
  {
    var e, key := c.env, job.key;
    SideKeysDiffer(e.opts.targetPrefix, AtTarget, key, k);
    match job.phase
    case Push => DeliverElsewhere(e, w, AtTarget, key, Seen(c.source, key),
                                  if key in c.target.values then Updated else Created, k);
    case Pull => DeliverElsewhere(e, w, AtSource, key, Seen(c.target, key),
                                  if key in c.source.values then Updated else Created, k);
    case DropSource =>
    case DropTarget =>
    case Resolve =>
      match e.opts.resolution
      case SkipConflicts =>
      case SourceWins => DeliverElsewhere(e, w, AtTarget, key, Seen(c.source, key), Updated, k);
      case TargetWins => DeliverElsewhere(e, w, AtSource, key, Seen(c.target, key), Updated, k);
      case Callback(decide) => SettleElsewhere(e, w, key, decide(key, Seen(c.source, key), Seen(c.target, key)), k);
  }

  lemma DeliverHere<V(!new)>(e: Env<V>, w: World<V>, side: Side, key: string, x: Js<V>, v: Verdict)
    requires Healthy(e) && Aligned(e.opts) && !e.opts.dryRun
    ensures var r := Route(e.opts, side, key, x);
            PairAt(e, Deliver(e, w, side, key, x, v), key) ==
            if side == AtTarget then PairAt(e, w, key).(t := Arrives(e.target, r, TargetView(e, w, key)))
            else PairAt(e, w, key).(s := Arrives(e.source, r, SourceView(w, key)))
  {
    var r := Route(e.opts, side, key, x);
    if r.Routed? {
      assert r.key == SideKey(e.opts.targetPrefix, side, key);
    }
  }

  /** A job does to its own key what the reference says. */
  lemma StepHere<V(!new)>(c: Ctx<V>, w: World<V>, job: Job)
    requires Healthy(c.env) && Aligned(c.env.opts) && !c.env.opts.dryRun
    requires Seen(c.source, job.key) == AsJs(SourceView(w, job.key))
    requires Seen(c.target, job.key) == AsJs(TargetView(c.env, w, job.key))
    ensures PairAt(c.env, Step(c, w, job), job.key)
         == After(c.env, PhaseClass(job.phase), job.key, PairAt(c.env, w, job.key))
  {
    var e, key := c.env, job.key;
    var x := PairAt(e, w, key);
    match job.phase
    case Push => DeliverHere(e, w, AtTarget, key, AsJs(x.s), if key in c.target.values then Updated else Created);
    case Pull => DeliverHere(e, w, AtSource, key, AsJs(x.t), if key in c.source.values then Updated else Created);
    case DropSource =>
    case DropTarget =>
    case Resolve =>
      match e.opts.resolution
      case SkipConflicts =>
      case SourceWins => DeliverHere(e, w, AtTarget, key, AsJs(x.s), Updated);
      case TargetWins => DeliverHere(e, w, AtSource, key, AsJs(x.t), Updated);
      case Callback(decide) =>
  }

  lemma {:induction false} RunElsewhere<V(!new)>(c: Ctx<V>, w: World<V>, jobs: seq<Job>, k: string)
    requires !c.env.same && Aligned(c.env.opts) && forall i :: 0 <= i < |jobs| ==> jobs[i].key != k
    ensures PairAt(c.env, RunJobs(c, w, jobs), k) == PairAt(c.env, w, k)
  {
    if jobs != [] {
      RunElsewhere(c, w, jobs[..|jobs| - 1], k);
      StepElsewhere(c, RunJobs(c, w, jobs[..|jobs| - 1]), jobs[|jobs| - 1], k);
    }
  }

  /** The whole run does to a key what its one job does to it alone. */
  lemma {:induction false} RunHere<V(!new)>(c: Ctx<V>, w: World<V>, jobs: seq<Job>, i: nat)
    requires Healthy(c.env) && Aligned(c.env.opts) && !c.env.opts.dryRun
    requires i < |jobs| && forall j :: 0 <= j < |jobs| && j != i ==> jobs[j].key != jobs[i].key
    requires Seen(c.source, jobs[i].key) == AsJs(SourceView(w, jobs[i].key))
    requires Seen(c.target, jobs[i].key) == AsJs(TargetView(c.env, w, jobs[i].key))
    ensures PairAt(c.env, RunJobs(c, w, jobs), jobs[i].key)
         == After(c.env, PhaseClass(jobs[i].phase), jobs[i].key, PairAt(c.env, w, jobs[i].key))
  {
    var front, last := jobs[..|jobs| - 1], jobs[|jobs| - 1];
    var mid := RunJobs(c, w, front);
    if i == |jobs| - 1 {
      RunElsewhere(c, w, front, last.key);
      StepHere(c, mid, last);
    } else {
      RunHere(c, w, front, i);
      StepElsewhere(c, mid, last, jobs[i].key);
    }
  }

  // ---- the diff gives each key at most one job ----

  lemma CountsGiveDistinct(keys: seq<string>)
    requires forall k :: multiset(keys)[k] <= 1
    ensures NoDuplicates(keys)
  {
    forall i, j | 0 <= i < j < |keys|
      ensures keys[i] != keys[j]
    {
      assert keys == keys[..j] + keys[j..];
      assert multiset(keys) == multiset(keys[..j]) + multiset(keys[j..]);
      assert keys[..j][i] in keys[..j] && keys[j..][0] in keys[j..];
      assert multiset(keys)[keys[i]] <= 1;
    }
  }

  lemma JobsAreDistinct(keys: seq<string>, x: Sides)
    requires NoDuplicates(keys)
    ensures NoDuplicates(KeysOf(JobsOf(DiffOf(keys, x))))
  {
    KeysOfDiff(DiffOf(keys, x));
    forall k
      ensures multiset(KeysOf(JobsOf(DiffOf(keys, x))))[k] <= 1
    {
      AssignedOnce(keys, x, k);
    }
    CountsGiveDistinct(KeysOf(JobsOf(DiffOf(keys, x))));
  }

  lemma TagHolds(phase: Phase, keys: seq<string>, job: Job)
    ensures job in Tag(phase, keys) <==> job.phase == phase && job.key in keys
  {
    if job.phase == phase && job.key in keys {
      var i :| 0 <= i < |keys| && keys[i] == job.key;
      assert Tag(phase, keys)[i] == job;
    }
  }

  /** A key has a job of some phase exactly when it is listed with that phase's class. */
  lemma JobsFollowClasses(keys: seq<string>, x: Sides, job: Job)
    ensures job in JobsOf(DiffOf(keys, x)) <==> job.key in keys && ClassOf(x, job.key) == PhaseClass(job.phase)
  {
    var d := DiffOf(keys, x);
    TagHolds(Push, d.toPush, job);
    TagHolds(Pull, d.toPull, job);
    TagHolds(DropSource, d.deleteFromSource, job);
    TagHolds(DropTarget, d.deleteFromTarget, job);
    TagHolds(Resolve, d.conflicts, job);
    SelectMembers(keys, x, PhaseClass(job.phase), job.key);
  }

  // ---- the whole run, one key at a time ----

  /** What a run that reaches the diff knows of an in-scope key. */
  lemma ReadyKey<V(!new)>(e: Env<V>, w: World<V>, k: string)
    requires Paired(e) && Prepare(e, w).Ready? && InScope(e.opts, k)
    ensures var p := Prepare(e, w);
            && p.ctx.env == e && NoDuplicates(p.keys)
            && PairAt(e, p.world, k) == PairAt(e, w, k)
            && Seen(p.ctx.source, k) == AsJs(SourceView(w, k))
            && Seen(p.ctx.target, k) == AsJs(TargetView(e, w, k))
            && (k in p.keys <==> PairAt(e, w, k) != Pair(None, None))
            && HashAt(p.sides.source, k) == Fingerprint(e.codec, SourceView(w, k))
            && HashAt(p.sides.target, k) == Fingerprint(e.codec, TargetView(e, w, k))
  {
    PrepareReadsKey(e, w, k);
    PreparedIsOrderly(e, w);
    HashSeen(e.codec, Prepare(e, w).ctx.source, k);
    HashSeen(e.codec, Prepare(e, w).ctx.target, k);
  }

  lemma PreparedKey<V(!new)>(e: Env<V>, w: World<V>, k: string)
    requires Healthy(e) && InScope(e.opts, k)
    ensures var p := Prepare(e, w);
            && p.Ready? && p.ctx.env == e && NoDuplicates(p.keys)
            && PairAt(e, p.world, k) == PairAt(e, w, k)
            && Seen(p.ctx.source, k) == AsJs(SourceView(w, k))
            && Seen(p.ctx.target, k) == AsJs(TargetView(e, w, k))
            && (k in p.keys <==> PairAt(e, w, k) != Pair(None, None))
            && ClassOf(p.sides, k) == ClassAt(e, w, k)
  {
    PrepareSees(e, w);
    ReadyKey(e, w, k);
  }

  lemma HashSeen<V(!new)>(codec: Codec<V>, snap: Snapshot<V>, k: string)
    ensures HashAt(Hashed(codec, snap), k) == HashRead(codec, Seen(snap, k))
  {
  }

  lemma RunWithoutJob<V(!new)>(p: Prepared<V>, k: string)
    requires p.Ready? && !p.ctx.env.same && Aligned(p.ctx.env.opts)
    requires ClassOf(p.sides, k) in {Unchanged, Gone}
    ensures PairAt(p.ctx.env, Executed(p), k) == PairAt(p.ctx.env, p.world, k)
  {
    var jobs := JobsOf(DiffOf(p.keys, p.sides));
    forall i | 0 <= i < |jobs|
      ensures jobs[i].key != k
    {
      JobsFollowClasses(p.keys, p.sides, jobs[i]);
    }
    RunElsewhere(p.ctx, p.world, jobs, k);
  }

  lemma RunWithJob<V(!new)>(p: Prepared<V>, k: string, phase: Phase)
    requires p.Ready? && Healthy(p.ctx.env) && Aligned(p.ctx.env.opts) && !p.ctx.env.opts.dryRun
    requires NoDuplicates(p.keys) && k in p.keys && ClassOf(p.sides, k) == PhaseClass(phase)
    requires Seen(p.ctx.source, k) == AsJs(SourceView(p.world, k))
    requires Seen(p.ctx.target, k) == AsJs(TargetView(p.ctx.env, p.world, k))
    ensures PairAt(p.ctx.env, Executed(p), k)
         == After(p.ctx.env, PhaseClass(phase), k, PairAt(p.ctx.env, p.world, k))
  {
    var jobs := JobsOf(DiffOf(p.keys, p.sides));
    JobsAreDistinct(p.keys, p.sides);
    JobsFollowClasses(p.keys, p.sides, Job(phase, k));
    var i :| 0 <= i < |jobs| && jobs[i] == Job(phase, k);
    forall j | 0 <= j < |jobs| && j != i
      ensures jobs[j].key != k
    {
      assert KeysOf(jobs)[j] != KeysOf(jobs)[i];
    }
    RunHere(p.ctx, p.world, jobs, i);
  }

  lemma RunOnKey<V(!new)>(p: Prepared<V>, k: string, c: Class)
    requires p.Ready? && Healthy(p.ctx.env) && Aligned(p.ctx.env.opts) && !p.ctx.env.opts.dryRun
    requires NoDuplicates(p.keys) && ClassOf(p.sides, k) == c && (c != Gone ==> k in p.keys)
    requires Seen(p.ctx.source, k) == AsJs(SourceView(p.world, k))
    requires Seen(p.ctx.target, k) == AsJs(TargetView(p.ctx.env, p.world, k))
    ensures PairAt(p.ctx.env, Executed(p), k)
         == After(p.ctx.env, c, k, PairAt(p.ctx.env, p.world, k))
  {
    match c
    case Unchanged => RunWithoutJob(p, k);
    case Gone => RunWithoutJob(p, k);
    case ToPush => RunWithJob(p, k, Push);
    case ToPull => RunWithJob(p, k, Pull);
    case DeleteFromSource => RunWithJob(p, k, DropSource);
    case DeleteFromTarget => RunWithJob(p, k, DropTarget);
    case Conflict => RunWithJob(p, k, Resolve);
  }

  lemma GoneWhenAbsent<V(!new)>(e: Env<V>, w: World<V>, k: string)
    ensures ClassAt(e, w, k) == Gone <==> PairAt(e, w, k) == Pair(None, None)
  {
    FingerprintIsTruthy(e.codec, SourceView(w, k));
    FingerprintIsTruthy(e.codec, TargetView(e, w, k));
  }

  lemma JobsActOnKey<V(!new)>(e: Env<V>, w: World<V>, k: string)
    requires Healthy(e) && Aligned(e.opts) && !e.opts.dryRun && InScope(e.opts, k)
    ensures var p := Prepare(e, w);
            && p.Ready?
            && PairAt(e, Executed(p), k)
               == After(e, ClassAt(e, w, k), k, PairAt(e, w, k))
  {
    PreparedKey(e, w, k);
    GoneWhenAbsent(e, w, k);
    RunOnKey(Prepare(e, w), k, ClassAt(e, w, k));
  }

  // ---- the rebuilt baseline ----

  /** Rebuilding reads but never writes, and gives an entry to a key from what it finds. */
  lemma RebuildKeyReads<V(!new)>(c: Ctx<V>, d: Diff, x: Rebuilt<V>, key: string)
    requires !c.env.same && x.ok && RebuildKey(c, d, x, key).ok
    ensures var y := RebuildKey(c, d, x, key);
            && SameData(x.world, y.world)
            && (forall k :: k != key ==> EntryAt(Some(y.entries), k) == EntryAt(Some(x.entries), k))
  {
  }

  lemma ReliableRebuildKey<V(!new)>(c: Ctx<V>, d: Diff, x: Rebuilt<V>, key: string)
    requires Healthy(c.env) && x.ok
    ensures RebuildKey(c, d, x, key).ok
  {
  }

  lemma {:induction false} ReliableRebuild<V(!new)>(c: Ctx<V>, d: Diff, w: World<V>, keys: seq<string>)
    requires Healthy(c.env)
    ensures Rebuild(c, d, w, keys).ok
  {
    if keys != [] {
      ReliableRebuild(c, d, w, keys[..|keys| - 1]);
      ReliableRebuildKey(c, d, Rebuild(c, d, w, keys[..|keys| - 1]), keys[|keys| - 1]);
    }
  }

  /** A key with a job is read again; one without keeps the hashes the scan found, and those are still right. */
  ghost predicate ReadBack<V(!new)>(c: Ctx<V>, d: Diff, w: World<V>, key: string) {
    var x := PairAt(c.env, w, key);
    || key in d.deleteFromSource || key in d.deleteFromTarget
    || key in d.toPush || key in d.toPull || key in d.conflicts
    || (Seen(c.source, key) == AsJs(x.s) && Seen(c.target, key) == AsJs(x.t))
  }

  /** The entry a key gets: none after a deletion, failed or not, and otherwise what the stores hold. */
  function Recorded<V(!new)>(c: Ctx<V>, d: Diff, w: World<V>, key: string): Option<Entry> {
    if key in d.deleteFromSource || key in d.deleteFromTarget then None
    else EntryFor(c.env.codec, PairAt(c.env, w, key))
  }

  lemma RebuildKeyEntry<V(!new)>(c: Ctx<V>, d: Diff, x: Rebuilt<V>, key: string)
    requires !c.env.same && x.ok && RebuildKey(c, d, x, key).ok && !c.env.opts.dryRun
    requires ReadBack(c, d, x.world, key) && key !in x.entries
    ensures EntryAt(Some(RebuildKey(c, d, x, key).entries), key) == Recorded(c, d, x.world, key)
  {
    var p := PairAt(c.env, x.world, key);
    FingerprintIsTruthy(c.env.codec, p.s);
    FingerprintIsTruthy(c.env.codec, p.t);
  }

  lemma SamePair<V(!new)>(e: Env<V>, w: World<V>, w': World<V>, k: string)
    requires SameData(w, w')
    ensures PairAt(e, w, k) == PairAt(e, w', k)
  {
  }

  /** One step of the rebuilding loop, as far as key k is concerned. */
  lemma RebuildStep<V(!new)>(c: Ctx<V>, d: Diff, w: World<V>, x: Rebuilt<V>, key: string, k: string,
                             recorded: Option<Entry>)
    requires !c.env.same && !c.env.opts.dryRun && x.ok && RebuildKey(c, d, x, key).ok && SameData(w, x.world)
    requires EntryAt(Some(x.entries), k) == recorded
    requires key == k ==> recorded == None && ReadBack(c, d, w, k)
    ensures var y := RebuildKey(c, d, x, key);
            && SameData(w, y.world)
            && EntryAt(Some(y.entries), k) == if key == k then Recorded(c, d, w, k) else recorded
  {
    RebuildKeyReads(c, d, x, key);
    if key == k {
      SamePair(c.env, w, x.world, k);
      RebuildKeyEntry(c, d, x, k);
    }
  }

  /** Whatever failed before, a rebuild that goes through records what it finds. */
  lemma {:induction false} RebuildEntry<V(!new)>(c: Ctx<V>, d: Diff, w: World<V>, keys: seq<string>, k: string)
    requires !c.env.same && !c.env.opts.dryRun && NoDuplicates(keys) && Rebuild(c, d, w, keys).ok
    requires k in keys ==> ReadBack(c, d, w, k)
    ensures var y := Rebuild(c, d, w, keys);
            && SameData(w, y.world)
            && EntryAt(Some(y.entries), k) == if k in keys then Recorded(c, d, w, k) else None
  {
    if keys != [] {
      var front, last := keys[..|keys| - 1], keys[|keys| - 1];
      assert keys == front + [last] && last !in front;
      RebuildEntry(c, d, w, front, k);
      RebuildStep(c, d, w, Rebuild(c, d, w, front), last, k, if k in front then Recorded(c, d, w, k) else None);
    }
  }

  lemma BaselineKeyIsOutOfScope<V(!new)>(e: Env<V>, w: World<V>, entries: Entries, k: string)
    requires !e.same && InScope(e.opts, k)
    ensures PairAt(e, SaveBaseline(e, w, entries), k) == PairAt(e, w, k)
  {
    var key := BaselineKey(e.opts.syncId);
    assert BASELINE_PREFIX <= key;
  }

  /** The end of a run moves no in-scope value, and returns the entries it rebuilt. */
  lemma ConcludeKeepsKey<V(!new)>(p: Prepared<V>, k: string)
    requires p.Ready? && !p.ctx.env.same && InScope(p.ctx.env.opts, k)
    requires KeepsBaseline(p.ctx.env.opts) ==> Reread(p).ok && SameData(Executed(p), Reread(p).world)
    ensures var e, f := p.ctx.env, Conclude(p);
            && f.settled && PairAt(e, f.world, k) == PairAt(e, Executed(p), k)
            && (KeepsBaseline(e.opts) ==> f.world.res.baseline == Some(Reread(p).entries))
  {
    if KeepsBaseline(p.ctx.env.opts) {
      var x := Reread(p);
      SamePair(p.ctx.env, Executed(p), x.world, k);
      BaselineKeyIsOutOfScope(p.ctx.env, x.world, x.entries, k);
    }
  }

  lemma JobListsFollowClass(p: Diff, keys: seq<string>, x: Sides, k: string)
    requires p == DiffOf(keys, x) && k in keys
    ensures (k in p.deleteFromSource <==> ClassOf(x, k) == DeleteFromSource)
         && (k in p.deleteFromTarget <==> ClassOf(x, k) == DeleteFromTarget)
         && (k in p.toPush <==> ClassOf(x, k) == ToPush) && (k in p.toPull <==> ClassOf(x, k) == ToPull)
         && (k in p.conflicts <==> ClassOf(x, k) == Conflict)
  {
    SelectMembers(keys, x, DeleteFromSource, k);
    SelectMembers(keys, x, DeleteFromTarget, k);
    SelectMembers(keys, x, ToPush, k);
    SelectMembers(keys, x, ToPull, k);
    SelectMembers(keys, x, Conflict, k);
  }

  /** A key without a job is as the scan found it, whatever failed in the meantime. */
  lemma ReadBackAfterJobs<V(!new)>(p: Prepared<V>, k: string)
    requires p.Ready? && !p.ctx.env.same && Aligned(p.ctx.env.opts) && k in p.keys
    requires Seen(p.ctx.source, k) == AsJs(SourceView(p.world, k))
    requires Seen(p.ctx.target, k) == AsJs(TargetView(p.ctx.env, p.world, k))
    ensures ReadBack(p.ctx, DiffOf(p.keys, p.sides), Executed(p), k)
  {
    JobListsFollowClass(DiffOf(p.keys, p.sides), p.keys, p.sides, k);
    if ClassOf(p.sides, k) == Unchanged || ClassOf(p.sides, k) == Gone {
      RunWithoutJob(p, k);
    }
  }

  predicate IsDeletion(c: Class) {
    c == DeleteFromSource || c == DeleteFromTarget
  }

  /**
   * The baseline tells the truth, whatever failed: when a run settles, the entry of a key is the
   * fingerprint pair of what the stores then hold, except that a key the run set out to delete
   * has none.
   */
  lemma EntriesTellTheTruth<V(!new)>(e: Env<V>, w: World<V>, k: string)
    requires Paired(e) && Aligned(e.opts) && !e.opts.dryRun && KeepsBaseline(e.opts) && InScope(e.opts, k)
    requires Sync(e, w).settled
    ensures var p, f := Prepare(e, w), Sync(e, w);
            && p.Ready? && f.world.res.baseline.Some?
            && PairAt(e, f.world, k) == PairAt(e, Executed(p), k)
            && EntryAt(f.world.res.baseline, k)
               == if IsDeletion(ClassOf(p.sides, k)) then None else EntryFor(e.codec, PairAt(e, f.world, k))
  {
    var p := Prepare(e, w);
    ReadyKey(e, w, k);
    if k in p.keys {
      ReadBackAfterJobs(p, k);
      JobListsFollowClass(DiffOf(p.keys, p.sides), p.keys, p.sides, k);
    } else {
      AbsentKeyStays(e, w, k);
    }
    RebuildEntry(p.ctx, DiffOf(p.keys, p.sides), Executed(p), p.keys, k);
    ConcludeKeepsKey(p, k);
  }

  lemma AbsentKeyStays<V(!new)>(e: Env<V>, w: World<V>, k: string)
    requires Paired(e) && Aligned(e.opts) && Prepare(e, w).Ready? && InScope(e.opts, k) && k !in Prepare(e, w).keys
    ensures ClassOf(Prepare(e, w).sides, k) == Gone
    ensures PairAt(e, Executed(Prepare(e, w)), k) == Pair(None, None)
  {
    ReadyKey(e, w, k);
    RunWithoutJob(Prepare(e, w), k);
  }

  lemma DeletionsAreOneSided<V(!new)>(e: Env<V>, w: World<V>, k: string)
    ensures ClassAt(e, w, k) == DeleteFromSource ==> TargetView(e, w, k) == None
    ensures ClassAt(e, w, k) == DeleteFromTarget ==> SourceView(w, k) == None
  {
    FingerprintIsTruthy(e.codec, SourceView(w, k));
    FingerprintIsTruthy(e.codec, TargetView(e, w, k));
  }

  /**
   * The per-key theorem: a healthy sync settles, leaves each in-scope key as the reference
   * says, whatever the order in which the stores list their keys, and its new baseline
   * records for that key exactly what a reader now finds on the two sides.
   */
  lemma SyncActsOnKey<V(!new)>(e: Env<V>, w: World<V>, k: string)
    requires Healthy(e) && Aligned(e.opts) && !e.opts.dryRun && InScope(e.opts, k)
    ensures var f := Sync(e, w);
            && f.settled
            && PairAt(e, f.world, k) == After(e, ClassAt(e, w, k), k, PairAt(e, w, k))
            && (KeepsBaseline(e.opts) ==>
                  && f.world.res.baseline.Some?
                  && EntryAt(f.world.res.baseline, k) == EntryFor(e.codec, PairAt(e, f.world, k)))
  {
    JobsActOnKey(e, w, k);
    PreparedKey(e, w, k);
    var p := Prepare(e, w);
    ReliableRebuild(p.ctx, DiffOf(p.keys, p.sides), Executed(p), p.keys);
    if KeepsBaseline(e.opts) {
      DeletedMeansGone(e, w, k);
      EntriesTellTheTruth(e, w, k);
    } else {
      ConcludeKeepsKey(p, k);
    }
  }

  /** Where nothing fails, a deletion leaves the key on neither side. */
  lemma DeletedMeansGone<V(!new)>(e: Env<V>, w: World<V>, k: string)
    ensures IsDeletion(ClassAt(e, w, k)) ==> After(e, ClassAt(e, w, k), k, PairAt(e, w, k)) == Pair(None, None)
  {
    DeletionsAreOneSided(e, w, k);
  }

  /** What is saved comes back: packing survives the home adapter's rewriting. */
  ghost predicate BaselineSurvives<V(!new)>(e: Env<V>) {
    forall id, entries {:trigger e.codec.pack(id, entries)} ::
      e.codec.unpack(HomeBackend(e).canon(e.codec.pack(id, entries))) == Some(entries)
  }

  lemma SavedBaselineLoads<V(!new)>(e: Env<V>, w: World<V>, entries: Entries)
    requires Healthy(e) && BaselineSurvives(e) && KeepsBaseline(e.opts) && !e.opts.dryRun
    ensures SaveBaseline(e, w, entries).res.baseline == Some(entries)
    ensures StartBaseline(e, SaveBaseline(e, w, entries)) == Some(entries)
  {
    var packed := e.codec.pack(e.opts.syncId, entries);
    assert e.codec.unpack(HomeBackend(e).canon(packed)) == Some(entries);
  }

  /** The next run starts from the baseline this run returned. */
  lemma NextRunStartsFromBaseline<V(!new)>(e: Env<V>, w: World<V>)
    requires Healthy(e) && BaselineSurvives(e) && KeepsBaseline(e.opts) && !e.opts.dryRun
    requires Sync(e, w).settled
    ensures Sync(e, w).world.res.baseline.Some?
    ensures StartBaseline(e, Sync(e, w).world) == Sync(e, w).world.res.baseline
  {
    PreparedIsOrderly(e, w);
    var x := Reread(Prepare(e, w));
    SavedBaselineLoads(e, x.world, x.entries);
  }
}
