/** The public entry of src/sync.ts: push, pull, sync with and without a baseline. */
module SyncModes {
  import opened Outcomes
  import opened Adapter
  import opened CompactHash
  import opened SyncSpec
  import opened SyncPerKey
  import opened SyncGuarantees
  import opened SyncCopy
  import Bidirectional = SyncBidirectional

  datatype Mode = PushMode | PullMode | SyncMode

  /** The options the copying modes use, beside those of the bidirectional sync. */
  datatype Writing = Writing(overwrite: bool, skipUnchanged: bool)

  /** On the way back the target prefix is stripped before the caller's transform runs. */
  function PullTransform<V>(targetPrefix: string, transform: Option<(string, Js<V>) -> Routed<V>>)
    : Option<(string, Js<V>) -> Routed<V>>
  {
    if targetPrefix == "" then transform
    else Some((key: string, x: Js<V>) =>
                var mapped := if targetPrefix <= key then key[|targetPrefix|..] else key;
                if transform.Some? then transform.value(mapped, x) else Routed(mapped, x))
  }

  function PushOptions<V>(o: Options<V>, how: Writing, keep: Option<set<string>>): CopyOptions<V> {
    CopyOptions(o.prefix, o.targetPrefix, o.transform, how.overwrite, how.skipUnchanged, o.dryRun, keep)
  }

  function PullOptions<V>(o: Options<V>, how: Writing): CopyOptions<V> {
    CopyOptions(o.targetPrefix + o.prefix, "", PullTransform(o.targetPrefix, o.transform),
                how.overwrite, how.skipUnchanged, o.dryRun, None)
  }

  function LegacyPullOptions<V>(o: Options<V>, how: Writing, keep: set<string>): CopyOptions<V> {
    CopyOptions("", "", PullTransform(o.targetPrefix, o.transform), how.overwrite, how.skipUnchanged, o.dryRun,
                Some(keep))
  }

  /** The source keys the target lacks, and the target keys the source lacks, each in its own key space. */
  function SourceOnlyKeys(targetPrefix: string, sourceKeys: seq<string>, targetKeys: seq<string>): set<string> {
    set k | k in sourceKeys && k !in (set q | q in targetKeys :: Slice(q, |targetPrefix|))
  }

  function TargetOnlyKeys(targetPrefix: string, sourceKeys: seq<string>, targetKeys: seq<string>): set<string> {
    set q | q in (set q' | q' in targetKeys :: Slice(q', |targetPrefix|)) && q !in sourceKeys :: targetPrefix + q
  }

  datatype Stores<+V> = Stores(source: Contents<V>, target: Contents<V>)
  datatype LegacyFinish<+V> = LegacyFinish(outcome: Reply<SyncResult>, stores: Stores<V>)

  function LegacySync<V>(sb: Backend<V>, tb: Backend<V>, same: bool, text: V -> seq<CodeUnit>,
                         o: Options<V>, how: Writing, w: Stores<V>): LegacyFinish<V> {
    var (sk, s0) := KeysOp(sb, w.source, o.prefix);
    if sk.Thrown? then LegacyFinish(Thrown, Stores(s0, if same then s0 else w.target))
    else
      var (tk, t0) := KeysOp(tb, if same then s0 else w.target, o.targetPrefix + o.prefix);
      var w0 := Stores(if same then t0 else s0, t0);
      if tk.Thrown? then LegacyFinish(Thrown, w0)
      else
        var sourceOnly := SourceOnlyKeys(o.targetPrefix, sk.value, tk.value);
        var targetOnly := TargetOnlyKeys(o.targetPrefix, sk.value, tk.value);
        var push := Copy(CopyEnv(sb, tb, same, text, PushOptions(o, how, Some(sourceOnly))), w0.source, w0.target);
        if !push.settled then LegacyFinish(Thrown, Stores(push.world.from, push.world.to))
        else
          var pull := Copy(CopyEnv(tb, sb, same, text, LegacyPullOptions(o, how, targetOnly)), push.world.to,
                           push.world.from);
          LegacyFinish(if pull.settled then Ok(MergeResults(push.world.res, pull.world.res)) else Thrown,
                       Stores(pull.world.to, pull.world.from))
  }

  method SyncWithoutBaseline<V>(source: StorageAdapter<V>, target: StorageAdapter<V>, text: V -> seq<CodeUnit>,
                                opts: Options<V>, how: Writing) returns (outcome: Reply<SyncResult>)
    modifies source, target
    ensures LegacyFinish(outcome, Stores(source.State(), target.State()))
         == LegacySync(source.backend, target.backend, source == target, text, opts, how,
                       Stores(old(source.State()), old(target.State())))
  {
    var sourceKeys := source.Keys(opts.prefix);
    if sourceKeys.Thrown? {
      return Thrown;
    }
    var targetKeys := target.Keys(opts.targetPrefix + opts.prefix);
    if targetKeys.Thrown? {
      return Thrown;
    }
    var sourceOnly := SourceOnlyKeys(opts.targetPrefix, sourceKeys.value, targetKeys.value);
    var targetOnly := TargetOnlyKeys(opts.targetPrefix, sourceKeys.value, targetKeys.value);
    var pushResult := CopyKeys(source, target, text, PushOptions(opts, how, Some(sourceOnly)));
    if pushResult.Thrown? {
      return Thrown;
    }
    var pullResult := CopyKeys(target, source, text, LegacyPullOptions(opts, how, targetOnly));
    if pullResult.Thrown? {
      return Thrown;
    }
    outcome := Ok(MergeResults(pushResult.value, pullResult.value));
  }

  /** Dispatch on the mode; a syncId or an explicit baseline selects the three-way sync. */
  method SyncAdapters<V(!new)>(source: StorageAdapter<V>, target: StorageAdapter<V>, home: StorageAdapter<V>,
                         codec: Codec<V>, mode: Mode, opts: Options<V>, how: Writing)
    returns (outcome: Reply<SyncResult>)
    modifies source, target, home
    ensures mode == PushMode ==>
              var f := Copy(CopyEnv(source.backend, target.backend, source == target, codec.text,
                                    PushOptions(opts, how, None)),
                            old(source.State()), old(target.State()));
              && source.State() == f.world.from && target.State() == f.world.to
              && outcome == if f.settled then Ok(f.world.res) else Thrown
    ensures mode == PullMode ==>
              var f := Copy(CopyEnv(target.backend, source.backend, source == target, codec.text,
                                    PullOptions(opts, how)),
                            old(target.State()), old(source.State()));
              && target.State() == f.world.from && source.State() == f.world.to
              && outcome == if f.settled then Ok(f.world.res) else Thrown
    ensures mode == SyncMode && opts.syncId == "" && opts.baseline.None? ==>
              LegacyFinish(outcome, Stores(source.State(), target.State()))
              == LegacySync(source.backend, target.backend, source == target, codec.text, opts, how,
                            Stores(old(source.State()), old(target.State())))
    ensures mode == SyncMode && (opts.syncId != "" || opts.baseline.Some?) ==>
              var e := Bidirectional.EnvOf(source, target, home, codec, opts);
              var f := Sync(e, World(old(source.State()), old(target.State()), old(home.State()),
                                     EmptyResult(opts.dryRun)));
              && Bidirectional.Mirrors(e, f.world, source, target, home)
              && outcome == if f.settled then Ok(f.world.res) else Thrown
    // A dry run writes nothing, in any mode, whatever fails.
    ensures opts.dryRun ==>
              source.data == old(source.data) && target.data == old(target.data) && home.data == old(home.data)
    // Without overwriting, a copying mode leaves all that its destination holds as it was.
    ensures !how.overwrite && mode == PushMode ==> Untouched(old(target.data), target.data)
    ensures !how.overwrite && mode == PullMode ==> Untouched(old(source.data), source.data)
    ensures !how.overwrite && mode == SyncMode && opts.syncId == "" && opts.baseline.None? ==>
              Untouched(old(target.data), target.data) && Untouched(old(source.data), source.data)
    // A copying mode only reads the side it copies from.
    ensures mode == PushMode && source != target ==> source.data == old(source.data)
    ensures mode == PullMode && source != target ==> target.data == old(target.data)
  {
    match mode {
      case PushMode =>
        PushKeeps(source.backend, target.backend, source == target, codec.text, opts, how, source.State(),
                  target.State());
        outcome := CopyKeys(source, target, codec.text, PushOptions(opts, how, None));
      case PullMode =>
        PullKeeps(target.backend, source.backend, source == target, codec.text, opts, how, target.State(),
                  source.State());
        outcome := CopyKeys(target, source, codec.text, PullOptions(opts, how));
      case SyncMode =>
        if opts.syncId != "" || opts.baseline.Some? {
          DrySyncKeeps(Bidirectional.EnvOf(source, target, home, codec, opts),
                       World(source.State(), target.State(), home.State(), EmptyResult(opts.dryRun)));
          outcome := Bidirectional.SyncBidirectional(source, target, home, codec, opts);
        } else {
          LegacyKeeps(source.backend, target.backend, source == target, codec.text, opts, how,
                      Stores(source.State(), target.State()));
          outcome := SyncWithoutBaseline(source, target, codec.text, opts, how);
        }
    }
  }

  lemma DrySyncKeeps<V(!new)>(e: Env<V>, w: World<V>)
    requires Joined(e, w)
    ensures e.opts.dryRun ==> SameData(w, Sync(e, w).world)
  {
    if e.opts.dryRun {
      DryRunWritesNothing(e, w);
    }
  }

  /** What a copy leaves as it was, told from the caller's options. */
  ghost predicate Spares<V(!new)>(dryRun: bool, overwrite: bool, same: bool, from: Contents<V>, to: Contents<V>,
                                  from': Contents<V>, to': Contents<V>) {
    && (dryRun ==> from'.data == from.data && to'.data == to.data)
    && (!overwrite ==> Untouched(to.data, to'.data) && Untouched(from.data, from'.data))
    && (!same ==> from'.data == from.data)
    && (same ==> from' == to')
  }

  lemma CopySpares<V(!new)>(e: CopyEnv<V>, from: Contents<V>, to: Contents<V>)
    requires e.same ==> from == to
    ensures var f := Copy(e, from, to);
            Spares(e.opts.dryRun, e.opts.overwrite, e.same, from, to, f.world.from, f.world.to)
  {
    var (r, f) := KeysOp(e.from, from, e.opts.prefix);
    var w := WithFrom(e, CopyWorld(from, to, EmptyResult(e.opts.dryRun)), f);
    var keys := ListedForCopy(e, from);
    if e.opts.dryRun {
      DryCopyWritesNothing(e, w, keys);
    }
    if !e.opts.overwrite {
      CopyKeepsPresent(e, w, keys);
    }
    if !e.same {
      CopyKeepsFrom(e, w, keys);
    }
    CopyStaysJoined(e, w, keys);
  }

  lemma {:induction false} CopyStaysJoined<V>(e: CopyEnv<V>, w: CopyWorld<V>, keys: seq<string>)
    requires OneState(e, w)
    ensures OneState(e, CopyAll(e, w, keys))
  {
    if keys != [] {
      CopyStaysJoined(e, w, keys[..|keys| - 1]);
      KeyStaysJoined(e, CopyAll(e, w, keys[..|keys| - 1]), keys[|keys| - 1]);
    }
  }

  lemma KeyStaysJoined<V>(e: CopyEnv<V>, w: CopyWorld<V>, key: string)
    requires OneState(e, w)
    ensures OneState(e, CopyKey(e, w, key))
  {
  }

  lemma PushKeeps<V(!new)>(sb: Backend<V>, tb: Backend<V>, same: bool, text: V -> seq<CodeUnit>, o: Options<V>,
                           how: Writing, s: Contents<V>, t: Contents<V>)
    requires same ==> s == t
    ensures var f := Copy(CopyEnv(sb, tb, same, text, PushOptions(o, how, None)), s, t);
            Spares(o.dryRun, how.overwrite, same, s, t, f.world.from, f.world.to)
  {
    CopySpares(CopyEnv(sb, tb, same, text, PushOptions(o, how, None)), s, t);
  }

  lemma PullKeeps<V(!new)>(tb: Backend<V>, sb: Backend<V>, same: bool, text: V -> seq<CodeUnit>, o: Options<V>,
                           how: Writing, t: Contents<V>, s: Contents<V>)
    requires same ==> s == t
    ensures var f := Copy(CopyEnv(tb, sb, same, text, PullOptions(o, how)), t, s);
            Spares(o.dryRun, how.overwrite, same, t, s, f.world.from, f.world.to)
  {
    CopySpares(CopyEnv(tb, sb, same, text, PullOptions(o, how)), t, s);
  }

  lemma LegacyKeeps<V(!new)>(sb: Backend<V>, tb: Backend<V>, same: bool, text: V -> seq<CodeUnit>, o: Options<V>,
                             how: Writing, w: Stores<V>)
    requires same ==> w.source == w.target
    ensures var f := LegacySync(sb, tb, same, text, o, how, w);
            && (o.dryRun ==> f.stores.source.data == w.source.data && f.stores.target.data == w.target.data)
            && (!how.overwrite ==> Untouched(w.source.data, f.stores.source.data)
                                   && Untouched(w.target.data, f.stores.target.data))
  {
    var (sk, s0) := KeysOp(sb, w.source, o.prefix);
    if sk.Ok? {
      var (tk, t0) := KeysOp(tb, if same then s0 else w.target, o.targetPrefix + o.prefix);
      var w0 := Stores(if same then t0 else s0, t0);
      if tk.Ok? {
        var sourceOnly := SourceOnlyKeys(o.targetPrefix, sk.value, tk.value);
        var targetOnly := TargetOnlyKeys(o.targetPrefix, sk.value, tk.value);
        var push := CopyEnv(sb, tb, same, text, PushOptions(o, how, Some(sourceOnly)));
        CopySpares(push, w0.source, w0.target);
        var mid := Copy(push, w0.source, w0.target).world;
        CopySpares(CopyEnv(tb, sb, same, text, LegacyPullOptions(o, how, targetOnly)), mid.to, mid.from);
      }
    }
  }

  // ---- what the caller's options mean for one key ----

  /** The caller's transform of a value under its source-space key; without one it goes to the plain key. */
  function CallersRoute<V>(o: Options<V>, k: string, x: Js<V>, plain: string): Routed<V> {
    match o.transform
    case Some(f) => f(k, x)
    case None => Routed(plain, x)
  }

  /** What the destination holds under a key once y has been sent there. */
  function Received<V>(b: Backend<V>, text: V -> seq<CodeUnit>, how: Writing, there: Option<Js<V>>, y: Js<V>): Js<V> {
    if there.Some? && (!how.overwrite || (how.skipUnchanged && ReadsTheSame(text, y, there.value))) then there.value
    else if y.Val? then Val(b.canon(y.v)) else y
  }

  function CellAt<V>(c: Contents<V>, q: string): Option<Js<V>> {
    if q in c.data then Some(c.data[q]) else None
  }

  ghost predicate PlainRun<V(!new)>(from: Backend<V>, to: Backend<V>, o: Options<V>) {
    Reliable(from) && Reliable(to) && ListsOnce(from) && !o.dryRun
  }

  /**
   * A push sends each value under the prefix through the caller's transform, given the source's key,
   * and puts what it answers under the key it answers, by the writing options, unless another key
   * goes there too. Without a transform the key is the source's with the target prefix before it.
   */
  lemma PushDelivers<V(!new)>(sb: Backend<V>, tb: Backend<V>, text: V -> seq<CodeUnit>, o: Options<V>, how: Writing,
                              s: Contents<V>, t: Contents<V>, k: string)
    requires PlainRun(sb, tb, o) && o.prefix <= k && View(s, k).Some?
    requires var r := CallersRoute(o, k, Val(View(s, k).value), o.targetPrefix + k);
             r.Routed? && forall k', x :: k' != k ==>
               var r' := CallersRoute(o, k', x, o.targetPrefix + k'); r'.Routed? ==> r'.key != r.key
    ensures var r := CallersRoute(o, k, Val(View(s, k).value), o.targetPrefix + k);
            var f := Copy(CopyEnv(sb, tb, false, text, PushOptions(o, how, None)), s, t);
            f.settled && CellAt(f.world.to, r.key) == Some(Received(tb, text, how, CellAt(t, r.key), r.value))
  {
    var e := CopyEnv(sb, tb, false, text, PushOptions(o, how, None));
    ListedKeys(sb, s, o.prefix);
    var keys := ListedForCopy(e, s);
    assert k in keys;
    var i :| 0 <= i < |keys| && keys[i] == k;
    forall k', x
      ensures Destination(e.opts, k', x) == CallersRoute(o, k', x, o.targetPrefix + k')
    {
    }
    CopyArrives(e, CopyWorld(Tick(s), t, EmptyResult(o.dryRun)), keys, i);
  }

  /** And a cell that no key goes to stays as it was. */
  lemma PushSpares<V(!new)>(sb: Backend<V>, tb: Backend<V>, text: V -> seq<CodeUnit>, o: Options<V>, how: Writing,
                            s: Contents<V>, t: Contents<V>, q: string)
    requires PlainRun(sb, tb, o)
    requires forall k :: o.prefix <= k && View(s, k).Some? ==>
               var r := CallersRoute(o, k, Val(View(s, k).value), o.targetPrefix + k); r.Routed? ==> r.key != q
    ensures var f := Copy(CopyEnv(sb, tb, false, text, PushOptions(o, how, None)), s, t);
            CellAt(f.world.to, q) == CellAt(t, q)
  {
    var e := CopyEnv(sb, tb, false, text, PushOptions(o, how, None));
    ListedKeys(sb, s, o.prefix);
    var keys := ListedForCopy(e, s);
    forall k | k in keys && Held(s, k).Val?
      ensures var d := Destination(e.opts, k, Held(s, k)); d.Routed? ==> d.key != q
    {
      assert o.prefix <= k && View(s, k).Some?;
    }
    CopyElsewhere(e, CopyWorld(Tick(s), t, EmptyResult(o.dryRun)), keys, q);
  }

  /**
   * A pull reads each value under the target prefix and the prefix, and gives it to the caller's
   * transform under the key without the target prefix; what it answers is put on the source.
   */
  lemma PullDelivers<V(!new)>(tb: Backend<V>, sb: Backend<V>, text: V -> seq<CodeUnit>, o: Options<V>, how: Writing,
                              t: Contents<V>, s: Contents<V>, k: string)
    requires PlainRun(tb, sb, o) && o.prefix <= k && View(t, o.targetPrefix + k).Some?
    requires var r := CallersRoute(o, k, Val(View(t, o.targetPrefix + k).value), k);
             r.Routed? && forall k', x :: k' != k ==>
               var r' := CallersRoute(o, k', x, k'); r'.Routed? ==> r'.key != r.key
    ensures var r := CallersRoute(o, k, Val(View(t, o.targetPrefix + k).value), k);
            var f := Copy(CopyEnv(tb, sb, false, text, PullOptions(o, how)), t, s);
            f.settled && CellAt(f.world.to, r.key) == Some(Received(sb, text, how, CellAt(s, r.key), r.value))
  {
    var e, tp := CopyEnv(tb, sb, false, text, PullOptions(o, how)), o.targetPrefix;
    ListedKeys(tb, t, tp + o.prefix);
    var keys := ListedForCopy(e, t);
    PrefixPlus(tp, o.prefix, k);
    assert tp + k in keys;
    var i :| 0 <= i < |keys| && keys[i] == tp + k;
    PulledKey(o, how, k, Held(t, tp + k));
    PulledAlone(tb, sb, text, o, how, t, k, keys);
    CopyArrives(e, CopyWorld(Tick(t), s, EmptyResult(o.dryRun)), keys, i);
  }

  lemma PulledAlone<V(!new)>(tb: Backend<V>, sb: Backend<V>, text: V -> seq<CodeUnit>, o: Options<V>, how: Writing,
                             t: Contents<V>, k: string, keys: seq<string>)
    requires forall q :: q in keys ==> o.targetPrefix + o.prefix <= q
    requires var r := CallersRoute(o, k, Held(t, o.targetPrefix + k), k);
             r.Routed? && forall k', x :: k' != k ==>
               var r' := CallersRoute(o, k', x, k'); r'.Routed? ==> r'.key != r.key
    ensures var r := CallersRoute(o, k, Held(t, o.targetPrefix + k), k);
            AloneUnder(CopyEnv(tb, sb, false, text, PullOptions(o, how)), t, keys, o.targetPrefix + k, r.key)
  {
    var e, tp := CopyEnv(tb, sb, false, text, PullOptions(o, how)), o.targetPrefix;
    var r := CallersRoute(o, k, Held(t, tp + k), k);
    forall q | q in keys && q != tp + k && Held(t, q).Val?
      ensures var d := Destination(e.opts, q, Held(t, q)); d.Routed? ==> d.key != r.key
    {
      assert tp <= tp + o.prefix <= q;
      var k' := q[|tp|..];
      assert q == tp + k';
      PulledKey(o, how, k', Held(t, q));
    }
  }

  /** A key of the target, back in the source's key space. */
  lemma PulledKey<V(!new)>(o: Options<V>, how: Writing, k: string, x: Js<V>)
    ensures Destination(PullOptions(o, how), o.targetPrefix + k, x) == CallersRoute(o, k, x, k)
  {
    var tp := o.targetPrefix;
    if tp == "" {
      assert tp + k == k;
      PulledPlainly(o, how, k, x);
    } else {
      assert (tp + k)[|tp|..] == k;
      PulledFromPrefix(o, how, k, x);
    }
  }

  lemma PulledPlainly<V(!new)>(o: Options<V>, how: Writing, k: string, x: Js<V>)
    requires o.targetPrefix == ""
    ensures Destination(PullOptions(o, how), k, x) == CallersRoute(o, k, x, k)
  {
    assert "" + k == k;
  }

  lemma PulledFromPrefix<V(!new)>(o: Options<V>, how: Writing, k: string, x: Js<V>)
    requires o.targetPrefix != "" && (o.targetPrefix + k)[|o.targetPrefix|..] == k
    ensures Destination(PullOptions(o, how), o.targetPrefix + k, x) == CallersRoute(o, k, x, k)
  {
    assert o.targetPrefix <= o.targetPrefix + k;
  }

  /**
   * Without a baseline, a value only the source has goes through the caller's transform to the target
   * as a push sends it.
   */
  lemma LegacyPushDelivers<V(!new)>(sb: Backend<V>, tb: Backend<V>, text: V -> seq<CodeUnit>, o: Options<V>,
                                    how: Writing, w: Stores<V>, k: string)
    requires PlainRun(sb, tb, o) && ListsOnce(tb) && o.prefix <= k && View(w.source, k).Some?
    requires o.targetPrefix + k !in w.target.data
    requires var r := CallersRoute(o, k, Val(View(w.source, k).value), o.targetPrefix + k);
             r.Routed? && forall k', x :: k' != k ==>
               var r' := CallersRoute(o, k', x, o.targetPrefix + k'); r'.Routed? ==> r'.key != r.key
    ensures var r := CallersRoute(o, k, Val(View(w.source, k).value), o.targetPrefix + k);
            var f := LegacySync(sb, tb, false, text, o, how, w);
            f.outcome.Ok?
            && CellAt(f.stores.target, r.key) == Some(Received(tb, text, how, CellAt(w.target, r.key), r.value))
  {
    var tp := o.targetPrefix;
    ListedKeys(sb, w.source, o.prefix);
    ListedKeys(tb, w.target, tp + o.prefix);
    var (sk, s0) := KeysOp(sb, w.source, o.prefix);
    var (tk, t0) := KeysOp(tb, w.target, tp + o.prefix);
    assert forall q :: q in tk.value ==> tp <= tp + o.prefix <= q;
    var sourceOnly, targetOnly := SourceOnlyKeys(tp, sk.value, tk.value), TargetOnlyKeys(tp, sk.value, tk.value);
    SourceOnlyMeans(tp, sk.value, tk.value, k);
    KeptPushDelivers(sb, tb, text, o, how, s0, t0, sourceOnly, k);
    var push := Copy(CopyEnv(sb, tb, false, text, PushOptions(o, how, Some(sourceOnly))), s0, t0);
    CopySpares(CopyEnv(tb, sb, false, text, LegacyPullOptions(o, how, targetOnly)), push.world.to, push.world.from);
  }

  lemma KeptPushDelivers<V(!new)>(sb: Backend<V>, tb: Backend<V>, text: V -> seq<CodeUnit>, o: Options<V>,
                                  how: Writing, s: Contents<V>, t: Contents<V>, keep: set<string>, k: string)
    requires PlainRun(sb, tb, o) && o.prefix <= k && View(s, k).Some? && k in keep
    requires var r := CallersRoute(o, k, Val(View(s, k).value), o.targetPrefix + k);
             r.Routed? && forall k', x :: k' != k ==>
               var r' := CallersRoute(o, k', x, o.targetPrefix + k'); r'.Routed? ==> r'.key != r.key
    ensures var r := CallersRoute(o, k, Val(View(s, k).value), o.targetPrefix + k);
            var f := Copy(CopyEnv(sb, tb, false, text, PushOptions(o, how, Some(keep))), s, t);
            f.settled && CellAt(f.world.to, r.key) == Some(Received(tb, text, how, CellAt(t, r.key), r.value))
  {
    var e := CopyEnv(sb, tb, false, text, PushOptions(o, how, Some(keep)));
    ListedKeys(sb, s, o.prefix);
    var all := KeysOp(sb, s, o.prefix).0.value;
    FilterMembers(all, Some(keep), k);
    FilterDistinct(all, Some(keep));
    var keys := ListedForCopy(e, s);
    var i :| 0 <= i < |keys| && keys[i] == k;
    forall k', x
      ensures Destination(e.opts, k', x) == CallersRoute(o, k', x, o.targetPrefix + k')
    {
    }
    CopyArrives(e, CopyWorld(Tick(s), t, EmptyResult(o.dryRun)), keys, i);
  }

  /**
   * And a value only the target has, that no pushed one replaces, comes back as a pull brings it: to
   * the transform under the key without the target prefix, and by the writing options.
   */
  lemma LegacyPullDelivers<V(!new)>(sb: Backend<V>, tb: Backend<V>, text: V -> seq<CodeUnit>, o: Options<V>,
                                    how: Writing, w: Stores<V>, k: string)
    requires PlainRun(sb, tb, o) && ListsOnce(tb) && o.prefix <= k && View(w.target, o.targetPrefix + k).Some?
    requires k !in w.source.data
    requires forall k', x :: var r' := CallersRoute(o, k', x, o.targetPrefix + k');
               r'.Routed? ==> r'.key != o.targetPrefix + k
    requires var r := CallersRoute(o, k, Val(View(w.target, o.targetPrefix + k).value), k);
             r.Routed? && forall k', x :: k' != k ==>
               var r' := CallersRoute(o, k', x, k'); r'.Routed? ==> r'.key != r.key
    ensures var r := CallersRoute(o, k, Val(View(w.target, o.targetPrefix + k).value), k);
            var f := LegacySync(sb, tb, false, text, o, how, w);
            f.outcome.Ok?
            && CellAt(f.stores.source, r.key) == Some(Received(sb, text, how, CellAt(w.source, r.key), r.value))
  {
    var tp := o.targetPrefix;
    ListedKeys(sb, w.source, o.prefix);
    ListedKeys(tb, w.target, tp + o.prefix);
    PrefixPlus(tp, o.prefix, k);
    var (sk, s0) := KeysOp(sb, w.source, o.prefix);
    var (tk, t0) := KeysOp(tb, w.target, tp + o.prefix);
    assert forall q :: q in tk.value ==> tp <= tp + o.prefix <= q;
    var sourceOnly, targetOnly := SourceOnlyKeys(tp, sk.value, tk.value), TargetOnlyKeys(tp, sk.value, tk.value);
    TargetOnlyMeans(tp, sk.value, tk.value, tp + k);
    assert (tp + k)[|tp|..] == k;
    KeptPushSpares(sb, tb, text, o, how, s0, t0, sourceOnly, tp + k);
    var push := Copy(CopyEnv(sb, tb, false, text, PushOptions(o, how, Some(sourceOnly))), s0, t0);
    CopySpares(CopyEnv(sb, tb, false, text, PushOptions(o, how, Some(sourceOnly))), s0, t0);
    AllPrefixed(tp, sk.value, tk.value);
    KeptPullDelivers(tb, sb, text, o, how, push.world.to, push.world.from, targetOnly, k);
  }

  lemma AllPrefixed(tp: string, sk: seq<string>, tk: seq<string>)
    ensures forall q :: q in TargetOnlyKeys(tp, sk, tk) ==> tp <= q
  {
  }

  lemma KeptPushSpares<V(!new)>(sb: Backend<V>, tb: Backend<V>, text: V -> seq<CodeUnit>, o: Options<V>, how: Writing,
                                s: Contents<V>, t: Contents<V>, keep: set<string>, q: string)
    requires PlainRun(sb, tb, o)
    requires forall k, x :: var r := CallersRoute(o, k, x, o.targetPrefix + k); r.Routed? ==> r.key != q
    ensures var f := Copy(CopyEnv(sb, tb, false, text, PushOptions(o, how, Some(keep))), s, t);
            f.settled && CellAt(f.world.to, q) == CellAt(t, q)
  {
    var e := CopyEnv(sb, tb, false, text, PushOptions(o, how, Some(keep)));
    var keys := ListedForCopy(e, s);
    forall k, x
      ensures Destination(e.opts, k, x) == CallersRoute(o, k, x, o.targetPrefix + k)
    {
    }
    CopyElsewhere(e, CopyWorld(Tick(s), t, EmptyResult(o.dryRun)), keys, q);
  }

  lemma KeptPullDelivers<V(!new)>(tb: Backend<V>, sb: Backend<V>, text: V -> seq<CodeUnit>, o: Options<V>,
                                  how: Writing, t: Contents<V>, s: Contents<V>, keep: set<string>, k: string)
    requires PlainRun(tb, sb, o) && View(t, o.targetPrefix + k).Some? && o.targetPrefix + k in keep
    requires forall q :: q in keep ==> o.targetPrefix <= q
    requires var r := CallersRoute(o, k, Val(View(t, o.targetPrefix + k).value), k);
             r.Routed? && forall k', x :: k' != k ==>
               var r' := CallersRoute(o, k', x, k'); r'.Routed? ==> r'.key != r.key
    ensures var r := CallersRoute(o, k, Val(View(t, o.targetPrefix + k).value), k);
            var f := Copy(CopyEnv(tb, sb, false, text, LegacyPullOptions(o, how, keep)), t, s);
            f.settled && CellAt(f.world.to, r.key) == Some(Received(sb, text, how, CellAt(s, r.key), r.value))
  {
    var e, tp := CopyEnv(tb, sb, false, text, LegacyPullOptions(o, how, keep)), o.targetPrefix;
    ListedKeys(tb, t, "");
    var all := KeysOp(tb, t, "").0.value;
    FilterDistinct(all, Some(keep));
    forall q
      ensures q in Filter(all, Some(keep)) <==> q in all && q in keep
    {
      FilterMembers(all, Some(keep), q);
    }
    var keys := ListedForCopy(e, t);
    var i :| 0 <= i < |keys| && keys[i] == tp + k;
    LegacyPulledKey(o, how, keep, k, Held(t, tp + k));
    LegacyPulledAlone(tb, sb, text, o, how, t, keep, k, keys);
    CopyArrives(e, CopyWorld(Tick(t), s, EmptyResult(o.dryRun)), keys, i);
  }

  lemma LegacyPulledAlone<V(!new)>(tb: Backend<V>, sb: Backend<V>, text: V -> seq<CodeUnit>, o: Options<V>,
                                   how: Writing, t: Contents<V>, keep: set<string>, k: string, keys: seq<string>)
    requires forall q :: q in keys ==> o.targetPrefix <= q
    requires var r := CallersRoute(o, k, Held(t, o.targetPrefix + k), k);
             r.Routed? && forall k', x :: k' != k ==>
               var r' := CallersRoute(o, k', x, k'); r'.Routed? ==> r'.key != r.key
    ensures var r := CallersRoute(o, k, Held(t, o.targetPrefix + k), k);
            AloneUnder(CopyEnv(tb, sb, false, text, LegacyPullOptions(o, how, keep)), t, keys, o.targetPrefix + k,
                       r.key)
  {
    var e, tp := CopyEnv(tb, sb, false, text, LegacyPullOptions(o, how, keep)), o.targetPrefix;
    var r := CallersRoute(o, k, Held(t, tp + k), k);
    forall q | q in keys && q != tp + k && Held(t, q).Val?
      ensures var d := Destination(e.opts, q, Held(t, q)); d.Routed? ==> d.key != r.key
    {
      var k' := q[|tp|..];
      assert q == tp + k';
      LegacyPulledKey(o, how, keep, k', Held(t, q));
    }
  }

  lemma LegacyPulledKey<V(!new)>(o: Options<V>, how: Writing, keep: set<string>, k: string, x: Js<V>)
    ensures Destination(LegacyPullOptions(o, how, keep), o.targetPrefix + k, x) == CallersRoute(o, k, x, k)
  {
    var tp := o.targetPrefix;
    if tp == "" {
      assert tp + k == k && "" + k == k;
    } else {
      assert (tp + k)[|tp|..] == k && tp <= tp + k;
    }
  }

  // ---- push, then pull into an empty store ----

  /** The copying setting: nothing fails, every store lists its keys once, values are always written. */
  ghost predicate PlainCopy<V>(source: Backend<V>, target: Backend<V>, restored: Backend<V>, o: Options<V>,
                               how: Writing) {
    && Reliable(source) && Reliable(target) && Reliable(restored) && ListsOnce(source) && ListsOnce(target)
    && o.transform.None? && !o.dryRun && how == Writing(true, false)
  }

  lemma PushLands<V(!new)>(sb: Backend<V>, tb: Backend<V>, text: V -> seq<CodeUnit>, o: Options<V>, how: Writing,
                           s: Contents<V>, t: Contents<V>, k: string)
    requires PlainCopy(sb, tb, tb, o, how)
    ensures var f := Copy(CopyEnv(sb, tb, false, text, PushOptions(o, how, None)), s, t);
            var q := o.targetPrefix + k;
            && f.settled && f.world.from.data == s.data
            && if o.prefix <= k && View(s, k).Some?
               then q in f.world.to.data && f.world.to.data[q] == Val(tb.canon(View(s, k).value))
               else (q in f.world.to.data <==> q in t.data) && Held(f.world.to, q) == Held(t, q)
  {
    var e := CopyEnv(sb, tb, false, text, PushOptions(o, how, None));
    ListedKeys(sb, s, o.prefix);
    var keys := ListedForCopy(e, s);
    var w := CopyWorld(Tick(s), t, EmptyResult(o.dryRun));
    var tp := o.targetPrefix;
    assert forall a, b :: tp + a == tp + b ==> (tp + a)[|tp|..] == a && (tp + b)[|tp|..] == b;
    if o.prefix <= k && View(s, k).Some? {
      assert k in keys;
      var i :| 0 <= i < |keys| && keys[i] == k;
      CopyHere(e, w, keys, i);
    } else {
      CopyElsewhere(e, w, keys, tp + k);
    }
  }

  lemma PullLands<V(!new)>(tb: Backend<V>, fb: Backend<V>, text: V -> seq<CodeUnit>, o: Options<V>, how: Writing,
                           t: Contents<V>, clock: nat, k: string)
    requires PlainCopy(tb, tb, fb, o, how)
    ensures var f := Copy(CopyEnv(tb, fb, false, text, PullOptions(o, how)), t, Contents(map[], clock));
            var v := View(t, o.targetPrefix + k);
            && f.settled
            && View(f.world.to, k) == if o.prefix <= k && v.Some? then Some(fb.canon(v.value)) else None
  {
    var e := CopyEnv(tb, fb, false, text, PullOptions(o, how));
    var tp := o.targetPrefix;
    ListedKeys(tb, t, tp + o.prefix);
    var keys := ListedForCopy(e, t);
    var w := CopyWorld(Tick(t), Contents(map[], clock), EmptyResult(o.dryRun));
    forall q, x | q in keys
      ensures Destination(e.opts, q, x) == Routed(q[|tp|..], x) && q == tp + q[|tp|..]
    {
      assert tp <= tp + o.prefix <= q;
    }
    PrefixPlus(tp, o.prefix, k);
    if o.prefix <= k && View(t, tp + k).Some? {
      var i :| 0 <= i < |keys| && keys[i] == tp + k;
      assert (tp + k)[|tp|..] == k;
      CopyHere(e, w, keys, i);
    } else {
      CopyElsewhere(e, w, keys, k);
    }
  }

  /**
   * Round trip: pushing under a target prefix and pulling back with the same prefix into an
   * empty store restores exactly the pushed keys, with the values both adapters made of them,
   * when nothing else that the source lacks lay under that prefix.
   */
  lemma PushThenPullRestores<V(!new)>(sb: Backend<V>, tb: Backend<V>, fb: Backend<V>, text: V -> seq<CodeUnit>,
                                      o: Options<V>, how: Writing, s: Contents<V>, t: Contents<V>, clock: nat,
                                      k: string)
    requires PlainCopy(sb, tb, fb, o, how)
    requires forall q :: o.prefix <= q && View(t, o.targetPrefix + q).Some? ==> View(s, q).Some?
    ensures var pushed := Copy(CopyEnv(sb, tb, false, text, PushOptions(o, how, None)), s, t);
            var pulled := Copy(CopyEnv(tb, fb, false, text, PullOptions(o, how)), pushed.world.to,
                               Contents(map[], clock));
            && pushed.settled && pulled.settled
            && View(pulled.world.to, k) == if o.prefix <= k && View(s, k).Some?
                                           then Some(fb.canon(tb.canon(View(s, k).value))) else None
  {
    PushLands(sb, tb, text, o, how, s, t, k);
    var pushed := Copy(CopyEnv(sb, tb, false, text, PushOptions(o, how, None)), s, t);
    PullLands(tb, fb, text, o, how, pushed.world.to, clock, k);
  }

  // ---- sync without a baseline ----

  lemma SourceOnlyMeans(tp: string, sk: seq<string>, tk: seq<string>, k: string)
    requires forall q :: q in tk ==> tp <= q
    ensures k in SourceOnlyKeys(tp, sk, tk) <==> k in sk && tp + k !in tk
  {
    var back := set q | q in tk :: Slice(q, |tp|);
    if k in back {
      var q :| q in tk && Slice(q, |tp|) == k;
      assert q == tp + q[|tp|..];
    }
    if tp + k in tk {
      assert Slice(tp + k, |tp|) == k;
    }
  }

  lemma TargetOnlyMeans(tp: string, sk: seq<string>, tk: seq<string>, q: string)
    requires forall q :: q in tk ==> tp <= q
    ensures q in TargetOnlyKeys(tp, sk, tk) <==> q in tk && q[|tp|..] !in sk
  {
    var only := TargetOnlyKeys(tp, sk, tk);
    if q in only {
      var k :| k in (set q' | q' in tk :: Slice(q', |tp|)) && k !in sk && tp + k == q;
      var q' :| q' in tk && Slice(q', |tp|) == k;
      assert q' == tp + k && q[|tp|..] == k;
    }
    if q in tk && q[|tp|..] !in sk {
      assert Slice(q, |tp|) in (set q' | q' in tk :: Slice(q', |tp|));
      assert q == tp + q[|tp|..];
    }
  }

  ghost predicate PlainSync<V>(sb: Backend<V>, tb: Backend<V>, o: Options<V>) {
    Reliable(sb) && Reliable(tb) && ListsOnce(sb) && ListsOnce(tb) && o.transform.None? && !o.dryRun
  }

  /** The push half touches the target cells of source-only keys and nothing else. */
  lemma LegacyPush<V(!new)>(sb: Backend<V>, tb: Backend<V>, text: V -> seq<CodeUnit>, o: Options<V>, how: Writing,
                            keep: set<string>, s: Contents<V>, t: Contents<V>, k: string)
    requires PlainSync(sb, tb, o)
    requires k in keep ==> o.targetPrefix + k !in t.data
    ensures var f := Copy(CopyEnv(sb, tb, false, text, PushOptions(o, how, Some(keep))), s, t);
            var q := o.targetPrefix + k;
            && f.settled && f.world.from.data == s.data
            && if o.prefix <= k && k in keep && Held(s, k).Val?
               then q in f.world.to.data && f.world.to.data[q] == Canonical(tb, Held(s, k))
               else (q in f.world.to.data <==> q in t.data) && Held(f.world.to, q) == Held(t, q)
  {
    var e := CopyEnv(sb, tb, false, text, PushOptions(o, how, Some(keep)));
    ListedKeys(sb, s, o.prefix);
    var all := KeysOp(sb, s, o.prefix).0.value;
    var keys := ListedForCopy(e, s);
    FilterMembers(all, Some(keep), k);
    FilterDistinct(all, Some(keep));
    var w := CopyWorld(Tick(s), t, EmptyResult(o.dryRun));
    var tp := o.targetPrefix;
    assert forall a, b :: tp + a == tp + b ==> (tp + a)[|tp|..] == a && (tp + b)[|tp|..] == b;
    if o.prefix <= k && k in keep && Held(s, k).Val? {
      var i :| 0 <= i < |keys| && keys[i] == k;
      CopyHere(e, w, keys, i);
    } else {
      CopyElsewhere(e, w, keys, tp + k);
    }
  }

  /** The pull half touches the source cells of target-only keys and nothing else. */
  lemma LegacyPull<V(!new)>(sb: Backend<V>, tb: Backend<V>, text: V -> seq<CodeUnit>, o: Options<V>, how: Writing,
                            keep: set<string>, s: Contents<V>, t: Contents<V>, k: string)
    requires PlainSync(sb, tb, o)
    requires forall q :: q in keep ==> o.targetPrefix <= q
    requires o.targetPrefix + k in keep ==> k !in s.data
    ensures var f := Copy(CopyEnv(tb, sb, false, text, LegacyPullOptions(o, how, keep)), t, s);
            var q := o.targetPrefix + k;
            && f.settled && f.world.from.data == t.data
            && if q in keep && Held(t, q).Val?
               then k in f.world.to.data && f.world.to.data[k] == Canonical(sb, Held(t, q))
               else (k in f.world.to.data <==> k in s.data) && Held(f.world.to, k) == Held(s, k)
  {
    var e := CopyEnv(tb, sb, false, text, LegacyPullOptions(o, how, keep));
    var tp := o.targetPrefix;
    ListedKeys(tb, t, "");
    var all := KeysOp(tb, t, "").0.value;
    var keys := ListedForCopy(e, t);
    FilterDistinct(all, Some(keep));
    forall q
      ensures q in keys <==> q in all && q in keep
    {
      FilterMembers(all, Some(keep), q);
    }
    var w := CopyWorld(Tick(t), s, EmptyResult(o.dryRun));
    forall q, x | q in keys
      ensures Destination(e.opts, q, x) == Routed(q[|tp|..], x) && q == tp + q[|tp|..]
    {
      assert tp <= q;
    }
    assert (tp + k)[|tp|..] == k;
    if tp + k in keep && Held(t, tp + k).Val? {
      var i :| 0 <= i < |keys| && keys[i] == tp + k;
      CopyHere(e, w, keys, i);
    } else {
      CopyElsewhere(e, w, keys, k);
    }
  }

  /**
   * Without a baseline, a failure-free sync unites the two sides: a key stored on both is left
   * alone on both, and a key stored on one reaches the other as that adapter rewrites it.
   */
  lemma LegacySyncUnites<V(!new)>(sb: Backend<V>, tb: Backend<V>, text: V -> seq<CodeUnit>, o: Options<V>, how: Writing,
                                  w: Stores<V>, k: string)
    requires PlainSync(sb, tb, o) && o.prefix <= k
    ensures var f, q := LegacySync(sb, tb, false, text, o, how, w), o.targetPrefix + k;
            && f.outcome.Ok?
            && Held(f.stores.source, k) == (if k !in w.source.data && Held(w.target, q).Val?
                                            then Canonical(sb, Held(w.target, q)) else Held(w.source, k))
            && Held(f.stores.target, q) == (if q !in w.target.data && Held(w.source, k).Val?
                                            then Canonical(tb, Held(w.source, k)) else Held(w.target, q))
  {
    var tp := o.targetPrefix;
    ListedKeys(sb, w.source, o.prefix);
    ListedKeys(tb, w.target, tp + o.prefix);
    var (sk, s0) := KeysOp(sb, w.source, o.prefix);
    var (tk, t0) := KeysOp(tb, w.target, tp + o.prefix);
    PrefixPlus(tp, o.prefix, k);
    assert forall q :: q in tk.value ==> tp <= tp + o.prefix <= q;
    var sourceOnly := SourceOnlyKeys(tp, sk.value, tk.value);
    var targetOnly := TargetOnlyKeys(tp, sk.value, tk.value);
    SourceOnlyMeans(tp, sk.value, tk.value, k);
    forall q
      ensures q in targetOnly <==> q in tk.value && q[|tp|..] !in sk.value
    {
      TargetOnlyMeans(tp, sk.value, tk.value, q);
    }
    assert (tp + k)[|tp|..] == k;
    LegacyPush(sb, tb, text, o, how, sourceOnly, s0, t0, k);
    var push := Copy(CopyEnv(sb, tb, false, text, PushOptions(o, how, Some(sourceOnly))), s0, t0);
    LegacyPull(sb, tb, text, o, how, targetOnly, push.world.from, push.world.to, k);
  }
}
