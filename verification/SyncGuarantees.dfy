/**
 * What a healthy bidirectional sync guarantees: no one-sided change is lost, a re-run is
 * quiet exactly where presence agrees, a dry run predicts the real one.
 */
module SyncGuarantees {
  import opened Outcomes
  import opened Adapter
  import opened SyncDiff
  import opened SyncSpec
  import opened SyncAccounting
  import opened SyncPerKey

  // ---- no lost update ----

  /** A baseline entry that recorded a value on both sides, or no entry at all. */
  predicate Complete(base: Option<Entry>) {
    base.Some? ==> base.value.sourceHash != "" && base.value.targetHash != ""
  }

  /** The side reads differently from what the baseline recorded: edited, created or deleted. */
  predicate SourceChanged<V(!new)>(e: Env<V>, base: Option<Entry>, x: Pair<V>) {
    Fingerprint(e.codec, x.s) != if base.Some? then base.value.sourceHash else ""
  }

  predicate TargetChanged<V(!new)>(e: Env<V>, base: Option<Entry>, x: Pair<V>) {
    Fingerprint(e.codec, x.t) != if base.Some? then base.value.targetHash else ""
  }

  /** What the class of a key does to a one-sided change, by values alone. */
  lemma OneSidedChange<V(!new)>(e: Env<V>, k: string, base: Option<Entry>, x: Pair<V>)
    requires Complete(base)
    ensures var s, t := Fingerprint(e.codec, x.s), Fingerprint(e.codec, x.t);
            var x' := After(e, Classify(s, t, base, true), k, x);
            && (SourceChanged(e, base, x) && !TargetChanged(e, base, x) ==>
                  x' == if x.s.None? then Pair(None, None) else if s == t then x else Sent(e, k, x))
            && (TargetChanged(e, base, x) && !SourceChanged(e, base, x) ==>
                  x' == if x.t.None? then Pair(None, None) else if s == t then x else Fetched(e, k, x))
            && (!SourceChanged(e, base, x) && !TargetChanged(e, base, x) ==> x' == x)
  {
    FingerprintIsTruthy(e.codec, x.s);
    FingerprintIsTruthy(e.codec, x.t);
  }

  /**
   * No lost update, whatever the conflict policy: since a complete baseline, a change on one
   * side only carries that side's value or absence to the other, and a key changed on neither
   * side is left alone. (Two values with one fingerprint count as equal.)
   */
  lemma NoLostUpdate<V(!new)>(e: Env<V>, w: World<V>, k: string)
    requires Healthy(e) && Aligned(e.opts) && !e.opts.dryRun && InScope(e.opts, k) && Detects(e, w)
    requires Complete(EntryAt(StartBaseline(e, w), k))
    ensures var x, x' := PairAt(e, w, k), PairAt(e, Sync(e, w).world, k);
            var base := EntryAt(StartBaseline(e, w), k);
            && (SourceChanged(e, base, x) && !TargetChanged(e, base, x) ==>
                  x' == if x.s.None? then Pair(None, None)
                        else if Fingerprint(e.codec, x.s) == Fingerprint(e.codec, x.t) then x
                        else Sent(e, k, x))
            && (TargetChanged(e, base, x) && !SourceChanged(e, base, x) ==>
                  x' == if x.t.None? then Pair(None, None)
                        else if Fingerprint(e.codec, x.s) == Fingerprint(e.codec, x.t) then x
                        else Fetched(e, k, x))
            && (!SourceChanged(e, base, x) && !TargetChanged(e, base, x) ==> x' == x)
  {
    SyncActsOnKey(e, w, k);
    OneSidedChange(e, k, EntryAt(StartBaseline(e, w), k), PairAt(e, w, k));
  }

  /** With plain stores and no transform, the change ends up verbatim on both sides. */
  lemma PlainChangeReachesBothSides<V(!new)>(e: Env<V>, w: World<V>, k: string)
    requires Healthy(e) && e.opts.transform.None? && !e.opts.dryRun && InScope(e.opts, k) && Detects(e, w)
    requires Complete(EntryAt(StartBaseline(e, w), k))
    requires forall v :: e.source.canon(v) == v && e.target.canon(v) == v
    requires Fingerprint(e.codec, SourceView(w, k)) != Fingerprint(e.codec, TargetView(e, w, k))
    ensures var x, x' := PairAt(e, w, k), PairAt(e, Sync(e, w).world, k);
            var base := EntryAt(StartBaseline(e, w), k);
            && (SourceChanged(e, base, x) && !TargetChanged(e, base, x) ==> x' == Pair(x.s, x.s))
            && (TargetChanged(e, base, x) && !SourceChanged(e, base, x) ==> x' == Pair(x.t, x.t))
  {
    NoLostUpdate(e, w, k);
  }

  // ---- running again ----

  predicate WouldDetect<V(!new)>(opts: Options<V>) {
    opts.detectDeletions.None? || opts.detectDeletions.value
  }

  ghost predicate KeepsRecord<V(!new)>(e: Env<V>) {
    Healthy(e) && Aligned(e.opts) && !e.opts.dryRun && KeepsBaseline(e.opts) && BaselineSurvives(e)
  }

  /**
   * How the next run classifies a key. A key present on both sides is unchanged, however it
   * got there; a key present on one side only is read as deleted from the other.
   */
  lemma RerunClass<V(!new)>(e: Env<V>, w: World<V>, k: string)
    requires KeepsRecord(e) && InScope(e.opts, k)
    ensures var w' := Sync(e, w).world;
            ClassAt(e, w', k) ==
            match PairAt(e, w', k) {
              case Pair(None, None) => Gone
              case Pair(Some(_), Some(_)) => Unchanged
              case Pair(Some(_), None) => if WouldDetect(e.opts) then DeleteFromSource else ToPush
              case Pair(None, Some(_)) => if WouldDetect(e.opts) then DeleteFromTarget else ToPull
            }
  {
    SyncActsOnKey(e, w, k);
    NextRunStartsFromBaseline(e, w);
    var w' := Sync(e, w).world;
    FingerprintIsTruthy(e.codec, SourceView(w', k));
    FingerprintIsTruthy(e.codec, TargetView(e, w', k));
  }

  /** The second run leaves a key alone exactly when the first left it on both sides or on neither. */
  lemma RerunQuietIff<V(!new)>(e: Env<V>, w: World<V>, k: string)
    requires KeepsRecord(e) && InScope(e.opts, k)
    ensures var w' := Sync(e, w).world;
            ClassAt(e, w', k) in {Unchanged, Gone} <==> (SourceView(w', k).Some? <==> TargetView(e, w', k).Some?)
  {
    RerunClass(e, w, k);
  }

  /** A key the first run left on one side only is deleted there by the second. */
  lemma HalfPresentKeyIsDeletedNext<V(!new)>(e: Env<V>, w: World<V>, k: string)
    requires KeepsRecord(e) && InScope(e.opts, k) && WouldDetect(e.opts)
    requires var w' := Sync(e, w).world; SourceView(w', k).Some? != TargetView(e, w', k).Some?
    ensures PairAt(e, Sync(e, Sync(e, w).world).world, k) == Pair(None, None)
  {
    var w' := Sync(e, w).world;
    RerunClass(e, w, k);
    SyncActsOnKey(e, w', k);
  }

  /**
   * So a transform that returns null to skip a key new on the source destroys it: the first
   * run keeps the value, the second deletes it.
   */
  lemma SkippedKeyIsDeletedNext<V(!new)>(e: Env<V>, w: World<V>, k: string)
    requires KeepsRecord(e) && InScope(e.opts, k) && WouldDetect(e.opts)
    requires EntryAt(StartBaseline(e, w), k).None?
    requires SourceView(w, k).Some? && TargetView(e, w, k).None?
    requires Route(e.opts, AtTarget, k, Val(SourceView(w, k).value)).Dropped?
    ensures SourceView(Sync(e, w).world, k) == SourceView(w, k)
    ensures SourceView(Sync(e, Sync(e, w).world).world, k) == None
  {
    SyncActsOnKey(e, w, k);
    FingerprintIsTruthy(e.codec, SourceView(w, k));
    FingerprintIsTruthy(e.codec, TargetView(e, w, k));
    HalfPresentKeyIsDeletedNext(e, w, k);
  }

  /**
   * What a half-empty entry does, however it came about (a failed push, a skipped key, a
   * skipped conflict): a key held by the source alone is deleted by the next run exactly when
   * the entry has its fingerprint, and by then no reader of the target has seen the value.
   */
  lemma OneSidedKeyIsDeletedIff<V(!new)>(e: Env<V>, w: World<V>, k: string)
    requires Healthy(e) && Aligned(e.opts) && !e.opts.dryRun && InScope(e.opts, k) && Detects(e, w)
    requires SourceView(w, k).Some? && TargetView(e, w, k).None?
    ensures var base := EntryAt(StartBaseline(e, w), k);
            ClassAt(e, w, k) == DeleteFromSource <==>
              base.Some? && base.value.sourceHash == Fingerprint(e.codec, SourceView(w, k))
    ensures ClassAt(e, w, k) == DeleteFromSource ==> SourceView(Sync(e, w).world, k).None?
  {
    FingerprintIsTruthy(e.codec, SourceView(w, k));
    SyncActsOnKey(e, w, k);
  }

  /** A transform and a callback that never make a value disappear. */
  ghost predicate Preserving<V(!new)>(opts: Options<V>) {
    && (opts.transform.Some? ==>
          forall k, v :: var r := opts.transform.value(k, Val(v)); r.Routed? && r.value.Val?)
    && (opts.resolution.Callback? ==>
          forall k, x, y :: var d := opts.resolution.decide(k, x, y); d.Pick? ==> !d.value.Null?)
  }

  /** An edit on one side against a deletion on the other. */
  predicate EditDeleteConflict<V(!new)>(e: Env<V>, w: World<V>, k: string) {
    ClassAt(e, w, k) == Conflict && (SourceView(w, k).None? || TargetView(e, w, k).None?)
  }

  lemma PresenceAgrees<V(!new)>(e: Env<V>, w: World<V>, k: string)
    requires Healthy(e) && Aligned(e.opts) && !e.opts.dryRun && InScope(e.opts, k)
    requires Preserving(e.opts) && !EditDeleteConflict(e, w, k)
    ensures var w' := Sync(e, w).world;
            SourceView(w', k).Some? <==> TargetView(e, w', k).Some?
  {
    SyncActsOnKey(e, w, k);
    ClassFitsPresence(e, w, k);
    BalancedAfter(e, ClassAt(e, w, k), k, PairAt(e, w, k));
  }

  /** Which sides hold a value, as far as its class tells. */
  predicate Fits<V(!new)>(c: Class, x: Pair<V>) {
    match c
    case ToPush => x.s.Some?
    case ToPull => x.t.Some?
    case DeleteFromSource => x.t.None?
    case DeleteFromTarget => x.s.None?
    case Conflict => x.s.Some? || x.t.Some?
    case Unchanged => x.s.Some? && x.t.Some?
    case Gone => x.s.None? && x.t.None?
  }

  lemma ClassFitsPresence<V(!new)>(e: Env<V>, w: World<V>, k: string)
    ensures Fits(ClassAt(e, w, k), PairAt(e, w, k))
  {
    FingerprintIsTruthy(e.codec, SourceView(w, k));
    FingerprintIsTruthy(e.codec, TargetView(e, w, k));
  }

  lemma BalancedAfter<V(!new)>(e: Env<V>, c: Class, k: string, x: Pair<V>)
    requires Preserving(e.opts) && Fits(c, x)
    requires c == Conflict ==> x.s.Some? && x.t.Some?
    ensures After(e, c, k, x).s.Some? <==> After(e, c, k, x).t.Some?
  {
    assert x.s.Some? ==> AsJs(x.s) == Val(x.s.value);
    assert x.t.Some? ==> AsJs(x.t) == Val(x.t.value);
  }

  lemma NoKeysNoJobs(keys: seq<string>, x: Sides)
    requires forall k :: k in keys ==> ClassOf(x, k) in {Unchanged, Gone}
    ensures JobsOf(DiffOf(keys, x)) == []
  {
    var jobs := JobsOf(DiffOf(keys, x));
    if jobs != [] {
      assert jobs[0] in jobs;
      JobsFollowClasses(keys, x, jobs[0]);
      assert false;
    }
  }

  lemma {:induction false} RebuildEntriesKeys<V(!new)>(c: Ctx<V>, d: Diff, w: World<V>, keys: seq<string>, k: string)
    requires k in Rebuild(c, d, w, keys).entries
    ensures k in keys
  {
    if keys != [] {
      var front, last := keys[..|keys| - 1], keys[|keys| - 1];
      assert keys == front + [last];
      if k in Rebuild(c, d, w, front).entries {
        RebuildEntriesKeys(c, d, w, front, k);
      }
    }
  }

  /** A run handles the keys that one of its two scans turns up. */
  predicate Handles<V(!new)>(e: Env<V>, w: World<V>, k: string) {
    && e.opts.prefix <= k
    && ((!(BASELINE_PREFIX <= k) && SourceView(w, k).Some?)
        || (!(BASELINE_PREFIX <= e.opts.targetPrefix + k) && TargetView(e, w, k).Some?))
  }

  lemma HandledKeys<V(!new)>(e: Env<V>, w: World<V>, k: string)
    requires Healthy(e)
    ensures Prepare(e, w).Ready? && (k in Prepare(e, w).keys <==> Handles(e, w, k))
  {
    PrepareSees(e, w);
    PrepareReadsKey(e, w, k);
    PreparedIsOrderly(e, w);
  }

  /**
   * Every key a run handles is in scope: no target key is the target prefix followed by a
   * baseline key, and no source key makes a baseline key when the target prefix is put before it.
   */
  ghost predicate Scoped<V(!new)>(e: Env<V>, w: World<V>) {
    forall k :: Handles(e, w, k) ==> InScope(e.opts, k)
  }

  /** Without a target prefix that is always so. */
  lemma NoPrefixIsScoped<V(!new)>(e: Env<V>, w: World<V>)
    requires e.opts.targetPrefix == ""
    ensures Scoped(e, w)
  {
    forall k | Handles(e, w, k)
      ensures InScope(e.opts, k)
    {
      assert "" + k == k;
    }
  }

  ghost predicate HasSaved<V(!new)>(e: Env<V>, w: World<V>, entries: Entries) {
    var key := BaselineKey(e.opts.syncId);
    key in HomeOf(e, w).data
    && HomeOf(e, w).data[key] == Val(HomeBackend(e).canon(e.codec.pack(e.opts.syncId, entries)))
  }

  lemma SavingRecords<V(!new)>(e: Env<V>, w: World<V>, entries: Entries)
    requires Healthy(e) && !e.opts.dryRun
    ensures HasSaved(e, SaveBaseline(e, w, entries), entries)
    ensures HasSaved(e, w, entries) ==> SameData(w, SaveBaseline(e, w, entries))
  {
  }

  lemma {:induction false} RebuildSucceeds<V(!new)>(c: Ctx<V>, d: Diff, w: World<V>, keys: seq<string>)
    requires Healthy(c.env)
    ensures Rebuild(c, d, w, keys).ok && SameData(w, Rebuild(c, d, w, keys).world)
  {
    ReliableRebuild(c, d, w, keys);
    if keys != [] {
      RebuildSucceeds(c, d, w, keys[..|keys| - 1]);
      RebuildKeyReads(c, d, Rebuild(c, d, w, keys[..|keys| - 1]), keys[|keys| - 1]);
    }
  }

  /** The last stage of a run that keeps a baseline. */
  lemma SyncEndsBySaving<V(!new)>(e: Env<V>, w: World<V>)
    requires KeepsRecord(e)
    ensures var p, f := Prepare(e, w), Sync(e, w);
            && p.Ready? && p.ctx.env == e && SameData(Executed(p), Reread(p).world)
            && Reread(p).world.res == Executed(p).res
            && f == Finish(true, SaveBaseline(e, Reread(p).world, Reread(p).entries))
            && f.world.res == Executed(p).res.(baseline := Some(Reread(p).entries))
  {
    PrepareSees(e, w);
    PreparedIsOrderly(e, w);
    var p := Prepare(e, w);
    RebuildSucceeds(p.ctx, DiffOf(p.keys, p.sides), Executed(p), p.keys);
    RebuildKeepsResult(p.ctx, DiffOf(p.keys, p.sides), Executed(p), p.keys);
  }

  lemma BaselineKeysAreInScope<V(!new)>(e: Env<V>, w: World<V>, k: string)
    requires KeepsRecord(e) && Scoped(e, w)
    ensures Sync(e, w).world.res.baseline.Some?
    ensures k in Sync(e, w).world.res.baseline.value ==> InScope(e.opts, k)
  {
    SyncEndsBySaving(e, w);
    HandledKeys(e, w, k);
    var p := Prepare(e, w);
    if k in Reread(p).entries {
      RebuildEntriesKeys(p.ctx, DiffOf(p.keys, p.sides), Executed(p), p.keys, k);
    }
  }

  /** A key that is not handled stays as it is. */
  lemma UnhandledKeyStays<V(!new)>(e: Env<V>, w: World<V>, k: string)
    requires Healthy(e) && Aligned(e.opts) && !Handles(e, w, k)
    ensures Prepare(e, w).Ready? && PairAt(e, Executed(Prepare(e, w)), k) == PairAt(e, w, k)
  {
    HandledKeys(e, w, k);
    PrepareSees(e, w);
    var p := Prepare(e, w);
    var jobs := JobsOf(DiffOf(p.keys, p.sides));
    forall i | 0 <= i < |jobs|
      ensures jobs[i].key != k
    {
      JobsFollowClasses(p.keys, p.sides, jobs[i]);
    }
    RunElsewhere(p.ctx, p.world, jobs, k);
  }

  lemma SavingHandlesNoMore<V(!new)>(e: Env<V>, w: World<V>, entries: Entries, k: string)
    requires !e.same
    ensures Handles(e, SaveBaseline(e, w, entries), k) == Handles(e, w, k)
  {
    assert BASELINE_PREFIX <= BaselineKey(e.opts.syncId);
  }

  /** A run keeps it so. */
  lemma RunStaysScoped<V(!new)>(e: Env<V>, w: World<V>)
    requires KeepsRecord(e) && Scoped(e, w)
    ensures Scoped(e, Sync(e, w).world)
  {
    SyncEndsBySaving(e, w);
    var p := Prepare(e, w);
    var x := Reread(p);
    forall k | Handles(e, Sync(e, w).world, k)
      ensures InScope(e.opts, k)
    {
      SavingHandlesNoMore(e, x.world, x.entries, k);
      SamePair(e, Executed(p), x.world, k);
      if !Handles(e, w, k) {
        UnhandledKeyStays(e, w, k);
      }
    }
  }

  ghost predicate Settles<V(!new)>(e: Env<V>, w: World<V>) {
    && KeepsRecord(e) && Scoped(e, w) && Preserving(e.opts)
    && forall k :: InScope(e.opts, k) ==> !EditDeleteConflict(e, w, k)
  }

  lemma RerunHasNoJobs<V(!new)>(e: Env<V>, w: World<V>)
    requires Settles(e, w)
    ensures var p := Prepare(e, Sync(e, w).world);
            && p.Ready? && JobsOf(DiffOf(p.keys, p.sides)) == []
            && forall k :: k in p.keys ==> ClassOf(p.sides, k) == Unchanged
  {
    var w' := Sync(e, w).world;
    RunStaysScoped(e, w);
    PrepareSees(e, w');
    var p := Prepare(e, w');
    forall k | k in p.keys
      ensures ClassOf(p.sides, k) == Unchanged
    {
      HandledKeys(e, w', k);
      PreparedKey(e, w', k);
      PresenceAgrees(e, w, k);
      RerunClass(e, w, k);
    }
    NoKeysNoJobs(p.keys, p.sides);
  }

  lemma SameEntries(a: Entries, b: Entries)
    requires forall k :: EntryAt(Some(a), k) == EntryAt(Some(b), k)
    ensures a == b
  {
    forall k
      ensures k in a <==> k in b
      ensures k in a && k in b ==> a[k] == b[k]
    {
      assert EntryAt(Some(a), k) == EntryAt(Some(b), k);
    }
  }

  lemma QuietKeyStays<V(!new)>(e: Env<V>, w: World<V>, k: string)
    requires Healthy(e) && Aligned(e.opts) && !e.opts.dryRun && InScope(e.opts, k)
    requires ClassAt(e, w, k) == Unchanged || ClassAt(e, w, k) == Gone
    ensures PairAt(e, Sync(e, w).world, k) == PairAt(e, w, k)
  {
    SyncActsOnKey(e, w, k);
  }

  lemma RerunLeavesKey<V(!new)>(e: Env<V>, w: World<V>, k: string)
    requires Settles(e, w) && InScope(e.opts, k)
    ensures var w1 := Sync(e, w).world;
            PairAt(e, Sync(e, w1).world, k) == PairAt(e, w1, k)
  {
    PresenceAgrees(e, w, k);
    RerunQuietIff(e, w, k);
    QuietKeyStays(e, Sync(e, w).world, k);
  }

  lemma RecordedEntry<V(!new)>(e: Env<V>, w: World<V>, k: string)
    requires KeepsRecord(e) && InScope(e.opts, k)
    ensures EntryAt(Sync(e, w).world.res.baseline, k) == EntryFor(e.codec, PairAt(e, Sync(e, w).world, k))
  {
    SyncActsOnKey(e, w, k);
  }

  lemma RerunRecordsTheSameEntry<V(!new)>(e: Env<V>, w: World<V>, k: string)
    requires Settles(e, w) && InScope(e.opts, k)
    ensures var w1 := Sync(e, w).world;
            EntryAt(Sync(e, w1).world.res.baseline, k) == EntryAt(w1.res.baseline, k)
  {
    RecordedEntry(e, w, k);
    RecordedEntry(e, Sync(e, w).world, k);
    RerunLeavesKey(e, w, k);
  }

  lemma RerunRebuildsTheSameBaseline<V(!new)>(e: Env<V>, w: World<V>)
    requires Settles(e, w)
    ensures var w1 := Sync(e, w).world; var w2 := Sync(e, w1).world;
            w1.res.baseline.Some? && w2.res.baseline == w1.res.baseline
  {
    var w1 := Sync(e, w).world;
    RunStaysScoped(e, w);
    BaselineKeysAreInScope(e, w, "");
    BaselineKeysAreInScope(e, w1, "");
    var b1, b2 := w1.res.baseline.value, Sync(e, w1).world.res.baseline.value;
    forall k
      ensures EntryAt(Some(b1), k) == EntryAt(Some(b2), k)
    {
      if InScope(e.opts, k) {
        RerunRecordsTheSameEntry(e, w, k);
      } else {
        BaselineKeysAreInScope(e, w, k);
        BaselineKeysAreInScope(e, w1, k);
      }
    }
    SameEntries(b1, b2);
  }

  /**
   * Quiescence: right after a healthy sync with a value-preserving transform, arbitrary
   * canonicalisation in the adapters, and every conflict present on both sides, running again
   * finds every key unchanged, reports nothing, leaves every store's data as it was and
   * returns the same baseline.
   */
  lemma RerunIsQuiet<V(!new)>(e: Env<V>, w: World<V>)
    requires Settles(e, w)
    ensures var w1, f2 := Sync(e, w).world, Sync(e, Sync(e, w).world);
            && f2.settled
            && SameData(w1, f2.world)
            && w1.res.baseline.Some?
            && f2.world.res == EmptyResult(false).(baseline := w1.res.baseline)
  {
    var w1 := Sync(e, w).world;
    SyncEndsBySaving(e, w);
    SavingRecords(e, Reread(Prepare(e, w)).world, Reread(Prepare(e, w)).entries);
    SyncEndsBySaving(e, w1);
    RerunHasNoJobs(e, w);
    RerunRebuildsTheSameBaseline(e, w);
    PrepareSees(e, w1);
    PreparedIsOrderly(e, w1);
    var x := Reread(Prepare(e, w1));
    SavedAgain(e, w1, x.world, x.entries);
  }

  lemma SavedAgain<V(!new)>(e: Env<V>, w: World<V>, w': World<V>, entries: Entries)
    requires Healthy(e) && !e.opts.dryRun && HasSaved(e, w, entries) && SameData(w, w')
    ensures SameData(w, SaveBaseline(e, w', entries))
  {
  }

  // ---- dry runs ----

  /** One adapter on both sides has one state. */
  ghost predicate Joined<V(!new)>(e: Env<V>, w: World<V>) {
    e.same ==> w.source == w.target
  }

  lemma DryStepWritesNothing<V(!new)>(c: Ctx<V>, w: World<V>, job: Job)
    requires c.env.opts.dryRun && Joined(c.env, w)
    ensures SameData(w, Step(c, w, job)) && Joined(c.env, Step(c, w, job))
  {
  }

  lemma {:induction false} DryJobsWriteNothing<V(!new)>(c: Ctx<V>, w: World<V>, jobs: seq<Job>)
    requires c.env.opts.dryRun && Joined(c.env, w)
    ensures SameData(w, RunJobs(c, w, jobs)) && Joined(c.env, RunJobs(c, w, jobs))
  {
    if jobs != [] {
      DryJobsWriteNothing(c, w, jobs[..|jobs| - 1]);
      DryStepWritesNothing(c, RunJobs(c, w, jobs[..|jobs| - 1]), jobs[|jobs| - 1]);
    }
  }

  lemma {:induction false} ScanWritesNothing<V(!new)>(b: Backend<V>, c: Contents<V>, keys: seq<string>, strip: nat)
    ensures Scan(b, c, keys, strip).contents.data == c.data
  {
    if keys != [] {
      ScanWritesNothing(b, c, keys[..|keys| - 1], strip);
    }
  }

  lemma PrepareWritesNothing<V(!new)>(e: Env<V>, w: World<V>)
    requires Joined(e, w)
    ensures SameData(w, Prepare(e, w).world) && Joined(e, Prepare(e, w).world)
  {
    var (sk, s0) := KeysOp(e.source, w.source, e.opts.prefix);
    var w1 := WithSource(e, w.(res := EmptyResult(e.opts.dryRun)), s0);
    var (tk, t0) := KeysOp(e.target, w1.target, e.opts.targetPrefix + e.opts.prefix);
    var w2 := WithTarget(e, w1, t0);
    if sk.Ok? && tk.Ok? {
      ScanWritesNothing(e.source, w2.source, sk.value, 0);
      var w3 := WithSource(e, w2, Scan(e.source, w2.source, sk.value, 0).contents);
      ScanWritesNothing(e.target, w3.target, tk.value, |e.opts.targetPrefix|);
      LoadWritesNothing(e, WithTarget(e, w3, Scan(e.target, w3.target, tk.value, |e.opts.targetPrefix|).contents));
    }
  }

  lemma LoadWritesNothing<V(!new)>(e: Env<V>, w: World<V>)
    requires Joined(e, w)
    ensures SameData(w, LoadBaseline(e, w).1) && Joined(e, LoadBaseline(e, w).1)
  {
  }

  lemma DryRebuildKeyWritesNothing<V(!new)>(c: Ctx<V>, d: Diff, x: Rebuilt<V>, key: string)
    requires Joined(c.env, x.world)
    ensures SameData(x.world, RebuildKey(c, d, x, key).world) && Joined(c.env, RebuildKey(c, d, x, key).world)
  {
  }

  lemma {:induction false} DryRebuildWritesNothing<V(!new)>(c: Ctx<V>, d: Diff, w: World<V>, keys: seq<string>)
    requires Joined(c.env, w)
    ensures SameData(w, Rebuild(c, d, w, keys).world) && Joined(c.env, Rebuild(c, d, w, keys).world)
  {
    if keys != [] {
      var x := Rebuild(c, d, w, keys[..|keys| - 1]);
      DryRebuildWritesNothing(c, d, w, keys[..|keys| - 1]);
      DryRebuildKeyWritesNothing(c, d, x, keys[|keys| - 1]);
    }
  }

  /** A dry run changes no store, whatever fails. */
  lemma DryRunWritesNothing<V(!new)>(e: Env<V>, w: World<V>)
    requires e.opts.dryRun && Joined(e, w)
    ensures SameData(w, Sync(e, w).world)
  {
    PrepareWritesNothing(e, w);
    var p := Prepare(e, w);
    if p.Ready? {
      PreparedIsOrderly(e, w);
      DryJobsWriteNothing(p.ctx, p.world, JobsOf(DiffOf(p.keys, p.sides)));
      DryRebuildWritesNothing(p.ctx, DiffOf(p.keys, p.sides), Executed(p), p.keys);
    }
  }

  function Rehearsal<V(!new)>(e: Env<V>): Env<V> {
    e.(opts := e.opts.(dryRun := true))
  }

  ghost predicate Twins<V(!new)>(w: World<V>, w': World<V>) {
    w.res.(dryRun := true) == w'.res
  }

  lemma WriteAsRehearsed<V(!new)>(e: Env<V>, w: World<V>, w': World<V>, side: Side, k: string, y: Js<V>)
    requires Healthy(e) && Twins(w, w')
    ensures Write(e, w, side, k, y).0 && Write(Rehearsal(e), w', side, k, y).0
    ensures Twins(Write(e, w, side, k, y).1, Write(Rehearsal(e), w', side, k, y).1)
  {
  }

  lemma DeliverAsRehearsed<V(!new)>(e: Env<V>, w: World<V>, w': World<V>, side: Side, key: string, x: Js<V>, v: Verdict)
    requires Healthy(e) && Twins(w, w')
    ensures Twins(Deliver(e, w, side, key, x, v), Deliver(Rehearsal(e), w', side, key, x, v))
  {
    var r := Route(e.opts, side, key, x);
    match r
    case Raised => NoteTwins(w.res, w'.res, Failed, key);
    case Dropped => NoteTwins(w.res, w'.res, Skipped, key);
    case Routed(k, y) =>
      var verdict := if Hashable(y) then v else Failed;
      WriteAsRehearsed(e, w, w', side, k, y);
      NoteTwins(Write(e, w, side, k, y).1.res, Write(Rehearsal(e), w', side, k, y).1.res, verdict, key);
  }

  lemma NoteTwins(r: SyncResult, r': SyncResult, v: Verdict, key: string)
    requires r.(dryRun := true) == r'
    ensures Note(r, v, key).(dryRun := true) == Note(r', v, key)
  {
  }

  lemma SettleAsRehearsed<V(!new)>(e: Env<V>, w: World<V>, w': World<V>, key: string, d: Decision<V>)
    requires Healthy(e) && Twins(w, w')
    ensures Twins(Settle(e, w, key, d), Settle(Rehearsal(e), w', key, d))
  {
  }

  lemma StepAsRehearsed<V(!new)>(c: Ctx<V>, w: World<V>, w': World<V>, job: Job)
    requires Healthy(c.env) && Twins(w, w')
    ensures Twins(Step(c, w, job), Step(c.(env := Rehearsal(c.env)), w', job))
  {
    var e, key := c.env, job.key;
    match job.phase
    case Push => DeliverAsRehearsed(e, w, w', AtTarget, key, Seen(c.source, key),
                                    if key in c.target.values then Updated else Created);
    case Pull => DeliverAsRehearsed(e, w, w', AtSource, key, Seen(c.target, key),
                                    if key in c.source.values then Updated else Created);
    case DropSource =>
    case DropTarget =>
    case Resolve =>
      match e.opts.resolution
      case SkipConflicts =>
      case SourceWins => DeliverAsRehearsed(e, w, w', AtTarget, key, Seen(c.source, key), Updated);
      case TargetWins => DeliverAsRehearsed(e, w, w', AtSource, key, Seen(c.target, key), Updated);
      case Callback(decide) => SettleAsRehearsed(e, w, w', key, decide(key, Seen(c.source, key), Seen(c.target, key)));
  }

  lemma {:induction false} JobsAsRehearsed<V(!new)>(c: Ctx<V>, w: World<V>, w': World<V>, jobs: seq<Job>)
    requires Healthy(c.env) && Twins(w, w')
    ensures Twins(RunJobs(c, w, jobs), RunJobs(c.(env := Rehearsal(c.env)), w', jobs))
  {
    if jobs != [] {
      var front, last := jobs[..|jobs| - 1], jobs[|jobs| - 1];
      JobsAsRehearsed(c, w, w', front);
      StepAsRehearsed(c, RunJobs(c, w, front), RunJobs(c.(env := Rehearsal(c.env)), w', front), last);
    }
  }

  lemma PrepareAsRehearsed<V(!new)>(e: Env<V>, w: World<V>)
    requires Healthy(e)
    ensures var p, p' := Prepare(e, w), Prepare(Rehearsal(e), w);
            && p.Ready? && p'.Ready?
            && p'.ctx == p.ctx.(env := Rehearsal(e)) && p'.keys == p.keys && p'.sides == p.sides
            && p'.world.res == p.world.res.(dryRun := true)
  {
    PrepareSees(e, w);
  }

  /** A dry run reports exactly what the failure-free real run then reports. */
  lemma DryRunPredicts<V(!new)>(e: Env<V>, w: World<V>)
    requires Healthy(e)
    ensures var wet, dry := Sync(e, w).world.res, Sync(Rehearsal(e), w).world.res;
            dry == wet.(dryRun := true, baseline := dry.baseline)
  {
    PrepareAsRehearsed(e, w);
    var p, p' := Prepare(e, w), Prepare(Rehearsal(e), w);
    PreparedIsOrderly(e, w);
    JobsAsRehearsed(p.ctx, p.world, p'.world, JobsOf(DiffOf(p.keys, p.sides)));
    ConcludeKeepsLists(p);
    ConcludeKeepsLists(p');
  }
}
