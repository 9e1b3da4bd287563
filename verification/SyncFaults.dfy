/** What failed operations leave behind, and what the next run makes of it. */
module SyncFaults {
  import opened Outcomes
  import opened Adapter
  import opened SyncDiff
  import opened SyncSpec
  import opened SyncAccounting
  import opened SyncPerKey
  import opened SyncGuarantees

  /** The same sync set up again, this time with nothing failing. */
  ghost predicate Recovered<V(!new)>(e: Env<V>, e2: Env<V>) {
    Healthy(e2) && e2.opts == e.opts && e2.codec == e.codec && e2.home == e.home
  }

  /** A run that settles whatever failed, and whose baseline the next run will load. */
  ghost predicate Leaves<V(!new)>(e: Env<V>, w: World<V>) {
    && Paired(e) && Aligned(e.opts) && !e.opts.dryRun && KeepsBaseline(e.opts)
    && Sync(e, w).settled && StartBaseline(e, Sync(e, w).world) == Sync(e, w).world.res.baseline
  }

  lemma SameStart<V(!new)>(e: Env<V>, e2: Env<V>, w: World<V>)
    requires Recovered(e, e2)
    ensures StartBaseline(e2, w) == StartBaseline(e, w)
  {
  }

  /** A half-present pair whose entry is right is deleted. */
  lemma HalfPairIsDeleted<V(!new)>(e: Env<V>, k: string, x: Pair<V>)
    requires x.s.Some? != x.t.Some?
    ensures After(e, Classify(Fingerprint(e.codec, x.s), Fingerprint(e.codec, x.t), EntryFor(e.codec, x), true), k, x)
         == Pair(None, None)
  {
    FingerprintIsTruthy(e.codec, x.s);
    FingerprintIsTruthy(e.codec, x.t);
  }

  /**
   * However it came about, a key that a run left on one side only, and did not set out to
   * delete, is deleted from that side by the next healthy run.
   */
  lemma HalfPresentAfterFaultsIsDeletedNext<V(!new)>(e: Env<V>, e2: Env<V>, w: World<V>, k: string)
    requires Leaves(e, w) && Recovered(e, e2) && WouldDetect(e.opts) && InScope(e.opts, k)
    requires !IsDeletion(ClassOf(Prepare(e, w).sides, k))
    requires var w' := Sync(e, w).world; SourceView(w', k).Some? != TargetView(e, w', k).Some?
    ensures PairAt(e2, Sync(e2, Sync(e, w).world).world, k) == Pair(None, None)
  {
    var w' := Sync(e, w).world;
    EntriesTellTheTruth(e, w, k);
    SameStart(e, e2, w');
    HalfPairIsDeleted(e2, k, PairAt(e, w', k));
    SyncActsOnKey(e2, w', k);
  }

  /** A key keeps its pair through the jobs before its own, and what its own makes of it through those after. */
  lemma {:induction false} RunReachesStep<V(!new)>(c: Ctx<V>, w: World<V>, jobs: seq<Job>, i: nat)
    requires !c.env.same && Aligned(c.env.opts)
    requires i < |jobs| && forall j :: 0 <= j < |jobs| && j != i ==> jobs[j].key != jobs[i].key
    ensures var mid, k := RunJobs(c, w, jobs[..i]), jobs[i].key;
            && PairAt(c.env, mid, k) == PairAt(c.env, w, k)
            && PairAt(c.env, RunJobs(c, w, jobs), k) == PairAt(c.env, Step(c, mid, jobs[i]), k)
  {
    var front, last := jobs[..|jobs| - 1], jobs[|jobs| - 1];
    if i == |front| {
      RunElsewhere(c, w, front, last.key);
    } else {
      RunReachesStep(c, w, front, i);
      assert front[..i] == jobs[..i];
      StepElsewhere(c, RunJobs(c, w, front), last, jobs[i].key);
    }
  }

  lemma OneJobEach<V(!new)>(p: Prepared<V>, i: nat)
    requires p.Ready? && NoDuplicates(p.keys) && i < |JobsOf(DiffOf(p.keys, p.sides))|
    ensures var jobs := JobsOf(DiffOf(p.keys, p.sides));
            && (forall j :: 0 <= j < |jobs| && j != i ==> jobs[j].key != jobs[i].key)
            && ClassOf(p.sides, jobs[i].key) == PhaseClass(jobs[i].phase) && jobs[i].key in p.keys
  {
    var jobs := JobsOf(DiffOf(p.keys, p.sides));
    JobsAreDistinct(p.keys, p.sides);
    JobsFollowClasses(p.keys, p.sides, jobs[i]);
    forall j | 0 <= j < |jobs| && j != i
      ensures jobs[j].key != jobs[i].key
    {
      assert KeysOf(jobs)[j] != KeysOf(jobs)[i];
    }
  }

  /** The fault that the operation of the i-th job meets on one side. */
  function FaultAt<V>(p: Prepared<V>, i: nat, side: Side): Fault
    requires p.Ready? && i < |JobsOf(DiffOf(p.keys, p.sides))|
  {
    var mid := RunJobs(p.ctx, p.world, JobsOf(DiffOf(p.keys, p.sides))[..i]);
    if side == AtSource then p.ctx.env.source.faults(mid.source.clock) else p.ctx.env.target.faults(mid.target.clock)
  }

  function JobAt<V>(p: Prepared<V>, i: nat): Job
    requires p.Ready? && i < |JobsOf(DiffOf(p.keys, p.sides))|
  {
    JobsOf(DiffOf(p.keys, p.sides))[i]
  }

  /** The value of a push arrives: the transform names a value to write, and the write takes effect. */
  predicate PushArrives<V(!new)>(c: Ctx<V>, w: World<V>, key: string) {
    var r := Route(c.env.opts, AtTarget, key, Seen(c.source, key));
    r.Routed? && r.value.Val? && !c.env.target.faults(w.target.clock).ThrowBefore?
  }

  /** What a push makes of a key the target does not hold, whatever fails. */
  lemma PushEffect<V(!new)>(c: Ctx<V>, w: World<V>, key: string)
    requires !c.env.same && Aligned(c.env.opts) && !c.env.opts.dryRun && TargetView(c.env, w, key).None?
    ensures var w' := Step(c, w, Job(Push, key));
            && SourceView(w', key) == SourceView(w, key)
            && (TargetView(c.env, w', key).Some? <==> PushArrives(c, w, key))
    ensures Route(c.env.opts, AtTarget, key, Seen(c.source, key)).Routed?
            && c.env.target.faults(w.target.clock).ThrowBefore? ==>
              key in Step(c, w, Job(Push, key)).res.keys.errors
  {
    var r := Route(c.env.opts, AtTarget, key, Seen(c.source, key));
    if r.Routed? {
      assert r.key == SideKey(c.env.opts.targetPrefix, AtTarget, key);
      assert (w.res.keys.errors + [key])[|w.res.keys.errors|] == key;
    }
  }

  lemma {:induction false} ReportedStaysReported<V(!new)>(c: Ctx<V>, w: World<V>, jobs: seq<Job>, i: nat)
    requires i < |jobs| && jobs[i].key in Step(c, RunJobs(c, w, jobs[..i]), jobs[i]).res.keys.errors
    ensures jobs[i].key in RunJobs(c, w, jobs).res.keys.errors
  {
    var front, last := jobs[..|jobs| - 1], jobs[|jobs| - 1];
    if i < |front| {
      assert front[..i] == jobs[..i];
      ReportedStaysReported(c, w, front, i);
      var v := StepNotes(c, RunJobs(c, w, front), last);
    }
  }

  /** What a run leaves of an in-scope key is what its one job makes of what was there. */
  lemma JobDecides<V(!new)>(e: Env<V>, w: World<V>, i: nat)
    requires Paired(e) && Aligned(e.opts)
    requires var p := Prepare(e, w);
             p.Ready? && i < |JobsOf(DiffOf(p.keys, p.sides))| && InScope(e.opts, JobAt(p, i).key)
    ensures var p := Prepare(e, w);
            var jobs := JobsOf(DiffOf(p.keys, p.sides));
            var k, mid := jobs[i].key, RunJobs(p.ctx, p.world, jobs[..i]);
            && p.ctx.env == e && ClassOf(p.sides, k) == PhaseClass(jobs[i].phase)
            && PairAt(e, mid, k) == PairAt(e, w, k)
            && PairAt(e, Executed(p), k) == PairAt(e, Step(p.ctx, mid, jobs[i]), k)
  {
    var p := Prepare(e, w);
    ReadyKey(e, w, JobAt(p, i).key);
    OneJobEach(p, i);
    RunReachesStep(p.ctx, p.world, JobsOf(DiffOf(p.keys, p.sides)), i);
  }

  /** The i-th job pushes an in-scope value that is new on the source. */
  predicate PushesNewValue<V(!new)>(e: Env<V>, w: World<V>, p: Prepared<V>, i: nat) {
    && p.Ready? && i < |JobsOf(DiffOf(p.keys, p.sides))| && JobAt(p, i).phase == Push
    && InScope(e.opts, JobAt(p, i).key)
    && SourceView(w, JobAt(p, i).key).Some? && TargetView(e, w, JobAt(p, i).key).None?
  }

  predicate NewValueArrives<V(!new)>(p: Prepared<V>, i: nat)
    requires p.Ready? && i < |JobsOf(DiffOf(p.keys, p.sides))|
  {
    PushArrives(p.ctx, RunJobs(p.ctx, p.world, JobsOf(DiffOf(p.keys, p.sides))[..i]), JobAt(p, i).key)
  }

  lemma PushRuns<V(!new)>(e: Env<V>, w: World<V>, p: Prepared<V>, i: nat)
    requires Paired(e) && Aligned(e.opts) && !e.opts.dryRun && p == Prepare(e, w) && PushesNewValue(e, w, p, i)
    ensures var k := JobAt(p, i).key;
            && ClassOf(p.sides, k) == ToPush
            && SourceView(Executed(p), k) == SourceView(w, k)
            && (TargetView(e, Executed(p), k).Some? <==> NewValueArrives(p, i))
            && (Route(e.opts, AtTarget, k, Seen(p.ctx.source, k)).Routed? && FaultAt(p, i, AtTarget).ThrowBefore? ==>
                  k in Executed(p).res.keys.errors)
  {
    var jobs := JobsOf(DiffOf(p.keys, p.sides));
    JobDecides(e, w, i);
    var mid := RunJobs(p.ctx, p.world, jobs[..i]);
    assert jobs[i] == Job(Push, jobs[i].key);
    PushEffect(p.ctx, mid, jobs[i].key);
    if jobs[i].key in Step(p.ctx, mid, jobs[i]).res.keys.errors {
      ReportedStaysReported(p.ctx, p.world, jobs, i);
    }
  }

  /** A pair on both sides whose entry is right is left alone. */
  lemma WholePairStays<V(!new)>(e: Env<V>, k: string, x: Pair<V>)
    requires x.s.Some? && x.t.Some?
    ensures After(e, Classify(Fingerprint(e.codec, x.s), Fingerprint(e.codec, x.t), EntryFor(e.codec, x), true), k, x)
         == x
  {
    FingerprintIsTruthy(e.codec, x.s);
    FingerprintIsTruthy(e.codec, x.t);
  }

  /**
   * A failed push loses data. A value new on the source is gone from both sides after the next
   * run, in which nothing fails, exactly when its push did not arrive: the transform gave no
   * value to write, or the write threw before its effect. In the last case it is reported as an
   * error. A push that threw after its effect does no harm.
   */
  lemma FailedPushIsDeletedIff<V(!new)>(e: Env<V>, e2: Env<V>, w: World<V>, i: nat)
    requires Leaves(e, w) && Recovered(e, e2) && WouldDetect(e.opts) && PushesNewValue(e, w, Prepare(e, w), i)
    ensures var p, w1 := Prepare(e, w), Sync(e, w).world;
            var k, w2 := JobAt(p, i).key, Sync(e2, w1).world;
            && SourceView(w1, k) == SourceView(w, k)
            && (PairAt(e2, w2, k) == Pair(None, None) <==> !NewValueArrives(p, i))
            && (NewValueArrives(p, i) ==> PairAt(e2, w2, k) == PairAt(e, w1, k))
            && (Route(e.opts, AtTarget, k, Seen(p.ctx.source, k)).Routed? && FaultAt(p, i, AtTarget).ThrowBefore? ==>
                  k in w1.res.keys.errors)
  {
    var p, w1 := Prepare(e, w), Sync(e, w).world;
    var k := JobAt(p, i).key;
    PushRuns(e, w, p, i);
    EntriesTellTheTruth(e, w, k);
    ConcludeKeepsLists(p);
    if NewValueArrives(p, i) {
      SameStart(e, e2, w1);
      WholePairStays(e2, k, PairAt(e, w1, k));
      SyncActsOnKey(e2, w1, k);
    } else {
      HalfPresentAfterFaultsIsDeletedNext(e, e2, w, k);
    }
  }

  /** What a deletion leaves, by the fault it meets. */
  lemma DeletionEffect<V(!new)>(c: Ctx<V>, w: World<V>, k: string)
    requires !c.env.same && !c.env.opts.dryRun
    ensures PairAt(c.env, Step(c, w, Job(DropSource, k)), k)
         == if c.env.source.faults(w.source.clock).ThrowBefore? then PairAt(c.env, w, k)
            else PairAt(c.env, w, k).(s := None)
    ensures PairAt(c.env, Step(c, w, Job(DropTarget, k)), k)
         == if c.env.target.faults(w.target.clock).ThrowBefore? then PairAt(c.env, w, k)
            else PairAt(c.env, w, k).(t := None)
  {
  }

  /** With no entry, what is left on one side travels to the other. */
  lemma NewPairTravels<V(!new)>(e: Env<V>, k: string, x: Pair<V>, detect: bool)
    requires x.s.None? || x.t.None?
    ensures After(e, Classify(Fingerprint(e.codec, x.s), Fingerprint(e.codec, x.t), None, detect), k, x)
         == if x.s.Some? then Sent(e, k, x) else if x.t.Some? then Fetched(e, k, x) else Pair(None, None)
  {
    FingerprintIsTruthy(e.codec, x.s);
    FingerprintIsTruthy(e.codec, x.t);
  }

  /** After a run that set out to delete the key it has no entry, so the next one takes what is left for new. */
  lemma NextTakesItForNew<V(!new)>(e: Env<V>, e2: Env<V>, w: World<V>, k: string)
    requires Leaves(e, w) && Recovered(e, e2) && InScope(e.opts, k) && IsDeletion(ClassOf(Prepare(e, w).sides, k))
    requires PairAt(e, Sync(e, w).world, k).s.None? || PairAt(e, Sync(e, w).world, k).t.None?
    ensures var w1 := Sync(e, w).world;
            var x := PairAt(e, w1, k);
            PairAt(e2, Sync(e2, w1).world, k)
            == if x.s.Some? then Sent(e2, k, x) else if x.t.Some? then Fetched(e2, k, x) else Pair(None, None)
  {
    var w1 := Sync(e, w).world;
    EntriesTellTheTruth(e, w, k);
    SameStart(e, e2, w1);
    NewPairTravels(e2, k, PairAt(e, w1, k), Detects(e2, w1));
    SyncActsOnKey(e2, w1, k);
  }

  lemma DeletedOnOtherSide<V(!new)>(e: Env<V>, w: World<V>, k: string)
    requires Paired(e) && Prepare(e, w).Ready? && InScope(e.opts, k)
    ensures var c := ClassOf(Prepare(e, w).sides, k);
            && (c == DeleteFromSource ==> SourceView(w, k).Some? && TargetView(e, w, k).None?)
            && (c == DeleteFromTarget ==> SourceView(w, k).None? && TargetView(e, w, k).Some?)
  {
    ReadyKey(e, w, k);
    FingerprintIsTruthy(e.codec, SourceView(w, k));
    FingerprintIsTruthy(e.codec, TargetView(e, w, k));
  }

  /**
   * A failed deletion is undone. A key deleted on the target is to be deleted from the source:
   * after the next healthy run it is gone from both, unless the deletion threw before its
   * effect; then the next run sends the source's value to the target again.
   */
  lemma FailedSourceDeletionIsUndoneIff<V(!new)>(e: Env<V>, e2: Env<V>, w: World<V>, i: nat)
    requires Leaves(e, w) && Recovered(e, e2)
    requires var p := Prepare(e, w);
             && p.Ready? && i < |JobsOf(DiffOf(p.keys, p.sides))| && JobAt(p, i).phase == DropSource
             && InScope(e.opts, JobAt(p, i).key)
    ensures var p := Prepare(e, w);
            var k, w2 := JobAt(p, i).key, Sync(e2, Sync(e, w).world).world;
            && (PairAt(e2, w2, k) == Pair(None, None) <==> !FaultAt(p, i, AtSource).ThrowBefore?)
            && (FaultAt(p, i, AtSource).ThrowBefore? ==> PairAt(e2, w2, k) == Sent(e2, k, PairAt(e, w, k)))
  {
    var p := Prepare(e, w);
    var jobs, k := JobsOf(DiffOf(p.keys, p.sides)), JobAt(p, i).key;
    DeletionRuns(e, w, i);
    DeletedOnOtherSide(e, w, k);
    EntriesTellTheTruth(e, w, k);
    NextTakesItForNew(e, e2, w, k);
  }

  lemma DeletionRuns<V(!new)>(e: Env<V>, w: World<V>, i: nat)
    requires Paired(e) && Aligned(e.opts) && !e.opts.dryRun
    requires var p := Prepare(e, w);
             && p.Ready? && i < |JobsOf(DiffOf(p.keys, p.sides))| && InScope(e.opts, JobAt(p, i).key)
             && (JobAt(p, i).phase == DropSource || JobAt(p, i).phase == DropTarget)
    ensures var p := Prepare(e, w); var k := JobAt(p, i).key;
            && ClassOf(p.sides, k) == PhaseClass(JobAt(p, i).phase)
            && PairAt(e, Executed(p), k)
               == if JobAt(p, i).phase == DropSource
                  then (if FaultAt(p, i, AtSource).ThrowBefore? then PairAt(e, w, k) else PairAt(e, w, k).(s := None))
                  else (if FaultAt(p, i, AtTarget).ThrowBefore? then PairAt(e, w, k) else PairAt(e, w, k).(t := None))
  {
    var p := Prepare(e, w);
    var jobs, k := JobsOf(DiffOf(p.keys, p.sides)), JobAt(p, i).key;
    JobDecides(e, w, i);
    DeletionEffect(p.ctx, RunJobs(p.ctx, p.world, jobs[..i]), k);
  }

  /** The same from the other side. */
  lemma FailedTargetDeletionIsUndoneIff<V(!new)>(e: Env<V>, e2: Env<V>, w: World<V>, i: nat)
    requires Leaves(e, w) && Recovered(e, e2)
    requires var p := Prepare(e, w);
             && p.Ready? && i < |JobsOf(DiffOf(p.keys, p.sides))| && JobAt(p, i).phase == DropTarget
             && InScope(e.opts, JobAt(p, i).key)
    ensures var p := Prepare(e, w);
            var k, w2 := JobAt(p, i).key, Sync(e2, Sync(e, w).world).world;
            && (PairAt(e2, w2, k) == Pair(None, None) <==> !FaultAt(p, i, AtTarget).ThrowBefore?)
            && (FaultAt(p, i, AtTarget).ThrowBefore? ==> PairAt(e2, w2, k) == Fetched(e2, k, PairAt(e, w, k)))
  {
    var p := Prepare(e, w);
    var jobs, k := JobsOf(DiffOf(p.keys, p.sides)), JobAt(p, i).key;
    DeletionRuns(e, w, i);
    DeletedOnOtherSide(e, w, k);
    EntriesTellTheTruth(e, w, k);
    NextTakesItForNew(e, e2, w, k);
  }

  // ---- a run whose baseline is not saved ----

  /** The run reaches its jobs, but the baseline cannot be rebuilt, or its save throws before its effect. */
  predicate LosesRecord<V(!new)>(e: Env<V>, w: World<V>) {
    var p := Prepare(e, w);
    && p.Ready? && KeepsBaseline(e.opts)
    && (Reread(p).ok ==> HomeBackend(e).faults(HomeOf(e, Reread(p).world).clock).ThrowBefore?)
  }

  ghost predicate AllInScope<V(!new)>(e: Env<V>, p: Prepared<V>) {
    p.Ready? && forall k :: k in p.keys ==> InScope(e.opts, k)
  }

  /** Rebuilding only reads, even when it fails. */
  lemma {:induction false} RebuildOnlyReads<V(!new)>(c: Ctx<V>, d: Diff, w: World<V>, keys: seq<string>)
    requires !c.env.same
    ensures SameData(w, Rebuild(c, d, w, keys).world)
  {
    if keys != [] {
      RebuildOnlyReads(c, d, w, keys[..|keys| - 1]);
    }
  }

  ghost predicate SameCell<V(!new)>(w: World<V>, w': World<V>, key: string) {
    View(w'.source, key) == View(w.source, key) && View(w'.target, key) == View(w.target, key)
    && View(w'.apart, key) == View(w.apart, key)
  }

  lemma DeliverSparesCell<V(!new)>(e: Env<V>, w: World<V>, side: Side, k: string, x: Js<V>, v: Verdict, key: string)
    requires !e.same && Aligned(e.opts) && k != key && e.opts.targetPrefix + k != key
    ensures SameCell(w, Deliver(e, w, side, k, x, v), key)
  {
    var r := Route(e.opts, side, k, x);
    if r.Routed? {
      assert r.key == SideKey(e.opts.targetPrefix, side, k);
    }
  }

  /** A job writes under its own key only, on either side. */
  lemma StepSparesCell<V(!new)>(c: Ctx<V>, w: World<V>, job: Job, key: string)
    requires !c.env.same && Aligned(c.env.opts) && job.key != key && c.env.opts.targetPrefix + job.key != key
    ensures SameCell(w, Step(c, w, job), key)
  {
    var e, k := c.env, job.key;
    match job.phase
    case Push => DeliverSparesCell(e, w, AtTarget, k, Seen(c.source, k),
                                   if k in c.target.values then Updated else Created, key);
    case Pull => DeliverSparesCell(e, w, AtSource, k, Seen(c.target, k),
                                   if k in c.source.values then Updated else Created, key);
    case DropSource =>
    case DropTarget =>
    case Resolve =>
      match e.opts.resolution
      case SkipConflicts =>
      case SourceWins => DeliverSparesCell(e, w, AtTarget, k, Seen(c.source, k), Updated, key);
      case TargetWins => DeliverSparesCell(e, w, AtSource, k, Seen(c.target, k), Updated, key);
      case Callback(decide) =>
  }

  lemma {:induction false} RunSparesCell<V(!new)>(c: Ctx<V>, w: World<V>, jobs: seq<Job>, key: string)
    requires !c.env.same && Aligned(c.env.opts)
    requires forall i :: 0 <= i < |jobs| ==> jobs[i].key != key && c.env.opts.targetPrefix + jobs[i].key != key
    ensures SameCell(w, RunJobs(c, w, jobs), key)
  {
    if jobs != [] {
      RunSparesCell(c, w, jobs[..|jobs| - 1], key);
      StepSparesCell(c, RunJobs(c, w, jobs[..|jobs| - 1]), jobs[|jobs| - 1], key);
    }
  }

  lemma JobsSpareBaseline<V(!new)>(e: Env<V>, w: World<V>)
    requires Paired(e) && Aligned(e.opts) && AllInScope(e, Prepare(e, w))
    ensures SameCell(w, Executed(Prepare(e, w)), BaselineKey(e.opts.syncId))
  {
    var p, key := Prepare(e, w), BaselineKey(e.opts.syncId);
    PrepareReadsKey(e, w, "");
    var jobs := JobsOf(DiffOf(p.keys, p.sides));
    assert BASELINE_PREFIX <= key;
    forall i | 0 <= i < |jobs|
      ensures jobs[i].key != key && e.opts.targetPrefix + jobs[i].key != key
    {
      JobsFollowClasses(p.keys, p.sides, jobs[i]);
    }
    RunSparesCell(p.ctx, p.world, jobs, key);
  }

  lemma ThrownSaveKeepsData<V(!new)>(e: Env<V>, w: World<V>, entries: Entries)
    requires !e.same && HomeBackend(e).faults(HomeOf(e, w).clock).ThrowBefore?
    ensures SameData(w, SaveBaseline(e, w, entries))
  {
  }

  lemma LostRecordKeepsData<V(!new)>(e: Env<V>, w: World<V>)
    requires Paired(e) && LosesRecord(e, w)
    ensures SameData(Executed(Prepare(e, w)), Sync(e, w).world)
  {
    var p := Prepare(e, w);
    PrepareReadsKey(e, w, "");
    RebuildOnlyReads(p.ctx, DiffOf(p.keys, p.sides), Executed(p), p.keys);
    var x := Reread(p);
    if x.ok {
      ThrownSaveKeepsData(e, x.world, x.entries);
    }
  }

  lemma SameCellSameStart<V(!new)>(e: Env<V>, w: World<V>, w': World<V>, w'': World<V>)
    requires SameCell(w, w', BaselineKey(e.opts.syncId)) && SameData(w', w'')
    ensures StartBaseline(e, w'') == StartBaseline(e, w)
  {
  }

  /** Then the next run starts from the old baseline again, on stores as the jobs left them. */
  lemma OldBaselineStays<V(!new)>(e: Env<V>, w: World<V>, k: string)
    requires Paired(e) && Aligned(e.opts) && LosesRecord(e, w) && AllInScope(e, Prepare(e, w))
    ensures StartBaseline(e, Sync(e, w).world) == StartBaseline(e, w)
    ensures PairAt(e, Sync(e, w).world, k) == PairAt(e, Executed(Prepare(e, w)), k)
  {
    JobsSpareBaseline(e, w);
    LostRecordKeepsData(e, w);
    SameCellSameStart(e, w, Executed(Prepare(e, w)), Sync(e, w).world);
    SamePair(e, Executed(Prepare(e, w)), Sync(e, w).world, k);
  }

  /** The run has carried the source's value to the target, or the other way round. */
  predicate CarriesSource<V(!new)>(e: Env<V>, c: Class, x: Pair<V>) {
    x.s.Some? && (c == ToPush || (c == Conflict && e.opts.resolution.SourceWins?))
  }

  predicate CarriesTarget<V(!new)>(e: Env<V>, c: Class, x: Pair<V>) {
    x.t.Some? && (c == ToPull || (c == Conflict && e.opts.resolution.TargetWins?))
  }

  /** How a key that was carried is classified against the entry from before. */
  lemma CarriedClass<V(!new)>(e: Env<V>, k: string, base: Option<Entry>, x: Pair<V>)
    ensures var c := Classify(Fingerprint(e.codec, x.s), Fingerprint(e.codec, x.t), base, true);
            && (c == ToPush && base.Some? ==> x.t.Some?) && (c == ToPull && base.Some? ==> x.s.Some?)
            && (CarriesSource(e, c, x) && Sent(e, k, x).t.Some? ==>
                  var t := Fingerprint(e.codec, Sent(e, k, x).t);
                  Classify(Fingerprint(e.codec, x.s), t, base, true)
                  == if Fingerprint(e.codec, x.s) == t then Unchanged
                     else if base.None? || t != base.value.targetHash then Conflict else ToPush)
            && (CarriesTarget(e, c, x) && Fetched(e, k, x).s.Some? ==>
                  var s := Fingerprint(e.codec, Fetched(e, k, x).s);
                  Classify(s, Fingerprint(e.codec, x.t), base, true)
                  == if s == Fingerprint(e.codec, x.t) then Unchanged
                     else if base.None? || s != base.value.sourceHash then Conflict else ToPull)
  {
    FingerprintIsTruthy(e.codec, x.s);
    FingerprintIsTruthy(e.codec, x.t);
    FingerprintIsTruthy(e.codec, Sent(e, k, x).t);
    FingerprintIsTruthy(e.codec, Fetched(e, k, x).s);
  }

  lemma QuietClass<V(!new)>(e: Env<V>, k: string, base: Option<Entry>, x: Pair<V>)
    ensures var c := Classify(Fingerprint(e.codec, x.s), Fingerprint(e.codec, x.t), base, true);
            var y := After(e, c, k, x);
            c in {Unchanged, Gone, DeleteFromSource, DeleteFromTarget} ==>
              Classify(Fingerprint(e.codec, y.s), Fingerprint(e.codec, y.t), base, true) in {Unchanged, Gone}
  {
    FingerprintIsTruthy(e.codec, x.s);
    FingerprintIsTruthy(e.codec, x.t);
  }

  lemma DetectionMatters<V(!new)>(e: Env<V>, w: World<V>, k: string)
    requires WouldDetect(e.opts)
    ensures var x := PairAt(e, w, k);
            ClassAt(e, w, k) == Classify(Fingerprint(e.codec, x.s), Fingerprint(e.codec, x.t),
                                         EntryAt(StartBaseline(e, w), k), true)
  {
  }

  /** What the next run makes of a key whose pair the last one left as y, against the entry from before. */
  ghost predicate NextAgainstOld<V(!new)>(e: Env<V>, base: Option<Entry>, c: Class, x: Pair<V>, y: Pair<V>,
                                          next: Class) {
    var s, t := Fingerprint(e.codec, y.s), Fingerprint(e.codec, y.t);
    && (c in {Unchanged, Gone, DeleteFromSource, DeleteFromTarget} ==> next in {Unchanged, Gone})
    && (CarriesSource(e, c, x) && y.t.Some? ==>
          next == if s == t then Unchanged
                  else if base.None? || t != base.value.targetHash then Conflict else ToPush)
    && (CarriesTarget(e, c, x) && y.s.Some? ==>
          next == if s == t then Unchanged
                  else if base.None? || s != base.value.sourceHash then Conflict else ToPull)
  }

  lemma NextClassAgainstOld<V(!new)>(e: Env<V>, k: string, base: Option<Entry>, x: Pair<V>)
    ensures var c := Classify(Fingerprint(e.codec, x.s), Fingerprint(e.codec, x.t), base, true);
            var y := After(e, c, k, x);
            NextAgainstOld(e, base, c, x, y, Classify(Fingerprint(e.codec, y.s), Fingerprint(e.codec, y.t), base, true))
  {
    CarriedClass(e, k, base, x);
    QuietClass(e, k, base, x);
  }

  /**
   * A run does its jobs, but its baseline is not saved. Of an in-scope key that it left alone or
   * deleted, the next run makes nothing more. A key whose value it carried to the other side is
   * quiet exactly when the two sides' fingerprints now agree. Otherwise the next run reports a
   * conflict, unless the other side reads as the old baseline has it; then it carries it again.
   */
  lemma RunAfterLostRecord<V(!new)>(e: Env<V>, e2: Env<V>, w: World<V>, k: string)
    requires Paired(e) && Aligned(e.opts) && !e.opts.dryRun && LosesRecord(e, w) && AllInScope(e, Prepare(e, w))
    requires Recovered(e, e2) && WouldDetect(e.opts) && InScope(e.opts, k)
    requires PairAt(e, Executed(Prepare(e, w)), k) == After(e, ClassAt(e, w, k), k, PairAt(e, w, k))
    ensures var x, w1, next := PairAt(e, w, k), Sync(e, w).world, ClassAt(e2, Sync(e, w).world, k);
            && NextAgainstOld(e, EntryAt(StartBaseline(e, w), k), ClassAt(e, w, k), x, PairAt(e, w1, k), next)
            && PairAt(e2, Sync(e2, w1).world, k) == After(e2, next, k, PairAt(e, w1, k))
  {
    var w1 := Sync(e, w).world;
    OldBaselineStays(e, w, k);
    SameStart(e, e2, w1);
    DetectionMatters(e, w, k);
    DetectionMatters(e2, w1, k);
    NextClassAgainstOld(e, k, EntryAt(StartBaseline(e, w), k), PairAt(e, w, k));
    SyncActsOnKey(e2, w1, k);
  }
}
