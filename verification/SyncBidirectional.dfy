/** The bidirectional sync carried out on mutable adapters, proved to do what SyncSpec.Sync says. */
module SyncBidirectional {
  import opened Outcomes
  import opened Adapter
  import opened SyncDiff
  import opened SyncSpec
  import opened SyncAccounting

  /** The adapters play the roles the environment gives them. */
  ghost predicate Cast<V>(e: Env<V>, source: StorageAdapter<V>, target: StorageAdapter<V>, home: StorageAdapter<V>) {
    && e.same == (source == target)
    && e.source == source.backend && e.target == target.backend && e.apart == home.backend
    && e.home == (if home == source then InSource else if home == target then InTarget else Apart)
  }

  ghost predicate Mirrors<V>(e: Env<V>, w: World<V>, source: StorageAdapter<V>, target: StorageAdapter<V>,
                             home: StorageAdapter<V>)
    reads source, target, home
  {
    Cast(e, source, target, home)
    && source.State() == w.source && target.State() == w.target && home.State() == HomeOf(e, w)
  }

  method ScanSide<V>(a: StorageAdapter<V>, keys: seq<string>, strip: nat) returns (ok: bool, snap: Snapshot<V>)
    modifies a
    ensures Scanned(ok, a.State(), snap) == Scan(a.backend, old(a.State()), keys, strip)
  {
    ok, snap := true, Snapshot([], map[]);
    var i := 0;
    while i < |keys|
      invariant 0 <= i <= |keys|
      invariant ok && Scanned(ok, a.State(), snap) == Scan(a.backend, old(a.State()), keys[..i], strip)
    {
      assert keys[..i + 1][..i] == keys[..i];
      if !(BASELINE_PREFIX <= keys[i]) {
        var r := a.Get(keys[i]);
        if r.Thrown? {
          ScanStops(a.backend, old(a.State()), keys, i + 1, strip);
          return false, snap;
        }
        if r.value.Val? {
          snap := Record(snap, Slice(keys[i], strip), r.value.v);
        }
      }
      i := i + 1;
    }
    assert keys[..|keys|] == keys;
  }

  lemma {:induction false} ScanStops<V>(b: Backend<V>, c: Contents<V>, keys: seq<string>, i: nat, strip: nat)
    requires i <= |keys| && !Scan(b, c, keys[..i], strip).ok
    ensures Scan(b, c, keys, strip) == Scan(b, c, keys[..i], strip)
    decreases |keys|
  {
    if i == |keys| {
      assert keys[..i] == keys;
    } else {
      assert keys[..|keys| - 1][..i] == keys[..i];
      ScanStops(b, c, keys[..|keys| - 1], i, strip);
    }
  }

  method Store<V>(e: Env<V>, source: StorageAdapter<V>, target: StorageAdapter<V>, ghost home: StorageAdapter<V>,
                  ghost w: World<V>, side: Side, key: string, x: Js<V>) returns (ok: bool)
    requires Mirrors(e, w, source, target, home)
    modifies source, target
    ensures var (ok', w') := Write(e, w, side, key, x); ok == ok' && Mirrors(e, w', source, target, home)
  {
    ok := true;
    if !e.opts.dryRun {
      if side == AtSource {
        ok := source.Set(key, x);
      } else {
        ok := target.Set(key, x);
      }
    }
  }

  lemma DeliverWrites<V>(e: Env<V>, w: World<V>, side: Side, key: string, x: Js<V>, v: Verdict, k: string, y: Js<V>)
    requires Route(e.opts, side, key, x) == Routed(k, y)
    ensures var (ok, w') := Write(e, w, side, k, y);
            Deliver(e, w, side, key, x, v) == w'.(res := Note(w.res, if ok && Hashable(y) then v else Failed, key))
  {
  }

  method DeliverTo<V>(e: Env<V>, source: StorageAdapter<V>, target: StorageAdapter<V>, ghost home: StorageAdapter<V>,
                      ghost w: World<V>, res: SyncResult, side: Side, key: string, x: Js<V>, v: Verdict)
    returns (res': SyncResult)
    requires Mirrors(e, w, source, target, home) && res == w.res
    modifies source, target
    ensures var w' := Deliver(e, w, side, key, x, v);
            Mirrors(e, w', source, target, home) && res' == w'.res
  {
    var finalKey, finalValue := SideKey(e.opts.targetPrefix, side, key), x;
    if e.opts.transform.Some? {
      var t := e.opts.transform.value(key, x);
      match t {
        case Raised => return Note(res, Failed, key);
        case Dropped => return Note(res, Skipped, key);
        case Routed(k, y) => finalKey, finalValue := k, y;
      }
    }
    assert Route(e.opts, side, key, x) == Routed(finalKey, finalValue);
    var ok := Store(e, source, target, home, w, side, finalKey, finalValue);
    DeliverWrites(e, w, side, key, x, v, finalKey, finalValue);
    res' := Note(res, if ok && Hashable(finalValue) then v else Failed, key);
  }

  method ExecutePushes<V>(c: Ctx<V>, source: StorageAdapter<V>, target: StorageAdapter<V>,
                          ghost home: StorageAdapter<V>,
                          ghost w: World<V>, res: SyncResult, keys: seq<string>)
    returns (res': SyncResult)
    requires Mirrors(c.env, w, source, target, home) && res == w.res
    modifies source, target
    ensures var w' := RunJobs(c, w, Tag(Push, keys)); Mirrors(c.env, w', source, target, home) && res' == w'.res
  {
    res' := res;
    ghost var now := w;
    var i := 0;
    while i < |keys|
      invariant 0 <= i <= |keys|
      invariant now == RunJobs(c, w, Tag(Push, keys)[..i])
      invariant Mirrors(c.env, now, source, target, home) && res' == now.res
    {
      var key := keys[i];
      res' := DeliverTo(c.env, source, target, home, now, res', AtTarget, key, Seen(c.source, key),
                        if key in c.target.values then Updated else Created);
      RunOneMore(c, w, Tag(Push, keys), i);
      now := Step(c, now, Job(Push, key));
      i := i + 1;
    }
    assert Tag(Push, keys)[..|keys|] == Tag(Push, keys);
  }

  method ExecutePulls<V>(c: Ctx<V>, source: StorageAdapter<V>, target: StorageAdapter<V>, ghost home: StorageAdapter<V>,
                         ghost w: World<V>, res: SyncResult, keys: seq<string>)
    returns (res': SyncResult)
    requires Mirrors(c.env, w, source, target, home) && res == w.res
    modifies source, target
    ensures var w' := RunJobs(c, w, Tag(Pull, keys)); Mirrors(c.env, w', source, target, home) && res' == w'.res
  {
    res' := res;
    ghost var now := w;
    var i := 0;
    while i < |keys|
      invariant 0 <= i <= |keys|
      invariant now == RunJobs(c, w, Tag(Pull, keys)[..i])
      invariant Mirrors(c.env, now, source, target, home) && res' == now.res
    {
      var key := keys[i];
      res' := DeliverTo(c.env, source, target, home, now, res', AtSource, key, Seen(c.target, key),
                        if key in c.source.values then Updated else Created);
      RunOneMore(c, w, Tag(Pull, keys), i);
      now := Step(c, now, Job(Pull, key));
      i := i + 1;
    }
    assert Tag(Pull, keys)[..|keys|] == Tag(Pull, keys);
  }

  /** Both kinds of deletion, source side first, in one loop. */
  method ExecuteDeletions<V>(c: Ctx<V>, source: StorageAdapter<V>, target: StorageAdapter<V>,
                             ghost home: StorageAdapter<V>,
                             ghost w: World<V>, res: SyncResult, deletions: seq<Job>)
    returns (res': SyncResult)
    requires Mirrors(c.env, w, source, target, home) && res == w.res
    requires forall job :: job in deletions ==> job.phase == DropSource || job.phase == DropTarget
    modifies source, target
    ensures var w' := RunJobs(c, w, deletions); Mirrors(c.env, w', source, target, home) && res' == w'.res
  {
    res' := res;
    ghost var now := w;
    var i := 0;
    while i < |deletions|
      invariant 0 <= i <= |deletions|
      invariant now == RunJobs(c, w, deletions[..i])
      invariant Mirrors(c.env, now, source, target, home) && res' == now.res
    {
      var job := deletions[i];
      assert job in deletions;
      var ok := true;
      if !c.env.opts.dryRun {
        if job.phase == DropTarget {
          ok := target.Delete(c.env.opts.targetPrefix + job.key);
        } else {
          ok := source.Delete(job.key);
        }
      }
      res' := Note(res', if ok then Deleted else Failed, job.key);
      RunOneMore(c, w, deletions, i);
      now := Step(c, now, job);
      i := i + 1;
    }
    assert deletions[..|deletions|] == deletions;
  }

  method SettleConflict<V>(e: Env<V>, source: StorageAdapter<V>, target: StorageAdapter<V>,
                           ghost home: StorageAdapter<V>,
                           ghost w: World<V>, res: SyncResult, key: string, d: Decision<V>)
    returns (res': SyncResult)
    requires Mirrors(e, w, source, target, home) && res == w.res
    modifies source, target
    ensures var w' := Settle(e, w, key, d); Mirrors(e, w', source, target, home) && res' == w'.res
  {
    match d {
      case Raise => return Note(res, Failed, key);
      case Decline => return Note(res, Conflicting, key);
      case Pick(x, to) =>
        if !Hashable(x) {
          return Note(res, Failed, key);
        }
        ghost var now := w;
        if to != TargetOnly {
          var ok := Store(e, source, target, home, now, AtSource, key, x);
          now := Write(e, now, AtSource, key, x).1;
          if !ok {
            return Note(res, Failed, key);
          }
        }
        if to != SourceOnly {
          var ok := Store(e, source, target, home, now, AtTarget, e.opts.targetPrefix + key, x);
          if !ok {
            return Note(res, Failed, key);
          }
        }
        res' := Note(res, Updated, key);
    }
  }

  method ExecuteConflicts<V>(c: Ctx<V>, source: StorageAdapter<V>, target: StorageAdapter<V>,
                             ghost home: StorageAdapter<V>,
                             ghost w: World<V>, res: SyncResult, keys: seq<string>)
    returns (res': SyncResult)
    requires Mirrors(c.env, w, source, target, home) && res == w.res
    modifies source, target
    ensures var w' := RunJobs(c, w, Tag(Resolve, keys)); Mirrors(c.env, w', source, target, home) && res' == w'.res
  {
    res' := res;
    ghost var now := w;
    var i := 0;
    while i < |keys|
      invariant 0 <= i <= |keys|
      invariant now == RunJobs(c, w, Tag(Resolve, keys)[..i])
      invariant Mirrors(c.env, now, source, target, home) && res' == now.res
    {
      var key := keys[i];
      match c.env.opts.resolution {
        case SkipConflicts =>
          res' := Note(res', Conflicting, key);
        case SourceWins =>
          res' := DeliverTo(c.env, source, target, home, now, res', AtTarget, key, Seen(c.source, key), Updated);
        case TargetWins =>
          res' := DeliverTo(c.env, source, target, home, now, res', AtSource, key, Seen(c.target, key), Updated);
        case Callback(decide) =>
          var d := decide(key, Seen(c.source, key), Seen(c.target, key));
          res' := SettleConflict(c.env, source, target, home, now, res', key, d);
      }
      RunOneMore(c, w, Tag(Resolve, keys), i);
      now := Step(c, now, Job(Resolve, key));
      i := i + 1;
    }
    assert Tag(Resolve, keys)[..|keys|] == Tag(Resolve, keys);
  }

  lemma RunOneMore<V>(c: Ctx<V>, w: World<V>, jobs: seq<Job>, i: nat)
    requires i < |jobs|
    ensures RunJobs(c, w, jobs[..i + 1]) == Step(c, RunJobs(c, w, jobs[..i]), jobs[i])
  {
    assert jobs[..i + 1][..i] == jobs[..i];
  }

  lemma {:induction false} RunInTwo<V>(c: Ctx<V>, w: World<V>, a: seq<Job>, b: seq<Job>)
    ensures RunJobs(c, w, a + b) == RunJobs(c, RunJobs(c, w, a), b)
  {
    if b == [] {
      assert a + b == a;
    } else {
      RunInTwo(c, w, a, b[..|b| - 1]);
      assert (a + b)[..|a + b| - 1] == a + b[..|b| - 1];
    }
  }

  /** Reads a key back from both sides. */
  method ReadBoth<V>(c: Ctx<V>, source: StorageAdapter<V>, target: StorageAdapter<V>, ghost home: StorageAdapter<V>,
                     ghost w: World<V>, key: string) returns (ok: bool, s: string, t: string)
    requires Mirrors(c.env, w, source, target, home)
    modifies source, target
    ensures var (r, sc) := GetOp(c.env.source, w.source, key);
            var w1 := WithSource(c.env, w, sc);
            var (r', tc) := GetOp(c.env.target, w1.target, c.env.opts.targetPrefix + key);
            && ok == (r.Ok? && r'.Ok?)
            && Mirrors(c.env, if r.Ok? then WithTarget(c.env, w1, tc) else w1, source, target, home)
            && (ok ==> s == HashRead(c.env.codec, r.value) && t == HashRead(c.env.codec, r'.value))
  {
    var sVal := source.Get(key);
    if sVal.Thrown? {
      return false, "", "";
    }
    var tVal := target.Get(c.env.opts.targetPrefix + key);
    if tVal.Thrown? {
      return false, "", "";
    }
    return true, HashRead(c.env.codec, sVal.value), HashRead(c.env.codec, tVal.value);
  }

  /** One key of the rebuilding loop. */
  method RebuildOne<V>(c: Ctx<V>, source: StorageAdapter<V>, target: StorageAdapter<V>, ghost home: StorageAdapter<V>,
                       ghost x: Rebuilt<V>, d: Diff, key: string, entries: Entries)
    returns (ok: bool, entries': Entries)
    requires Mirrors(c.env, x.world, source, target, home) && x.ok && entries == x.entries
    modifies source, target
    ensures var y := RebuildKey(c, d, x, key);
            Mirrors(c.env, y.world, source, target, home) && ok == y.ok && entries' == y.entries
  {
    if key in d.deleteFromSource || key in d.deleteFromTarget {
      return true, entries;
    }
    var sHash, tHash := HashRead(c.env.codec, Seen(c.source, key)), HashRead(c.env.codec, Seen(c.target, key));
    if (key in d.toPush || key in d.toPull || key in d.conflicts) && !c.env.opts.dryRun {
      ok, sHash, tHash := ReadBoth(c, source, target, home, x.world, key);
      if !ok {
        return false, entries;
      }
    }
    return true, if sHash != "" || tHash != "" then entries[key := Entry(sHash, tHash)] else entries;
  }

  /** Reads back what the jobs touched; rejects when a read throws. */
  method RebuildBaseline<V>(c: Ctx<V>, source: StorageAdapter<V>, target: StorageAdapter<V>,
                            ghost home: StorageAdapter<V>,
                            ghost w: World<V>, d: Diff, keys: seq<string>)
    returns (ok: bool, entries: Entries)
    requires Mirrors(c.env, w, source, target, home)
    modifies source, target
    ensures var x := Rebuild(c, d, w, keys);
            Mirrors(c.env, x.world, source, target, home) && ok == x.ok && entries == x.entries
  {
    ok, entries := true, map[];
    ghost var x := Rebuilt(true, w, map[]);
    for i := 0 to |keys|
      invariant ok && x == Rebuild(c, d, w, keys[..i]) && x.ok && entries == x.entries
      invariant Mirrors(c.env, x.world, source, target, home)
    {
      assert keys[..i + 1][..i] == keys[..i];
      ok, entries := RebuildOne(c, source, target, home, x, d, keys[i], entries);
      x := RebuildKey(c, d, x, keys[i]);
      if !ok {
        RebuildStops(c, d, w, keys, i + 1);
        return;
      }
    }
    assert keys[..|keys|] == keys;
  }

  lemma {:induction false} RebuildStops<V>(c: Ctx<V>, d: Diff, w: World<V>, keys: seq<string>, i: nat)
    requires i <= |keys| && !Rebuild(c, d, w, keys[..i]).ok
    ensures Rebuild(c, d, w, keys) == Rebuild(c, d, w, keys[..i])
    decreases |keys|
  {
    if i == |keys| {
      assert keys[..i] == keys;
    } else {
      assert keys[..|keys| - 1][..i] == keys[..i];
      RebuildStops(c, d, w, keys[..|keys| - 1], i);
    }
  }

  /** The caller's baseline, or the saved one; a failed read counts as none. */
  method FindBaseline<V>(e: Env<V>, source: StorageAdapter<V>, target: StorageAdapter<V>, home: StorageAdapter<V>,
                         ghost w: World<V>) returns (baseline: Option<Entries>)
    requires Mirrors(e, w, source, target, home)
    modifies home
    ensures var (b, w') := LoadBaseline(e, w); baseline == b && Mirrors(e, w', source, target, home) && w'.res == w.res
  {
    baseline := e.opts.baseline;
    if baseline.None? && e.opts.syncId != "" {
      var raw := home.Get(BaselineKey(e.opts.syncId));
      if raw.Ok? && raw.value.Val? {
        baseline := e.codec.unpack(raw.value.v);
      }
    }
  }

  /** Steps 1 to 4: list and read both sides, load the baseline. */
  method Survey<V>(e: Env<V>, source: StorageAdapter<V>, target: StorageAdapter<V>, home: StorageAdapter<V>,
                   ghost w: World<V>)
    returns (p: Reply<(Snapshot<V>, Snapshot<V>, Sides)>)
    requires Mirrors(e, w, source, target, home)
    modifies source, target, home
    ensures var q := Prepare(e, w);
            && Mirrors(e, q.world, source, target, home)
            && q.world.res == EmptyResult(e.opts.dryRun)
            && p == (if q.Ready? then Ok((q.ctx.source, q.ctx.target, q.sides)) else Thrown)
            && (q.Ready? ==>
                  && q.ctx.env == e
                  && q.keys == q.ctx.source.order + Fresh(q.ctx.source.order, q.ctx.target.order))
  {
    var sourceKeys := source.Keys(e.opts.prefix);
    if sourceKeys.Thrown? {
      return Thrown;
    }
    ghost var w1 := WithSource(e, w.(res := EmptyResult(e.opts.dryRun)), source.State());
    var targetKeys := target.Keys(e.opts.targetPrefix + e.opts.prefix);
    if targetKeys.Thrown? {
      return Thrown;
    }
    ghost var w2 := WithTarget(e, w1, target.State());
    assert Mirrors(e, w2, source, target, home);
    var ok, ss := ScanSide(source, sourceKeys.value, 0);
    if !ok {
      return Thrown;
    }
    ghost var w3 := WithSource(e, w2, source.State());
    assert Mirrors(e, w3, source, target, home);
    var ok', ts := ScanSide(target, targetKeys.value, |e.opts.targetPrefix|);
    ghost var w4 := WithTarget(e, w3, target.State());
    if !ok' {
      return Thrown;
    }
    var baseline := FindBaseline(e, source, target, home, w4);
    var detect := if e.opts.detectDeletions.Some? then e.opts.detectDeletions.value else baseline.Some?;
    p := Ok((ss, ts, Sides(Hashed(e.codec, ss), Hashed(e.codec, ts), baseline, detect)));
  }

  lemma RunInFour<V>(c: Ctx<V>, w: World<V>, i: seq<Job>, j: seq<Job>, k: seq<Job>, l: seq<Job>)
    ensures RunJobs(c, RunJobs(c, RunJobs(c, RunJobs(c, w, i), j), k), l) == RunJobs(c, w, i + j + k + l)
  {
    RunInTwo(c, w, i, j);
    RunInTwo(c, w, i + j, k);
    RunInTwo(c, w, i + j + k, l);
  }

  lemma JobsInPhases(d: Diff)
    ensures JobsOf(d) == Tag(Push, d.toPush) + Tag(Pull, d.toPull)
                         + (Tag(DropSource, d.deleteFromSource) + Tag(DropTarget, d.deleteFromTarget))
                         + Tag(Resolve, d.conflicts)
  {
  }

  /** Steps 5 to 8, in the order of the source. */
  method ExecuteDiff<V>(c: Ctx<V>, source: StorageAdapter<V>, target: StorageAdapter<V>, ghost home: StorageAdapter<V>,
                        ghost w: World<V>, d: Diff) returns (res: SyncResult)
    requires Mirrors(c.env, w, source, target, home) && w.res == EmptyResult(c.env.opts.dryRun)
    modifies source, target
    ensures var w' := RunJobs(c, w, JobsOf(d)); Mirrors(c.env, w', source, target, home) && res == w'.res
  {
    res := EmptyResult(c.env.opts.dryRun);
    ghost var pushes, pulls, conflicts := Tag(Push, d.toPush), Tag(Pull, d.toPull), Tag(Resolve, d.conflicts);
    var deletions := Tag(DropSource, d.deleteFromSource) + Tag(DropTarget, d.deleteFromTarget);

    res := ExecutePushes(c, source, target, home, w, res, d.toPush);
    ghost var w1 := RunJobs(c, w, pushes);
    res := ExecutePulls(c, source, target, home, w1, res, d.toPull);
    ghost var w2 := RunJobs(c, w1, pulls);
    res := ExecuteDeletions(c, source, target, home, w2, res, deletions);
    ghost var w3 := RunJobs(c, w2, deletions);
    res := ExecuteConflicts(c, source, target, home, w3, res, d.conflicts);

    RunInFour(c, w, pushes, pulls, deletions, conflicts);
    JobsInPhases(d);
  }

  function EnvOf<V>(source: StorageAdapter<V>, target: StorageAdapter<V>, home: StorageAdapter<V>,
                    codec: Codec<V>, opts: Options<V>): Env<V> {
    Env(source.backend, target.backend, home.backend,
        if home == source then InSource else if home == target then InTarget else Apart, source == target, codec, opts)
  }

  /**
   * One bidirectional sync. It leaves the adapters, and returns or rejects, as Sync says for
   * the state they were in, for every fault schedule.
   */
  method SyncBidirectional<V>(source: StorageAdapter<V>, target: StorageAdapter<V>, home: StorageAdapter<V>,
                              codec: Codec<V>, opts: Options<V>)
    returns (outcome: Reply<SyncResult>)
    modifies source, target, home
    ensures var e := EnvOf(source, target, home, codec, opts);
            var f := Sync(e, World(old(source.State()), old(target.State()), old(home.State()),
                                   EmptyResult(opts.dryRun)));
            && Mirrors(e, f.world, source, target, home)
            && outcome == if f.settled then Ok(f.world.res) else Thrown
  {
    var e := EnvOf(source, target, home, codec, opts);
    ghost var start := World(source.State(), target.State(), home.State(), EmptyResult(opts.dryRun));
    ghost var p := Prepare(e, start);
    var survey := Survey(e, source, target, home, start);
    if survey.Thrown? {
      return Thrown;
    }
    PreparedIsOrderly(e, start);
    var (ss, ts, sides) := survey.value;
    var diff := ComputeSyncDiff(ss.order, ts.order, sides);
    var c := Ctx(e, ss, ts);
    assert c == p.ctx && sides == p.sides;
    var res := ExecuteDiff(c, source, target, home, p.world, diff);
    if opts.syncId == "" || opts.baseline.Some? {
      return Ok(res);
    }
    outcome := KeepRecord(c, source, target, home, p, res, diff, ss.order + Fresh(ss.order, ts.order));
  }

  /** Step 9: rebuild the baseline and save it; a failed save is only logged. */
  method KeepRecord<V>(c: Ctx<V>, source: StorageAdapter<V>, target: StorageAdapter<V>, home: StorageAdapter<V>,
                       ghost p: Prepared<V>, res: SyncResult, diff: Diff, keys: seq<string>)
    returns (outcome: Reply<SyncResult>)
    requires p.Ready? && c == p.ctx && keys == p.keys && diff == DiffOf(p.keys, p.sides) && KeepsBaseline(c.env.opts)
    requires Mirrors(c.env, Executed(p), source, target, home) && res == Executed(p).res
    modifies source, target, home
    ensures var f := Conclude(p);
            Mirrors(c.env, f.world, source, target, home) && outcome == if f.settled then Ok(f.world.res) else Thrown
  {
    var opts := c.env.opts;
    var ok, entries := RebuildBaseline(c, source, target, home, Executed(p), diff, keys);
    if !ok {
      return Thrown;
    }
    if !opts.dryRun {
      var _ := home.Set(BaselineKey(opts.syncId), Val(c.env.codec.pack(opts.syncId, entries)));
    }
    ResultCarried(p);
    outcome := Ok(res.(baseline := Some(entries)));
  }

  lemma ResultCarried<V>(p: Prepared<V>)
    requires p.Ready?
    ensures Reread(p).world.res == Executed(p).res
  {
    RebuildKeepsResult(p.ctx, DiffOf(p.keys, p.sides), Executed(p), p.keys);
  }
}
