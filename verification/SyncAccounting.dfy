/** Every key the diff hands out is accounted for exactly once, whatever fails. */
module SyncAccounting {
  import opened Adapter
  import opened SyncDiff
  import opened SyncSpec

  /** Each counter is the length of its list, and each error record has its key listed. */
  ghost predicate Tallied(r: SyncResult) {
    && r.created == |r.keys.created|
    && r.updated == |r.keys.updated|
    && r.skipped == |r.keys.skipped|
    && r.deleted == |r.keys.deleted|
    && r.conflicts == |r.keys.conflicts|
    && r.errors == r.keys.errors
  }

  /** All keys the result reports, with multiplicity. */
  ghost function Ledger(k: KeyLists): multiset<string> {
    multiset(k.created) + multiset(k.updated) + multiset(k.skipped)
    + multiset(k.deleted) + multiset(k.conflicts) + multiset(k.errors)
  }

  /** The list of one verdict. */
  function ListOf(k: KeyLists, v: Verdict): seq<string> {
    match v
    case Created => k.created
    case Updated => k.updated
    case Skipped => k.skipped
    case Deleted => k.deleted
    case Conflicting => k.conflicts
    case Failed => k.errors
  }

  ghost function KeysOf(jobs: seq<Job>): seq<string> {
    seq(|jobs|, i requires 0 <= i < |jobs| => jobs[i].key)
  }

  lemma Extended(keys: seq<string>, key: string)
    ensures multiset(keys + [key]) == multiset(keys) + multiset{key}
  {
  }

  lemma NoteKeepsTally(r: SyncResult, v: Verdict, key: string)
    requires Tallied(r)
    ensures Tallied(Note(r, v, key))
  {
  }

  lemma NoteAccounts(r: SyncResult, v: Verdict, key: string)
    requires Tallied(r)
    ensures Tallied(Note(r, v, key))
    ensures Ledger(Note(r, v, key).keys) == Ledger(r.keys) + multiset{key}
  {
    NoteKeepsTally(r, v, key);
    match v
    case Created => Extended(r.keys.created, key);
    case Updated => Extended(r.keys.updated, key);
    case Skipped => Extended(r.keys.skipped, key);
    case Deleted => Extended(r.keys.deleted, key);
    case Conflicting => Extended(r.keys.conflicts, key);
    case Failed => Extended(r.keys.errors, key);
  }

  lemma StepNotes<V>(c: Ctx<V>, w: World<V>, job: Job) returns (v: Verdict)
    ensures Step(c, w, job).res == Note(w.res, v, job.key)
  {
    var key, r := job.key, Step(c, w, job).res;
    v := if r == Note(w.res, Created, key) then Created
         else if r == Note(w.res, Updated, key) then Updated
         else if r == Note(w.res, Skipped, key) then Skipped
         else if r == Note(w.res, Deleted, key) then Deleted
         else if r == Note(w.res, Conflicting, key) then Conflicting
         else Failed;
  }

  lemma StepAccounts<V>(c: Ctx<V>, w: World<V>, job: Job)
    requires Tallied(w.res)
    ensures Tallied(Step(c, w, job).res)
    ensures Ledger(Step(c, w, job).res.keys) == Ledger(w.res.keys) + multiset{job.key}
  {
    var v := StepNotes(c, w, job);
    NoteAccounts(w.res, v, job.key);
  }

  lemma KeysOfSnoc(front: seq<Job>, last: Job)
    ensures multiset(KeysOf(front + [last])) == multiset(KeysOf(front)) + multiset{last.key}
  {
    assert KeysOf(front + [last]) == KeysOf(front) + [last.key];
  }

  lemma {:induction false} JobsAccount<V>(c: Ctx<V>, w: World<V>, jobs: seq<Job>)
    requires Tallied(w.res)
    ensures Tallied(RunJobs(c, w, jobs).res)
    ensures Ledger(RunJobs(c, w, jobs).res.keys) == Ledger(w.res.keys) + multiset(KeysOf(jobs))
  {
    if jobs == [] {
      assert KeysOf(jobs) == [];
    } else {
      var front, last := jobs[..|jobs| - 1], jobs[|jobs| - 1];
      JobsAccount(c, w, front);
      StepAccounts(c, RunJobs(c, w, front), last);
      KeysOfSnoc(front, last);
      assert jobs == front + [last];
    }
  }

  ghost function Assigned(d: Diff): multiset<string> {
    multiset(d.toPush) + multiset(d.toPull) + multiset(d.deleteFromSource)
    + multiset(d.deleteFromTarget) + multiset(d.conflicts)
  }

  lemma KeysOfDiff(d: Diff)
    ensures multiset(KeysOf(JobsOf(d))) == Assigned(d)
  {
    assert KeysOf(JobsOf(d)) == d.toPush + d.toPull + d.deleteFromSource + d.deleteFromTarget + d.conflicts;
  }

  // ---- the keys that reach the diff are distinct ----

  ghost predicate WellOrdered<V>(snap: Snapshot<V>) {
    NoDuplicates(snap.order) && forall k :: k in snap.order <==> k in snap.values
  }

  lemma {:induction false} ScanOrders<V>(b: Backend<V>, c: Contents<V>, keys: seq<string>, strip: nat)
    ensures WellOrdered(Scan(b, c, keys, strip).snap)
  {
    if keys != [] {
      ScanOrders(b, c, keys[..|keys| - 1], strip);
    }
  }

  lemma RebuildKeyKeepsResult<V>(c: Ctx<V>, d: Diff, x: Rebuilt<V>, key: string)
    ensures RebuildKey(c, d, x, key).world.res == x.world.res
  {
  }

  lemma {:induction false} RebuildKeepsResult<V>(c: Ctx<V>, d: Diff, w: World<V>, keys: seq<string>)
    ensures Rebuild(c, d, w, keys).world.res == w.res
  {
    if keys != [] {
      RebuildKeepsResult(c, d, w, keys[..|keys| - 1]);
      var x := Rebuild(c, d, w, keys[..|keys| - 1]);
      RebuildKeyKeepsResult(c, d, x, keys[|keys| - 1]);
    }
  }

  lemma PreparedIsOrderly<V>(e: Env<V>, w: World<V>)
    requires Prepare(e, w).Ready?
    ensures var p := Prepare(e, w);
            && NoDuplicates(p.keys) && p.ctx.env == e
            && p.world.res == EmptyResult(e.opts.dryRun)
            && WellOrdered(p.ctx.source) && WellOrdered(p.ctx.target)
            && forall k :: k in p.keys <==> k in p.ctx.source.values || k in p.ctx.target.values
  {
    var p := Prepare(e, w);
    var (sk, s0) := KeysOp(e.source, w.source, e.opts.prefix);
    var w1 := WithSource(e, w.(res := EmptyResult(e.opts.dryRun)), s0);
    var (tk, t0) := KeysOp(e.target, w1.target, e.opts.targetPrefix + e.opts.prefix);
    var w2 := WithTarget(e, w1, t0);
    ScanOrders(e.source, w2.source, sk.value, 0);
    var w3 := WithSource(e, w2, Scan(e.source, w2.source, sk.value, 0).contents);
    ScanOrders(e.target, w3.target, tk.value, |e.opts.targetPrefix|);
    FreshNoDuplicates(p.ctx.source.order, p.ctx.target.order);
    forall k
      ensures k in p.keys <==> k in p.ctx.source.values || k in p.ctx.target.values
    {
      FreshMembers(p.ctx.source.order, p.ctx.target.order, k);
    }
  }

  lemma AssignedOnce(keys: seq<string>, x: Sides, key: string)
    requires NoDuplicates(keys)
    ensures Assigned(DiffOf(keys, x))[key] <= 1
  {
    DiffIsPartition(keys, x, key);
  }

  lemma ConcludeKeepsLists<V>(p: Prepared<V>)
    requires p.Ready?
    ensures var r := Executed(p).res;
            Conclude(p).world.res == r.(baseline := Conclude(p).world.res.baseline)
  {
    RebuildKeepsResult(p.ctx, DiffOf(p.keys, p.sides), Executed(p), p.keys);
  }

  /**
   * Accounting, for every fault schedule, transform and callback: the result's counters match
   * its lists, its lists together hold exactly the keys the diff assigned, and so each of
   * those keys is in one list, once.
   */
  lemma SyncAccountsForEveryKey<V>(e: Env<V>, w: World<V>)
    requires Prepare(e, w).Ready?
    ensures var p, r := Prepare(e, w), Sync(e, w).world.res;
            && Tallied(r)
            && Ledger(r.keys) == Assigned(DiffOf(p.keys, p.sides))
            && forall k :: Ledger(r.keys)[k] <= 1
  {
    var p := Prepare(e, w);
    var jobs := JobsOf(DiffOf(p.keys, p.sides));
    PreparedIsOrderly(e, w);
    assert Ledger(p.world.res.keys) == multiset{};
    JobsAccount(p.ctx, p.world, jobs);
    KeysOfDiff(DiffOf(p.keys, p.sides));
    ConcludeKeepsLists(p);
    forall k
      ensures Assigned(DiffOf(p.keys, p.sides))[k] <= 1
    {
      AssignedOnce(p.keys, p.sides, k);
    }
  }
}
