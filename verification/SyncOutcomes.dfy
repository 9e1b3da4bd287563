/**
 * What a failure-free run makes of one key, told from the caller's transform and the values alone:
 * what arrives, how the key is reported, and when it is a conflict.
 */
module SyncOutcomes {
  import opened Outcomes
  import opened Adapter
  import opened CompactHash
  import opened SyncDiff
  import opened SyncSpec
  import opened SyncAccounting
  import opened SyncPerKey
  import opened SyncGuarantees
  import opened Selection

  // ---- what arrives ----

  /** A value as the caller's transform is given it. */
  function Given<V>(o: Option<V>): Js<V> {
    if o.Some? then Val(o.value) else Undefined
  }

  /** The run carries the source's side of the key to the target. */
  predicate SourceGoesOver<V(!new)>(e: Env<V>, w: World<V>, k: string) {
    ClassAt(e, w, k) == ToPush || (ClassAt(e, w, k) == Conflict && e.opts.resolution.SourceWins?)
  }

  predicate TargetGoesOver<V(!new)>(e: Env<V>, w: World<V>, k: string) {
    ClassAt(e, w, k) == ToPull || (ClassAt(e, w, k) == Conflict && e.opts.resolution.TargetWins?)
  }

  /**
   * A key that is pushed, or won by the source, reads on the target as the target's rewriting of
   * what the transform made of the source's value, or as absent when that is no value. When the
   * transform throws or answers null the target keeps what it had. The source keeps its value.
   */
  lemma TransformedValueIsPushed<V(!new)>(e: Env<V>, w: World<V>, k: string)
    requires Healthy(e) && Aligned(e.opts) && !e.opts.dryRun && InScope(e.opts, k) && e.opts.transform.Some?
    requires SourceGoesOver(e, w, k)
    ensures SourceView(Sync(e, w).world, k) == SourceView(w, k)
    ensures TargetView(e, Sync(e, w).world, k)
         == match e.opts.transform.value(k, Given(SourceView(w, k)))
            case Routed(_, Val(y)) => Some(e.target.canon(y))
            case Routed(_, _) => None
            case _ => TargetView(e, w, k)
  {
    SourceCarried(e, w, k);
    SentIsTransformed(e, k, PairAt(e, w, k));
  }

  lemma CarriedAfter<V(!new)>(e: Env<V>, c: Class, k: string, x: Pair<V>)
    ensures c == ToPush || (c == Conflict && e.opts.resolution.SourceWins?) ==> After(e, c, k, x) == Sent(e, k, x)
    ensures c == ToPull || (c == Conflict && e.opts.resolution.TargetWins?) ==> After(e, c, k, x) == Fetched(e, k, x)
  {
  }

  lemma SourceCarried<V(!new)>(e: Env<V>, w: World<V>, k: string)
    requires Healthy(e) && Aligned(e.opts) && !e.opts.dryRun && InScope(e.opts, k) && SourceGoesOver(e, w, k)
    ensures PairAt(e, Sync(e, w).world, k) == Sent(e, k, PairAt(e, w, k))
  {
    CarriedAfter(e, ClassAt(e, w, k), k, PairAt(e, w, k));
    SyncActsOnKey(e, w, k);
  }

  lemma TargetCarried<V(!new)>(e: Env<V>, w: World<V>, k: string)
    requires Healthy(e) && Aligned(e.opts) && !e.opts.dryRun && InScope(e.opts, k) && TargetGoesOver(e, w, k)
    ensures PairAt(e, Sync(e, w).world, k) == Fetched(e, k, PairAt(e, w, k))
  {
    CarriedAfter(e, ClassAt(e, w, k), k, PairAt(e, w, k));
    SyncActsOnKey(e, w, k);
  }

  lemma ConflictSettled<V(!new)>(e: Env<V>, w: World<V>, k: string)
    requires Healthy(e) && Aligned(e.opts) && !e.opts.dryRun && InScope(e.opts, k)
    requires ClassAt(e, w, k) == Conflict && e.opts.resolution.Callback?
    ensures PairAt(e, Sync(e, w).world, k)
         == Settled(e, PairAt(e, w, k),
                    e.opts.resolution.decide(k, Given(SourceView(w, k)), Given(TargetView(e, w, k))))
  {
    SyncActsOnKey(e, w, k);
  }

  lemma SentIsTransformed<V(!new)>(e: Env<V>, k: string, x: Pair<V>)
    requires e.opts.transform.Some?
    ensures Sent(e, k, x).s == x.s
    ensures Sent(e, k, x).t == match e.opts.transform.value(k, Given(x.s))
                               case Routed(_, Val(y)) => Some(e.target.canon(y))
                               case Routed(_, _) => None
                               case _ => x.t
    ensures Fetched(e, k, x).t == x.t
    ensures Fetched(e, k, x).s == match e.opts.transform.value(k, Given(x.t))
                                  case Routed(_, Val(y)) => Some(e.source.canon(y))
                                  case Routed(_, _) => None
                                  case _ => x.s
  {
  }

  /** The same for pulls and keys the target wins, with the transform applied to the target's value. */
  lemma TransformedValueIsPulled<V(!new)>(e: Env<V>, w: World<V>, k: string)
    requires Healthy(e) && Aligned(e.opts) && !e.opts.dryRun && InScope(e.opts, k) && e.opts.transform.Some?
    requires TargetGoesOver(e, w, k)
    ensures TargetView(e, Sync(e, w).world, k) == TargetView(e, w, k)
    ensures SourceView(Sync(e, w).world, k)
         == match e.opts.transform.value(k, Given(TargetView(e, w, k)))
            case Routed(_, Val(y)) => Some(e.source.canon(y))
            case Routed(_, _) => None
            case _ => SourceView(w, k)
  {
    TargetCarried(e, w, k);
    SentIsTransformed(e, k, PairAt(e, w, k));
  }

  /** Without a transform the value itself goes over, or its absence. */
  lemma PlainValueGoesOver<V(!new)>(e: Env<V>, w: World<V>, k: string)
    requires Healthy(e) && !e.opts.dryRun && InScope(e.opts, k) && e.opts.transform.None?
    ensures var w' := Sync(e, w).world;
            && (SourceGoesOver(e, w, k) ==>
                  SourceView(w', k) == SourceView(w, k)
                  && TargetView(e, w', k) == match SourceView(w, k)
                                             case Some(v) => Some(e.target.canon(v))
                                             case None => None)
            && (TargetGoesOver(e, w, k) ==>
                  TargetView(e, w', k) == TargetView(e, w, k)
                  && SourceView(w', k) == match TargetView(e, w, k)
                                          case Some(v) => Some(e.source.canon(v))
                                          case None => None)
  {
    SyncActsOnKey(e, w, k);
  }

  /** What the callback picks reads on the sides it names as those sides rewrite it, and the others stay. */
  lemma PickedValueIsWritten<V(!new)>(e: Env<V>, w: World<V>, k: string)
    requires Healthy(e) && Aligned(e.opts) && !e.opts.dryRun && InScope(e.opts, k)
    requires ClassAt(e, w, k) == Conflict && e.opts.resolution.Callback?
    ensures var w' := Sync(e, w).world;
            match e.opts.resolution.decide(k, Given(SourceView(w, k)), Given(TargetView(e, w, k)))
            case Pick(Val(y), to) =>
              && SourceView(w', k) == (if to == TargetOnly then SourceView(w, k) else Some(e.source.canon(y)))
              && TargetView(e, w', k) == (if to == SourceOnly then TargetView(e, w, k) else Some(e.target.canon(y)))
            case Pick(Null, to) =>
              && SourceView(w', k) == (if to == TargetOnly then SourceView(w, k) else None)
              && TargetView(e, w', k) == (if to == SourceOnly then TargetView(e, w, k) else None)
            case _ => SourceView(w', k) == SourceView(w, k) && TargetView(e, w', k) == TargetView(e, w, k)
  {
    ConflictSettled(e, w, k);
    PickSettles(e, PairAt(e, w, k), e.opts.resolution.decide(k, Given(SourceView(w, k)), Given(TargetView(e, w, k))));
  }

  lemma PickSettles<V(!new)>(e: Env<V>, x: Pair<V>, d: Decision<V>)
    ensures Settled(e, x, d)
         == match d
            case Pick(Val(y), to) => Pair(if to == TargetOnly then x.s else Some(e.source.canon(y)),
                                          if to == SourceOnly then x.t else Some(e.target.canon(y)))
            case Pick(Null, to) => Pair(if to == TargetOnly then x.s else None, if to == SourceOnly then x.t else None)
            case _ => x
  {
  }

  /**
   * A transform may rename. Whatever its key, the write of a push or a won conflict goes to that
   * key of the target, holds what the transform made of the value, and touches no other cell.
   */
  lemma RenamedValueArrives<V(!new)>(c: Ctx<V>, w: World<V>, job: Job)
    requires Healthy(c.env) && !c.env.opts.dryRun && c.env.opts.transform.Some?
    requires job.phase == Push || (job.phase == Resolve && c.env.opts.resolution.SourceWins?)
    ensures var w' := Step(c, w, job);
            && w'.source.data == w.source.data
            && match c.env.opts.transform.value(job.key, Seen(c.source, job.key))
               case Routed(q, y) =>
                 w'.target.data == w.target.data[q := if y.Val? then Val(c.env.target.canon(y.v)) else y]
               case _ => w'.target.data == w.target.data
  {
  }

  lemma RenamedValueComesBack<V(!new)>(c: Ctx<V>, w: World<V>, job: Job)
    requires Healthy(c.env) && !c.env.opts.dryRun && c.env.opts.transform.Some?
    requires job.phase == Pull || (job.phase == Resolve && c.env.opts.resolution.TargetWins?)
    ensures var w' := Step(c, w, job);
            && w'.target.data == w.target.data
            && match c.env.opts.transform.value(job.key, Seen(c.target, job.key))
               case Routed(q, y) =>
                 w'.source.data == w.source.data[q := if y.Val? then Val(c.env.source.canon(y.v)) else y]
               case _ => w'.source.data == w.source.data
  {
  }

  /** A key outside the prefix is never touched. */
  lemma OtherKeysStay<V(!new)>(e: Env<V>, w: World<V>, k: string)
    requires Healthy(e) && Aligned(e.opts) && e.opts.syncId == "" && !(e.opts.prefix <= k)
    ensures PairAt(e, Sync(e, w).world, k) == PairAt(e, w, k)
  {
    UnhandledKeyStays(e, w, k);
  }

  // ---- fingerprints and baselines ----

  /** Two values count as equal exactly when the polynomials of their texts agree modulo 2^32. */
  lemma FingerprintsAgreeIff<V(!new)>(codec: Codec<V>, a: V, b: V)
    ensures HashOf(codec, a) == HashOf(codec, b) <==>
            Polynomial(codec.text(a)) % TWO32 == Polynomial(codec.text(b)) % TWO32
  {
    HashEqualIff(codec.text(a), codec.text(b));
  }

  /** Different syncs keep their baselines under different keys, which no sync handles. */
  lemma BaselinesAreApart(id: string, other: string)
    ensures BaselineKey(id) == BaselineKey(other) ==> id == other
    ensures "__sync_baseline:" <= BaselineKey(id)
  {
    assert BaselineKey(id)[16..] == id && BaselineKey(other)[16..] == other;
  }

  /** A run with an explicit baseline, or with no sync id, saves none. */
  lemma ExplicitBaselineIsNotSaved<V(!new)>(e: Env<V>, w: World<V>)
    requires e.opts.baseline.Some? || e.opts.syncId == ""
    ensures Sync(e, w).world.res.baseline.None?
  {
    var p := Prepare(e, w);
    if p.Ready? {
      PreparedIsOrderly(e, w);
      JobsKeepBaseline(p.ctx, p.world, JobsOf(DiffOf(p.keys, p.sides)));
    }
  }

  lemma {:induction false} JobsKeepBaseline<V(!new)>(c: Ctx<V>, w: World<V>, jobs: seq<Job>)
    ensures RunJobs(c, w, jobs).res.baseline == w.res.baseline && RunJobs(c, w, jobs).res.dryRun == w.res.dryRun
  {
    if jobs != [] {
      JobsKeepBaseline(c, w, jobs[..|jobs| - 1]);
      var v := StepNotes(c, RunJobs(c, w, jobs[..|jobs| - 1]), jobs[|jobs| - 1]);
    }
  }

  // ---- what is a conflict ----

  /** Both sides differ from what the entry recorded; no entry records absence on both. */
  predicate BothChanged<V(!new)>(e: Env<V>, base: Option<Entry>, x: Pair<V>) {
    SourceChanged(e, base, x) && TargetChanged(e, base, x)
  }

  /**
   * Against a complete entry, or none, and with deletions detected or values on both sides, a key is a conflict
   * exactly when both sides changed and do not agree: not by being gone from both, nor by one fingerprint.
   */
  lemma ConflictIff<V(!new)>(e: Env<V>, w: World<V>, k: string)
    requires Complete(EntryAt(StartBaseline(e, w), k))
    requires Detects(e, w) || (SourceView(w, k).Some? && TargetView(e, w, k).Some?)
    ensures var x := PairAt(e, w, k);
            ClassAt(e, w, k) == Conflict <==>
              && BothChanged(e, EntryAt(StartBaseline(e, w), k), x)
              && Fingerprint(e.codec, x.s) != Fingerprint(e.codec, x.t)
  {
    FingerprintIsTruthy(e.codec, SourceView(w, k));
    FingerprintIsTruthy(e.codec, TargetView(e, w, k));
  }

  /** Without detection a key on one side only is carried to the other, whatever the entry. */
  lemma UndetectedIsCarried<V(!new)>(e: Env<V>, w: World<V>, k: string)
    requires !Detects(e, w)
    ensures SourceView(w, k).Some? && TargetView(e, w, k).None? ==> ClassAt(e, w, k) == ToPush
    ensures SourceView(w, k).None? && TargetView(e, w, k).Some? ==> ClassAt(e, w, k) == ToPull
  {
    FingerprintIsTruthy(e.codec, SourceView(w, k));
    FingerprintIsTruthy(e.codec, TargetView(e, w, k));
  }

  // ---- how a key is reported ----

  lemma ListsGrow(r: SyncResult, v: Verdict, key: string, k: string, v': Verdict)
    ensures k in ListOf(Note(r, v, key).keys, v') <==> k in ListOf(r.keys, v') || (v == v' && k == key)
  {
    var before, after := ListOf(r.keys, v'), ListOf(Note(r, v, key).keys, v');
    assert after == before + if v == v' then [key] else [];
  }

  ghost predicate StepSays<V(!new)>(c: Ctx<V>, job: Job, v: Verdict) {
    forall w :: Step(c, w, job).res == Note(w.res, v, job.key)
  }

  lemma StepSaid<V(!new)>(c: Ctx<V>, w: World<V>, job: Job, v: Verdict)
    requires StepSays(c, job, v)
    ensures job.key in ListOf(Step(c, w, job).res.keys, v)
  {
    assert Step(c, w, job).res == Note(w.res, v, job.key);
    ListsGrow(w.res, v, job.key, job.key, v);
  }

  lemma StepForgetsNothing<V(!new)>(c: Ctx<V>, w: World<V>, job: Job, k: string, v: Verdict)
    requires k in ListOf(w.res.keys, v)
    ensures k in ListOf(Step(c, w, job).res.keys, v)
  {
    var u := StepNotes(c, w, job);
    ListsGrow(w.res, u, job.key, k, v);
  }

  lemma {:induction false} RunForgetsNothing<V(!new)>(c: Ctx<V>, w: World<V>, jobs: seq<Job>, n: nat, k: string,
                                                      v: Verdict)
    requires n <= |jobs| && k in ListOf(RunJobs(c, w, jobs[..n]).res.keys, v)
    ensures k in ListOf(RunJobs(c, w, jobs).res.keys, v)
  {
    if n < |jobs| {
      var front := jobs[..|jobs| - 1];
      assert front[..n] == jobs[..n];
      RunForgetsNothing(c, w, front, n, k, v);
      StepForgetsNothing(c, RunJobs(c, w, front), jobs[|jobs| - 1], k, v);
    } else {
      assert jobs[..n] == jobs;
    }
  }

  /** The verdict of the i-th job is in the report. */
  lemma VerdictIsReported<V(!new)>(c: Ctx<V>, w: World<V>, jobs: seq<Job>, i: nat, v: Verdict)
    requires i < |jobs| && StepSays(c, jobs[i], v)
    ensures jobs[i].key in ListOf(RunJobs(c, w, jobs).res.keys, v)
  {
    assert jobs[..i + 1][..i] == jobs[..i];
    StepSaid(c, RunJobs(c, w, jobs[..i]), jobs[i], v);
    RunForgetsNothing(c, w, jobs, i + 1, jobs[i].key, v);
  }

  lemma KeyIsReported<V(!new)>(e: Env<V>, w: World<V>, k: string, phase: Phase, v: Verdict)
    requires Healthy(e) && InScope(e.opts, k) && ClassAt(e, w, k) == PhaseClass(phase)
    requires Prepare(e, w).Ready? && StepSays(Prepare(e, w).ctx, Job(phase, k), v)
    ensures k in ListOf(Sync(e, w).world.res.keys, v)
  {
    PreparedKey(e, w, k);
    GoneWhenAbsent(e, w, k);
    var p := Prepare(e, w);
    var jobs := JobsOf(DiffOf(p.keys, p.sides));
    JobsFollowClasses(p.keys, p.sides, Job(phase, k));
    var i :| 0 <= i < |jobs| && jobs[i] == Job(phase, k);
    VerdictIsReported(p.ctx, p.world, jobs, i, v);
    ConcludeKeepsLists(p);
  }

  /** The transform's outcome for a value, or the value itself. */
  function Made<V>(opts: Options<V>, k: string, x: Js<V>): Routed<V> {
    if opts.transform.Some? then opts.transform.value(k, x) else Routed(k, x)
  }

  /** How carrying a value is reported: wrote says what a write of it counts as. */
  function CarriedAs<V>(made: Routed<V>, wrote: Verdict): Verdict {
    match made
    case Raised => Failed
    case Dropped => Skipped
    case Routed(_, Undefined) => Failed
    case Routed(_, _) => wrote
  }

  lemma DeliverySays<V(!new)>(e: Env<V>, w: World<V>, side: Side, k: string, x: Js<V>, wrote: Verdict)
    requires Healthy(e)
    ensures Deliver(e, w, side, k, x, wrote).res == Note(w.res, CarriedAs(Made(e.opts, k, x), wrote), k)
  {
    var r := Route(e.opts, side, k, x);
    assert Made(e.opts, k, x).Routed? ==> r.Routed? && r.value == Made(e.opts, k, x).value;
  }

  lemma CarryingSays<V(!new)>(c: Ctx<V>, k: string)
    requires Healthy(c.env)
    ensures StepSays(c, Job(Push, k), CarriedAs(Made(c.env.opts, k, Seen(c.source, k)),
                                                if k in c.target.values then Updated else Created))
    ensures StepSays(c, Job(Pull, k), CarriedAs(Made(c.env.opts, k, Seen(c.target, k)),
                                                if k in c.source.values then Updated else Created))
  {
    forall w: World<V>
      ensures Step(c, w, Job(Push, k)).res
           == Note(w.res, CarriedAs(Made(c.env.opts, k, Seen(c.source, k)),
                                    if k in c.target.values then Updated else Created), k)
    {
      DeliverySays(c.env, w, AtTarget, k, Seen(c.source, k), if k in c.target.values then Updated else Created);
    }
    forall w: World<V>
      ensures Step(c, w, Job(Pull, k)).res
           == Note(w.res, CarriedAs(Made(c.env.opts, k, Seen(c.target, k)),
                                    if k in c.source.values then Updated else Created), k)
    {
      DeliverySays(c.env, w, AtSource, k, Seen(c.target, k), if k in c.source.values then Updated else Created);
    }
  }

  lemma DroppingSays<V(!new)>(c: Ctx<V>, k: string)
    requires Healthy(c.env)
    ensures StepSays(c, Job(DropSource, k), Deleted) && StepSays(c, Job(DropTarget, k), Deleted)
  {
    forall w: World<V>
      ensures Step(c, w, Job(DropSource, k)).res == Note(w.res, Deleted, k)
      ensures Step(c, w, Job(DropTarget, k)).res == Note(w.res, Deleted, k)
    {
      ErasingWorks(c.env, w, k);
    }
  }

  lemma ErasingWorks<V(!new)>(e: Env<V>, w: World<V>, k: string)
    requires Healthy(e)
    ensures Erase(e, w, AtSource, k).0 && Erase(e, w, AtSource, k).1.res == w.res
    ensures Erase(e, w, AtTarget, e.opts.targetPrefix + k).0
    ensures Erase(e, w, AtTarget, e.opts.targetPrefix + k).1.res == w.res
  {
  }

  /** How a conflict is reported. */
  function ResolvedAs<V>(opts: Options<V>, k: string, s: Js<V>, t: Js<V>): Verdict {
    match opts.resolution
    case SkipConflicts => Conflicting
    case SourceWins => CarriedAs(Made(opts, k, s), Updated)
    case TargetWins => CarriedAs(Made(opts, k, t), Updated)
    case Callback(decide) =>
      match decide(k, s, t)
      case Raise => Failed
      case Decline => Conflicting
      case Pick(Undefined, _) => Failed
      case Pick(_, _) => Updated
  }

  lemma ResolvingSays<V(!new)>(c: Ctx<V>, k: string)
    requires Healthy(c.env)
    ensures StepSays(c, Job(Resolve, k), ResolvedAs(c.env.opts, k, Seen(c.source, k), Seen(c.target, k)))
  {
    forall w: World<V>
      ensures Step(c, w, Job(Resolve, k)).res
           == Note(w.res, ResolvedAs(c.env.opts, k, Seen(c.source, k), Seen(c.target, k)), k)
    {
      DeliverySays(c.env, w, AtTarget, k, Seen(c.source, k), Updated);
      DeliverySays(c.env, w, AtSource, k, Seen(c.target, k), Updated);
    }
  }

  /** A healthy run reaches the diff having seen the key as it is. */
  lemma SeenAsGiven<V(!new)>(e: Env<V>, w: World<V>, k: string)
    requires Healthy(e) && InScope(e.opts, k)
    ensures var p := Prepare(e, w);
            && p.Ready? && p.ctx.env == e
            && Seen(p.ctx.source, k) == Given(SourceView(w, k)) && Seen(p.ctx.target, k) == Given(TargetView(e, w, k))
            && (k in p.ctx.source.values <==> SourceView(w, k).Some?)
            && (k in p.ctx.target.values <==> TargetView(e, w, k).Some?)
  {
    PreparedKey(e, w, k);
  }

  /**
   * A pushed key is reported as updated when the target had it and as created otherwise, under its
   * own key; as skipped when the transform answered null; and as an error when the transform threw
   * or gave undefined. The same for pulls.
   */
  lemma CarryingIsReported<V(!new)>(e: Env<V>, w: World<V>, k: string)
    requires Healthy(e) && InScope(e.opts, k)
    ensures var keys := Sync(e, w).world.res.keys;
            && (ClassAt(e, w, k) == ToPush ==>
                  k in ListOf(keys, CarriedAs(Made(e.opts, k, Given(SourceView(w, k))),
                                              if TargetView(e, w, k).Some? then Updated else Created)))
            && (ClassAt(e, w, k) == ToPull ==>
                  k in ListOf(keys, CarriedAs(Made(e.opts, k, Given(TargetView(e, w, k))),
                                              if SourceView(w, k).Some? then Updated else Created)))
  {
    SeenAsGiven(e, w, k);
    CarryingSays(Prepare(e, w).ctx, k);
    if ClassAt(e, w, k) == ToPush {
      KeyIsReported(e, w, k, Push, CarriedAs(Made(e.opts, k, Given(SourceView(w, k))),
                                             if TargetView(e, w, k).Some? then Updated else Created));
    }
    if ClassAt(e, w, k) == ToPull {
      KeyIsReported(e, w, k, Pull, CarriedAs(Made(e.opts, k, Given(TargetView(e, w, k))),
                                             if SourceView(w, k).Some? then Updated else Created));
    }
  }

  lemma DropIsReported<V(!new)>(e: Env<V>, w: World<V>, k: string, phase: Phase)
    requires Healthy(e) && InScope(e.opts, k) && ClassAt(e, w, k) == PhaseClass(phase)
    requires phase == DropSource || phase == DropTarget
    ensures k in ListOf(Sync(e, w).world.res.keys, Deleted)
  {
    SeenAsGiven(e, w, k);
    DroppingSays(Prepare(e, w).ctx, k);
    KeyIsReported(e, w, k, phase, Deleted);
  }

  lemma DeletedList(keys: KeyLists)
    ensures ListOf(keys, Deleted) == keys.deleted
  {
  }

  /** A deleted key is reported as deleted. */
  lemma DeletionIsReported<V(!new)>(e: Env<V>, w: World<V>, k: string)
    requires Healthy(e) && InScope(e.opts, k)
    requires ClassAt(e, w, k) == DeleteFromSource || ClassAt(e, w, k) == DeleteFromTarget
    ensures k in Sync(e, w).world.res.keys.deleted
  {
    if ClassAt(e, w, k) == DeleteFromSource {
      DropIsReported(e, w, k, DropSource);
    } else {
      DropIsReported(e, w, k, DropTarget);
    }
    DeletedList(Sync(e, w).world.res.keys);
  }

  /**
   * A conflict is reported as one when it is skipped or the callback declines, as updated when a
   * side wins or the callback picks a value or null, as an error when the callback throws or picks
   * undefined, and a win also as carrying its value goes.
   */
  lemma ConflictIsReported<V(!new)>(e: Env<V>, w: World<V>, k: string)
    requires Healthy(e) && InScope(e.opts, k) && ClassAt(e, w, k) == Conflict
    ensures k in ListOf(Sync(e, w).world.res.keys,
                        ResolvedAs(e.opts, k, Given(SourceView(w, k)), Given(TargetView(e, w, k))))
  {
    SeenAsGiven(e, w, k);
    ResolvingSays(Prepare(e, w).ctx, k);
    KeyIsReported(e, w, k, Resolve, ResolvedAs(e.opts, k, Given(SourceView(w, k)), Given(TargetView(e, w, k))));
  }

  lemma InLedger(keys: KeyLists, v: Verdict, k: string)
    ensures k in ListOf(keys, v) ==> Ledger(keys)[k] > 0
  {
  }

  lemma NoJobNoName(p: Prepared, k: string)
    requires p.Ready? && ClassOf(p.sides, k) in {Unchanged, Gone}
    ensures Assigned(DiffOf(p.keys, p.sides))[k] == 0
  {
    var jobs := JobsOf(DiffOf(p.keys, p.sides));
    KeysOfDiff(DiffOf(p.keys, p.sides));
    if k in KeysOf(jobs) {
      var i :| 0 <= i < |jobs| && jobs[i].key == k;
      JobsFollowClasses(p.keys, p.sides, jobs[i]);
    }
  }

  /** A key that is unchanged or gone is in no list. */
  lemma QuietKeyIsNotReported<V(!new)>(e: Env<V>, w: World<V>, k: string, v: Verdict)
    requires Healthy(e) && InScope(e.opts, k) && ClassAt(e, w, k) in {Unchanged, Gone}
    ensures k !in ListOf(Sync(e, w).world.res.keys, v)
  {
    PreparedKey(e, w, k);
    SyncAccountsForEveryKey(e, w);
    NoJobNoName(Prepare(e, w), k);
    InLedger(Sync(e, w).world.res.keys, v, k);
  }

  // ---- in which order ----

  /** What a scan reads: keys that are not a baseline's and hold a value. */
  function ReadByScan<V(!new)>(c: Contents<V>): string -> bool {
    key => !(BASELINE_PREFIX <= key) && View(c, key).Some?
  }

  /** The same keys with p taken off. */
  ghost predicate WithoutPrefix(keys: seq<string>, p: string, order: seq<string>) {
    |order| == |keys| && forall i :: 0 <= i < |keys| ==> keys[i] == p + order[i]
  }

  lemma ScanStepOrder<V(!new)>(b: Backend<V>, x: Scanned<V>, p: string, key: string)
    requires x.ok && ScanKey(b, x, key, |p|).ok && p <= key && key[|p|..] !in x.snap.values
    ensures ScanKey(b, x, key, |p|).snap.order
         == if ReadByScan(x.contents)(key) then x.snap.order + [key[|p|..]] else x.snap.order
  {
  }

  lemma UnreadSoFar<V(!new)>(b: Backend<V>, c: Contents<V>, front: seq<string>, p: string, last: string)
    requires Scan(b, c, front, |p|).ok && p <= last && last !in front && forall key :: key in front ==> p <= key
    ensures last[|p|..] !in Scan(b, c, front, |p|).snap.values && Scan(b, c, front, |p|).contents.data == c.data
  {
    ScanFinds(b, c, front, p, last[|p|..]);
    assert p + last[|p|..] == last;
  }

  lemma ScanMore<V(!new)>(b: Backend<V>, c: Contents<V>, front: seq<string>, p: string, last: string)
    requires Scan(b, c, front + [last], |p|).ok && p <= last && last !in front
    requires forall key :: key in front ==> p <= key
    ensures Scan(b, c, front, |p|).ok
    ensures Scan(b, c, front + [last], |p|).snap.order
         == Scan(b, c, front, |p|).snap.order + if ReadByScan(c)(last) then [last[|p|..]] else []
  {
    assert (front + [last])[..|front|] == front;
    UnreadSoFar(b, c, front, p, last);
    ScanStepOrder(b, Scan(b, c, front, |p|), p, last);
  }

  lemma WithoutPrefixMore(held: seq<string>, p: string, order: seq<string>, key: string)
    requires WithoutPrefix(held, p, order) && p <= key
    ensures WithoutPrefix(held + [key], p, order + [key[|p|..]])
  {
    assert p + key[|p|..] == key;
  }

  /** A scan that goes through meets its keys in the order in which they are listed. */
  lemma {:induction false} ScanKeepsOrder<V(!new)>(b: Backend<V>, c: Contents<V>, keys: seq<string>, p: string)
      returns (held: seq<string>)
    requires Scan(b, c, keys, |p|).ok && NoDuplicates(keys) && forall key :: key in keys ==> p <= key
    ensures Selects(keys, ReadByScan(c), held) && WithoutPrefix(held, p, Scan(b, c, keys, |p|).snap.order)
  {
    if keys == [] {
      SelectsNone(ReadByScan(c));
      held := [];
    } else {
      var front, last := keys[..|keys| - 1], keys[|keys| - 1];
      assert keys == front + [last] && last in keys && last !in front;
      assert forall key :: key in front ==> key in keys;
      ScanMore(b, c, front, p, last);
      held := ScanKeepsOrder(b, c, front, p);
      SelectsMore(front, ReadByScan(c), held, last);
      if ReadByScan(c)(last) {
        WithoutPrefixMore(held, p, Scan(b, c, front, |p|).snap.order, last);
        held := held + [last];
      }
    }
  }

  /** The keys of the jobs that got verdict v, in order. */
  function Verdicts(jobs: seq<Job>, verdicts: seq<Verdict>, v: Verdict): seq<string>
    requires |jobs| == |verdicts|
  {
    if jobs == [] then []
    else
      Verdicts(jobs[..|jobs| - 1], verdicts[..|jobs| - 1], v)
      + if verdicts[|jobs| - 1] == v then [jobs[|jobs| - 1].key] else []
  }

  /** Every job gets one verdict, and each list has the keys of its jobs in the order of the jobs. */
  lemma {:induction false} ListsFollowJobs<V(!new)>(c: Ctx<V>, w: World<V>, jobs: seq<Job>)
      returns (verdicts: seq<Verdict>)
    ensures |verdicts| == |jobs|
    ensures forall v :: ListOf(RunJobs(c, w, jobs).res.keys, v) == ListOf(w.res.keys, v) + Verdicts(jobs, verdicts, v)
  {
    if jobs == [] {
      verdicts := [];
    } else {
      var front, last := jobs[..|jobs| - 1], jobs[|jobs| - 1];
      var before := ListsFollowJobs(c, w, front);
      var mid := RunJobs(c, w, front);
      var u := StepNotes(c, mid, last);
      verdicts := before + [u];
      assert verdicts[..|front|] == before;
      forall v
        ensures ListOf(RunJobs(c, w, jobs).res.keys, v) == ListOf(w.res.keys, v) + Verdicts(jobs, verdicts, v)
      {
        ListOfNote(mid.res, u, last.key, v);
      }
    }
  }

  lemma ListOfNote(r: SyncResult, v: Verdict, key: string, v': Verdict)
    ensures ListOf(Note(r, v, key).keys, v') == ListOf(r.keys, v') + if v == v' then [key] else []
  {
  }
}
