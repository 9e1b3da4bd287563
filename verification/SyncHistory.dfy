/** Convergence over whole histories of edits and syncs. */
module SyncHistory {
  import opened Outcomes
  import opened Adapter
  import opened SyncDiff
  import opened SyncSpec
  import opened SyncPerKey
  import opened SyncGuarantees

  /** One event in the life of the two stores; None deletes. Edits never touch a saved baseline. */
  datatype Act<+V> = EditSource(key: string, value: Option<V>) | EditTarget(key: string, value: Option<V>) | RunSync

  function Edit<V>(b: Backend<V>, c: Contents<V>, key: string, value: Option<V>): Contents<V> {
    c.(data := if value.Some? then c.data[key := Val(b.canon(value.value))] else c.data - {key})
  }

  function Apply<V>(e: Env<V>, w: World<V>, act: Act<V>): World<V> {
    match act
    case EditSource(k, v) => w.(source := Edit(e.source, w.source, k, v))
    case EditTarget(k, v) => w.(target := Edit(e.target, w.target, k, v))
    case RunSync => Sync(e, w).world
  }

  function Play<V>(e: Env<V>, w: World<V>, acts: seq<Act<V>>): World<V> {
    if acts == [] then w else Apply(e, Play(e, w, acts[..|acts| - 1]), acts[|acts| - 1])
  }

  /**
   * The setting: no transform, one side wins conflicts, the values in play are told apart by
   * their fingerprints, and both stores rewrite values the same, idempotent way.
   */
  ghost predicate Converging<V(!new)>(e: Env<V>, live: V -> bool) {
    && KeepsRecord(e) && e.opts.transform.None?
    && (e.opts.resolution.SourceWins? || e.opts.resolution.TargetWins?)
    && (forall v :: live(v) ==> live(e.source.canon(v)) && e.target.canon(v) == e.source.canon(v))
    && (forall v :: live(v) ==> e.source.canon(e.source.canon(v)) == e.source.canon(v))
    && (forall v, v' :: live(v) && live(v') && HashOf(e.codec, v) == HashOf(e.codec, v') ==> v == v')
  }

  ghost predicate Stored<V(!new)>(e: Env<V>, live: V -> bool, o: Option<V>) {
    o.Some? ==> live(o.value) && e.source.canon(o.value) == o.value
  }

  ghost predicate Agreed(base: Option<Entry>) {
    base.Some? ==> base.value.sourceHash == base.value.targetHash
  }

  /** Every in-scope value is in play, and every baseline entry records one hash for both sides. */
  ghost predicate Sound<V(!new)>(e: Env<V>, live: V -> bool, w: World<V>) {
    forall k :: InScope(e.opts, k) ==>
      && Stored(e, live, SourceView(w, k)) && Stored(e, live, TargetView(e, w, k))
      && Agreed(EntryAt(StartBaseline(e, w), k))
  }

  /** Both stores read the same under every in-scope key. */
  ghost predicate InStep<V(!new)>(e: Env<V>, w: World<V>) {
    forall k :: InScope(e.opts, k) ==> SourceView(w, k) == TargetView(e, w, k)
  }

  ghost predicate Allowed<V(!new)>(live: V -> bool, act: Act<V>) {
    !act.RunSync? ==> !(BASELINE_PREFIX <= act.key) && (act.value.Some? ==> live(act.value.value))
  }

  /** One key: whatever class it gets, the winner's value or absence ends up on both sides. */
  lemma ClassConverges<V(!new)>(e: Env<V>, live: V -> bool, k: string, x: Pair<V>, base: Option<Entry>, detect: bool)
    requires Converging(e, live) && Stored(e, live, x.s) && Stored(e, live, x.t) && Agreed(base)
    ensures var y := After(e, Classify(Fingerprint(e.codec, x.s), Fingerprint(e.codec, x.t), base, detect), k, x);
            y.s == y.t && Stored(e, live, y.s)
  {
    FingerprintIsTruthy(e.codec, x.s);
    FingerprintIsTruthy(e.codec, x.t);
    if x.s.Some? && x.t.Some? && Fingerprint(e.codec, x.s) == Fingerprint(e.codec, x.t) {
      assert HashOf(e.codec, x.s.value) == HashOf(e.codec, x.t.value);
      assert x.s == x.t;
    } else {
      SpreadsFrom(e, live, k, x);
    }
  }

  lemma SpreadsFrom<V(!new)>(e: Env<V>, live: V -> bool, k: string, x: Pair<V>)
    requires Converging(e, live) && Stored(e, live, x.s) && Stored(e, live, x.t)
    ensures Sent(e, k, x) == Pair(x.s, x.s) && Fetched(e, k, x) == Pair(x.t, x.t)
  {
  }

  lemma SyncConvergesAt<V(!new)>(e: Env<V>, live: V -> bool, w: World<V>, k: string)
    requires Converging(e, live) && Sound(e, live, w) && InScope(e.opts, k)
    ensures var w' := Sync(e, w).world;
            && SourceView(w', k) == TargetView(e, w', k)
            && Stored(e, live, SourceView(w', k))
            && Agreed(EntryAt(StartBaseline(e, w'), k))
  {
    SyncActsOnKey(e, w, k);
    NextRunStartsFromBaseline(e, w);
    ClassConverges(e, live, k, PairAt(e, w, k), EntryAt(StartBaseline(e, w), k), Detects(e, w));
  }

  lemma EditKeepsSound<V(!new)>(e: Env<V>, live: V -> bool, w: World<V>, act: Act<V>)
    requires Converging(e, live) && Sound(e, live, w) && Allowed(live, act) && !act.RunSync?
    ensures Sound(e, live, Apply(e, w, act))
  {
    var w' := Apply(e, w, act);
    assert act.key != BaselineKey(e.opts.syncId) by {
      assert BASELINE_PREFIX <= BaselineKey(e.opts.syncId);
    }
    assert StartBaseline(e, w') == StartBaseline(e, w);
    forall k | InScope(e.opts, k)
      ensures Stored(e, live, SourceView(w', k)) && Stored(e, live, TargetView(e, w', k))
    {
      assert Stored(e, live, SourceView(w, k)) && Stored(e, live, TargetView(e, w, k));
      if act.value.Some? {
        assert Stored(e, live, Some(e.source.canon(act.value.value)));
      }
    }
  }

  lemma {:induction false} HistoryStaysSound<V(!new)>(e: Env<V>, live: V -> bool, w: World<V>, acts: seq<Act<V>>)
    requires Converging(e, live) && Sound(e, live, w)
    requires forall act :: act in acts ==> Allowed(live, act)
    ensures Sound(e, live, Play(e, w, acts))
  {
    if acts != [] {
      var front, last := acts[..|acts| - 1], acts[|acts| - 1];
      assert acts == front + [last];
      HistoryStaysSound(e, live, w, front);
      var mid := Play(e, w, front);
      if last.RunSync? {
        forall k | InScope(e.opts, k)
          ensures && Stored(e, live, SourceView(Sync(e, mid).world, k))
                  && Stored(e, live, TargetView(e, Sync(e, mid).world, k))
                  && Agreed(EntryAt(StartBaseline(e, Sync(e, mid).world), k))
        {
          SyncConvergesAt(e, live, mid, k);
        }
      } else {
        assert last in acts;
        EditKeepsSound(e, live, mid, last);
      }
    }
  }

  /**
   * Convergence: from an agreed or missing baseline, after any history of edits and syncs on
   * either side, one more sync brings every in-scope key to the same value on both stores and
   * leaves an agreed baseline, so the next history starts from the same footing.
   */
  lemma HistoriesConverge<V(!new)>(e: Env<V>, live: V -> bool, w: World<V>, acts: seq<Act<V>>)
    requires Converging(e, live) && Sound(e, live, w)
    requires forall act :: act in acts ==> Allowed(live, act)
    ensures InStep(e, Sync(e, Play(e, w, acts)).world)
    ensures Sound(e, live, Sync(e, Play(e, w, acts)).world)
  {
    HistoryStaysSound(e, live, w, acts);
    var mid := Play(e, w, acts);
    forall k | InScope(e.opts, k)
      ensures var w' := Sync(e, mid).world;
              && SourceView(w', k) == TargetView(e, w', k)
              && Stored(e, live, SourceView(w', k))
              && Agreed(EntryAt(StartBaseline(e, w'), k))
    {
      SyncConvergesAt(e, live, mid, k);
    }
  }
}
