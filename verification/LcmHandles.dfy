/**
 * Several store objects over one shared log: loading a session again makes a new one, while
 * turns and runs in flight keep the one they started with. Each counts for itself.
 */
module LcmHandles {
  import opened LcmTexts
  import opened LcmContext
  import opened LcmStore
  import opened LcmMaintenance
  import opened LcmLossless

  /** The next numbers one handle will give out. */
  datatype Counters = Counters(message: nat, summary: nat)

  datatype Engaged = Engaged(handle: nat, run: Run)

  /** saved says that the log has been stored, so that loading the session finds it. */
  datatype Shared = Shared(
    messages: seq<Message>,
    summaries: seq<Summary>,
    handles: seq<Counters>,
    runs: map<nat, Engaged>,
    saved: bool)

  datatype Happening =
    | Write(handle: nat, role: Role, content: string)
    | Launch(handle: nat, r: nat)
    | Continue(r: nat, completion: Completion)
    | Save
    | Reopen

  const FIRST := Shared([], [], [Counters(1, 1)], map[], false)

  /** The log as a handle sees it. */
  function View(x: Shared, h: nat): Store
    requires h < |x.handles|
  {
    Store(x.messages, x.summaries, x.handles[h].message, x.handles[h].summary)
  }

  function PutBack(x: Shared, h: nat, st: Store): Shared
    requires h < |x.handles|
  {
    x.(messages := st.messages, summaries := st.summaries,
       handles := x.handles[h := Counters(st.nextMessage, st.nextSummary)])
  }

  function Goes(x: Shared, r: nat, h: nat, run: Run): Shared {
    x.(runs := if run.Done? then x.runs - {r} else x.runs[r := Engaged(h, run)])
  }

  function Next(u: Setup, x: Shared, ev: Happening): Shared {
    match ev
    case Write(h, role, content) => if h < |x.handles| then PutBack(x, h, Append(View(x, h), role, content)) else x
    case Launch(h, r) => if h < |x.handles| && r !in x.runs then Goes(x, r, h, Begin(u, View(x, h))) else x
    case Continue(r, c) =>
      if r in x.runs && x.runs[r].handle < |x.handles| then
        var h := x.runs[r].handle;
        var p := Resume(u, View(x, h), x.runs[r].run, c);
        Goes(PutBack(x, h, p.store), r, h, p.run)
      else x
    case Save => x.(saved := true)
    case Reopen =>
      // Before the first save a new object has a log of its own.
      if x.saved then
        var st := Restore(x.messages, x.summaries);
        x.(handles := x.handles + [Counters(st.nextMessage, st.nextSummary)])
      else x
  }

  function Play(u: Setup, events: seq<Happening>): Shared {
    if events == [] then FIRST else Next(u, Play(u, events[..|events| - 1]), events[|events| - 1])
  }

  // ---- what a handle may do ----

  /** The log with counters that are up to date. */
  function Tail(x: Shared): Store {
    Store(x.messages, x.summaries, |x.messages| + 1, |x.summaries| + 1)
  }

  /** The context is beyond the hard threshold, and there are messages to drop. */
  predicate FallsBack(u: Setup, st: Store) {
    ContextTokens(u, st) >= u.config.hardThreshold && |Active(st.messages)| > u.config.keepLastN
  }

  /** Whether the next stretch of a run adds a summary, told from its stage, the completion and the thresholds. */
  predicate Adds(u: Setup, st: Store, run: Run, c: Completion) {
    match run
    case Incremental(_) => c.Answer?
    case Compacting(_) => c.Answer?
    case Between =>
      && ContextTokens(u, st) >= u.config.softThreshold
      && |DropLast(Active(st.messages), u.config.keepLastN)| < 2
      && FallsBack(u, st)
    case Escalating(_) =>
      c.Answer? || (c.Failed? && |Active(st.messages)| > u.config.keepLastN) || (c.Empty? && FallsBack(u, st))
    case Done => false
  }

  lemma AddsIff(u: Setup, st: Store, run: Run, c: Completion)
    ensures Adds(u, st, run, c) <==> |Resume(u, st, run, c).store.summaries| > |st.summaries|
  {
    if run.Escalating? && c.Answer? {
      var mid := TakeOver(st, run.ids, u.sanitize(c.text));
      FallbackExtends(u, mid);
    }
  }

  /** Whoever adds to the log has missed nothing of that kind that another handle added. */
  predicate Safe(u: Setup, x: Shared, ev: Happening) {
    match ev
    case Write(h, _, _) => h < |x.handles| ==> x.handles[h].message == |x.messages| + 1
    case Continue(r, c) =>
      r in x.runs && x.runs[r].handle < |x.handles| && Adds(u, View(x, x.runs[r].handle), x.runs[r].run, c) ==>
        x.handles[x.runs[r].handle].summary == |x.summaries| + 1
    case _ => true
  }

  ghost predicate UniqueIds(x: Shared) {
    && (forall i, j :: 0 <= i < j < |x.messages| ==> Render(x.messages[i].id) != Render(x.messages[j].id))
    && (forall i, j :: 0 <= i < j < |x.summaries| ==> Render(x.summaries[i].id) != Render(x.summaries[j].id))
  }

  ghost predicate InRange(x: Shared, k: Counters) {
    1 <= k.message <= |x.messages| + 1 && 1 <= k.summary <= |x.summaries| + 1
  }

  ghost predicate Sound(x: Shared) {
    && Lossless(Tail(x))
    && (forall h :: 0 <= h < |x.handles| ==> InRange(x, x.handles[h]))
    && (forall r :: r in x.runs ==> RunFits(Tail(x), x.runs[r].run))
  }

  lemma SoundIsUnique(x: Shared)
    ensures Sound(x) ==> UniqueIds(x)
  {
    if Sound(x) {
      TextsAreUnique(Tail(x));
    }
  }

  // ---- a stretch, seen from any counters ----

  lemma TokensIgnoreCounter(u: Setup, st: Store, n: nat)
    ensures ContextTokens(u, st.(nextMessage := n)) == ContextTokens(u, st)
  {
  }

  lemma TakeOverIgnoresCounter(st: Store, n: nat, ids: seq<Id>, text: string)
    ensures TakeOver(st.(nextMessage := n), ids, text) == TakeOver(st, ids, text).(nextMessage := n)
  {
  }

  lemma CompactIgnoresCounter(st: Store, n: nat, k: Compaction, text: string)
    ensures Compact(st.(nextMessage := n), k, text) == Compact(st, k, text).(nextMessage := n)
  {
  }

  lemma FallbackIgnoresCounter(u: Setup, st: Store, n: nat)
    ensures Fallback(u, st.(nextMessage := n)) == Fallback(u, st).(nextMessage := n)
    ensures AfterLevel1(u, st.(nextMessage := n)) == AfterLevel1(u, st).(nextMessage := n)
  {
    TokensIgnoreCounter(u, st, n);
    var gone := DropLast(Active(st.messages), u.config.keepLastN);
    TakeOverIgnoresCounter(st, n, Ids(gone), "(Deterministic fallback) " + Join(Digests(gone), " | "));
  }

  lemma EscalationIgnoresCounter(u: Setup, st: Store, n: nat, ids: seq<Id>, c: Completion)
    ensures EndEscalation(u, st.(nextMessage := n), ids, c) == EndEscalation(u, st, ids, c).(nextMessage := n)
  {
    if c.Answer? {
      TakeOverIgnoresCounter(st, n, ids, u.sanitize(c.text));
      FallbackIgnoresCounter(u, TakeOver(st, ids, u.sanitize(c.text)), n);
    } else {
      FallbackIgnoresCounter(u, st, n);
    }
  }

  /** Counting messages plays no part in a stretch. */
  lemma ResumeIgnoresMessageCounter(u: Setup, st: Store, n: nat, run: Run, c: Completion)
    ensures var p := Resume(u, st, run, c);
            Resume(u, st.(nextMessage := n), run, c) == Progress(p.store.(nextMessage := n), p.run)
  {
    match run
    case Incremental(ids) =>
      if c.Answer? {
        TakeOverIgnoresCounter(st, n, ids, u.sanitize(c.text));
      }
    case Compacting(k) =>
      if c.Answer? {
        CompactIgnoresCounter(st, n, k, u.sanitize(c.text));
      }
    case Between =>
      TokensIgnoreCounter(u, st, n);
      FallbackIgnoresCounter(u, st, n);
    case Escalating(ids) => EscalationIgnoresCounter(u, st, n, ids, c);
    case Done =>
  }

  /** Summaries are only ever added at the end, the first under the counter's number. */
  ghost predicate Extends(st: Store, st': Store) {
    && |st.summaries| <= |st'.summaries|
    && (forall j :: 0 <= j < |st.summaries| ==> st'.summaries[j].id == st.summaries[j].id)
    && (|st'.summaries| > |st.summaries| ==> st'.summaries[|st.summaries|].id == SummaryId(st.nextSummary))
    && st'.nextMessage == st.nextMessage && |st'.messages| == |st.messages|
    && (forall i :: 0 <= i < |st.messages| ==> st'.messages[i].id == st.messages[i].id)
    && st'.nextSummary == st.nextSummary + |st'.summaries| - |st.summaries|
    && (|st'.summaries| == |st.summaries| ==> st' == st)
  }

  lemma TakeOverExtends(st: Store, ids: seq<Id>, text: string)
    ensures Extends(st, TakeOver(st, ids, text))
  {
  }

  lemma FallbackExtends(u: Setup, st: Store)
    ensures Extends(st, Fallback(u, st)) && Extends(st, AfterLevel1(u, st))
  {
    var gone := DropLast(Active(st.messages), u.config.keepLastN);
    TakeOverExtends(st, Ids(gone), "(Deterministic fallback) " + Join(Digests(gone), " | "));
  }

  lemma EscalationExtends(u: Setup, st: Store, ids: seq<Id>, c: Completion)
    ensures Extends(st, EndEscalation(u, st, ids, c))
  {
    if c.Answer? {
      var mid := TakeOver(st, ids, u.sanitize(c.text));
      TakeOverExtends(st, ids, u.sanitize(c.text));
      FallbackExtends(u, mid);
      ExtendsOn(st, mid, AfterLevel1(u, mid));
    } else {
      FallbackExtends(u, st);
    }
  }

  lemma ExtendsOn(st: Store, st1: Store, st2: Store)
    requires Extends(st, st1) && Extends(st1, st2)
    ensures Extends(st, st2)
  {
  }

  lemma ResumeExtends(u: Setup, st: Store, run: Run, c: Completion)
    ensures var p := Resume(u, st, run, c);
            Extends(st, p.store) && (p.run.Compacting? ==> |p.store.summaries| > |st.summaries|)
  {
    match run
    case Between => FallbackExtends(u, st);
    case Escalating(ids) => EscalationExtends(u, st, ids, c);
    case _ =>
  }

  // ---- exactly when a happening keeps the log in order ----

  lemma StaleAppendRepeats(x: Shared, h: nat, role: Role, content: string)
    requires Sound(x) && h < |x.handles| && x.handles[h].message <= |x.messages|
    ensures !UniqueIds(PutBack(x, h, Append(View(x, h), role, content)))
  {
    var y, i := PutBack(x, h, Append(View(x, h), role, content)), x.handles[h].message - 1;
    assert y.messages[i].id == MessageId(i + 1) == y.messages[|x.messages|].id;
  }

  lemma StaleSummaryRepeats(u: Setup, x: Shared, h: nat, run: Run, c: Completion)
    requires Sound(x) && h < |x.handles| && x.handles[h].summary <= |x.summaries| && Adds(u, View(x, h), run, c)
    ensures !UniqueIds(PutBack(x, h, Resume(u, View(x, h), run, c).store))
  {
    var st, i := Resume(u, View(x, h), run, c).store, x.handles[h].summary - 1;
    ResumeExtends(u, View(x, h), run, c);
    AddsIff(u, View(x, h), run, c);
    assert st.summaries[i].id == SummaryId(i + 1) == st.summaries[|x.summaries|].id;
  }

  lemma RunsFitLater(x: Shared, y: Shared)
    requires Sound(x) && y.runs == x.runs && Grows(Tail(x), Tail(y))
    ensures forall r :: r in y.runs ==> RunFits(Tail(y), y.runs[r].run)
  {
    forall r | r in y.runs
      ensures RunFits(Tail(y), y.runs[r].run)
    {
      RunFitsLater(Tail(x), Tail(y), x.runs[r].run);
    }
  }

  lemma CurrentAppendIsSound(x: Shared, h: nat, role: Role, content: string)
    requires Sound(x) && h < |x.handles| && x.handles[h].message == |x.messages| + 1
    ensures Sound(PutBack(x, h, Append(View(x, h), role, content)))
  {
    var y := PutBack(x, h, Append(View(x, h), role, content));
    AppendKeeps(Tail(x), role, content);
    assert Tail(y) == Append(Tail(x), role, content);
    RunsFitLater(x, y);
  }

  /** A stretch from any message counter does to the log what it does from the right one. */
  lemma StretchOnTail(u: Setup, x: Shared, h: nat, run: Run, c: Completion)
    requires h < |x.handles| && x.handles[h].summary == |x.summaries| + 1
    ensures var p, q := Resume(u, View(x, h), run, c), Resume(u, Tail(x), run, c);
            p.run == q.run && Tail(PutBack(x, h, p.store)) == q.store.(nextMessage := |x.messages| + 1)
    ensures Resume(u, Tail(x), run, c).store.nextMessage == |x.messages| + 1
  {
    var v := View(x, h);
    assert v == Tail(x).(nextMessage := v.nextMessage);
    ResumeIgnoresMessageCounter(u, Tail(x), v.nextMessage, run, c);
    ResumeExtends(u, v, run, c);
    ResumeExtends(u, Tail(x), run, c);
  }

  lemma AddedSummaryIsSound(u: Setup, x: Shared, h: nat, run: Run, c: Completion)
    requires Sound(x) && h < |x.handles| && RunFits(Tail(x), run) && x.handles[h].summary == |x.summaries| + 1
    ensures var p := Resume(u, View(x, h), run, c);
            Sound(PutBack(x, h, p.store)) && RunFits(Tail(PutBack(x, h, p.store)), p.run)
  {
    StretchOnTail(u, x, h, run, c);
    ResumeExtends(u, View(x, h), run, c);
    ResumeKeeps(u, Tail(x), run, c);
    RunsFitLater(x, PutBack(x, h, Resume(u, View(x, h), run, c).store));
  }

  lemma CurrentSummaryIsSound(u: Setup, x: Shared, h: nat, run: Run, c: Completion)
    requires Sound(x) && h < |x.handles| && RunFits(Tail(x), run)
    requires Adds(u, View(x, h), run, c) ==> x.handles[h].summary == |x.summaries| + 1
    ensures var p := Resume(u, View(x, h), run, c);
            Sound(PutBack(x, h, p.store)) && RunFits(Tail(PutBack(x, h, p.store)), p.run)
  {
    if Adds(u, View(x, h), run, c) {
      AddedSummaryIsSound(u, x, h, run, c);
    } else {
      ResumeExtends(u, View(x, h), run, c);
      AddsIff(u, View(x, h), run, c);
      assert Tail(PutBack(x, h, Resume(u, View(x, h), run, c).store)) == Tail(x);
    }
  }

  lemma ReopenIsCurrent(x: Shared)
    requires Sound(x)
    ensures Restore(x.messages, x.summaries) == Tail(x)
  {
    ReloadRestores(Tail(x));
  }

  /**
   * The exact condition. From a sound log, an event leaves all identifiers unique exactly when
   * it is safe: an append comes from a handle that has seen every message, and a stretch that
   * adds a summary from one that has seen every summary. And then the log is sound again.
   */
  lemma IdsStayUniqueIff(u: Setup, x: Shared, ev: Happening)
    requires Sound(x)
    ensures UniqueIds(Next(u, x, ev)) <==> Safe(u, x, ev)
    ensures Sound(Next(u, x, ev)) <==> Safe(u, x, ev)
  {
    SoundIsUnique(Next(u, x, ev));
    if Safe(u, x, ev) {
      SafeIsSound(u, x, ev);
    } else {
      UnsafeRepeats(u, x, ev);
    }
  }

  lemma UnsafeRepeats(u: Setup, x: Shared, ev: Happening)
    requires Sound(x) && !Safe(u, x, ev)
    ensures !UniqueIds(Next(u, x, ev))
  {
    match ev
    case Write(h, role, content) => StaleAppendRepeats(x, h, role, content);
    case Continue(r, c) => StaleSummaryRepeats(u, x, x.runs[r].handle, x.runs[r].run, c);
  }

  lemma GoingOnIsSound(x: Shared, r: nat, h: nat, run: Run)
    requires Sound(x) && RunFits(Tail(x), run)
    ensures Sound(Goes(x, r, h, run))
  {
  }

  lemma BegunRunFits(u: Setup, st: Store, st': Store)
    ensures RunFits(st', Begin(u, st))
  {
  }

  lemma ContinuingIsSound(u: Setup, x: Shared, r: nat, c: Completion)
    requires Sound(x) && Safe(u, x, Continue(r, c)) && r in x.runs && x.runs[r].handle < |x.handles|
    ensures Sound(Next(u, x, Continue(r, c)))
  {
    var h, run := x.runs[r].handle, x.runs[r].run;
    CurrentSummaryIsSound(u, x, h, run, c);
    var p := Resume(u, View(x, h), run, c);
    GoingOnIsSound(PutBack(x, h, p.store), r, h, p.run);
  }

  lemma ReopeningIsSound(u: Setup, x: Shared)
    requires Sound(x)
    ensures Sound(Next(u, x, Reopen))
  {
    ReopenIsCurrent(x);
  }

  lemma SafeIsSound(u: Setup, x: Shared, ev: Happening)
    requires Sound(x) && Safe(u, x, ev)
    ensures Sound(Next(u, x, ev))
  {
    match ev
    case Write(h, role, content) =>
      if h < |x.handles| {
        CurrentAppendIsSound(x, h, role, content);
      }
    case Launch(h, r) =>
      if h < |x.handles| {
        BegunRunFits(u, View(x, h), Tail(x));
        GoingOnIsSound(x, r, h, Begin(u, View(x, h)));
      }
    case Continue(r, c) =>
      if r in x.runs && x.runs[r].handle < |x.handles| {
        ContinuingIsSound(u, x, r, c);
      }
    case Save => assert Tail(Next(u, x, Save)) == Tail(x);
    case Reopen => ReopeningIsSound(u, x);
  }

  ghost predicate AllSafe(u: Setup, events: seq<Happening>) {
    events != [] ==>
      AllSafe(u, events[..|events| - 1]) && Safe(u, Play(u, events[..|events| - 1]), events[|events| - 1])
  }

  lemma {:induction false} SafeHistoriesAreSound(u: Setup, events: seq<Happening>)
    requires AllSafe(u, events)
    ensures Sound(Play(u, events))
  {
    if events != [] {
      SafeHistoriesAreSound(u, events[..|events| - 1]);
      SafeIsSound(u, Play(u, events[..|events| - 1]), events[|events| - 1]);
    }
  }

  // ---- a repeated identifier is never repaired ----

  /** Messages and summaries keep their identifiers, and new ones come after. */
  ghost predicate KeepsIds(x: Shared, y: Shared) {
    && |x.messages| <= |y.messages| && |x.summaries| <= |y.summaries|
    && (forall i :: 0 <= i < |x.messages| ==> y.messages[i].id == x.messages[i].id)
    && (forall j :: 0 <= j < |x.summaries| ==> y.summaries[j].id == x.summaries[j].id)
  }

  lemma NextKeepsIds(u: Setup, x: Shared, ev: Happening)
    ensures KeepsIds(x, Next(u, x, ev))
  {
    match ev
    case Continue(r, c) =>
      if r in x.runs && x.runs[r].handle < |x.handles| {
        ResumeExtends(u, View(x, x.runs[r].handle), x.runs[r].run, c);
      }
    case _ =>
  }

  lemma RepeatsStay(x: Shared, y: Shared)
    requires KeepsIds(x, y) && UniqueIds(y)
    ensures UniqueIds(x)
  {
    forall i, j | 0 <= i < j < |x.messages|
      ensures Render(x.messages[i].id) != Render(x.messages[j].id)
    {
      assert Render(y.messages[i].id) != Render(y.messages[j].id);
    }
    forall i, j | 0 <= i < j < |x.summaries|
      ensures Render(x.summaries[i].id) != Render(x.summaries[j].id)
    {
      assert Render(y.summaries[i].id) != Render(y.summaries[j].id);
    }
  }

  /** Over a whole history: all identifiers are unique in the end exactly when every step was safe. */
  lemma {:induction false} UniqueHistoriesIff(u: Setup, events: seq<Happening>)
    ensures UniqueIds(Play(u, events)) <==> AllSafe(u, events)
  {
    if events != [] {
      var front, ev := events[..|events| - 1], events[|events| - 1];
      var x := Play(u, front);
      UniqueHistoriesIff(u, front);
      NextKeepsIds(u, x, ev);
      if UniqueIds(Next(u, x, ev)) {
        RepeatsStay(x, Next(u, x, ev));
      }
      if AllSafe(u, front) {
        SafeHistoriesAreSound(u, front);
        IdsStayUniqueIff(u, x, ev);
      }
    }
  }

  /**
   * Lossless memory across reloads: turns and runs may keep going on handles that were replaced,
   * as long as every step is safe.
   */
  lemma SharedMemoryIsLossless(u: Setup, events: seq<Happening>)
    requires AllSafe(u, events)
    ensures Remembers(Tail(Play(u, events)))
  {
    SafeHistoriesAreSound(u, events);
    LosslessRemembers(Tail(Play(u, events)));
  }

  // ---- a discipline that is always safe ----

  /** The newest handle does it. */
  predicate ByNewest(x: Shared, ev: Happening) {
    match ev
    case Write(h, _, _) => h == |x.handles| - 1
    case Continue(r, _) => r in x.runs ==> x.runs[r].handle == |x.handles| - 1
    case _ => true
  }

  ghost predicate NewestIsCurrent(x: Shared) {
    x.handles != [] && x.handles[|x.handles| - 1] == Counters(|x.messages| + 1, |x.summaries| + 1)
  }

  ghost predicate AllByNewest(u: Setup, events: seq<Happening>) {
    events != [] ==>
      AllByNewest(u, events[..|events| - 1]) && ByNewest(Play(u, events[..|events| - 1]), events[|events| - 1])
  }

  lemma WritingStaysCurrent(x: Shared, h: nat, role: Role, content: string)
    requires NewestIsCurrent(x) && h == |x.handles| - 1
    ensures x.handles[h].message == |x.messages| + 1
    ensures NewestIsCurrent(PutBack(x, h, Append(View(x, h), role, content)))
  {
  }

  lemma ContinuingStaysCurrent(u: Setup, x: Shared, r: nat, c: Completion)
    requires NewestIsCurrent(x) && r in x.runs && x.runs[r].handle == |x.handles| - 1
    ensures Safe(u, x, Continue(r, c)) && NewestIsCurrent(Next(u, x, Continue(r, c)))
  {
    ResumeExtends(u, View(x, x.runs[r].handle), x.runs[r].run, c);
  }

  lemma ByNewestStaysCurrent(u: Setup, x: Shared, ev: Happening)
    requires Sound(x) && NewestIsCurrent(x) && ByNewest(x, ev)
    ensures Safe(u, x, ev) && NewestIsCurrent(Next(u, x, ev))
  {
    match ev
    case Write(h, role, content) => WritingStaysCurrent(x, h, role, content);
    case Continue(r, c) =>
      if r in x.runs {
        ContinuingStaysCurrent(u, x, r, c);
      }
    case Reopen => ReopenIsCurrent(x);
    case _ =>
  }

  /** If only the newest handle ever adds to the log, nothing can go wrong. */
  lemma {:induction false} NewestHandleIsSafe(u: Setup, events: seq<Happening>)
    requires AllByNewest(u, events)
    ensures AllSafe(u, events) && NewestIsCurrent(Play(u, events))
  {
    if events != [] {
      var front := events[..|events| - 1];
      NewestHandleIsSafe(u, front);
      SafeHistoriesAreSound(u, front);
      ByNewestStaysCurrent(u, Play(u, front), events[|events| - 1]);
    }
  }

  /**
   * Without that: in any sound log that has been saved, when the session is loaded again during a
   * turn, the next message from the new handle and the next from the old get one identifier.
   */
  lemma ReloadDuringTurnCollides(u: Setup, x: Shared, h: nat, a: Happening, b: Happening)
    requires Sound(x) && x.saved && h < |x.handles|
    requires a.Write? && a.handle == |x.handles| && b.Write? && b.handle == h
    ensures !UniqueIds(Next(u, Next(u, Next(u, x, Reopen), a), b))
  {
    var y := Next(u, x, Reopen);
    ReopenIsCurrent(x);
    SafeIsSound(u, x, Reopen);
    SafeIsSound(u, y, a);
    var z := Next(u, y, a);
    assert z.handles[h] == x.handles[h] && |z.messages| == |x.messages| + 1;
    IdsStayUniqueIff(u, z, b);
  }

  /**
   * Such a history: a first turn, after which the log is saved; a second whose question is on the
   * log; the session is loaded again; a question to the new handle, then the answer from the old.
   */
  lemma SharedReloadCollides(u: Setup, q1: string, a1: string, q2: string, q3: string, a2: string)
    ensures !UniqueIds(Play(u, [Write(0, User, q1), Write(0, Assistant, a1), Save, Write(0, User, q2), Reopen,
                                Write(1, User, q3), Write(0, Assistant, a2)]))
  {
    var turn := [Write(0, User, q1), Write(0, Assistant, a1), Save, Write(0, User, q2)];
    var all := [Write(0, User, q1), Write(0, Assistant, a1), Save, Write(0, User, q2), Reopen,
                Write(1, User, q3), Write(0, Assistant, a2)];
    FirstHandleIsSafe(u, turn);
    SavedInTurn(u, turn);
    SafeHistoriesAreSound(u, turn);
    PlayThree(u, all, 4);
    assert all[..4] == turn;
    ReloadDuringTurnCollides(u, Play(u, turn), 0, all[5], all[6]);
  }

  lemma PlayThree(u: Setup, events: seq<Happening>, n: nat)
    requires |events| == n + 3
    ensures Play(u, events) == Next(u, Next(u, Next(u, Play(u, events[..n]), events[n]), events[n + 1]), events[n + 2])
  {
    var two, one := events[..n + 2], events[..n + 1];
    assert events[..|events| - 1] == two;
    PlayOneMore(u, two);
    assert two[..|two| - 1] == one;
    PlayOneMore(u, one);
    assert one[..|one| - 1] == events[..n];
  }

  lemma PlayOneMore(u: Setup, events: seq<Happening>)
    requires events != []
    ensures Play(u, events) == Next(u, Play(u, events[..|events| - 1]), events[|events| - 1])
  {
  }

  lemma SavedInTurn(u: Setup, turn: seq<Happening>)
    requires |turn| == 4 && turn[0].Write? && turn[1].Write? && turn[2].Save? && turn[3].Write?
    requires turn[0].handle == 0 && turn[1].handle == 0 && turn[3].handle == 0
    ensures Play(u, turn).saved && |Play(u, turn).handles| == 1
  {
    var one, two, three := turn[..1], turn[..2], turn[..3];
    assert one[..0] == [] && two[..1] == one && three[..2] == two && turn[..|turn| - 1] == three;
    assert |Play(u, one).handles| == 1 && |Play(u, two).handles| == 1;
  }

  /** One handle alone is always current. */
  lemma {:induction false} FirstHandleIsSafe(u: Setup, events: seq<Happening>)
    requires forall i :: 0 <= i < |events| ==> events[i].Save? || (events[i].Write? && events[i].handle == 0)
    ensures AllSafe(u, events) && |Play(u, events).handles| == 1 && AllByNewest(u, events)
  {
    if events != [] {
      FirstHandleIsSafe(u, events[..|events| - 1]);
      NewestHandleIsSafe(u, events);
    }
  }

  // ---- words ----

  lemma NextKeepsRecords(u: Setup, x: Shared, ev: Happening)
    ensures Preserves(Tail(x), Tail(Next(u, x, ev)))
    ensures Sayings(Next(u, x, ev).messages) == Sayings(x.messages) + WrittenBy(x, ev)
  {
    match ev
    case Continue(r, c) =>
      if r in x.runs && x.runs[r].handle < |x.handles| {
        ResumePreserves(u, View(x, x.runs[r].handle), x.runs[r].run, c);
        ResumeAddsNoMessage(u, View(x, x.runs[r].handle), x.runs[r].run, c);
      }
    case _ =>
  }

  function WrittenBy(x: Shared, ev: Happening): seq<(Role, string)> {
    match ev
    case Write(h, role, content) => if h < |x.handles| then [(role, content)] else []
    case _ => []
  }

  /** What the objects there are have been given to append. */
  function Writings(u: Setup, events: seq<Happening>): seq<(Role, string)> {
    if events == [] then []
    else Writings(u, events[..|events| - 1]) + WrittenBy(Play(u, events[..|events| - 1]), events[|events| - 1])
  }

  /**
   * Even where identifiers collide the log is what was written, in order, word for word, and no
   * summary on record is rewritten.
   */
  lemma {:induction false} SharedLogIsWhatWasWritten(u: Setup, events: seq<Happening>)
    ensures Sayings(Play(u, events).messages) == Writings(u, events)
    ensures forall n :: 0 <= n <= |events| ==> Preserves(Tail(Play(u, events[..n])), Tail(Play(u, events)))
  {
    if events == [] {
      assert Sayings(FIRST.messages) == [];
      assert events[..0] == events;
    } else {
      var front, ev := events[..|events| - 1], events[|events| - 1];
      SharedLogIsWhatWasWritten(u, front);
      NextKeepsRecords(u, Play(u, front), ev);
      forall n | 0 <= n <= |events|
        ensures Preserves(Tail(Play(u, events[..n])), Tail(Play(u, events)))
      {
        if n < |events| {
          assert front[..n] == events[..n];
          PreservesOn(Tail(Play(u, events[..n])), Tail(Play(u, front)), Tail(Play(u, events)));
        } else {
          assert events[..n] == events;
        }
      }
    }
  }
}
