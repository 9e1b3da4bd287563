/** How small the working set stays, and which messages maintenance never touches. */
module LcmWorkingSet {
  import opened LcmStore
  import opened LcmContext
  import opened LcmMaintenance
  import opened LcmLossless

  // ---- what archiving does to the active messages ----

  function Without(ms: seq<Message>, ids: seq<Id>): seq<Message> {
    if ms == [] then []
    else
      var front := Without(ms[..|ms| - 1], ids);
      if ms[|ms| - 1].id in ids then front else front + [ms[|ms| - 1]]
  }

  lemma {:induction false} ActiveAfterArchive(ms: seq<Message>, ids: seq<Id>, owner: Id)
    ensures Active(Archive(ms, ids, owner)) == Without(Active(ms), ids)
  {
    if ms != [] {
      var front := ms[..|ms| - 1];
      ActiveAfterArchive(front, ids, owner);
      assert Archive(ms, ids, owner)[..|ms| - 1] == Archive(front, ids, owner);
    }
  }

  lemma {:induction false} WithoutPrefix(ms: seq<Message>, ids: seq<Id>, p: nat)
    requires p <= |ms| && forall i :: 0 <= i < |ms| ==> (ms[i].id in ids <==> i < p)
    ensures Without(ms, ids) == ms[p..]
  {
    if ms != [] {
      WithoutPrefix(ms[..|ms| - 1], ids, if p < |ms| then p else |ms| - 1);
    }
  }

  ghost predicate DistinctMessages(ms: seq<Message>) {
    forall i, j :: 0 <= i < j < |ms| ==> ms[i].id != ms[j].id
  }

  lemma {:induction false} ActiveMembers(ms: seq<Message>, m: Message)
    ensures m in Active(ms) <==> m in ms && m.archivedBy.None?
  {
    if ms != [] {
      ActiveMembers(ms[..|ms| - 1], m);
      assert ms == ms[..|ms| - 1] + [ms[|ms| - 1]];
    }
  }

  lemma {:induction false} ActiveDistinct(ms: seq<Message>)
    requires DistinctMessages(ms)
    ensures DistinctMessages(Active(ms))
  {
    if ms != [] {
      var front, last := ms[..|ms| - 1], ms[|ms| - 1];
      ActiveDistinct(front);
      forall m | m in Active(front)
        ensures m.id != last.id
      {
        ActiveMembers(front, m);
      }
    }
  }

  lemma {:induction false} ActiveAppend(a: seq<Message>, b: seq<Message>)
    ensures Active(a + b) == Active(a) + Active(b)
  {
    if b == [] {
      assert a + b == a;
    } else {
      ActiveAppend(a, b[..|b| - 1]);
      assert (a + b)[..|a + b| - 1] == a + b[..|b| - 1];
    }
  }

  lemma {:induction false} AllActive(ms: seq<Message>)
    requires forall i :: 0 <= i < |ms| ==> ms[i].archivedBy.None?
    ensures Active(ms) == ms
  {
    if ms != [] {
      AllActive(ms[..|ms| - 1]);
    }
  }

  /** Taking over the oldest p active messages leaves exactly the others active. */
  lemma TakeOverOldest(st: Store, p: nat, text: string)
    requires Numbered(st) && p <= |Active(st.messages)|
    ensures Active(TakeOver(st, Ids(Active(st.messages)[..p]), text).messages) == Active(st.messages)[p..]
  {
    var active := Active(st.messages);
    var ids := Ids(active[..p]);
    IdsAreUnique(st);
    ActiveDistinct(st.messages);
    ActiveAfterArchive(st.messages, ids, SummaryId(st.nextSummary));
    forall i | 0 <= i < |active|
      ensures active[i].id in ids <==> i < p
    {
      if i < p {
        assert ids[i] == active[i].id;
      }
    }
    WithoutPrefix(active, ids, p);
  }

  function Min(a: nat, b: nat): nat {
    if a < b then a else b
  }

  function Max(a: nat, b: nat): nat {
    if a < b then b else a
  }

  /**
   * Escalation level 2 keeps exactly the newest keepLastN active messages; with keepLastN = 0
   * the slice is empty and it archives nothing.
   */
  lemma FallbackKeepsNewest(u: Setup, st: Store)
    requires Numbered(st)
    ensures var active, after, n := Active(st.messages), Active(Fallback(u, st).messages), u.config.keepLastN;
            after == if n == 0 then active else active[|active| - Min(|active|, n)..]
  {
    var active, n := Active(st.messages), u.config.keepLastN;
    if |active| > n {
      var p := if n == 0 then 0 else |active| - n;
      assert DropLast(active, n) == active[..p];
      TakeOverOldest(st, p, "(Deterministic fallback) " + Join(Digests(DropLast(active, n)), " | "));
    }
  }

  // ---- the newest messages are never archived ----

  ghost predicate OldEnough(u: Setup, st: Store, ids: seq<Id>) {
    forall id :: id in ids ==> IsMessage(st, id) && id.number + u.config.keepLastN <= |st.messages|
  }

  ghost predicate NewestActive(u: Setup, st: Store) {
    forall i :: 0 <= i < |st.messages| && |st.messages| < i + 1 + u.config.keepLastN ==> st.messages[i].archivedBy.None?
  }

  ghost predicate RunSparesNewest(u: Setup, st: Store, run: Run) {
    match run
    case Incremental(ids) => OldEnough(u, st, ids)
    case Escalating(ids) => OldEnough(u, st, ids)
    case _ => true
  }

  ghost predicate SparesNewest(u: Setup, x: Session) {
    && Numbered(x.store) && NewestActive(u, x.store)
    && forall r :: r in x.runs ==> RunSparesNewest(u, x.store, x.runs[r])
  }

  /** With the newest messages active, the active list ends with them. */
  lemma ActiveEndsWithNewest(u: Setup, st: Store)
    requires NewestActive(u, st) && u.config.keepLastN <= |st.messages|
    ensures var cut := |st.messages| - u.config.keepLastN;
            Active(st.messages) == Active(st.messages[..cut]) + st.messages[cut..]
  {
    var cut := |st.messages| - u.config.keepLastN;
    ActiveAppend(st.messages[..cut], st.messages[cut..]);
    assert st.messages == st.messages[..cut] + st.messages[cut..];
    AllActive(st.messages[cut..]);
  }

  lemma {:induction false} ActiveShorter(ms: seq<Message>)
    ensures |Active(ms)| <= |ms|
  {
    if ms != [] {
      ActiveShorter(ms[..|ms| - 1]);
    }
  }

  lemma OldestAreOldEnough(u: Setup, st: Store, p: nat)
    requires Numbered(st) && NewestActive(u, st)
    requires p == 0 || p + u.config.keepLastN <= |Active(st.messages)|
    ensures p <= |Active(st.messages)| && OldEnough(u, st, Ids(Active(st.messages)[..p]))
  {
    var active, n := Active(st.messages), u.config.keepLastN;
    ActiveShorter(st.messages);
    if p > 0 {
      ActiveEndsWithNewest(u, st);
      var older := st.messages[..|st.messages| - n];
      assert active[..p] == Active(older)[..p];
      forall id | id in Ids(active[..p])
        ensures IsMessage(st, id) && id.number + n <= |st.messages|
      {
        var i :| 0 <= i < p && id == active[i].id;
        ActiveMembers(older, active[i]);
        var k :| 0 <= k < |older| && older[k] == active[i];
        assert st.messages[k] == active[i];
      }
    }
  }

  lemma NewestIsNotNamed(u: Setup, st: Store, ids: seq<Id>, i: nat)
    requires Numbered(st) && OldEnough(u, st, ids)
    requires i < |st.messages| < i + 1 + u.config.keepLastN
    ensures st.messages[i].id !in ids
  {
  }

  lemma TakeOverNumbers(st: Store, ids: seq<Id>, text: string)
    requires Numbered(st)
    ensures Numbered(TakeOver(st, ids, text)) && |TakeOver(st, ids, text).messages| == |st.messages|
  {
  }

  lemma TakeOverSparesNewest(u: Setup, st: Store, ids: seq<Id>, text: string)
    requires Numbered(st) && NewestActive(u, st) && OldEnough(u, st, ids)
    ensures Numbered(TakeOver(st, ids, text)) && NewestActive(u, TakeOver(st, ids, text))
    ensures |TakeOver(st, ids, text).messages| == |st.messages|
  {
    var st' := TakeOver(st, ids, text);
    TakeOverNumbers(st, ids, text);
    forall i | 0 <= i < |st'.messages| && |st'.messages| < i + 1 + u.config.keepLastN
      ensures st'.messages[i].archivedBy.None?
    {
      NewestIsNotNamed(u, st, ids, i);
      assert st'.messages[i] == Archived(st.messages[i], ids, SummaryId(st.nextSummary));
    }
  }

  lemma FallbackSparesNewest(u: Setup, st: Store)
    requires Numbered(st) && NewestActive(u, st)
    ensures Numbered(Fallback(u, st)) && NewestActive(u, Fallback(u, st)) && |Fallback(u, st).messages| == |st.messages|
    ensures Numbered(AfterLevel1(u, st)) && NewestActive(u, AfterLevel1(u, st))
    ensures |AfterLevel1(u, st).messages| == |st.messages|
  {
    var active, n := Active(st.messages), u.config.keepLastN;
    if |active| > n {
      var p := if n == 0 then 0 else |active| - n;
      assert DropLast(active, n) == active[..p];
      OldestAreOldEnough(u, st, p);
      TakeOverSparesNewest(u, st, Ids(DropLast(active, n)),
                           "(Deterministic fallback) " + Join(Digests(DropLast(active, n)), " | "));
    }
  }

  lemma CompactNumbersAnyway(st: Store, c: Compaction, text: string)
    requires Numbered(st)
    ensures Numbered(Compact(st, c, text)) && Compact(st, c, text).messages == st.messages
  {
  }

  lemma EscalateSparesNewest(u: Setup, st: Store)
    requires Numbered(st) && NewestActive(u, st)
    ensures var p := Escalate(u, st);
            && Numbered(p.store) && NewestActive(u, p.store) && |p.store.messages| == |st.messages|
            && RunSparesNewest(u, p.store, p.run)
  {
    var active, n := Active(st.messages), u.config.keepLastN;
    var p := if n == 0 || |active| <= n then 0 else |active| - n;
    assert DropLast(active, n) == active[..p];
    OldestAreOldEnough(u, st, p);
    FallbackSparesNewest(u, st);
  }

  lemma EscalationEndSparesNewest(u: Setup, st: Store, ids: seq<Id>, c: Completion)
    requires Numbered(st) && NewestActive(u, st) && OldEnough(u, st, ids)
    ensures var st' := EndEscalation(u, st, ids, c);
            Numbered(st') && NewestActive(u, st') && |st'.messages| == |st.messages|
  {
    if c.Answer? {
      TakeOverSparesNewest(u, st, ids, u.sanitize(c.text));
      FallbackSparesNewest(u, TakeOver(st, ids, u.sanitize(c.text)));
    } else {
      FallbackSparesNewest(u, st);
    }
  }

  lemma ResumeSparesNewest(u: Setup, st: Store, run: Run, c: Completion)
    requires Numbered(st) && NewestActive(u, st) && RunSparesNewest(u, st, run)
    ensures var p := Resume(u, st, run, c);
            && Numbered(p.store) && NewestActive(u, p.store) && |p.store.messages| == |st.messages|
            && RunSparesNewest(u, p.store, p.run)
  {
    match run
    case Incremental(ids) =>
      if c.Answer? {
        TakeOverSparesNewest(u, st, ids, u.sanitize(c.text));
      }
    case Compacting(k) => CompactNumbersAnyway(st, k, if c.Answer? then u.sanitize(c.text) else "");
    case Between => EscalateSparesNewest(u, st);
    case Escalating(ids) => EscalationEndSparesNewest(u, st, ids, c);
    case Done =>
  }

  lemma BeginSparesNewest(u: Setup, st: Store)
    requires Numbered(st) && NewestActive(u, st)
    ensures RunSparesNewest(u, st, Begin(u, st))
  {
    if ChunkOf(u.config, st).Some? {
      OldestAreOldEnough(u, st, u.config.chunkSize);
    }
  }

  lemma SparedLater(u: Setup, st: Store, st': Store, run: Run)
    requires RunSparesNewest(u, st, run) && |st.messages| <= |st'.messages|
    ensures RunSparesNewest(u, st', run)
  {
  }

  lemma NextSparesNewest(u: Setup, x: Session, ev: Event)
    requires SparesNewest(u, x)
    ensures SparesNewest(u, Next(u, x, ev))
  {
    match ev
    case Arrive(role, content) =>
      forall r | r in x.runs
        ensures RunSparesNewest(u, Append(x.store, role, content), x.runs[r])
      {
        SparedLater(u, x.store, Append(x.store, role, content), x.runs[r]);
      }
    case Start(r) => BeginSparesNewest(u, x.store);
    case Settle(r, c) =>
      if r in x.runs {
        ResumeSparesNewest(u, x.store, x.runs[r], c);
        var p := Resume(u, x.store, x.runs[r], c);
        forall q | q in x.runs
          ensures RunSparesNewest(u, p.store, x.runs[q])
        {
          SparedLater(u, x.store, p.store, x.runs[q]);
        }
      }
    case Reload => ReloadRestores(x.store);
  }

  /**
   * In any interleaving of arrivals, reloads and concurrent runs, the newest keepLastN
   * messages of the log are active.
   */
  lemma {:induction false} NewestStayActive(u: Setup, events: seq<Event>)
    ensures SparesNewest(u, Play(u, START, events))
  {
    if events != [] {
      NewestStayActive(u, events[..|events| - 1]);
      NextSparesNewest(u, Play(u, START, events[..|events| - 1]), events[|events| - 1]);
    }
  }

  // ---- sequential turns ----

  /** A maintenance run with nothing in between; four stretches always finish it. */
  function Maintain(u: Setup, st: Store, c: nat -> Completion): Progress {
    var p1 := Resume(u, st, Begin(u, st), c(0));
    var p2 := Resume(u, p1.store, p1.run, c(1));
    var p3 := Resume(u, p2.store, p2.run, c(2));
    Resume(u, p3.store, p3.run, c(3))
  }

  function Rank(run: Run): nat {
    match run
    case Incremental(_) => 4
    case Compacting(_) => 3
    case Between => 2
    case Escalating(_) => 1
    case Done => 0
  }

  lemma StretchesAdvance(u: Setup, st: Store, run: Run, c: Completion)
    ensures Rank(Resume(u, st, run, c).run) < Rank(run) || (run.Done? && Resume(u, st, run, c).run.Done?)
  {
  }

  lemma RankFalls(u: Setup, p: Progress, c: Completion, n: nat)
    requires Rank(p.run) <= n + 1
    ensures Rank(Resume(u, p.store, p.run, c).run) <= n
  {
    StretchesAdvance(u, p.store, p.run, c);
  }

  /** A run is over after at most four stretches, whatever the completions. */
  lemma FourStretchesFinish(u: Setup, st: Store, c: nat -> Completion)
    ensures Maintain(u, st, c).run == Done
  {
    var p0 := Progress(st, Begin(u, st));
    var p1 := Resume(u, p0.store, p0.run, c(0));
    RankFalls(u, p0, c(0), 3);
    var p2 := Resume(u, p1.store, p1.run, c(1));
    RankFalls(u, p1, c(1), 2);
    var p3 := Resume(u, p2.store, p2.run, c(2));
    RankFalls(u, p2, c(2), 1);
    RankFalls(u, p3, c(3), 0);
    FinalRank(Resume(u, p3.store, p3.run, c(3)).run);
  }

  lemma FinalRank(run: Run)
    requires Rank(run) == 0
    ensures run == Done
  {
  }

  /** One turn of the engine: the user's message, the answer, then maintenance to its end. */
  function Turn(u: Setup, st: Store, user: string, answer: string, c: nat -> Completion): Store {
    Maintain(u, Append(Append(st, User, user), Assistant, answer), c).store
  }

  datatype Exchange = Exchange(user: string, answer: string, completions: nat -> Completion)

  function Turns(u: Setup, turns: seq<Exchange>): Store {
    if turns == [] then EMPTY
    else
      var t := turns[|turns| - 1];
      Turn(u, Turns(u, turns[..|turns| - 1]), t.user, t.answer, t.completions)
  }

  ghost predicate AllAnswered(c: nat -> Completion) {
    forall n :: c(n).Answer?
  }

  lemma {:induction false} WithoutShorter(ms: seq<Message>, ids: seq<Id>)
    ensures |Without(ms, ids)| <= |ms|
  {
    if ms != [] {
      WithoutShorter(ms[..|ms| - 1], ids);
    }
  }

  lemma TakeOverShrinks(st: Store, ids: seq<Id>, text: string)
    ensures |Active(TakeOver(st, ids, text).messages)| <= |Active(st.messages)|
  {
    ActiveAfterArchive(st.messages, ids, SummaryId(st.nextSummary));
    WithoutShorter(Active(st.messages), ids);
  }

  lemma FallbackShrinks(u: Setup, st: Store)
    ensures |Active(Fallback(u, st).messages)| <= |Active(st.messages)|
    ensures |Active(AfterLevel1(u, st).messages)| <= |Active(st.messages)|
  {
    var gone := DropLast(Active(st.messages), u.config.keepLastN);
    TakeOverShrinks(st, Ids(gone), "(Deterministic fallback) " + Join(Digests(gone), " | "));
  }

  lemma EscalationEndShrinks(u: Setup, st: Store, ids: seq<Id>, c: Completion)
    ensures |Active(EndEscalation(u, st, ids, c).messages)| <= |Active(st.messages)|
  {
    FallbackShrinks(u, st);
    if c.Answer? {
      TakeOverShrinks(st, ids, u.sanitize(c.text));
      FallbackShrinks(u, TakeOver(st, ids, u.sanitize(c.text)));
    }
  }

  lemma ResumeShrinks(u: Setup, st: Store, run: Run, c: Completion)
    ensures |Active(Resume(u, st, run, c).store.messages)| <= |Active(st.messages)|
  {
    match run
    case Incremental(ids) =>
      if c.Answer? {
        TakeOverShrinks(st, ids, u.sanitize(c.text));
      }
    case Compacting(k) =>
    case Between => FallbackShrinks(u, st);
    case Escalating(ids) => EscalationEndShrinks(u, st, ids, c);
    case Done =>
  }

  /** A run that gets its summary brings an overfull working set down by a chunk. */
  lemma MaintainBound(u: Setup, st: Store, c: nat -> Completion)
    requires Numbered(st) && AllAnswered(c)
    ensures var limit, n := u.config.keepLastN + u.config.chunkSize, |Active(st.messages)|;
            |Active(Maintain(u, st, c).store.messages)| <=
              if |st.messages| > 4 && n > limit then n - u.config.chunkSize else n
  {
    var run := Begin(u, st);
    var p1 := Resume(u, st, run, c(0));
    var p2 := Resume(u, p1.store, p1.run, c(1));
    var p3 := Resume(u, p2.store, p2.run, c(2));
    if run.Incremental? {
      assert c(0).Answer?;
      TakeOverOldest(st, u.config.chunkSize, u.sanitize(c(0).text));
    } else {
      ResumeShrinks(u, st, run, c(0));
    }
    ResumeShrinks(u, p1.store, p1.run, c(1));
    ResumeShrinks(u, p2.store, p2.run, c(2));
    ResumeShrinks(u, p3.store, p3.run, c(3));
  }

  ghost predicate Bounded(u: Setup, st: Store, limit: nat) {
    Lossless(st) && |Active(st.messages)| <= limit
  }

  lemma MaintainKeepsLossless(u: Setup, st: Store, c: nat -> Completion)
    requires Lossless(st)
    ensures Lossless(Maintain(u, st, c).store)
  {
    var run := Begin(u, st);
    var p1 := Resume(u, st, run, c(0));
    ResumeKeeps(u, st, run, c(0));
    var p2 := Resume(u, p1.store, p1.run, c(1));
    ResumeKeeps(u, p1.store, p1.run, c(1));
    var p3 := Resume(u, p2.store, p2.run, c(2));
    ResumeKeeps(u, p2.store, p2.run, c(2));
    ResumeKeeps(u, p3.store, p3.run, c(3));
  }

  lemma AppendActive(st: Store, role: Role, content: string)
    ensures |Active(Append(st, role, content).messages)| == |Active(st.messages)| + 1
  {
    var ms := Append(st, role, content).messages;
    assert ms[..|ms| - 1] == st.messages;
  }

  lemma TurnBound(u: Setup, st: Store, t: Exchange)
    requires u.config.chunkSize >= 2 && AllAnswered(t.completions)
    requires Bounded(u, st, Max(u.config.keepLastN + u.config.chunkSize, 4))
    ensures Bounded(u, Turn(u, st, t.user, t.answer, t.completions), Max(u.config.keepLastN + u.config.chunkSize, 4))
  {
    var st1 := Append(st, User, t.user);
    var st2 := Append(st1, Assistant, t.answer);
    AppendKeeps(st, User, t.user);
    AppendKeeps(st1, Assistant, t.answer);
    AppendActive(st, User, t.user);
    AppendActive(st1, Assistant, t.answer);
    ActiveShorter(st2.messages);
    MaintainBound(u, st2, t.completions);
    MaintainKeepsLossless(u, st2, t.completions);
  }

  /**
   * Sequential turns whose completions succeed keep the working set at or below
   * keepLastN + chunkSize, or at 4 when that is larger: maintenance waits for a fifth message.
   */
  lemma {:induction false} WorkingSetIsBounded(u: Setup, turns: seq<Exchange>)
    requires u.config.chunkSize >= 2 && forall t :: t in turns ==> AllAnswered(t.completions)
    ensures Bounded(u, Turns(u, turns), Max(u.config.keepLastN + u.config.chunkSize, 4))
  {
    if turns != [] {
      var front, t := turns[..|turns| - 1], turns[|turns| - 1];
      assert turns == front + [t];
      assert t in turns && forall t' :: t' in front ==> t' in turns;
      WorkingSetIsBounded(u, front);
      TurnBound(u, Turns(u, front), t);
    }
  }

  ghost predicate TurnsAnswered(turns: seq<Exchange>) {
    forall t :: t in turns ==> AllAnswered(t.completions)
  }

  lemma DoneIsDone(u: Setup, st: Store, c: Completion)
    ensures Resume(u, st, Done, c) == Progress(st, Done)
  {
  }

  lemma ShortLogRests(u: Setup, st: Store, c: nat -> Completion)
    requires |st.messages| <= 4
    ensures Maintain(u, st, c).store == st
  {
    DoneIsDone(u, st, c(0));
    DoneIsDone(u, st, c(1));
    DoneIsDone(u, st, c(2));
    DoneIsDone(u, st, c(3));
  }

  lemma EarlyTurn(u: Setup, st: Store, t: Exchange) returns (next: Store)
    requires |st.messages| <= 2
    ensures next == Turn(u, st, t.user, t.answer, t.completions)
    ensures |next.messages| == |st.messages| + 2
    ensures AllFresh(st.messages) ==> AllFresh(next.messages)
  {
    next := Append(Append(st, User, t.user), Assistant, t.answer);
    ShortLogRests(u, next, t.completions);
  }

  ghost predicate AllFresh(ms: seq<Message>) {
    forall i :: 0 <= i < |ms| ==> ms[i].archivedBy.None?
  }

  lemma TurnsSnoc(u: Setup, turns: seq<Exchange>, t: Exchange)
    ensures Turns(u, turns + [t]) == Turn(u, Turns(u, turns), t.user, t.answer, t.completions)
  {
    assert (turns + [t])[..|turns|] == turns;
  }

  /** Two turns from an empty store leave four active messages: maintenance has not started. */
  lemma FirstTurns(u: Setup, t: Exchange) returns (turns: seq<Exchange>)
    requires AllAnswered(t.completions)
    ensures TurnsAnswered(turns) && |Active(Turns(u, turns).messages)| == 4
  {
    var one := EarlyTurn(u, EMPTY, t);
    var two := EarlyTurn(u, one, t);
    TurnsSnoc(u, [], t);
    TurnsSnoc(u, [] + [t], t);
    turns := [] + [t] + [t];
    assert Turns(u, turns) == two;
    AllActive(two.messages);
  }

  ghost predicate AlwaysWithin(u: Setup, limit: nat) {
    forall turns: seq<Exchange> {:trigger Turns(u, turns)} ::
      TurnsAnswered(turns) ==> |Active(Turns(u, turns).messages)| <= limit
  }

  /**
   * So the bound keepLastN + chunkSize itself holds after every history of such turns exactly
   * when it is at least 4.
   */
  lemma WorkingSetBoundIff(u: Setup, t: Exchange)
    requires u.config.chunkSize >= 2 && AllAnswered(t.completions)
    ensures AlwaysWithin(u, u.config.keepLastN + u.config.chunkSize) <==> u.config.keepLastN + u.config.chunkSize >= 4
  {
    if u.config.keepLastN + u.config.chunkSize >= 4 {
      BoundFromFour(u);
    } else {
      BelowFourFails(u, t);
    }
  }

  lemma BoundFromFour(u: Setup)
    requires u.config.chunkSize >= 2 && u.config.keepLastN + u.config.chunkSize >= 4
    ensures AlwaysWithin(u, u.config.keepLastN + u.config.chunkSize)
  {
    forall turns: seq<Exchange> | TurnsAnswered(turns)
      ensures |Active(Turns(u, turns).messages)| <= u.config.keepLastN + u.config.chunkSize
    {
      WorkingSetIsBounded(u, turns);
    }
  }

  lemma BelowFourFails(u: Setup, t: Exchange)
    requires AllAnswered(t.completions) && u.config.keepLastN + u.config.chunkSize < 4
    ensures !AlwaysWithin(u, u.config.keepLastN + u.config.chunkSize)
  {
    var turns := FirstTurns(u, t);
    assert |Active(Turns(u, turns).messages)| == 4;
  }
}
