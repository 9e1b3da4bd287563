/**
 * Nothing is ever lost: under any interleaving of arriving messages, reloads and concurrent
 * maintenance runs, every message is in the context or covered by a summary that is.
 */
module LcmLossless {
  import opened Outcomes
  import opened LcmStore
  import opened LcmContext
  import opened LcmMaintenance

  // ---- what the store keeps ----

  /** Messages and summaries are numbered from 1 in order, and the counters are next. */
  ghost predicate Numbered(st: Store) {
    && (forall i :: 0 <= i < |st.messages| ==> st.messages[i].number == i + 1 && st.messages[i].id == MessageId(i + 1))
    && (forall j :: 0 <= j < |st.summaries| ==> st.summaries[j].id == SummaryId(j + 1))
    && st.nextMessage == |st.messages| + 1
    && st.nextSummary == |st.summaries| + 1
  }

  predicate IsMessage(st: Store, id: Id) {
    id.MessageId? && 1 <= id.number <= |st.messages|
  }

  predicate IsSummary(st: Store, id: Id) {
    id.SummaryId? && 1 <= id.number <= |st.summaries|
  }

  function SummaryBy(st: Store, id: Id): Summary
    requires IsSummary(st, id)
  {
    st.summaries[id.number - 1]
  }

  /** An archived message was taken over by a level-1 summary that covers it. */
  ghost predicate Kept(st: Store, m: Message) {
    m.archivedBy.Some? ==>
      && IsSummary(st, m.archivedBy.value)
      && SummaryBy(st, m.archivedBy.value).level == 1
      && m.id in SummaryBy(st, m.archivedBy.value).covers
  }

  /** An absorbed summary is of level 1; its parent is newer, of level 2, visible, and covers all it covered. */
  ghost predicate Rooted(st: Store, j: int)
    requires 0 <= j < |st.summaries|
  {
    var s := st.summaries[j];
    s.parent.Some? ==>
      && s.level == 1
      && IsSummary(st, s.parent.value)
      && s.parent.value.number > j + 1
      && SummaryBy(st, s.parent.value).level == 2
      && SummaryBy(st, s.parent.value).parent.None?
      && forall id :: id in s.covers ==> id in SummaryBy(st, s.parent.value).covers
  }

  ghost predicate Lossless(st: Store) {
    && Numbered(st)
    && (forall i :: 0 <= i < |st.messages| ==> Kept(st, st.messages[i]))
    && (forall j :: 0 <= j < |st.summaries| ==> Rooted(st, j))
  }

  /** A pending compaction names level-1 summaries whose covers it will cover. */
  ghost predicate Gathered(st: Store, c: Compaction) {
    forall id :: id in c.nodes ==>
      && IsSummary(st, id)
      && SummaryBy(st, id).level == 1
      && forall m :: m in SummaryBy(st, id).covers ==> m in c.covers
  }

  ghost predicate RunFits(st: Store, run: Run) {
    run.Compacting? ==> Gathered(st, run.compaction)
  }

  ghost predicate Sound(x: Session) {
    Lossless(x.store) && forall r :: r in x.runs ==> RunFits(x.store, x.runs[r])
  }

  /** Summaries keep their number, level and covers; new ones come after. */
  ghost predicate Grows(st: Store, st': Store) {
    && |st.summaries| <= |st'.summaries|
    && forall j :: 0 <= j < |st.summaries| ==>
         && st'.summaries[j].level == st.summaries[j].level
         && st'.summaries[j].covers == st.summaries[j].covers
  }

  lemma RunFitsLater(st: Store, st': Store, run: Run)
    requires RunFits(st, run) && Grows(st, st')
    ensures RunFits(st', run)
  {
  }

  lemma KeptLater(st: Store, st': Store, m: Message)
    requires Kept(st, m) && Grows(st, st')
    ensures Kept(st', m)
  {
  }

  /** A summary is found again under its own identifier. */
  lemma FoundById(st: Store, j: nat)
    requires Numbered(st) && j < |st.summaries|
    ensures IsSummary(st, st.summaries[j].id) && SummaryBy(st, st.summaries[j].id) == st.summaries[j]
  {
  }

  // ---- each stretch keeps it ----

  lemma ArchiveKeeps(st: Store, ids: seq<Id>, text: string)
    requires Lossless(st)
    ensures Lossless(TakeOver(st, ids, text)) && Grows(st, TakeOver(st, ids, text))
  {
    var st' := TakeOver(st, ids, text);
    var n := |st.summaries| + 1;
    forall i | 0 <= i < |st'.messages|
      ensures Kept(st', st'.messages[i])
    {
      assert Kept(st, st.messages[i]);
    }
    forall j | 0 <= j < |st'.summaries|
      ensures Rooted(st', j)
    {
      if j < |st.summaries| {
        assert Rooted(st, j);
      }
    }
  }

  lemma ConsumedOnlyIfNamed(st: Store, c: Compaction, j: int)
    requires Numbered(st) && Gathered(st, c) && 0 <= j < |st.summaries|
    requires st.summaries[j].id in c.nodes
    ensures st.summaries[j].level == 1 && forall m :: m in st.summaries[j].covers ==> m in c.covers
  {
  }

  lemma NewIdIsUnnamed(st: Store, c: Compaction)
    requires Numbered(st) && Gathered(st, c)
    ensures SummaryId(|st.summaries| + 1) !in c.nodes
  {
  }

  lemma AbsorbedIsRooted(st: Store, c: Compaction, text: string, j: nat)
    requires Lossless(st) && Gathered(st, c) && j < |st.summaries| && st.summaries[j].id in c.nodes
    ensures Rooted(Compact(st, c, text), j)
  {
    NewIdIsUnnamed(st, c);
    ConsumedOnlyIfNamed(st, c, j);
  }

  lemma UnnamedStaysRooted(st: Store, c: Compaction, text: string, j: nat)
    requires Lossless(st) && Gathered(st, c) && j < |st.summaries| && st.summaries[j].id !in c.nodes
    ensures Rooted(Compact(st, c, text), j)
  {
    assert Rooted(st, j);
    CompactLeaves(st, c, text, j);
    if st.summaries[j].parent.Some? {
      var p := st.summaries[j].parent.value.number - 1;
      ParentIsUnnamed(st, c, p);
      CompactLeaves(st, c, text, p);
    }
    RootedStill(st, Compact(st, c, text), j);
  }

  lemma CompactLeaves(st: Store, c: Compaction, text: string, j: nat)
    requires j < |st.summaries| && st.summaries[j].id !in c.nodes
    ensures |Compact(st, c, text).summaries| == |st.summaries| + 1
    ensures Compact(st, c, text).summaries[j] == st.summaries[j]
  {
  }

  lemma RootedStill(st: Store, st': Store, j: nat)
    requires j < |st.summaries| <= |st'.summaries| && Rooted(st, j) && st'.summaries[j] == st.summaries[j]
    requires st.summaries[j].parent.Some? ==>
               SummaryBy(st, st.summaries[j].parent.value) == st'.summaries[st.summaries[j].parent.value.number - 1]
    ensures Rooted(st', j)
  {
  }

  lemma ParentIsUnnamed(st: Store, c: Compaction, p: nat)
    requires Numbered(st) && Gathered(st, c) && p < |st.summaries| && st.summaries[p].level == 2
    ensures st.summaries[p].id !in c.nodes
  {
    FoundById(st, p);
  }

  lemma CompactNumbers(st: Store, c: Compaction, text: string)
    requires Numbered(st) && Gathered(st, c)
    ensures var st' := Compact(st, c, text);
            && Numbered(st') && Grows(st, st') && st'.messages == st.messages
            && |st'.summaries| == |st.summaries| + 1 && st'.summaries[|st.summaries|].parent.None?
  {
    NewIdIsUnnamed(st, c);
  }

  lemma CompactKeeps(st: Store, c: Compaction, text: string)
    requires Lossless(st) && Gathered(st, c)
    ensures Lossless(Compact(st, c, text)) && Grows(st, Compact(st, c, text))
  {
    var st' := Compact(st, c, text);
    CompactNumbers(st, c, text);
    forall i | 0 <= i < |st'.messages|
      ensures Kept(st', st'.messages[i])
    {
      KeptLater(st, st', st.messages[i]);
    }
    forall j | 0 <= j < |st'.summaries|
      ensures Rooted(st', j)
    {
      if j < |st.summaries| {
        if st.summaries[j].id in c.nodes {
          AbsorbedIsRooted(st, c, text, j);
        } else {
          UnnamedStaysRooted(st, c, text, j);
        }
      }
    }
  }

  lemma {:induction false} SelectedSummaries(ss: seq<Summary>, s: Summary)
    ensures s in OfLevel(Visible(ss), 1) ==> s in ss && s.level == 1
  {
    VisibleMembers(ss, s);
    LevelMembers(Visible(ss), 1, s);
  }

  lemma {:induction false} VisibleMembers(ss: seq<Summary>, s: Summary)
    ensures s in Visible(ss) <==> s in ss && s.parent.None?
  {
    if ss != [] {
      VisibleMembers(ss[..|ss| - 1], s);
      assert ss == ss[..|ss| - 1] + [ss[|ss| - 1]];
    }
  }

  lemma {:induction false} LevelMembers(ss: seq<Summary>, level: nat, s: Summary)
    ensures s in OfLevel(ss, level) <==> s in ss && s.level == level
  {
    if ss != [] {
      LevelMembers(ss[..|ss| - 1], level, s);
      assert ss == ss[..|ss| - 1] + [ss[|ss| - 1]];
    }
  }

  lemma {:induction false} CoversMembers(ss: seq<Summary>, i: nat, m: Id)
    requires i < |ss| && m in ss[i].covers
    ensures m in AllCovers(ss)
  {
    if i < |ss| - 1 {
      CoversMembers(ss[..|ss| - 1], i, m);
    }
  }

  lemma SortedLevel1(st: Store, s: Summary)
    requires Numbered(st) && s in SortByStart(OfLevel(Visible(st.summaries), 1))
    ensures IsSummary(st, s.id) && SummaryBy(st, s.id) == s && s.level == 1
  {
    var level1 := OfLevel(Visible(st.summaries), 1);
    SortOrders(level1);
    assert s in multiset(SortByStart(level1));
    assert s in level1;
    SelectedSummaries(st.summaries, s);
    var j :| 0 <= j < |st.summaries| && st.summaries[j] == s;
    FoundById(st, j);
  }

  lemma CompactionIsGathered(st: Store)
    requires Numbered(st)
    ensures CompactionOf(st).Some? ==> Gathered(st, CompactionOf(st).value)
  {
    var sorted := SortByStart(OfLevel(Visible(st.summaries), 1));
    if |sorted| >= 3 {
      var older := sorted[..|sorted| - 1];
      forall id | id in SummaryIds(older)
        ensures && IsSummary(st, id) && SummaryBy(st, id).level == 1
                && forall m :: m in SummaryBy(st, id).covers ==> m in AllCovers(older)
      {
        var i :| 0 <= i < |older| && SummaryIds(older)[i] == id;
        SortedLevel1(st, sorted[i]);
        forall m | m in older[i].covers
          ensures m in AllCovers(older)
        {
          CoversMembers(older, i, m);
        }
      }
    }
  }

  lemma FallbackKeeps(u: Setup, st: Store)
    requires Lossless(st)
    ensures Lossless(Fallback(u, st)) && Grows(st, Fallback(u, st))
    ensures Lossless(AfterLevel1(u, st)) && Grows(st, AfterLevel1(u, st))
  {
    if |Active(st.messages)| > u.config.keepLastN {
      var gone := DropLast(Active(st.messages), u.config.keepLastN);
      ArchiveKeeps(st, Ids(gone), "(Deterministic fallback) " + Join(Digests(gone), " | "));
    }
  }

  lemma AnsweredEscalationKeeps(u: Setup, st: Store, ids: seq<Id>, text: string)
    requires Lossless(st)
    ensures var st' := AfterLevel1(u, TakeOver(st, ids, text)); Lossless(st') && Grows(st, st')
  {
    var st' := TakeOver(st, ids, text);
    ArchiveKeeps(st, ids, text);
    FallbackKeeps(u, st');
    GrowsOn(st, st', AfterLevel1(u, st'));
  }

  lemma EscalationEndKeeps(u: Setup, st: Store, ids: seq<Id>, c: Completion)
    requires Lossless(st)
    ensures var st' := EndEscalation(u, st, ids, c); Lossless(st') && Grows(st, st')
  {
    if c.Answer? {
      AnsweredEscalationKeeps(u, st, ids, u.sanitize(c.text));
    } else {
      FallbackKeeps(u, st);
    }
  }

  lemma GrowsOn(st: Store, st1: Store, st2: Store)
    requires Grows(st, st1) && Grows(st1, st2)
    ensures Grows(st, st2)
  {
  }

  lemma ResumeKeeps(u: Setup, st: Store, run: Run, c: Completion)
    requires Lossless(st) && RunFits(st, run)
    ensures var p := Resume(u, st, run, c); Lossless(p.store) && RunFits(p.store, p.run) && Grows(st, p.store)
  {
    match run
    case Incremental(ids) =>
      if c.Answer? {
        ArchiveKeeps(st, ids, u.sanitize(c.text));
        CompactionIsGathered(TakeOver(st, ids, u.sanitize(c.text)));
      }
    case Compacting(k) =>
      if c.Answer? {
        CompactKeeps(st, k, u.sanitize(c.text));
      }
    case Between => FallbackKeeps(u, st);
    case Escalating(ids) => EscalationEndKeeps(u, st, ids, c);
    case Done =>
  }

  lemma AppendKeeps(st: Store, role: Role, content: string)
    requires Lossless(st)
    ensures Lossless(Append(st, role, content)) && Grows(st, Append(st, role, content))
  {
    var st' := Append(st, role, content);
    forall i | 0 <= i < |st'.messages|
      ensures Kept(st', st'.messages[i])
    {
      if i < |st.messages| {
        assert Kept(st, st.messages[i]);
      }
    }
    forall j | 0 <= j < |st'.summaries|
      ensures Rooted(st', j)
    {
      assert Rooted(st, j);
    }
  }

  lemma {:induction false} HighestIsLast(ms: seq<Message>)
    requires forall i :: 0 <= i < |ms| ==> ms[i].number == i + 1
    ensures HighestMessage(ms) == |ms|
  {
    if ms != [] {
      HighestIsLast(ms[..|ms| - 1]);
    }
  }

  lemma {:induction false} HighestSummaryIsLast(ss: seq<Summary>)
    requires forall j :: 0 <= j < |ss| ==> ss[j].id == SummaryId(j + 1)
    ensures HighestSummary(ss) == |ss|
  {
    if ss != [] {
      HighestSummaryIsLast(ss[..|ss| - 1]);
      NumberReadsBack(ss[|ss| - 1].id);
    }
  }

  /** Saving and loading is a round trip: the counters worked out from the data are the ones in use. */
  lemma ReloadRestores(st: Store)
    requires Numbered(st)
    ensures Restore(st.messages, st.summaries) == st
  {
    HighestIsLast(st.messages);
    HighestSummaryIsLast(st.summaries);
  }

  lemma NextKeeps(u: Setup, x: Session, ev: Event)
    requires Sound(x)
    ensures Sound(Next(u, x, ev))
  {
    match ev
    case Arrive(role, content) =>
      AppendKeeps(x.store, role, content);
      forall r | r in x.runs
        ensures RunFits(Append(x.store, role, content), x.runs[r])
      {
        RunFitsLater(x.store, Append(x.store, role, content), x.runs[r]);
      }
    case Start(r) =>
    case Settle(r, c) =>
      if r in x.runs {
        var p := Resume(u, x.store, x.runs[r], c);
        ResumeKeeps(u, x.store, x.runs[r], c);
        forall q | q in x.runs
          ensures RunFits(p.store, x.runs[q])
        {
          RunFitsLater(x.store, p.store, x.runs[q]);
        }
      }
    case Reload => ReloadRestores(x.store);
  }

  lemma {:induction false} PlayKeeps(u: Setup, x: Session, events: seq<Event>)
    requires Sound(x)
    ensures Sound(Play(u, x, events))
  {
    if events != [] {
      PlayKeeps(u, x, events[..|events| - 1]);
      NextKeeps(u, Play(u, x, events[..|events| - 1]), events[|events| - 1]);
    }
  }

  // ---- what it means ----

  /** The summary a reader of the context sees instead of an archived message. */
  function Stand(st: Store, m: Message): Option<Summary> {
    if m.archivedBy.None? || !IsSummary(st, m.archivedBy.value) then None
    else
      var s := SummaryBy(st, m.archivedBy.value);
      if s.parent.None? then Some(s)
      else if IsSummary(st, s.parent.value) then Some(SummaryBy(st, s.parent.value))
      else None
  }

  lemma IdsAreUnique(st: Store)
    requires Numbered(st)
    ensures forall i, j :: 0 <= i < j < |st.messages| ==> st.messages[i].id != st.messages[j].id
    ensures forall i, j :: 0 <= i < j < |st.summaries| ==> st.summaries[i].id != st.summaries[j].id
  {
  }

  lemma TextsAreUnique(st: Store)
    requires Numbered(st)
    ensures forall i, j :: 0 <= i < j < |st.messages| ==> Render(st.messages[i].id) != Render(st.messages[j].id)
    ensures forall i, j :: 0 <= i < j < |st.summaries| ==> Render(st.summaries[i].id) != Render(st.summaries[j].id)
  {
    forall i, j | 0 <= i < j < |st.messages|
      ensures Render(st.messages[i].id) != Render(st.messages[j].id)
    {
      NumberReadsBack(st.messages[i].id);
      NumberReadsBack(st.messages[j].id);
    }
    forall i, j | 0 <= i < j < |st.summaries|
      ensures Render(st.summaries[i].id) != Render(st.summaries[j].id)
    {
      NumberReadsBack(st.summaries[i].id);
      NumberReadsBack(st.summaries[j].id);
    }
  }

  lemma ParentsAreNewer(st: Store)
    requires Lossless(st)
    ensures forall j :: 0 <= j < |st.summaries| && st.summaries[j].parent.Some? ==>
              exists p :: j < p < |st.summaries| && st.summaries[p].id == st.summaries[j].parent.value
  {
    forall j | 0 <= j < |st.summaries| && st.summaries[j].parent.Some?
      ensures exists p :: j < p < |st.summaries| && st.summaries[p].id == st.summaries[j].parent.value
    {
      assert Rooted(st, j);
      var p := st.summaries[j].parent.value.number - 1;
      assert st.summaries[p].id == st.summaries[j].parent.value;
    }
  }

  /**
   * What a reader can rely on: identifiers are unique, a parent is newer than its child, and
   * each message is active or, one or two links up, covered by a visible summary.
   */
  ghost predicate Remembers(st: Store) {
    && (forall i, j :: 0 <= i < j < |st.messages| ==> Render(st.messages[i].id) != Render(st.messages[j].id))
    && (forall i, j :: 0 <= i < j < |st.summaries| ==> Render(st.summaries[i].id) != Render(st.summaries[j].id))
    && (forall j :: 0 <= j < |st.summaries| && st.summaries[j].parent.Some? ==>
          exists p :: j < p < |st.summaries| && st.summaries[p].id == st.summaries[j].parent.value)
    && (forall i :: 0 <= i < |st.messages| && st.messages[i].archivedBy.Some? ==>
          var s := Stand(st, st.messages[i]);
          s.Some? && s.value in Visible(st.summaries) && st.messages[i].id in s.value.covers)
  }

  lemma LosslessRemembers(st: Store)
    requires Lossless(st)
    ensures Remembers(st)
  {
    TextsAreUnique(st);
    ParentsAreNewer(st);
    forall i | 0 <= i < |st.messages| && st.messages[i].archivedBy.Some?
      ensures var s := Stand(st, st.messages[i]);
              s.Some? && s.value in Visible(st.summaries) && st.messages[i].id in s.value.covers
    {
      MessageStands(st, i);
    }
  }

  /**
   * Lossless memory, for one handle on the data: after any events, with any number of
   * maintenance runs overlapping each other and the arrivals. A reload here ends the runs;
   * LcmHandles is about runs and turns that outlive one.
   */
  lemma MemoryIsLossless(u: Setup, events: seq<Event>)
    ensures Remembers(Play(u, START, events).store)
  {
    PlayKeeps(u, START, events);
    LosslessRemembers(Play(u, START, events).store);
  }

  lemma MessageStands(st: Store, i: nat)
    requires Lossless(st) && i < |st.messages| && st.messages[i].archivedBy.Some?
    ensures var s := Stand(st, st.messages[i]);
            s.Some? && s.value in Visible(st.summaries) && st.messages[i].id in s.value.covers
  {
    assert Kept(st, st.messages[i]);
    var j := st.messages[i].archivedBy.value.number - 1;
    assert Rooted(st, j);
    var s := Stand(st, st.messages[i]).value;
    VisibleMembers(st.summaries, s);
  }
}
