/**
 * With one maintenance run at a time, the archived messages are a prefix of the log and the
 * visible summaries tile it: adjacent intervals, level 2 before level 1.
 */
module LcmIntervals {
  import opened Outcomes
  import opened LcmStore
  import opened LcmContext
  import opened LcmMaintenance
  import opened LcmLossless
  import opened LcmWorkingSet

  /** The identifiers of messages lo + 1 to hi. */
  function Span(lo: nat, hi: nat): seq<Id>
    requires lo <= hi
  {
    seq(hi - lo, i requires 0 <= i < hi - lo => MessageId(lo + i + 1))
  }

  /** The summaries cover lo + 1 to hi in adjacent intervals, each listing exactly its messages. */
  ghost predicate Tiles(ss: seq<Summary>, lo: nat, hi: nat) {
    if ss == [] then lo == hi
    else
      var last := ss[|ss| - 1];
      && lo < last.lo <= last.hi == hi
      && last.covers == Span(last.lo - 1, hi)
      && Tiles(ss[..|ss| - 1], lo, last.lo - 1)
  }

  function Level1(st: Store): seq<Summary> {
    OfLevel(Visible(st.summaries), 1)
  }

  function Level2(st: Store): seq<Summary> {
    OfLevel(Visible(st.summaries), 2)
  }

  /** The first a messages are archived, no other is, and the visible summaries tile them. */
  ghost predicate Arranged(st: Store, a: nat) {
    && Numbered(st)
    && a <= |st.messages|
    && (forall i :: 0 <= i < |st.messages| ==> (st.messages[i].archivedBy.None? <==> a <= i))
    && (forall j :: 0 <= j < |st.summaries| ==> st.summaries[j].level == 1 || st.summaries[j].level == 2)
    && Tiles(Level2(st) + Level1(st), 0, a)
  }

  // ---- tiles ----

  lemma {:induction false} TilesJoin(x: seq<Summary>, y: seq<Summary>, lo: nat, mid: nat, hi: nat)
    requires Tiles(x, lo, mid) && Tiles(y, mid, hi)
    ensures Tiles(x + y, lo, hi)
  {
    if y == [] {
      assert x + y == x;
    } else {
      TilesJoin(x, y[..|y| - 1], lo, mid, y[|y| - 1].lo - 1);
      assert (x + y)[..|x + y| - 1] == x + y[..|y| - 1];
    }
  }

  lemma {:induction false} TilesSplit(x: seq<Summary>, y: seq<Summary>, lo: nat, hi: nat)
    requires Tiles(x + y, lo, hi) && y != []
    ensures lo < y[0].lo && Tiles(x, lo, y[0].lo - 1) && Tiles(y, y[0].lo - 1, hi)
    decreases |y|
  {
    var front, last := y[..|y| - 1], y[|y| - 1];
    assert (x + y)[..|x + y| - 1] == x + front && (x + y)[|x + y| - 1] == last;
    if front == [] {
      assert x + front == x;
    } else {
      TilesSplit(x, front, lo, last.lo - 1);
    }
  }

  lemma {:induction false} TilesSpan(ss: seq<Summary>, lo: nat, hi: nat)
    requires Tiles(ss, lo, hi)
    ensures lo <= hi && AllCovers(ss) == Span(lo, hi) && (ss != [] ==> lo < hi)
  {
    if ss != [] {
      var last := ss[|ss| - 1];
      TilesSpan(ss[..|ss| - 1], lo, last.lo - 1);
      assert Span(lo, last.lo - 1) + Span(last.lo - 1, hi) == Span(lo, hi);
    }
  }

  lemma {:induction false} TilesInOrder(ss: seq<Summary>, lo: nat, hi: nat)
    requires Tiles(ss, lo, hi)
    ensures StartsInOrder(ss) && forall i :: 0 <= i < |ss| ==> ss[i].lo <= hi
  {
    if ss != [] {
      TilesInOrder(ss[..|ss| - 1], lo, ss[|ss| - 1].lo - 1);
    }
  }

  /** Different summaries of a tiling never cover a message in common. */
  lemma {:induction false} TilesAreDisjoint(ss: seq<Summary>, lo: nat, hi: nat, i: nat, j: nat)
    requires Tiles(ss, lo, hi) && i < j < |ss|
    ensures ss[i].hi < ss[j].lo
  {
    var front, last := ss[..|ss| - 1], ss[|ss| - 1];
    if j == |front| {
      TilesEnds(front, lo, last.lo - 1, i);
    } else {
      TilesAreDisjoint(front, lo, last.lo - 1, i, j);
    }
  }

  lemma {:induction false} TilesEnds(ss: seq<Summary>, lo: nat, hi: nat, i: nat)
    requires Tiles(ss, lo, hi) && i < |ss|
    ensures ss[i].hi <= hi
  {
    if i < |ss| - 1 {
      TilesEnds(ss[..|ss| - 1], lo, ss[|ss| - 1].lo - 1, i);
    }
  }

  // ---- the range a new summary gets ----

  lemma {:induction false} NumberFound(ms: seq<Message>, i: nat)
    requires i < |ms| && forall k :: 0 <= k < i ==> ms[k].id != ms[i].id
    ensures NumberOf(ms, ms[i].id) == Some(ms[i].number)
  {
    if i > 0 {
      assert ms[1..][i - 1] == ms[i];
      NumberFound(ms[1..], i - 1);
    }
  }

  lemma NumberOfSpan(st: Store, n: nat)
    requires Numbered(st) && 1 <= n <= |st.messages|
    ensures NumberOf(st.messages, MessageId(n)) == Some(n)
  {
    IdsAreUnique(st);
    NumberFound(st.messages, n - 1);
  }

  lemma {:induction false} SpanRange(st: Store, lo: nat, hi: nat)
    requires Numbered(st) && lo < hi <= |st.messages|
    ensures var ns := Numbers(st.messages, Span(lo, hi));
            ns != [] && Least(ns) == lo + 1 && Greatest(ns) == hi
  {
    var ids := Span(lo, hi);
    assert ids[..|ids| - 1] == Span(lo, hi - 1);
    NumberOfSpan(st, hi);
    var ns := Numbers(st.messages, ids);
    if lo + 1 < hi {
      SpanRange(st, lo, hi - 1);
      assert ns[..|ns| - 1] == Numbers(st.messages, Span(lo, hi - 1));
    } else {
      assert Numbers(st.messages, []) == [];
      assert ns == [hi];
    }
  }

  // ---- a summary takes over the oldest active messages ----

  lemma {:induction false} ActiveSuffix(ms: seq<Message>, a: nat)
    requires a <= |ms| && forall i :: 0 <= i < |ms| ==> (ms[i].archivedBy.None? <==> a <= i)
    ensures Active(ms) == ms[a..]
  {
    if ms != [] {
      ActiveSuffix(ms[..|ms| - 1], if a < |ms| then a else |ms| - 1);
    }
  }

  lemma OldestSpan(st: Store, a: nat, p: nat)
    requires Arranged(st, a) && a + p <= |st.messages|
    ensures p <= |Active(st.messages)| == |st.messages| - a
    ensures Ids(Active(st.messages)[..p]) == Span(a, a + p)
  {
    ActiveSuffix(st.messages, a);
  }

  lemma InSpan(lo: nat, hi: nat, n: nat)
    requires lo <= hi
    ensures MessageId(n) in Span(lo, hi) <==> lo < n <= hi
  {
    if lo < n <= hi {
      assert Span(lo, hi)[n - lo - 1] == MessageId(n);
    } else {
      forall i | 0 <= i < |Span(lo, hi)|
        ensures Span(lo, hi)[i] != MessageId(n)
      {
      }
    }
  }

  lemma NewSummaryIsVisible(ss: seq<Summary>, s: Summary, level: nat)
    requires s.parent.None?
    ensures OfLevel(Visible(ss + [s]), level) == OfLevel(Visible(ss), level) + if s.level == level then [s] else []
  {
    assert (ss + [s])[..|ss|] == ss;
    var v := Visible(ss);
    assert (v + [s])[..|v|] == v;
  }

  /** One more tile at the end. */
  lemma TilesSnoc(ss: seq<Summary>, s: Summary, lo: nat, mid: nat, hi: nat)
    requires Tiles(ss, lo, mid) && mid < hi && lo <= mid
    requires s.lo == mid + 1 && s.hi == hi && s.covers == Span(mid, hi)
    ensures Tiles(ss + [s], lo, hi)
  {
    assert (ss + [s])[..|ss|] == ss;
  }

  /** A summary of the messages a + 1 to b spans just them. */
  lemma NewSummarySpans(st: Store, a: nat, b: nat, text: string)
    requires Numbered(st) && a < b <= |st.messages|
    ensures var s := NewSummary(st, 1, Span(a, b), text);
            s.lo == a + 1 && s.hi == b && s.covers == Span(a, b) && s.level == 1 && s.parent.None?
  {
    SpanRange(st, a, b);
  }

  lemma TakeOverLevels(st: Store, ids: seq<Id>, text: string)
    ensures var st', s := TakeOver(st, ids, text), NewSummary(st, 1, ids, text);
            Level2(st') == Level2(st) && Level1(st') == Level1(st) + [s]
  {
    var s := NewSummary(st, 1, ids, text);
    NewSummaryIsVisible(st.summaries, s, 1);
    NewSummaryIsVisible(st.summaries, s, 2);
  }

  lemma Regroup(x: seq<Summary>, y: seq<Summary>, s: Summary)
    ensures x + (y + [s]) == (x + y) + [s]
  {
  }

  lemma TakeOverTiles(st: Store, a: nat, b: nat, text: string)
    requires Arranged(st, a) && a < b <= |st.messages|
    ensures var st' := TakeOver(st, Span(a, b), text);
            Tiles(Level2(st') + Level1(st'), 0, b)
  {
    var s := NewSummary(st, 1, Span(a, b), text);
    NewSummarySpans(st, a, b, text);
    TakeOverLevels(st, Span(a, b), text);
    TilesSnoc(Level2(st) + Level1(st), s, 0, a, b);
    Regroup(Level2(st), Level1(st), s);
  }

  lemma TakeOverArranges(st: Store, a: nat, b: nat, text: string)
    requires Arranged(st, a) && a < b <= |st.messages|
    ensures Arranged(TakeOver(st, Span(a, b), text), b)
    ensures TakeOver(st, Span(a, b), text).messages == Archive(st.messages, Span(a, b), SummaryId(st.nextSummary))
  {
    var st' := TakeOver(st, Span(a, b), text);
    TakeOverNumbers(st, Span(a, b), text);
    TakeOverTiles(st, a, b, text);
    forall i | 0 <= i < |st'.messages|
      ensures st'.messages[i].archivedBy.None? <==> b <= i
    {
      InSpan(a, b, i + 1);
    }
  }

  // ---- level-1 summaries are absorbed into one of level 2 ----

  function Keeping(ss: seq<Summary>, ids: seq<Id>): seq<Summary> {
    if ss == [] then []
    else
      var front := Keeping(ss[..|ss| - 1], ids);
      if ss[|ss| - 1].id in ids then front else front + [ss[|ss| - 1]]
  }

  lemma {:induction false} VisibleAfterConsume(ss: seq<Summary>, ids: seq<Id>, parent: Id)
    ensures Visible(Consume(ss, ids, parent)) == Keeping(Visible(ss), ids)
  {
    if ss != [] {
      VisibleAfterConsume(ss[..|ss| - 1], ids, parent);
      assert Consume(ss, ids, parent)[..|ss| - 1] == Consume(ss[..|ss| - 1], ids, parent);
    }
  }

  lemma {:induction false} LevelOfKeeping(ss: seq<Summary>, ids: seq<Id>, level: nat)
    ensures OfLevel(Keeping(ss, ids), level) == Keeping(OfLevel(ss, level), ids)
  {
    if ss != [] {
      var front := ss[..|ss| - 1];
      LevelOfKeeping(front, ids, level);
      var k := Keeping(front, ids);
      assert (k + [ss[|ss| - 1]])[..|k|] == k;
    }
  }

  lemma {:induction false} KeepingSuffix(ss: seq<Summary>, ids: seq<Id>, p: nat)
    requires p <= |ss| && forall i :: 0 <= i < |ss| ==> (ss[i].id in ids <==> i < p)
    ensures Keeping(ss, ids) == ss[p..]
  {
    if ss != [] {
      KeepingSuffix(ss[..|ss| - 1], ids, if p < |ss| then p else |ss| - 1);
    }
  }

  ghost predicate DistinctSummaries(ss: seq<Summary>) {
    forall i, j :: 0 <= i < j < |ss| ==> ss[i].id != ss[j].id
  }

  lemma {:induction false} VisibleDistinct(ss: seq<Summary>)
    requires DistinctSummaries(ss)
    ensures DistinctSummaries(Visible(ss))
  {
    if ss != [] {
      var front, last := ss[..|ss| - 1], ss[|ss| - 1];
      VisibleDistinct(front);
      forall s | s in Visible(front)
        ensures s.id != last.id
      {
        VisibleMembers(front, s);
      }
    }
  }

  lemma {:induction false} LevelDistinct(ss: seq<Summary>, level: nat)
    requires DistinctSummaries(ss)
    ensures DistinctSummaries(OfLevel(ss, level))
  {
    if ss != [] {
      var front, last := ss[..|ss| - 1], ss[|ss| - 1];
      LevelDistinct(front, level);
      forall s | s in OfLevel(front, level)
        ensures s.id != last.id
      {
        LevelMembers(front, level, s);
      }
    }
  }

  lemma LevelsHaveDistinctIds(st: Store, s: Summary, t: Summary)
    requires Numbered(st) && s in Level1(st) && t in Level2(st)
    ensures s.id != t.id
  {
    var v := Visible(st.summaries);
    LevelMembers(v, 1, s);
    LevelMembers(v, 2, t);
    IdsAreUnique(st);
    VisibleDistinct(st.summaries);
    var i :| 0 <= i < |v| && v[i] == s;
    var j :| 0 <= j < |v| && v[j] == t;
    assert i != j;
  }

  /** The compaction a run computes: with the tiles in order, sorting changes nothing. */
  lemma CompactionOfArranged(st: Store, a: nat)
    requires Arranged(st, a)
    ensures var l1 := Level1(st);
            CompactionOf(st) == if |l1| < 3 then None
                                else Some(Compaction(SummaryIds(l1[..|l1| - 1]), AllCovers(l1[..|l1| - 1])))
  {
    var l1 := Level1(st);
    if l1 != [] {
      TilesSplit(Level2(st), l1, 0, a);
      TilesInOrder(l1, l1[0].lo - 1, a);
      SortOrders(l1);
    }
  }

  ghost predicate Due(st: Store, c: Compaction) {
    var l1 := Level1(st);
    |l1| >= 3 && c == Compaction(SummaryIds(l1[..|l1| - 1]), AllCovers(l1[..|l1| - 1]))
  }

  lemma CompactLevels(st: Store, c: Compaction, text: string)
    requires Numbered(st) && Due(st, c)
    ensures var st', l1 := Compact(st, c, text), Level1(st);
            && Level2(st') == Level2(st) + [NewSummary(st, 2, c.covers, text)]
            && Level1(st') == [l1[|l1| - 1]]
  {
    var s := NewSummary(st, 2, c.covers, text);
    var grown := st.summaries + [s];
    var l1, l2 := Level1(st), Level2(st);
    NewSummaryIsVisible(st.summaries, s, 1);
    NewSummaryIsVisible(st.summaries, s, 2);
    VisibleAfterConsume(grown, c.nodes, s.id);
    LevelOfKeeping(Visible(grown), c.nodes, 1);
    LevelOfKeeping(Visible(grown), c.nodes, 2);
    Level1Absorbed(st, c);
    KeepingSuffix(l1, c.nodes, |l1| - 1);
    Level2Untouched(st, c, text);
    KeepingSuffix(l2 + [s], c.nodes, 0);
    assert l1[|l1| - 1..] == [l1[|l1| - 1]];
  }

  lemma Level1Absorbed(st: Store, c: Compaction)
    requires Numbered(st) && Due(st, c)
    ensures forall i :: 0 <= i < |Level1(st)| ==> (Level1(st)[i].id in c.nodes <==> i < |Level1(st)| - 1)
  {
    var l1 := Level1(st);
    IdsAreUnique(st);
    VisibleDistinct(st.summaries);
    LevelDistinct(Visible(st.summaries), 1);
    forall i | 0 <= i < |l1|
      ensures l1[i].id in c.nodes <==> i < |l1| - 1
    {
      if i < |l1| - 1 {
        assert c.nodes[i] == l1[i].id;
      }
    }
  }

  lemma Level2Untouched(st: Store, c: Compaction, text: string)
    requires Numbered(st) && Due(st, c)
    ensures var l := Level2(st) + [NewSummary(st, 2, c.covers, text)];
            forall i :: 0 <= i < |l| ==> l[i].id !in c.nodes
  {
    var l1, l2 := Level1(st), Level2(st);
    forall id | id in c.nodes
      ensures id != SummaryId(st.nextSummary) && forall i :: 0 <= i < |l2| ==> l2[i].id != id
    {
      var k :| 0 <= k < |l1| - 1 && l1[k].id == id;
      NodeIsOld(st, l1[k]);
      forall i | 0 <= i < |l2|
        ensures l2[i].id != id
      {
        LevelsHaveDistinctIds(st, l1[k], l2[i]);
      }
    }
  }

  lemma NodeIsOld(st: Store, s: Summary)
    requires Numbered(st) && s in Level1(st)
    ensures s.id != SummaryId(st.nextSummary)
  {
    SelectedSummaries(st.summaries, s);
    var j :| 0 <= j < |st.summaries| && st.summaries[j] == s;
  }

  /** Replacing all level-1 tiles but the last by one tile over the same span still tiles. */
  lemma Retile(l2: seq<Summary>, l1: seq<Summary>, s: Summary, a: nat)
    requires |l1| >= 2 && Tiles(l2 + l1, 0, a)
    requires var last := l1[|l1| - 1];
             s.lo == l1[0].lo && s.hi == last.lo - 1 && 1 <= s.lo <= s.hi && s.covers == Span(s.lo - 1, s.hi)
    ensures Tiles((l2 + [s]) + [l1[|l1| - 1]], 0, a)
  {
    var last := l1[|l1| - 1];
    TilesSplit(l2, l1, 0, a);
    TileOne(s, s.lo - 1, s.hi);
    TilesJoin(l2, [s], 0, s.lo - 1, s.hi);
    TileOne(last, s.hi, a);
    TilesJoin(l2 + [s], [last], 0, s.hi, a);
  }

  lemma SpanSummary(st: Store, level: nat, lo: nat, hi: nat, covers: seq<Id>, text: string)
    requires Numbered(st) && lo < hi <= |st.messages| && covers == Span(lo, hi)
    ensures var s := NewSummary(st, level, covers, text); s.lo == lo + 1 && s.hi == hi && s.covers == covers
  {
    SpanRange(st, lo, hi);
  }

  lemma DueSpan(l2: seq<Summary>, l1: seq<Summary>, a: nat)
    requires |l1| >= 2 && Tiles(l2 + l1, 0, a)
    ensures var last := l1[|l1| - 1];
            1 <= l1[0].lo < last.lo <= a && AllCovers(l1[..|l1| - 1]) == Span(l1[0].lo - 1, last.lo - 1)
  {
    TilesSplit(l2, l1, 0, a);
    FrontSpan(l1, l1[0].lo - 1, a);
  }

  /** The summary that absorbs them spans exactly what they spanned, so the tiling survives. */
  lemma AbsorberFits(st: Store, l2: seq<Summary>, l1: seq<Summary>, a: nat, covers: seq<Id>, text: string)
    requires Numbered(st) && |l1| >= 2 && Tiles(l2 + l1, 0, a) && a <= |st.messages|
    requires covers == AllCovers(l1[..|l1| - 1])
    ensures Tiles((l2 + [NewSummary(st, 2, covers, text)]) + [l1[|l1| - 1]], 0, a)
  {
    DueSpan(l2, l1, a);
    SpanSummary(st, 2, l1[0].lo - 1, l1[|l1| - 1].lo - 1, covers, text);
    var s := NewSummary(st, 2, covers, text);
    Retile(l2, l1, s, a);
  }

  lemma FrontSpan(l1: seq<Summary>, lo: nat, hi: nat)
    requires |l1| >= 2 && Tiles(l1, lo, hi)
    ensures var last := l1[|l1| - 1];
            lo < last.lo - 1 && last.lo - 1 <= hi && AllCovers(l1[..|l1| - 1]) == Span(lo, last.lo - 1)
  {
    TilesSpan(l1[..|l1| - 1], lo, l1[|l1| - 1].lo - 1);
  }

  lemma CompactTiles(st: Store, a: nat, c: Compaction, text: string)
    requires Arranged(st, a) && Due(st, c)
    ensures var st' := Compact(st, c, text); Tiles(Level2(st') + Level1(st'), 0, a)
  {
    CompactLevels(st, c, text);
    AbsorberFits(st, Level2(st), Level1(st), a, c.covers, text);
  }

  lemma TileOne(s: Summary, lo: nat, hi: nat)
    requires lo < hi && s.lo == lo + 1 && s.hi == hi && s.covers == Span(lo, hi)
    ensures Tiles([s], lo, hi)
  {
    assert [s][..0] == [];
    assert Tiles([], lo, lo);
  }

  lemma CompactArranges(st: Store, a: nat, c: Compaction, text: string)
    requires Arranged(st, a) && Due(st, c)
    ensures Arranged(Compact(st, c, text), a)
  {
    CompactTiles(st, a, c, text);
    CompactNumbersAnyway(st, c, text);
  }

  // ---- whole histories, one run at a time ----

  /** A run starts only when none is in flight. */
  function NextAlone(u: Setup, x: Session, ev: Event): Session {
    if ev.Start? && x.runs != map[] then x else Next(u, x, ev)
  }

  function PlayAlone(u: Setup, events: seq<Event>): Session {
    if events == [] then START else NextAlone(u, PlayAlone(u, events[..|events| - 1]), events[|events| - 1])
  }

  /** What a waiting run remembers still describes the store. */
  ghost predicate Current(st: Store, a: nat, run: Run) {
    match run
    case Incremental(ids) => ids != [] && a + |ids| <= |st.messages| && ids == Span(a, a + |ids|)
    case Escalating(ids) => ids != [] && a + |ids| <= |st.messages| && ids == Span(a, a + |ids|)
    case Compacting(c) => Due(st, c)
    case _ => true
  }

  ghost predicate Orderly(u: Setup, x: Session, a: nat) {
    && Arranged(x.store, a)
    && (forall r :: r in x.runs ==> Current(x.store, a, x.runs[r]))
    && (forall r, q :: r in x.runs && q in x.runs ==> r == q)
  }

  ghost predicate Sensible(u: Setup) {
    u.config.keepLastN >= 1 && u.config.chunkSize >= 1
  }

  lemma DroppedSpan(u: Setup, st: Store, a: nat) returns (p: nat)
    requires Sensible(u) && Arranged(st, a)
    ensures p == (if |st.messages| - a <= u.config.keepLastN then 0 else |st.messages| - a - u.config.keepLastN)
    ensures |Active(st.messages)| == |st.messages| - a
    ensures a + p <= |st.messages| && Ids(DropLast(Active(st.messages), u.config.keepLastN)) == Span(a, a + p)
  {
    var active, n := Active(st.messages), u.config.keepLastN;
    ActiveSuffix(st.messages, a);
    p := if |active| <= n then 0 else |active| - n;
    OldestSpan(st, a, p);
    assert DropLast(active, n) == active[..p];
  }

  lemma FallbackArranges(u: Setup, st: Store, a: nat) returns (b: nat)
    requires Sensible(u) && Arranged(st, a)
    ensures Arranged(Fallback(u, st), b)
  {
    var p := DroppedSpan(u, st, a);
    b := a + p;
    if p > 0 {
      var gone := DropLast(Active(st.messages), u.config.keepLastN);
      TakeOverArranges(st, a, b, "(Deterministic fallback) " + Join(Digests(gone), " | "));
    }
  }

  lemma AfterLevel1Arranges(u: Setup, st: Store, a: nat) returns (b: nat)
    requires Sensible(u) && Arranged(st, a)
    ensures Arranged(AfterLevel1(u, st), b)
  {
    if ContextTokens(u, st) < u.config.hardThreshold {
      b := a;
    } else {
      b := FallbackArranges(u, st, a);
    }
  }

  lemma EscalateArranges(u: Setup, st: Store, a: nat) returns (b: nat)
    requires Sensible(u) && Arranged(st, a)
    ensures var p := Escalate(u, st); Arranged(p.store, b) && Current(p.store, b, p.run)
  {
    b := a;
    if ContextTokens(u, st) >= u.config.softThreshold {
      var p := DroppedSpan(u, st, a);
      if p < 2 {
        b := AfterLevel1Arranges(u, st, a);
      }
    }
  }

  lemma EscalationEndArranges(u: Setup, st: Store, a: nat, ids: seq<Id>, c: Completion) returns (b: nat)
    requires Sensible(u) && Arranged(st, a) && Current(st, a, Escalating(ids))
    ensures Arranged(EndEscalation(u, st, ids, c), b)
  {
    match c {
      case Failed => b := FallbackArranges(u, st, a);
      case Empty => b := AfterLevel1Arranges(u, st, a);
      case Answer(text) =>
        TakeOverArranges(st, a, a + |ids|, u.sanitize(text));
        b := AfterLevel1Arranges(u, TakeOver(st, ids, u.sanitize(text)), a + |ids|);
    }
  }

  lemma ResumeArranges(u: Setup, st: Store, a: nat, run: Run, c: Completion) returns (b: nat)
    requires Sensible(u) && Arranged(st, a) && Current(st, a, run)
    ensures var p := Resume(u, st, run, c); Arranged(p.store, b) && Current(p.store, b, p.run)
  {
    b := a;
    match run {
      case Incremental(ids) =>
        if c.Answer? {
          b := a + |ids|;
          TakeOverArranges(st, a, b, u.sanitize(c.text));
          CompactionOfArranged(TakeOver(st, ids, u.sanitize(c.text)), b);
        }
      case Compacting(k) =>
        if c.Answer? {
          CompactArranges(st, a, k, u.sanitize(c.text));
        }
      case Between => b := EscalateArranges(u, st, a);
      case Escalating(ids) => b := EscalationEndArranges(u, st, a, ids, c);
      case Done =>
    }
  }

  lemma BeginIsCurrent(u: Setup, st: Store, a: nat)
    requires Sensible(u) && Arranged(st, a)
    ensures Current(st, a, Begin(u, st))
  {
    if ChunkOf(u.config, st).Some? {
      ActiveSuffix(st.messages, a);
      OldestSpan(st, a, u.config.chunkSize);
    }
  }

  lemma NextAloneOrderly(u: Setup, x: Session, a: nat, ev: Event) returns (b: nat)
    requires Sensible(u) && Orderly(u, x, a)
    ensures Orderly(u, NextAlone(u, x, ev), b)
  {
    b := a;
    match ev {
      case Arrive(role, content) => ArrivalOrderly(u, x, a, role, content);
      case Start(r) =>
        if x.runs == map[] {
          BeginIsCurrent(u, x.store, a);
        }
      case Settle(r, c) =>
        if r in x.runs {
          b := ResumeArranges(u, x.store, a, x.runs[r], c);
          SettledOrderly(u, x, b, r, c);
        }
      case Reload => ReloadRestores(x.store);
    }
  }

  lemma ArrivalOrderly(u: Setup, x: Session, a: nat, role: Role, content: string)
    requires Orderly(u, x, a)
    ensures Orderly(u, x.(store := Append(x.store, role, content)), a)
  {
    var st' := Append(x.store, role, content);
    assert Arranged(st', a);
    forall r | r in x.runs
      ensures Current(st', a, x.runs[r])
    {
      assert Current(x.store, a, x.runs[r]);
    }
  }

  lemma SettledOrderly(u: Setup, x: Session, b: nat, r: nat, c: Completion)
    requires r in x.runs && forall q :: q in x.runs ==> q == r
    requires var p := Resume(u, x.store, x.runs[r], c); Arranged(p.store, b) && Current(p.store, b, p.run)
    ensures Orderly(u, Next(u, x, Settle(r, c)), b)
  {
  }

  /**
   * With at most one run in flight, and messages still arriving at any moment: the active
   * messages are a suffix of the log, and the visible summaries, level 2 before level 1, are
   * adjacent intervals covering exactly the archived prefix.
   */
  lemma {:induction false} SerialRunsTileTheLog(u: Setup, events: seq<Event>) returns (a: nat)
    requires Sensible(u)
    ensures Orderly(u, PlayAlone(u, events), a)
    ensures Active(PlayAlone(u, events).store.messages) == PlayAlone(u, events).store.messages[a..]
  {
    if events == [] {
      a := 0;
      assert Tiles([], 0, 0);
      assert Level2(EMPTY) + Level1(EMPTY) == [];
    } else {
      var before := SerialRunsTileTheLog(u, events[..|events| - 1]);
      a := NextAloneOrderly(u, PlayAlone(u, events[..|events| - 1]), before, events[|events| - 1]);
    }
    ActiveSuffix(PlayAlone(u, events).store.messages, a);
  }
}
