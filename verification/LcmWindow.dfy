/**
 * What the assembled window says: which summaries it shows and how, whose words its turns carry,
 * and how its size decides what maintenance does next.
 */
module LcmWindow {
  import opened Numerals
  import opened LcmStore
  import opened LcmContext
  import opened LcmMaintenance
  import opened LcmWorkingSet

  // ---- joining ----

  /** Joining puts the separator between neighbours and nowhere else. */
  lemma {:induction false} JoinConcat(a: seq<string>, b: seq<string>, sep: string)
    requires a != [] && b != []
    ensures Join(a + b, sep) == Join(a, sep) + sep + Join(b, sep)
    ensures forall s :: Join([s], sep) == s
  {
    var front, last := b[..|b| - 1], b[|b| - 1];
    assert (a + b)[..|a + b| - 1] == a + front;
    if front == [] {
      assert a + front == a;
    } else {
      JoinConcat(a, front, sep);
      assert Join(a, sep) + sep + Join(front, sep) + sep + last == Join(a, sep) + sep + (Join(front, sep) + sep + last);
    }
  }

  // ---- the summaries, in the order in which they are shown ----

  /** The places of the visible summaries, by range start and, for one start, by age. */
  ghost predicate InOrderOfStart(ss: seq<Summary>, order: seq<nat>) {
    && (forall i :: 0 <= i < |order| ==> order[i] < |ss| && ss[order[i]].parent.None?)
    && (forall k :: 0 <= k < |ss| && ss[k].parent.None? ==> k in order)
    && forall i, j :: 0 <= i < j < |order| ==> Before(ss, order[i], order[j])
  }

  predicate Before(ss: seq<Summary>, a: nat, b: nat) {
    a < |ss| && b < |ss| && (ss[a].lo < ss[b].lo || (ss[a].lo == ss[b].lo && a < b))
  }

  function Pick(ss: seq<Summary>, order: seq<nat>): seq<Summary>
    requires forall i :: 0 <= i < |order| ==> order[i] < |ss|
  {
    seq(|order|, i requires 0 <= i < |order| => ss[order[i]])
  }

  ghost predicate Ordered(ss: seq<Summary>, order: seq<nat>, n: nat) {
    && n <= |ss|
    && (forall i :: 0 <= i < |order| ==> order[i] < n && ss[order[i]].parent.None?)
    && (forall k :: 0 <= k < n && ss[k].parent.None? ==> k in order)
    && Ascending(ss, order)
  }

  ghost predicate Ascending(ss: seq<Summary>, order: seq<nat>) {
    forall i, j :: 0 <= i < j < |order| ==> Before(ss, order[i], order[j])
  }

  lemma BeforeThrough(ss: seq<Summary>, a: nat, b: nat, c: nat)
    requires Before(ss, a, b) && Before(ss, b, c)
    ensures Before(ss, a, c)
  {
  }

  /** A later place goes last when nothing starts after it. */
  lemma AscendingMore(ss: seq<Summary>, order: seq<nat>, n: nat)
    requires Ascending(ss, order) && n < |ss| && (order != [] ==> Before(ss, order[|order| - 1], n))
    ensures Ascending(ss, order + [n])
  {
    if order != [] {
      forall i | 0 <= i < |order|
        ensures Before(ss, order[i], n)
      {
        if i < |order| - 1 {
          BeforeThrough(ss, order[i], order[|order| - 1], n);
        }
      }
    }
  }

  lemma PickMore(ss: seq<Summary>, order: seq<nat>, n: nat)
    requires n < |ss| && forall i :: 0 <= i < |order| ==> order[i] < |ss|
    ensures Pick(ss, order + [n]) == Pick(ss, order) + [ss[n]]
  {
  }

  lemma InsertBeforeLast(ss: seq<Summary>, last: Summary, s: Summary)
    ensures InsertByStart(ss + [last], s)
         == if last.lo <= s.lo then ss + [last] + [s] else InsertByStart(ss, s) + [last]
  {
    assert (ss + [last])[..|ss|] == ss;
  }

  /** Where the n-th summary goes among the places before it. */
  function Placed(ss: seq<Summary>, order: seq<nat>, n: nat): (r: seq<nat>)
    requires n < |ss| && forall i :: 0 <= i < |order| ==> order[i] < |ss|
    ensures forall i :: 0 <= i < |r| ==> r[i] < |ss|
  {
    if order == [] || ss[order[|order| - 1]].lo <= ss[n].lo then order + [n]
    else Placed(ss, order[..|order| - 1], n) + [order[|order| - 1]]
  }

  lemma {:induction false} PlacedMembers(ss: seq<Summary>, order: seq<nat>, n: nat, k: nat)
    requires n < |ss| && forall i :: 0 <= i < |order| ==> order[i] < |ss|
    ensures k in Placed(ss, order, n) <==> k in order || k == n
  {
    if !(order == [] || ss[order[|order| - 1]].lo <= ss[n].lo) {
      PlacedMembers(ss, order[..|order| - 1], n, k);
      assert order == order[..|order| - 1] + [order[|order| - 1]];
    }
  }

  lemma {:induction false} PlacedAscends(ss: seq<Summary>, order: seq<nat>, n: nat)
    requires n < |ss| && (forall i :: 0 <= i < |order| ==> order[i] < n) && Ascending(ss, order)
    ensures var more := Placed(ss, order, n);
            && Ascending(ss, more) && more != []
            && (more[|more| - 1] == n || (order != [] && more[|more| - 1] == order[|order| - 1]))
  {
    if order == [] || ss[order[|order| - 1]].lo <= ss[n].lo {
      AscendingMore(ss, order, n);
    } else {
      var front, last := order[..|order| - 1], order[|order| - 1];
      PlacedAscends(ss, front, n);
      AscendingMore(ss, Placed(ss, front, n), last);
    }
  }

  lemma {:induction false} PlacedPicks(ss: seq<Summary>, order: seq<nat>, n: nat)
    requires n < |ss| && forall i :: 0 <= i < |order| ==> order[i] < |ss|
    ensures Pick(ss, Placed(ss, order, n)) == InsertByStart(Pick(ss, order), ss[n])
  {
    if order == [] {
      PickMore(ss, [], n);
    } else {
      var front, last := order[..|order| - 1], order[|order| - 1];
      assert order == front + [last];
      if ss[last].lo > ss[n].lo {
        PlacedPicks(ss, front, n);
      }
      PlacedPicksStep(ss, front, last, n);
    }
  }

  lemma PlacedPicksStep(ss: seq<Summary>, front: seq<nat>, last: nat, n: nat)
    requires n < |ss| && last < |ss| && forall i :: 0 <= i < |front| ==> front[i] < |ss|
    requires ss[last].lo > ss[n].lo ==> Pick(ss, Placed(ss, front, n)) == InsertByStart(Pick(ss, front), ss[n])
    ensures Pick(ss, Placed(ss, front + [last], n)) == InsertByStart(Pick(ss, front + [last]), ss[n])
  {
    PickMore(ss, front, last);
    InsertBeforeLast(Pick(ss, front), ss[last], ss[n]);
    assert (front + [last])[..|front|] == front;
    if ss[last].lo <= ss[n].lo {
      PickMore(ss, front + [last], n);
    } else {
      PickMore(ss, Placed(ss, front, n), last);
    }
  }

  lemma VisibleMore(ss: seq<Summary>, n: nat)
    requires n < |ss|
    ensures Visible(ss[..n + 1]) == Visible(ss[..n]) + if ss[n].parent.None? then [ss[n]] else []
  {
    assert ss[..n + 1][..n] == ss[..n];
  }

  lemma SortMore(ss: seq<Summary>, s: Summary)
    ensures SortByStart(ss + [s]) == InsertByStart(SortByStart(ss), s)
  {
    assert (ss + [s])[..|ss|] == ss;
  }

  lemma OrderedMore(ss: seq<Summary>, order: seq<nat>, n: nat)
    requires n < |ss| && Ordered(ss, order, n) && ss[n].parent.None?
    ensures Ordered(ss, Placed(ss, order, n), n + 1)
  {
    var more := Placed(ss, order, n);
    PlacedAscends(ss, order, n);
    forall k: nat
      ensures k in more <==> k in order || k == n
    {
      PlacedMembers(ss, order, n, k);
    }
    forall i | 0 <= i < |more|
      ensures more[i] < n + 1 && ss[more[i]].parent.None?
    {
      assert more[i] in more;
    }
  }

  lemma OrderedSkip(ss: seq<Summary>, order: seq<nat>, n: nat)
    requires n < |ss| && Ordered(ss, order, n) && ss[n].parent.Some?
    ensures Ordered(ss, order, n + 1)
  {
  }

  lemma SortedPicksMore(ss: seq<Summary>, order: seq<nat>, n: nat)
    requires n < |ss| && Ordered(ss, order, n) && ss[n].parent.None?
    requires SortByStart(Visible(ss[..n])) == Pick(ss, order)
    ensures SortByStart(Visible(ss[..n + 1])) == Pick(ss, Placed(ss, order, n))
  {
    VisibleMore(ss, n);
    PlacedPicks(ss, order, n);
    SortMore(Visible(ss[..n]), ss[n]);
  }

  lemma {:induction false} SortedPicks(ss: seq<Summary>, n: nat) returns (order: seq<nat>)
    requires n <= |ss|
    ensures Ordered(ss, order, n) && SortByStart(Visible(ss[..n])) == Pick(ss, order)
  {
    if n == 0 {
      order := [];
    } else {
      var before := SortedPicks(ss, n - 1);
      if ss[n - 1].parent.None? {
        OrderedMore(ss, before, n - 1);
        SortedPicksMore(ss, before, n - 1);
        order := Placed(ss, before, n - 1);
      } else {
        OrderedSkip(ss, before, n - 1);
        VisibleMore(ss, n - 1);
        assert Visible(ss[..n - 1]) + [] == Visible(ss[..n - 1]);
        order := before;
      }
    }
  }

  // ---- the system turn ----

  predicate ShownAs(line: string, s: Summary) {
    line == "[" + Render(s.id) + ", msgs " + ToRadix(s.lo, 10) + "-" + ToRadix(s.hi, 10) + "]: " + s.text + "\n"
  }

  ghost predicate Listed(lines: seq<string>, ss: seq<Summary>, places: seq<nat>) {
    |lines| == |places| && forall i :: 0 <= i < |places| ==> places[i] < |ss| && ShownAs(lines[i], ss[places[i]])
  }

  /** The latest by range start, as many as allowed; 0 allows all. */
  function Latest(order: seq<nat>, allowed: nat): seq<nat> {
    if allowed == 0 || |order| <= allowed then order else order[|order| - allowed..]
  }

  /** A heading, how many are hidden if any are, and a line for each summary shown. */
  ghost predicate Tells(content: string, prompt: string, ss: seq<Summary>, allowed: nat, order: seq<nat>,
                        lines: seq<string>) {
    var shown := Latest(order, allowed);
    && InOrderOfStart(ss, order) && Listed(lines, ss, shown)
    && content == prompt + "\n\n## Earlier Conversation (Summaries)\n"
                  + (if |shown| < |order|
                     then "(" + ToRadix(|order| - |shown|, 10) + " older summaries available via lcm_grep search)\n"
                     else "")
                  + Join(lines, "")
  }

  lemma {:induction false} NoneVisible(ss: seq<Summary>)
    ensures Visible(ss) == [] <==> forall k :: 0 <= k < |ss| ==> ss[k].parent.Some?
  {
    if ss != [] {
      NoneVisible(ss[..|ss| - 1]);
    }
  }

  lemma LastPicked(ss: seq<Summary>, order: seq<nat>, allowed: nat)
    requires forall i :: 0 <= i < |order| ==> order[i] < |ss|
    ensures var sorted := Pick(ss, order);
            Last(sorted, if allowed > 0 then allowed else |sorted|) == Pick(ss, Latest(order, allowed))
  {
    var n := if allowed > 0 then allowed else |order|;
    if n <= |order| {
      assert Pick(ss, order)[|order| - n..] == Pick(ss, order[|order| - n..]);
      assert allowed == 0 ==> order[0..] == order;
      assert n == |order| ==> order[|order| - n..] == order;
    }
  }

  lemma PickedAreListed(ss: seq<Summary>, places: seq<nat>)
    requires forall i :: 0 <= i < |places| ==> places[i] < |ss|
    ensures Listed(SummaryLines(Pick(ss, places)), ss, places)
  {
  }

  lemma HiddenCount(st: Store, prompt: string, allowed: nat, order: seq<nat>)
    requires Visible(st.summaries) != [] && (forall i :: 0 <= i < |order| ==> order[i] < |st.summaries|)
    requires SortByStart(Visible(st.summaries)) == Pick(st.summaries, order)
    ensures var shown := Latest(order, allowed);
            SystemContent(st, prompt, allowed)
            == prompt + "\n\n## Earlier Conversation (Summaries)\n"
               + (if |shown| < |order|
                  then "(" + ToRadix(|order| - |shown|, 10) + " older summaries available via lcm_grep search)\n"
                  else "")
               + Join(SummaryLines(Pick(st.summaries, shown)), "")
  {
    LastPicked(st.summaries, order, allowed);
  }

  lemma ContentTells(st: Store, prompt: string, allowed: nat) returns (order: seq<nat>, lines: seq<string>)
    requires Visible(st.summaries) != []
    ensures Tells(SystemContent(st, prompt, allowed), prompt, st.summaries, allowed, order, lines)
  {
    var ss := st.summaries;
    assert ss[..|ss|] == ss;
    order := SortedPicks(ss, |ss|);
    HiddenCount(st, prompt, allowed, order);
    PickedAreListed(ss, Latest(order, allowed));
    lines := SummaryLines(Pick(ss, Latest(order, allowed)));
  }

  lemma ContentIsLonger(content: string, prompt: string, ss: seq<Summary>, allowed: nat, order: seq<nat>,
                        lines: seq<string>)
    requires Tells(content, prompt, ss, allowed, order, lines)
    ensures content != prompt
  {
    assert |content| >= |prompt| + |"\n\n## Earlier Conversation (Summaries)\n"|;
  }

  ghost predicate TellsSomehow(content: string, prompt: string, ss: seq<Summary>, allowed: nat) {
    exists order, lines :: Tells(content, prompt, ss, allowed, order, lines)
  }

  /**
   * The window starts with one system turn. It is the prompt alone exactly when no summary is
   * visible. Otherwise it goes on with the heading, the number of hidden summaries exactly when some
   * are hidden, and one line for each of the latest ones by range start, in that order, with its
   * identifier, range and text.
   */
  lemma SystemTurnTells(st: Store, prompt: string, allowed: nat)
    ensures var out := Assemble(st, prompt, allowed);
            && out != [] && out[0].role == System
            && (out[0].content == prompt <==> forall k :: 0 <= k < |st.summaries| ==> st.summaries[k].parent.Some?)
            && (out[0].content != prompt ==> TellsSomehow(out[0].content, prompt, st.summaries, allowed))
  {
    ContextKeepsConversation(st, prompt, allowed);
    NoneVisible(st.summaries);
    if Visible(st.summaries) != [] {
      var order, lines := ContentTells(st, prompt, allowed);
      ContentIsLonger(SystemContent(st, prompt, allowed), prompt, st.summaries, allowed, order, lines);
    }
  }

  // ---- the turns ----

  function Flatten(runs: seq<seq<Message>>): seq<Message> {
    if runs == [] then [] else Flatten(runs[..|runs| - 1]) + runs[|runs| - 1]
  }

  /** A turn carries the words of a run of messages, all of its role. */
  ghost predicate Carries(chat: Chat, run: seq<Message>) {
    && run != [] && chat.content == Join(Texts(run), BLANK)
    && (forall m :: m in run ==> m.role == chat.role)
    && (chat.role == System ==> |run| == 1)
  }

  ghost predicate Turns(out: seq<Chat>, ms: seq<Message>, runs: seq<seq<Message>>) {
    && |out| == |runs| + 1 && out[0].role == System && Flatten(runs) == ms
    && (forall i :: 0 <= i < |runs| ==> Carries(out[i + 1], runs[i]))
    && RolesAlternate(out)
  }

  lemma FlattenMore(runs: seq<seq<Message>>, run: seq<Message>)
    ensures Flatten(runs + [run]) == Flatten(runs) + run
  {
    assert (runs + [run])[..|runs|] == runs;
  }

  /** A message of the last turn's role makes that turn longer. */
  lemma TurnGrows(out: seq<Chat>, ms: seq<Message>, runs: seq<seq<Message>>, m: Message)
      returns (more: seq<seq<Message>>)
    requires Turns(out, ms, runs) && out[|out| - 1].role != System && out[|out| - 1].role == m.role
    ensures Turns(AddChat(out, m), ms + [m], more)
  {
    var front, run := runs[..|runs| - 1], runs[|runs| - 1];
    more := front + [run + [m]];
    JoinExtends(Texts(run), m.content);
    assert Texts(run + [m]) == Texts(run) + [m.content];
    assert runs == front + [run];
    FlattenMore(front, run);
    FlattenMore(front, run + [m]);
    assert Flatten(front) + run + [m] == Flatten(front) + (run + [m]);
    assert Carries(AddChat(out, m)[|out| - 1], run + [m]);
  }

  lemma AddTurn(out: seq<Chat>, ms: seq<Message>, runs: seq<seq<Message>>, m: Message) returns (more: seq<seq<Message>>)
    requires Turns(out, ms, runs)
    ensures Turns(AddChat(out, m), ms + [m], more)
  {
    var last := out[|out| - 1];
    if last.role != System && last.role == m.role {
      more := TurnGrows(out, ms, runs, m);
    } else {
      more := runs + [[m]];
      FlattenMore(runs, [m]);
      assert Texts([m]) == [m.content];
      assert Carries(AddChat(out, m)[|out|], [m]);
    }
  }

  lemma {:induction false} ChatsAreTurns(system: string, ms: seq<Message>) returns (runs: seq<seq<Message>>)
    ensures Turns(AddChats([Chat(System, system)], ms), ms, runs)
  {
    if ms == [] {
      runs := [];
    } else {
      var before := ChatsAreTurns(system, ms[..|ms| - 1]);
      runs := AddTurn(AddChats([Chat(System, system)], ms[..|ms| - 1]), ms[..|ms| - 1], before, ms[|ms| - 1]);
      assert ms[..|ms| - 1] + [ms[|ms| - 1]] == ms;
    }
  }

  /**
   * After it the active messages, cut into runs of one role, are the turns: each turn has its run's
   * role and its run's texts joined by blank lines, and neighbouring turns differ in role.
   */
  lemma WindowIsTheConversation(st: Store, prompt: string, allowed: nat) returns (runs: seq<seq<Message>>)
    ensures Turns(Assemble(st, prompt, allowed), Active(st.messages), runs)
  {
    runs := ChatsAreTurns(SystemContent(st, prompt, allowed), Active(st.messages));
  }

  /** And those are the messages nobody has archived, in order. */
  lemma ActiveMeans(a: seq<Message>, b: seq<Message>, m: Message)
    ensures Active(a + b) == Active(a) + Active(b)
    ensures Active([m]) == if m.archivedBy.None? then [m] else []
  {
    ActiveAppend(a, b);
  }

  // ---- its size decides ----

  /** The size of a window is the sum over its turns. */
  lemma {:induction false} TokensAdd(estimate: string -> nat, a: seq<Chat>, b: seq<Chat>)
    ensures Tokens(estimate, a + b) == Tokens(estimate, a) + Tokens(estimate, b)
    ensures forall c :: Tokens(estimate, [c]) == estimate(c.content)
  {
    if b == [] {
      assert a + b == a;
    } else {
      TokensAdd(estimate, a, b[..|b| - 1]);
      assert (a + b)[..|a + b| - 1] == a + b[..|b| - 1];
    }
  }

  /** A run starts only on a log of more than four messages, with the oldest chunk when there is one to spare. */
  lemma BeginsIff(u: Setup, st: Store)
    ensures Begin(u, st).Done? <==> |st.messages| <= 4
    ensures Begin(u, st).Incremental? <==>
              |st.messages| >= 5 && |Active(st.messages)| > u.config.keepLastN + u.config.chunkSize
    ensures Begin(u, st).Incremental? ==>
              && |Begin(u, st).ids| == u.config.chunkSize
              && forall i :: 0 <= i < u.config.chunkSize ==> Begin(u, st).ids[i] == Active(st.messages)[i].id
    ensures !Begin(u, st).Compacting? && !Begin(u, st).Escalating?
  {
  }

  /**
   * The second stage measures the window with every summary shown. Below the soft threshold it
   * leaves the store alone and is over; otherwise it asks for a summary of all but the newest
   * messages when there are two of them, and else falls back at once if the window is at the hard one.
   */
  lemma EscalatesIff(u: Setup, st: Store, c: Completion)
    ensures var tokens := Tokens(u.estimate, Assemble(st, u.prompt, 0));
            var active, n := Active(st.messages), u.config.keepLastN;
            var p := Resume(u, st, Between, c);
            var asks := tokens >= u.config.softThreshold && n > 0 && |active| >= n + 2;
            && (p.run.Escalating? <==> asks)
            && (asks ==>
                  |p.run.ids| == |active| - n && forall i :: 0 <= i < |active| - n ==> p.run.ids[i] == active[i].id)
            && (tokens < u.config.softThreshold || tokens < u.config.hardThreshold || asks ==> p.store == st)
            && (!asks ==> p.run.Done?)
  {
  }

  /** An escalation that was answered or came to nothing ends there below the hard threshold. */
  lemma EscalationStops(u: Setup, st: Store, ids: seq<Id>, c: Completion)
    requires c.Empty? && Tokens(u.estimate, Assemble(st, u.prompt, 0)) < u.config.hardThreshold
    ensures Resume(u, st, Escalating(ids), c) == Progress(st, Done)
  {
  }

  /** The places of the visible level-1 summaries. */
  ghost function VisibleOnes(ss: seq<Summary>): set<int> {
    set k | 0 <= k < |ss| && ss[k].parent.None? && ss[k].level == 1
  }

  lemma {:induction false} CountOfOnes(ss: seq<Summary>)
    ensures |OfLevel(Visible(ss), 1)| == |VisibleOnes(ss)|
  {
    if ss == [] {
      assert VisibleOnes(ss) == {};
    } else {
      var front, n := ss[..|ss| - 1], |ss| - 1;
      CountOfOnes(front);
      var more := if ss[n].parent.None? && ss[n].level == 1 then {n} else {};
      assert VisibleOnes(ss) == VisibleOnes(front) + more;
      if ss[n].parent.None? {
        var v := Visible(front) + [ss[n]];
        assert v[..|v| - 1] == Visible(front);
      }
    }
  }

  /**
   * After a chunk, summaries are compacted exactly when at least three of level 1 are visible:
   * all but one, which starts no earlier than any of the others.
   */
  lemma CompactsIff(st: Store)
    ensures AfterChunk(st).Compacting? <==> |VisibleOnes(st.summaries)| >= 3
    ensures !AfterChunk(st).Compacting? ==> AfterChunk(st) == Between
    ensures AfterChunk(st).Compacting? ==>
              var sorted := SortByStart(OfLevel(Visible(st.summaries), 1));
              var c := AfterChunk(st).compaction;
              && StartsInOrder(sorted) && |c.nodes| == |sorted| - 1
              && forall i :: 0 <= i < |sorted| - 1 ==> c.nodes[i] == sorted[i].id
  {
    var level1 := OfLevel(Visible(st.summaries), 1);
    CountOfOnes(st.summaries);
    SortOrders(level1);
    assert |SortByStart(level1)| == |multiset(SortByStart(level1))| == |multiset(level1)| == |level1|;
  }
}
