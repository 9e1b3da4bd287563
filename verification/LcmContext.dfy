/** Assembling the model's context window from the store. */
module LcmContext {
  import opened Numerals
  import opened LcmStore

  datatype Chat = Chat(role: Role, content: string)

  const BLANK := "\n\n"

  function Join(parts: seq<string>, sep: string): string {
    if parts == [] then ""
    else if |parts| == 1 then parts[0]
    else Join(parts[..|parts| - 1], sep) + sep + parts[|parts| - 1]
  }

  // ---- summaries in order of what they cover ----

  function InsertByStart(ss: seq<Summary>, s: Summary): seq<Summary> {
    if ss == [] || ss[|ss| - 1].lo <= s.lo then ss + [s]
    else InsertByStart(ss[..|ss| - 1], s) + [ss[|ss| - 1]]
  }

  /** A stable sort by the first covered message. */
  function SortByStart(ss: seq<Summary>): seq<Summary> {
    if ss == [] then [] else InsertByStart(SortByStart(ss[..|ss| - 1]), ss[|ss| - 1])
  }

  ghost predicate StartsInOrder(ss: seq<Summary>) {
    forall i, j :: 0 <= i < j < |ss| ==> ss[i].lo <= ss[j].lo
  }

  lemma {:induction false} InsertMembers(ss: seq<Summary>, s: Summary)
    ensures multiset(InsertByStart(ss, s)) == multiset(ss) + multiset{s}
  {
    if !(ss == [] || ss[|ss| - 1].lo <= s.lo) {
      InsertMembers(ss[..|ss| - 1], s);
      assert ss == ss[..|ss| - 1] + [ss[|ss| - 1]];
    }
  }

  lemma InsertedIsOldOrNew(ss: seq<Summary>, s: Summary, x: Summary)
    requires x in InsertByStart(ss, s)
    ensures x in ss || x == s
  {
    InsertMembers(ss, s);
    assert x in multiset(InsertByStart(ss, s));
  }

  lemma SnocSorted(ss: seq<Summary>, last: Summary)
    requires StartsInOrder(ss) && forall x :: x in ss ==> x.lo <= last.lo
    ensures StartsInOrder(ss + [last])
  {
  }

  lemma {:induction false} InsertSorted(ss: seq<Summary>, s: Summary)
    requires StartsInOrder(ss)
    ensures StartsInOrder(InsertByStart(ss, s))
  {
    if ss == [] || ss[|ss| - 1].lo <= s.lo {
      SnocSorted(ss, s);
    } else {
      var front, last := ss[..|ss| - 1], ss[|ss| - 1];
      InsertSorted(front, s);
      forall x | x in InsertByStart(front, s)
        ensures x.lo <= last.lo
      {
        InsertedIsOldOrNew(front, s, x);
      }
      SnocSorted(InsertByStart(front, s), last);
    }
  }

  /** The summaries that start at message n, in order. */
  function StartingAt(ss: seq<Summary>, n: nat): seq<Summary> {
    if ss == [] then []
    else StartingAt(ss[..|ss| - 1], n) + if ss[|ss| - 1].lo == n then [ss[|ss| - 1]] else []
  }

  lemma {:induction false} InsertGoesLast(ss: seq<Summary>, s: Summary, n: nat)
    ensures StartingAt(InsertByStart(ss, s), n) == StartingAt(ss, n) + if s.lo == n then [s] else []
  {
    if ss == [] || ss[|ss| - 1].lo <= s.lo {
      assert (ss + [s])[..|ss|] == ss;
    } else {
      var front, last := ss[..|ss| - 1], ss[|ss| - 1];
      InsertGoesLast(front, s, n);
      var r := InsertByStart(front, s);
      assert (r + [last])[..|r|] == r;
    }
  }

  /** Sorting is stable: summaries with the same start keep their order. */
  lemma {:induction false} SortIsStable(ss: seq<Summary>, n: nat)
    ensures StartingAt(SortByStart(ss), n) == StartingAt(ss, n)
  {
    if ss != [] {
      SortIsStable(ss[..|ss| - 1], n);
      InsertGoesLast(SortByStart(ss[..|ss| - 1]), ss[|ss| - 1], n);
    }
  }

  /** Sorting rearranges and orders. */
  lemma {:induction false} SortOrders(ss: seq<Summary>)
    ensures multiset(SortByStart(ss)) == multiset(ss)
    ensures StartsInOrder(SortByStart(ss))
    ensures StartsInOrder(ss) ==> SortByStart(ss) == ss
  {
    if ss != [] {
      var front, last := ss[..|ss| - 1], ss[|ss| - 1];
      assert ss == front + [last];
      SortOrders(front);
      InsertMembers(SortByStart(front), last);
      InsertSorted(SortByStart(front), last);
    }
  }

  // ---- the context window ----

  function Last<T>(xs: seq<T>, n: nat): seq<T> {
    if n <= |xs| then xs[|xs| - n..] else xs
  }

  function SummaryLine(s: Summary): string {
    "[" + Render(s.id) + ", msgs " + ToRadix(s.lo, 10) + "-" + ToRadix(s.hi, 10) + "]: " + s.text + "\n"
  }

  function SummaryLines(ss: seq<Summary>): seq<string> {
    seq(|ss|, i requires 0 <= i < |ss| => SummaryLine(ss[i]))
  }

  /** The prompt with the latest maxSummaries visible summaries, or all of them when it is 0. */
  function SystemContent(st: Store, prompt: string, maxSummaries: nat): string {
    var visible := Visible(st.summaries);
    if visible == [] then prompt
    else
      var sorted := SortByStart(visible);
      var shown := Last(sorted, if maxSummaries > 0 then maxSummaries else |sorted|);
      var hidden := |sorted| - |shown|;
      prompt + "\n\n## Earlier Conversation (Summaries)\n"
      + (if hidden > 0 then "(" + ToRadix(hidden, 10) + " older summaries available via lcm_grep search)\n" else "")
      + Join(SummaryLines(shown), "")
  }

  function AddChat(chats: seq<Chat>, m: Message): seq<Chat> {
    if chats != [] && chats[|chats| - 1].role != System && chats[|chats| - 1].role == m.role
    then chats[..|chats| - 1] + [Chat(m.role, chats[|chats| - 1].content + BLANK + m.content)]
    else chats + [Chat(m.role, m.content)]
  }

  function AddChats(chats: seq<Chat>, ms: seq<Message>): seq<Chat> {
    if ms == [] then chats else AddChat(AddChats(chats, ms[..|ms| - 1]), ms[|ms| - 1])
  }

  function Assemble(st: Store, prompt: string, maxSummaries: nat): seq<Chat> {
    AddChats([Chat(System, SystemContent(st, prompt, maxSummaries))], Active(st.messages))
  }

  method AssembleContext(st: Store, prompt: string, maxSummaries: nat) returns (chats: seq<Chat>)
    ensures chats == Assemble(st, prompt, maxSummaries)
  {
    var active := Active(st.messages);
    chats := [Chat(System, SystemContent(st, prompt, maxSummaries))];
    ghost var start := chats;
    for i := 0 to |active|
      invariant chats == AddChats(start, active[..i])
    {
      var m := active[i];
      assert active[..i + 1][..i] == active[..i];
      if chats != [] && chats[|chats| - 1].role != System && chats[|chats| - 1].role == m.role {
        chats := chats[|chats| - 1 := Chat(m.role, chats[|chats| - 1].content + BLANK + m.content)];
      } else {
        chats := chats + [Chat(m.role, m.content)];
      }
    }
    assert active[..|active|] == active;
  }

  function Contents(chats: seq<Chat>): seq<string> {
    seq(|chats|, i requires 0 <= i < |chats| => chats[i].content)
  }

  function Texts(ms: seq<Message>): seq<string> {
    seq(|ms|, i requires 0 <= i < |ms| => ms[i].content)
  }

  /** No two neighbours share a role, unless it is the system's. */
  ghost predicate RolesAlternate(chats: seq<Chat>) {
    forall i :: 0 <= i < |chats| - 1 ==> chats[i].role == chats[i + 1].role ==> chats[i].role == System
  }

  lemma JoinExtends(parts: seq<string>, more: string)
    requires parts != []
    ensures Join(parts + [more], BLANK) == Join(parts, BLANK) + BLANK + more
  {
    assert (parts + [more])[..|parts|] == parts;
  }

  lemma JoinGrowsLast(front: seq<string>, last: string, more: string)
    ensures Join(front + [last + BLANK + more], BLANK) == Join(front + [last], BLANK) + BLANK + more
  {
    assert (front + [last])[..|front|] == front;
    assert (front + [last + BLANK + more])[..|front|] == front;
    if front == [] {
      assert front + [last] == [last] && front + [last + BLANK + more] == [last + BLANK + more];
    } else {
      assert Join(front, BLANK) + BLANK + (last + BLANK + more) == Join(front, BLANK) + BLANK + last + BLANK + more;
    }
  }

  /** What the window built so far owes to the messages it was built from. */
  ghost predicate Tells(out: seq<Chat>, system: string, texts: seq<string>) {
    && out != [] && out[0] == Chat(System, system)
    && RolesAlternate(out)
    && (|out| == 1 <==> texts == [])
    && Join(Contents(out[1..]), BLANK) == Join(texts, BLANK)
  }

  lemma AddChatTells(before: seq<Chat>, system: string, texts: seq<string>, m: Message)
    requires Tells(before, system, texts)
    ensures Tells(AddChat(before, m), system, texts + [m.content])
  {
    var out := AddChat(before, m);
    var tail := Contents(before[1..]);
    if |before| == 1 {
      assert texts + [m.content] == [m.content];
      assert Contents(out[1..]) == [m.content];
    } else {
      JoinExtends(texts, m.content);
      var last := before[|before| - 1];
      if last.role != System && last.role == m.role {
        var head := tail[..|tail| - 1];
        assert tail == head + [last.content];
        assert Contents(out[1..]) == head + [last.content + BLANK + m.content];
        JoinGrowsLast(head, last.content, m.content);
      } else {
        assert Contents(out[1..]) == tail + [m.content];
        JoinExtends(tail, m.content);
      }
    }
  }

  lemma {:induction false} ChatsTell(system: string, ms: seq<Message>)
    ensures Tells(AddChats([Chat(System, system)], ms), system, Texts(ms))
  {
    var start := [Chat(System, system)];
    if ms == [] {
      assert Contents(start[1..]) == [] && Texts(ms) == [];
    } else {
      var front, m := ms[..|ms| - 1], ms[|ms| - 1];
      ChatsTell(system, front);
      AddChatTells(AddChats(start, front), system, Texts(front), m);
      assert Texts(ms) == Texts(front) + [m.content];
    }
  }

  /**
   * The window says everything that is active, in order: roles alternate after the system
   * prompt, and the turns joined by blank lines are the active messages joined by blank lines.
   */
  lemma ContextKeepsConversation(st: Store, prompt: string, maxSummaries: nat)
    ensures var out := Assemble(st, prompt, maxSummaries);
            && out != [] && out[0] == Chat(System, SystemContent(st, prompt, maxSummaries))
            && RolesAlternate(out)
            && Join(Contents(out[1..]), BLANK) == Join(Texts(Active(st.messages)), BLANK)
  {
    ChatsTell(SystemContent(st, prompt, maxSummaries), Active(st.messages));
  }

  function Tokens(estimate: string -> nat, chats: seq<Chat>): nat {
    if chats == [] then 0 else Tokens(estimate, chats[..|chats| - 1]) + estimate(chats[|chats| - 1].content)
  }
}
