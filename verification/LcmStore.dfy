/** The lossless context store of apps/self-interview/lcm.ts: a message log and the summaries over it. */
module LcmStore {
  import opened Outcomes
  import opened Numerals

  datatype Role = User | Assistant | Tool | System

  /** An identifier; Render gives its text, which determines it. */
  datatype Id = MessageId(number: nat) | SummaryId(number: nat)

  /** archivedBy names the summary that took the message out of the context; None while active. */
  datatype Message = Message(id: Id, number: nat, role: Role, content: string, archivedBy: Option<Id>)

  /** parent names the summary that absorbed this one; None while it is visible. */
  datatype Summary = Summary(id: Id, level: nat, covers: seq<Id>, lo: nat, hi: nat, text: string, parent: Option<Id>)

  datatype Store = Store(messages: seq<Message>, summaries: seq<Summary>, nextMessage: nat, nextSummary: nat)

  const EMPTY := Store([], [], 1, 1)

  /** generateId: the kind, and the number in decimal, padded to three digits. */
  function Render(id: Id): string {
    (if id.MessageId? then "msg" else "sum") + "-" + PadStart(ToRadix(id.number, 10), 3)
  }

  // ---- reading numbers back from identifiers ----

  function AfterDash(s: string): string {
    if s == "" then "" else if s[0] == '-' then s[1..] else AfterDash(s[1..])
  }

  function DecimalPrefix(s: string): string {
    if s == "" || !IsDigit(s[0], 10) then "" else [s[0]] + DecimalPrefix(s[1..])
  }

  /** parseInt(id.split("-")[1]) || 0 */
  function NumberIn(text: string): nat {
    Parse(DecimalPrefix(AfterDash(text)), 10)
  }

  lemma {:induction false} NumeralIsItsPrefix(s: string)
    requires IsNumeral(s, 10)
    ensures DecimalPrefix(s) == s
  {
    if s != "" {
      NumeralIsItsPrefix(s[1..]);
    }
  }

  lemma {:induction false} DashFound(prefix: string, rest: string)
    requires '-' !in prefix
    ensures AfterDash(prefix + "-" + rest) == rest
  {
    var s := prefix + "-" + rest;
    if prefix == "" {
      assert s[1..] == rest;
    } else {
      assert s[1..] == prefix[1..] + "-" + rest && s[0] == prefix[0];
      assert prefix[0] in prefix;
      DashFound(prefix[1..], rest);
    }
  }

  /** The number reads back from the text. */
  lemma NumberReadsBack(id: Id)
    ensures NumberIn(Render(id)) == id.number
  {
    var digits := PadStart(ToRadix(id.number, 10), 3);
    DashFound("msg", digits);
    DashFound("sum", digits);
    ParsePadded(id.number, 3, 10);
    NumeralIsItsPrefix(digits);
  }

  /** So different identifiers have different texts. */
  lemma RenderIsInjective(a: Id, b: Id)
    requires Render(a) == Render(b)
    ensures a == b
  {
    NumberReadsBack(a);
    NumberReadsBack(b);
    assert Render(a)[0] == if a.MessageId? then 'm' else 's';
    assert Render(b)[0] == if b.MessageId? then 'm' else 's';
  }

  // ---- the operations ----

  function Append(st: Store, role: Role, content: string): Store {
    st.(messages := st.messages + [Message(MessageId(st.nextMessage), st.nextMessage, role, content, None)],
        nextMessage := st.nextMessage + 1)
  }

  function Active(ms: seq<Message>): seq<Message> {
    if ms == [] then []
    else
      var front := Active(ms[..|ms| - 1]);
      if ms[|ms| - 1].archivedBy.None? then front + [ms[|ms| - 1]] else front
  }

  function Archived(m: Message, ids: seq<Id>, owner: Id): Message {
    if m.id in ids && m.archivedBy.None? then m.(archivedBy := Some(owner)) else m
  }

  function Archive(ms: seq<Message>, ids: seq<Id>, owner: Id): seq<Message> {
    seq(|ms|, i requires 0 <= i < |ms| => Archived(ms[i], ids, owner))
  }

  function NumberOf(ms: seq<Message>, id: Id): Option<nat> {
    if ms == [] then None else if ms[0].id == id then Some(ms[0].number) else NumberOf(ms[1..], id)
  }

  /** The numbers of the covered messages that are found. */
  function Numbers(ms: seq<Message>, ids: seq<Id>): seq<nat> {
    if ids == [] then []
    else
      var n := NumberOf(ms, ids[|ids| - 1]);
      Numbers(ms, ids[..|ids| - 1]) + if n.Some? then [n.value] else []
  }

  function Least(ns: seq<nat>): nat {
    if ns == [] then 0 else if |ns| == 1 then ns[0]
    else var m := Least(ns[..|ns| - 1]); if ns[|ns| - 1] < m then ns[|ns| - 1] else m
  }

  function Greatest(ns: seq<nat>): nat {
    if ns == [] then 0 else var m := Greatest(ns[..|ns| - 1]); if ns[|ns| - 1] > m then ns[|ns| - 1] else m
  }

  function NewSummary(st: Store, level: nat, covers: seq<Id>, text: string): Summary {
    var ns := Numbers(st.messages, covers);
    Summary(SummaryId(st.nextSummary), level, covers, Least(ns), Greatest(ns), text, None)
  }

  function AddSummary(st: Store, level: nat, covers: seq<Id>, text: string): Store {
    st.(summaries := st.summaries + [NewSummary(st, level, covers, text)], nextSummary := st.nextSummary + 1)
  }

  function Consumed(s: Summary, ids: seq<Id>, parent: Id): Summary {
    if s.id in ids then s.(parent := Some(parent)) else s
  }

  function Consume(ss: seq<Summary>, ids: seq<Id>, parent: Id): seq<Summary> {
    seq(|ss|, i requires 0 <= i < |ss| => Consumed(ss[i], ids, parent))
  }

  function Visible(ss: seq<Summary>): seq<Summary> {
    if ss == [] then []
    else
      var front := Visible(ss[..|ss| - 1]);
      if ss[|ss| - 1].parent.None? then front + [ss[|ss| - 1]] else front
  }

  function HighestMessage(ms: seq<Message>): nat {
    if ms == [] then 0
    else
      var m, n := HighestMessage(ms[..|ms| - 1]), ms[|ms| - 1].number;
      if n > m then n else m
  }

  function HighestSummary(ss: seq<Summary>): nat {
    if ss == [] then 0
    else
      var m, n := HighestSummary(ss[..|ss| - 1]), NumberIn(Render(ss[|ss| - 1].id));
      if n > m then n else m
  }

  /** Loading persisted data: the counters are worked out from the data. */
  function Restore(ms: seq<Message>, ss: seq<Summary>): Store {
    Store(ms, ss, HighestMessage(ms) + 1, HighestSummary(ss) + 1)
  }

  class LCMStore {
    var messages: seq<Message>
    var summaries: seq<Summary>
    var nextMsgSeq: nat
    var nextSumSeq: nat

    function State(): Store
      reads this
    {
      Store(messages, summaries, nextMsgSeq, nextSumSeq)
    }

    /** A new store over persisted data, or over none. */
    constructor (messages: seq<Message>, summaries: seq<Summary>)
      ensures State() == Restore(messages, summaries)
    {
      this.messages, this.summaries := messages, summaries;
      nextMsgSeq, nextSumSeq := 1, 1;
      new;
      RestoreCounters();
    }

    method RestoreCounters()
      modifies this
      ensures State() == Restore(old(messages), old(summaries))
    {
      var highest := 0;
      for i := 0 to |messages|
        invariant messages == old(messages) && summaries == old(summaries)
        invariant highest == HighestMessage(messages[..i])
      {
        assert messages[..i + 1][..i] == messages[..i];
        if messages[i].number > highest {
          highest := messages[i].number;
        }
      }
      assert messages[..|messages|] == messages;
      nextMsgSeq := highest + 1;
      highest := 0;
      for i := 0 to |summaries|
        invariant messages == old(messages) && summaries == old(summaries)
        invariant nextMsgSeq == HighestMessage(messages) + 1
        invariant highest == HighestSummary(summaries[..i])
      {
        assert summaries[..i + 1][..i] == summaries[..i];
        var number := NumberIn(Render(summaries[i].id));
        if number > highest {
          highest := number;
        }
      }
      assert summaries[..|summaries|] == summaries;
      nextSumSeq := highest + 1;
    }

    method AppendMessage(role: Role, content: string) returns (m: Message)
      modifies this
      ensures State() == Append(old(State()), role, content)
      ensures m == State().messages[|old(messages)|]
    {
      m := Message(MessageId(nextMsgSeq), nextMsgSeq, role, content, None);
      nextMsgSeq := nextMsgSeq + 1;
      messages := messages + [m];
    }

    method ArchiveMessages(ids: seq<Id>, owner: Id)
      modifies this
      ensures State() == old(State()).(messages := Archive(old(messages), ids, owner))
    {
      for i := 0 to |messages|
        invariant |messages| == |old(messages)|
        invariant summaries == old(summaries) && nextMsgSeq == old(nextMsgSeq) && nextSumSeq == old(nextSumSeq)
        invariant forall j :: 0 <= j < |messages| ==>
                    messages[j] == if j < i then Archived(old(messages)[j], ids, owner) else old(messages)[j]
      {
        if messages[i].id in ids && messages[i].archivedBy.None? {
          messages := messages[i := messages[i].(archivedBy := Some(owner))];
        }
      }
    }

    method AddSummaryNode(level: nat, covers: seq<Id>, text: string) returns (node: Summary)
      modifies this
      ensures State() == AddSummary(old(State()), level, covers, text)
      ensures node == NewSummary(old(State()), level, covers, text)
    {
      var numbers := Numbers(messages, covers);
      node := Summary(SummaryId(nextSumSeq), level, covers, Least(numbers), Greatest(numbers), text, None);
      nextSumSeq := nextSumSeq + 1;
      summaries := summaries + [node];
    }

    method ConsumeSummaries(ids: seq<Id>, parent: Id)
      modifies this
      ensures State() == old(State()).(summaries := Consume(old(summaries), ids, parent))
    {
      for i := 0 to |summaries|
        invariant |summaries| == |old(summaries)|
        invariant messages == old(messages) && nextMsgSeq == old(nextMsgSeq) && nextSumSeq == old(nextSumSeq)
        invariant forall j :: 0 <= j < |summaries| ==>
                    summaries[j] == if j < i then Consumed(old(summaries)[j], ids, parent) else old(summaries)[j]
      {
        if summaries[i].id in ids {
          summaries := summaries[i := summaries[i].(parent := Some(parent))];
        }
      }
    }
  }

  /** Three digits at least: padded below a thousand, and the plain number from there on. */
  lemma NumbersHaveThreeDigits(id: Id)
    ensures var kind := if id.MessageId? then "msg-" else "sum-";
            && kind <= Render(id)
            && (id.number < 1000 ==> |Render(id)| == 7)
            && (id.number >= 1000 ==> Render(id) == kind + ToRadix(id.number, 10))
  {
    var digits := ToRadix(id.number, 10);
    DigitsOf(id.number);
    PadLength(digits, 3);
    assert Render(id) == (if id.MessageId? then "msg-" else "sum-") + PadStart(digits, 3);
  }

  lemma DigitsOf(n: nat)
    ensures n < 1000 ==> |ToRadix(n, 10)| <= 3
    ensures n >= 1000 ==> |ToRadix(n, 10)| >= 4
  {
    assert n < 1000 ==> n / 10 < 100 && n / 10 / 10 < 10;
    assert n >= 1000 ==> n / 10 >= 100 && n / 10 / 10 >= 10 && n / 10 / 10 / 10 >= 1;
    assert n >= 10 ==> ToRadix(n, 10) == ToRadix(n / 10, 10) + [DIGITS[n % 10]];
    var m := n / 10;
    assert m >= 10 ==> ToRadix(m, 10) == ToRadix(m / 10, 10) + [DIGITS[m % 10]];
    var q := m / 10;
    assert q >= 10 ==> ToRadix(q, 10) == ToRadix(q / 10, 10) + [DIGITS[q % 10]];
    SomeDigit(q / 10);
    SomeDigit(q);
  }

  lemma {:induction false} SomeDigit(n: nat)
    ensures |ToRadix(n, 10)| >= 1
  {
  }

  lemma PadLength(s: string, width: nat)
    ensures |PadStart(s, width)| == if |s| < width then width else |s|
    ensures |s| >= width ==> PadStart(s, width) == s
  {
    if |s| < width {
      ZerosLength(width - |s|);
    }
  }

  lemma {:induction false} ZerosLength(n: nat)
    ensures |Zeros(n)| == n
  {
    if n > 0 {
      ZerosLength(n - 1);
    }
  }
}
