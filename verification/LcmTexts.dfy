/**
 * What the log and its summaries say: messages as they arrived, summaries as the completions
 * answered them, and neither ever rewritten.
 */
module LcmTexts {
  import opened Outcomes
  import opened LcmStore
  import opened LcmContext
  import opened LcmMaintenance
  import opened LcmLossless
  import opened LcmWorkingSet

  // ---- what a stretch adds ----

  /** The first summary that st' has beyond those of st. */
  ghost predicate AddsFirst(st: Store, st': Store, level: nat, covers: seq<Id>, text: string) {
    |st'.summaries| > |st.summaries|
    && var s := st'.summaries[|st.summaries|];
       && s.id == SummaryId(st.nextSummary) && s.level == level && s.covers == covers && s.text == text
  }

  /** All that is ever written stays as it was; only who archived or absorbed it is filled in. */
  ghost predicate Preserves(st: Store, st': Store) {
    && |st.messages| <= |st'.messages| && |st.summaries| <= |st'.summaries|
    && (forall i :: 0 <= i < |st.messages| ==> SaysTheSame(st.messages[i], st'.messages[i]))
    && (forall j :: 0 <= j < |st.summaries| ==> TellsTheSame(st.summaries[j], st'.summaries[j]))
  }

  predicate SaysTheSame(m: Message, m': Message) {
    && m'.id == m.id && m'.number == m.number && m'.role == m.role && m'.content == m.content
    && (m.archivedBy.Some? ==> m'.archivedBy == m.archivedBy)
  }

  predicate TellsTheSame(s: Summary, s': Summary) {
    s' == s.(parent := s'.parent)
  }

  lemma PreservesOn(a: Store, b: Store, c: Store)
    requires Preserves(a, b) && Preserves(b, c)
    ensures Preserves(a, c)
  {
  }

  lemma TakeOverTells(st: Store, ids: seq<Id>, text: string)
    ensures Preserves(st, TakeOver(st, ids, text)) && AddsFirst(st, TakeOver(st, ids, text), 1, ids, text)
    ensures |TakeOver(st, ids, text).summaries| == |st.summaries| + 1
  {
  }

  lemma CompactTells(st: Store, k: Compaction, text: string)
    ensures Preserves(st, Compact(st, k, text)) && AddsFirst(st, Compact(st, k, text), 2, k.covers, text)
    ensures |Compact(st, k, text).summaries| == |st.summaries| + 1
  {
  }

  lemma FallbackPreserves(u: Setup, st: Store)
    ensures Preserves(st, Fallback(u, st)) && Preserves(st, AfterLevel1(u, st))
  {
    var gone := DropLast(Active(st.messages), u.config.keepLastN);
    TakeOverTells(st, Ids(gone), "(Deterministic fallback) " + Join(Digests(gone), " | "));
  }

  /**
   * An answered chunk, or an answered escalation, adds a level-1 summary of just the messages it
   * was about, whose text is the answer without scaffolding; an answered compaction a level-2 one.
   */
  lemma AnswerBecomesSummary(u: Setup, st: Store, run: Run, answer: string)
    requires !run.Between? && !run.Done?
    ensures var st' := Resume(u, st, run, Answer(answer)).store;
            match run
            case Incremental(ids) => AddsFirst(st, st', 1, ids, u.sanitize(answer))
            case Escalating(ids) => AddsFirst(st, st', 1, ids, u.sanitize(answer))
            case Compacting(k) => AddsFirst(st, st', 2, k.covers, u.sanitize(answer))
            case _ => true
  {
    match run
    case Incremental(ids) => TakeOverTells(st, ids, u.sanitize(answer));
    case Escalating(ids) =>
      var mid := TakeOver(st, ids, u.sanitize(answer));
      TakeOverTells(st, ids, u.sanitize(answer));
      FallbackPreserves(u, mid);
    case Compacting(k) => CompactTells(st, k, u.sanitize(answer));
  }

  lemma EscalationPreserves(u: Setup, st: Store, ids: seq<Id>, c: Completion)
    ensures Preserves(st, EndEscalation(u, st, ids, c))
  {
    FallbackPreserves(u, st);
    if c.Answer? {
      var mid := TakeOver(st, ids, u.sanitize(c.text));
      TakeOverTells(st, ids, u.sanitize(c.text));
      FallbackPreserves(u, mid);
      PreservesOn(st, mid, AfterLevel1(u, mid));
    }
  }

  lemma ResumePreserves(u: Setup, st: Store, run: Run, c: Completion)
    ensures Preserves(st, Resume(u, st, run, c).store)
  {
    match run
    case Incremental(ids) =>
      if c.Answer? {
        TakeOverTells(st, ids, u.sanitize(c.text));
      }
    case Compacting(k) =>
      if c.Answer? {
        CompactTells(st, k, u.sanitize(c.text));
      }
    case Between => FallbackPreserves(u, st);
    case Escalating(ids) => EscalationPreserves(u, st, ids, c);
    case Done =>
  }

  // ---- what the fallback says ----

  /** The messages a summary took out of the context. */
  function OwnedBy(ms: seq<Message>, owner: Id): seq<Message> {
    if ms == [] then []
    else OwnedBy(ms[..|ms| - 1], owner) + if ms[|ms| - 1].archivedBy == Some(owner) then [ms[|ms| - 1]] else []
  }

  /** A line names the role of a message and its opening, cut after eighty characters. */
  predicate Opens(line: string, m: Message) {
    var name := match m.role
                case User => "user"
                case Assistant => "assistant"
                case Tool => "tool"
                case System => "system";
    line == name + ": " + if |m.content| <= 80 then m.content else m.content[..80] + "..."
  }

  ghost predicate Opening(lines: seq<string>, ms: seq<Message>) {
    |lines| == |ms| && forall i :: 0 <= i < |ms| ==> Opens(lines[i], ms[i])
  }

  /** The text names every message, in order. */
  ghost predicate TellsOf(text: string, ms: seq<Message>) {
    exists lines: seq<string> :: Opening(lines, ms) && text == "(Deterministic fallback) " + Join(lines, " | ")
  }

  function Named(ms: seq<Message>, ids: seq<Id>): seq<Message> {
    if ms == [] then []
    else Named(ms[..|ms| - 1], ids) + if ms[|ms| - 1].id in ids then [ms[|ms| - 1]] else []
  }

  ghost predicate SameSayings(a: seq<Message>, b: seq<Message>) {
    |a| == |b| && forall i :: 0 <= i < |a| ==> a[i].role == b[i].role && a[i].content == b[i].content
  }

  lemma {:induction false} OwnedAfterArchive(ms: seq<Message>, ids: seq<Id>, owner: Id)
    requires forall i :: 0 <= i < |ms| ==> ms[i].archivedBy != Some(owner)
    ensures SameSayings(OwnedBy(Archive(ms, ids, owner), owner), Named(Active(ms), ids))
  {
    if ms != [] {
      var front := ms[..|ms| - 1];
      OwnedAfterArchive(front, ids, owner);
      assert Archive(ms, ids, owner)[..|ms| - 1] == Archive(front, ids, owner);
    }
  }

  lemma {:induction false} NamedPrefix(ms: seq<Message>, ids: seq<Id>, p: nat)
    requires p <= |ms| && forall i :: 0 <= i < |ms| ==> (ms[i].id in ids <==> i < p)
    ensures Named(ms, ids) == ms[..p]
  {
    if ms != [] {
      NamedPrefix(ms[..|ms| - 1], ids, if p < |ms| then p else |ms| - 1);
    }
  }

  /** Of the oldest p active messages, archiving by a new summary makes just those its own. */
  lemma OwnsTheOldest(st: Store, p: nat, text: string)
    requires Lossless(st) && p <= |Active(st.messages)|
    ensures SameSayings(OwnedBy(TakeOver(st, Ids(Active(st.messages)[..p]), text).messages, SummaryId(st.nextSummary)),
                        Active(st.messages)[..p])
  {
    var active := Active(st.messages);
    var ids := Ids(active[..p]);
    IdsAreUnique(st);
    ActiveDistinct(st.messages);
    forall i | 0 <= i < |active|
      ensures active[i].id in ids <==> i < p
    {
      if i < p {
        assert ids[i] == active[i].id;
      }
    }
    NamedPrefix(active, ids, p);
    forall i | 0 <= i < |st.messages|
      ensures st.messages[i].archivedBy != Some(SummaryId(st.nextSummary))
    {
      assert Kept(st, st.messages[i]);
    }
    OwnedAfterArchive(st.messages, ids, SummaryId(st.nextSummary));
  }

  lemma OpeningOf(a: seq<Message>, b: seq<Message>, text: string)
    requires SameSayings(a, b) && TellsOf(text, b)
    ensures TellsOf(text, a)
  {
    var lines: seq<string> :| Opening(lines, b) && text == "(Deterministic fallback) " + Join(lines, " | ");
    assert Opening(lines, a);
  }

  lemma DigestsTell(ms: seq<Message>)
    ensures TellsOf("(Deterministic fallback) " + Join(Digests(ms), " | "), ms)
  {
    assert Opening(Digests(ms), ms);
  }

  lemma FallbackTells(u: Setup, st: Store)
    requires Lossless(st) && |Fallback(u, st).summaries| > |st.summaries|
    ensures var st' := Fallback(u, st);
            && |st'.summaries| == |st.summaries| + 1
            && TellsOf(st'.summaries[|st.summaries|].text, OwnedBy(st'.messages, st'.summaries[|st.summaries|].id))
  {
    var active, n := Active(st.messages), u.config.keepLastN;
    var p := if n == 0 then 0 else |active| - n;
    assert DropLast(active, n) == active[..p];
    var text := "(Deterministic fallback) " + Join(Digests(active[..p]), " | ");
    OwnsTheOldest(st, p, text);
    DigestsTell(active[..p]);
    OpeningOf(OwnedBy(TakeOver(st, Ids(active[..p]), text).messages, SummaryId(st.nextSummary)), active[..p], text);
  }

  /**
   * A summary that a stretch adds beside the answer's is the fallback's: its text names, in order,
   * the role and the opening of each message it archived.
   */
  lemma FallbackSummaryTells(u: Setup, st: Store, run: Run, c: Completion)
    requires Lossless(st) && (run.Between? || run.Escalating?)
    requires var answered := if run.Escalating? && c.Answer? then 1 else 0;
             |Resume(u, st, run, c).store.summaries| > |st.summaries| + answered
    ensures var st' := Resume(u, st, run, c).store;
            var s := st'.summaries[|st'.summaries| - 1];
            TellsOf(s.text, OwnedBy(st'.messages, s.id))
  {
    if run.Escalating? && c.Answer? {
      AnsweredThenFallback(u, st, run.ids, c.text);
    } else {
      OnlyFallback(u, st, run, c);
    }
  }

  lemma OnlyFallback(u: Setup, st: Store, run: Run, c: Completion)
    requires Lossless(st) && (run.Between? || (run.Escalating? && !c.Answer?))
    requires |Resume(u, st, run, c).store.summaries| > |st.summaries|
    ensures var st' := Resume(u, st, run, c).store;
            var s := st'.summaries[|st'.summaries| - 1];
            TellsOf(s.text, OwnedBy(st'.messages, s.id))
  {
    assert Resume(u, st, run, c).store == Fallback(u, st);
    FallbackTells(u, st);
  }

  lemma AnsweredThenFallback(u: Setup, st: Store, ids: seq<Id>, answer: string)
    requires Lossless(st) && |Resume(u, st, Escalating(ids), Answer(answer)).store.summaries| > |st.summaries| + 1
    ensures var st' := Resume(u, st, Escalating(ids), Answer(answer)).store;
            var s := st'.summaries[|st'.summaries| - 1];
            TellsOf(s.text, OwnedBy(st'.messages, s.id))
  {
    ArchiveKeeps(st, ids, u.sanitize(answer));
    FallbackTells(u, TakeOver(st, ids, u.sanitize(answer)));
  }

  // ---- over every history ----

  lemma NextPreserves(u: Setup, x: Session, ev: Event)
    ensures Preserves(x.store, Next(u, x, ev).store)
  {
    if ev.Settle? && ev.r in x.runs {
      ResumePreserves(u, x.store, x.runs[ev.r], ev.completion);
    }
  }

  /**
   * Nothing on record is rewritten: however a history goes on, messages keep their identifier,
   * role and text, and whoever archived them, and summaries their identifier, level, covers, range and text.
   */
  lemma {:induction false} RecordsStay(u: Setup, x: Session, events: seq<Event>)
    ensures Preserves(x.store, Play(u, x, events).store)
  {
    if events != [] {
      var front := events[..|events| - 1];
      RecordsStay(u, x, front);
      NextPreserves(u, Play(u, x, front), events[|events| - 1]);
      PreservesOn(x.store, Play(u, x, front).store, Play(u, x, events).store);
    }
  }

  /** Who said what. */
  function Sayings(ms: seq<Message>): seq<(Role, string)> {
    seq(|ms|, i requires 0 <= i < |ms| => (ms[i].role, ms[i].content))
  }

  function Arrivals(events: seq<Event>): seq<(Role, string)> {
    if events == [] then []
    else
      Arrivals(events[..|events| - 1])
      + match events[|events| - 1]
        case Arrive(role, content) => [(role, content)]
        case _ => []
  }

  /** The log is what arrived, in order, word for word, whatever maintenance has done. */
  lemma {:induction false} LogIsWhatArrived(u: Setup, events: seq<Event>)
    ensures Sayings(Play(u, START, events).store.messages) == Arrivals(events)
  {
    if events != [] {
      var front, ev := events[..|events| - 1], events[|events| - 1];
      var x := Play(u, START, front);
      LogIsWhatArrived(u, front);
      NextPreserves(u, x, ev);
      NextAddsMessages(u, x, ev);
    } else {
      assert Sayings(START.store.messages) == [];
    }
  }

  lemma NextAddsMessages(u: Setup, x: Session, ev: Event)
    ensures Sayings(Next(u, x, ev).store.messages)
         == Sayings(x.store.messages) + match ev
                                        case Arrive(role, content) => [(role, content)]
                                        case _ => []
  {
    NextPreserves(u, x, ev);
    if ev.Settle? && ev.r in x.runs {
      ResumeAddsNoMessage(u, x.store, x.runs[ev.r], ev.completion);
    }
  }

  lemma ResumeAddsNoMessage(u: Setup, st: Store, run: Run, c: Completion)
    ensures |Resume(u, st, run, c).store.messages| == |st.messages|
  {
  }

  /** Some completion of the history gave this text, or the fallback made it. */
  ghost predicate Sourced(u: Setup, events: seq<Event>, text: string) {
    || "(Deterministic fallback) " <= text
    || exists i :: 0 <= i < |events| && events[i].Settle? && AnswersWith(u, events[i].completion, text)
  }

  predicate AnswersWith(u: Setup, c: Completion, text: string) {
    c.Answer? && text == u.sanitize(c.text)
  }

  lemma FallbackIsMarked(u: Setup, st: Store, j: nat)
    ensures |st.summaries| <= j < |Fallback(u, st).summaries| ==>
              "(Deterministic fallback) " <= Fallback(u, st).summaries[j].text
    ensures |st.summaries| <= j < |AfterLevel1(u, st).summaries| ==>
              "(Deterministic fallback) " <= AfterLevel1(u, st).summaries[j].text
  {
  }

  lemma EscalationTextsAreSourced(u: Setup, st: Store, ids: seq<Id>, c: Completion, j: nat)
    requires |st.summaries| <= j < |EndEscalation(u, st, ids, c).summaries|
    ensures var text := EndEscalation(u, st, ids, c).summaries[j].text;
            "(Deterministic fallback) " <= text || AnswersWith(u, c, text)
  {
    if c.Answer? {
      var mid := TakeOver(st, ids, u.sanitize(c.text));
      TakeOverTells(st, ids, u.sanitize(c.text));
      FallbackIsMarked(u, mid, j);
      FallbackPreserves(u, mid);
    } else {
      FallbackIsMarked(u, st, j);
    }
  }

  lemma NewTextsAreSourced(u: Setup, st: Store, run: Run, c: Completion, j: nat)
    requires |st.summaries| <= j < |Resume(u, st, run, c).store.summaries|
    ensures var text := Resume(u, st, run, c).store.summaries[j].text;
            "(Deterministic fallback) " <= text || AnswersWith(u, c, text)
  {
    match run
    case Escalating(ids) => EscalationTextsAreSourced(u, st, ids, c, j);
    case Between => FallbackIsMarked(u, st, j);
    case Incremental(ids) => TakeOverTells(st, ids, u.sanitize(c.text));
    case Compacting(k) => CompactTells(st, k, u.sanitize(c.text));
  }

  /** Every summary text is the answer of some completion, without scaffolding, or the fallback's. */
  lemma {:induction false} TextsAreSourced(u: Setup, events: seq<Event>, j: nat)
    requires j < |Play(u, START, events).store.summaries|
    ensures Sourced(u, events, Play(u, START, events).store.summaries[j].text)
  {
    if events != [] {
      var front, ev := events[..|events| - 1], events[|events| - 1];
      var x := Play(u, START, front);
      NextPreserves(u, x, ev);
      if j < |x.store.summaries| {
        TextsAreSourced(u, front, j);
        SourcedLater(u, front, ev, x.store.summaries[j].text);
        assert events == front + [ev];
      } else {
        NewTextsAreSourced(u, x.store, x.runs[ev.r], ev.completion, j);
        assert events[|front|] == ev;
      }
    }
  }

  lemma SourcedLater(u: Setup, front: seq<Event>, ev: Event, text: string)
    requires Sourced(u, front, text)
    ensures Sourced(u, front + [ev], text)
  {
    if i :| 0 <= i < |front| && front[i].Settle? && AnswersWith(u, front[i].completion, text) {
      assert (front + [ev])[i] == front[i];
    }
  }
}
