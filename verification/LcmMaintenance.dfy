/**
 * Background maintenance of the context store, cut at its awaits: what each stretch of code
 * between two awaits does to the store, as functions and as methods on the mutable store.
 */
module LcmMaintenance {
  import opened Outcomes
  import opened LcmStore
  import opened LcmContext

  datatype Config = Config(softThreshold: nat, hardThreshold: nat, keepLastN: nat, chunkSize: nat)

  /** What stays fixed: the settings, the prompt, the token estimate and the scaffolding filter. */
  datatype Setup = Setup(config: Config, prompt: string, estimate: string -> nat, sanitize: string -> string)

  /** How an awaited completion ends: it throws, answers nothing, or answers. */
  datatype Completion = Failed | Empty | Answer(text: string)

  function Ids(ms: seq<Message>): seq<Id> {
    seq(|ms|, i requires 0 <= i < |ms| => ms[i].id)
  }

  /** The oldest active messages, when there are more than the working set may hold. */
  function ChunkOf(c: Config, st: Store): Option<seq<Id>> {
    var active := Active(st.messages);
    if |active| <= c.keepLastN + c.chunkSize then None else Some(Ids(active[..c.chunkSize]))
  }

  /** A new level-1 summary takes the messages that are still active out of the context. */
  function TakeOver(st: Store, ids: seq<Id>, text: string): Store {
    AddSummary(st, 1, ids, text).(messages := Archive(st.messages, ids, SummaryId(st.nextSummary)))
  }

  /** Which summaries are to be absorbed, and everything they cover. */
  datatype Compaction = Compaction(nodes: seq<Id>, covers: seq<Id>)

  function OfLevel(ss: seq<Summary>, level: nat): seq<Summary> {
    if ss == [] then []
    else
      var front := OfLevel(ss[..|ss| - 1], level);
      if ss[|ss| - 1].level == level then front + [ss[|ss| - 1]] else front
  }

  function SummaryIds(ss: seq<Summary>): seq<Id> {
    seq(|ss|, i requires 0 <= i < |ss| => ss[i].id)
  }

  function AllCovers(ss: seq<Summary>): seq<Id> {
    if ss == [] then [] else AllCovers(ss[..|ss| - 1]) + ss[|ss| - 1].covers
  }

  /** With three or more visible level-1 summaries, all but the latest. */
  function CompactionOf(st: Store): Option<Compaction> {
    var level1 := SortByStart(OfLevel(Visible(st.summaries), 1));
    if |level1| < 3 then None
    else var older := level1[..|level1| - 1]; Some(Compaction(SummaryIds(older), AllCovers(older)))
  }

  function Compact(st: Store, c: Compaction, text: string): Store {
    var st' := AddSummary(st, 2, c.covers, text);
    st'.(summaries := Consume(st'.summaries, c.nodes, SummaryId(st.nextSummary)))
  }

  /** active.slice(0, -n): for n = 0 JavaScript returns the empty array. */
  function DropLast<T>(xs: seq<T>, n: nat): seq<T> {
    if n == 0 || |xs| <= n then [] else xs[..|xs| - n]
  }

  function ContextTokens(u: Setup, st: Store): nat {
    Tokens(u.estimate, Assemble(st, u.prompt, 0))
  }

  function RoleName(r: Role): string {
    match r case User => "user" case Assistant => "assistant" case Tool => "tool" case System => "system"
  }

  function Digest(m: Message): string {
    RoleName(m.role) + ": " + if |m.content| > 80 then m.content[..80] + "..." else m.content
  }

  function Digests(ms: seq<Message>): seq<string> {
    seq(|ms|, i requires 0 <= i < |ms| => Digest(ms[i]))
  }

  /** Level 2: a summary made without the model takes over all but the newest messages. */
  function Fallback(u: Setup, st: Store): Store {
    var active := Active(st.messages);
    if |active| <= u.config.keepLastN then st
    else
      var gone := DropLast(active, u.config.keepLastN);
      TakeOver(st, Ids(gone), "(Deterministic fallback) " + Join(Digests(gone), " | "))
  }

  /** The rest of the escalation once level 1 has ended without throwing. */
  function AfterLevel1(u: Setup, st: Store): Store {
    if ContextTokens(u, st) < u.config.hardThreshold then st else Fallback(u, st)
  }

  // ---- one maintenance run, as a little machine ----

  datatype Run =
    | Incremental(ids: seq<Id>)          // awaiting a summary of these messages
    | Compacting(compaction: Compaction)     // awaiting a summary of these summaries
    | Between                                // incremental summarisation is over
    | Escalating(ids: seq<Id>)           // awaiting a summary of everything but the newest
    | Done

  datatype Progress = Progress(store: Store, run: Run)

  function Begin(u: Setup, st: Store): Run {
    if |st.messages| <= 4 then Done
    else match ChunkOf(u.config, st)
      case None => Between
      case Some(ids) => Incremental(ids)
  }

  function AfterChunk(st: Store): Run {
    match CompactionOf(st)
    case None => Between
    case Some(c) => Compacting(c)
  }

  function Escalate(u: Setup, st: Store): Progress {
    if ContextTokens(u, st) < u.config.softThreshold then Progress(st, Done)
    else
      var ids := Ids(DropLast(Active(st.messages), u.config.keepLastN));
      if |ids| >= 2 then Progress(st, Escalating(ids)) else Progress(AfterLevel1(u, st), Done)
  }

  function EndEscalation(u: Setup, st: Store, ids: seq<Id>, c: Completion): Store {
    match c
    case Failed => Fallback(u, st)
    case Empty => AfterLevel1(u, st)
    case Answer(text) => AfterLevel1(u, TakeOver(st, ids, u.sanitize(text)))
  }

  /** The stretch that follows an await, or, between the two stages, the one that starts the second. */
  function Resume(u: Setup, st: Store, run: Run, c: Completion): Progress {
    match run
    case Incremental(ids) =>
      if c.Answer? then
        var st' := TakeOver(st, ids, u.sanitize(c.text));
        Progress(st', AfterChunk(st'))
      else Progress(st, Between)
    case Compacting(k) => Progress(if c.Answer? then Compact(st, k, u.sanitize(c.text)) else st, Between)
    case Between => Escalate(u, st)
    case Escalating(ids) => Progress(EndEscalation(u, st, ids, c), Done)
    case Done => Progress(st, Done)
  }

  // ---- the same stretches on the mutable store ----

  method CommitChunk(store: LCMStore, ids: seq<Id>, text: string)
    modifies store
    ensures store.State() == TakeOver(old(store.State()), ids, text)
  {
    var node := store.AddSummaryNode(1, ids, text);
    store.ArchiveMessages(ids, node.id);
  }

  method CommitCompaction(store: LCMStore, c: Compaction, text: string)
    modifies store
    ensures store.State() == Compact(old(store.State()), c, text)
  {
    var node := store.AddSummaryNode(2, c.covers, text);
    store.ConsumeSummaries(c.nodes, node.id);
  }

  method RunFallback(u: Setup, store: LCMStore)
    modifies store
    ensures store.State() == Fallback(u, old(store.State()))
  {
    var active := Active(store.messages);
    if |active| > u.config.keepLastN {
      var gone := DropLast(active, u.config.keepLastN);
      CommitChunk(store, Ids(gone), "(Deterministic fallback) " + Join(Digests(gone), " | "));
    }
  }

  method FinishEscalation(u: Setup, store: LCMStore)
    modifies store
    ensures store.State() == AfterLevel1(u, old(store.State()))
  {
    var chats := AssembleContext(store.State(), u.prompt, 0);
    if Tokens(u.estimate, chats) >= u.config.hardThreshold {
      RunFallback(u, store);
    }
  }

  /** Runs one stretch of a maintenance run on the store and returns where the run then waits. */
  method ResumeRun(u: Setup, store: LCMStore, run: Run, c: Completion) returns (run': Run)
    modifies store
    ensures Progress(store.State(), run') == Resume(u, old(store.State()), run, c)
  {
    match run {
      case Incremental(ids) =>
        if !c.Answer? {
          return Between;
        }
        CommitChunk(store, ids, u.sanitize(c.text));
        var compaction := CompactionOf(store.State());
        run' := if compaction.Some? then Compacting(compaction.value) else Between;
      case Compacting(k) =>
        if c.Answer? {
          CommitCompaction(store, k, u.sanitize(c.text));
        }
        run' := Between;
      case Between =>
        var chats := AssembleContext(store.State(), u.prompt, 0);
        if Tokens(u.estimate, chats) < u.config.softThreshold {
          return Done;
        }
        var ids := Ids(DropLast(Active(store.messages), u.config.keepLastN));
        if |ids| >= 2 {
          return Escalating(ids);
        }
        FinishEscalation(u, store);
        run' := Done;
      case Escalating(ids) =>
        if c.Failed? {
          RunFallback(u, store);
        } else {
          if c.Answer? {
            CommitChunk(store, ids, u.sanitize(c.text));
          }
          FinishEscalation(u, store);
        }
        run' := Done;
      case Done =>
        run' := Done;
    }
  }

  // ---- the session: one log, any number of runs in flight ----

  datatype Session = Session(store: Store, runs: map<nat, Run>)

  /** Messages arrive, runs start, a run's await ends, or the store is reloaded from its saved data. */
  datatype Event =
    | Arrive(role: Role, content: string)
    | Start(r: nat)
    | Settle(r: nat, completion: Completion)
    | Reload

  function Next(u: Setup, x: Session, ev: Event): Session {
    match ev
    case Arrive(role, content) => x.(store := Append(x.store, role, content))
    case Start(r) => if r in x.runs then x else x.(runs := x.runs[r := Begin(u, x.store)])
    case Settle(r, c) =>
      if r !in x.runs then x
      else
        var p := Resume(u, x.store, x.runs[r], c);
        Session(p.store, if p.run.Done? then x.runs - {r} else x.runs[r := p.run])
    case Reload => Session(Restore(x.store.messages, x.store.summaries), map[])
  }

  function Play(u: Setup, x: Session, events: seq<Event>): Session {
    if events == [] then x else Next(u, Play(u, x, events[..|events| - 1]), events[|events| - 1])
  }

  const START := Session(EMPTY, map[])
}
