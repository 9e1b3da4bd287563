/** Concurrent calls on a key amount to running them one by one in the order in which they take effect. */
module RouterLinearizable {
  import opened Outcomes
  import opened RouterOps
  import opened RouterLocks

  // ---- one key: its value, and whether the key index lists it ----

  datatype Cell = Cell(value: Option<Value>, indexed: bool)

  function CellAt(w: World, key: string, c: string): Cell {
    Cell(Stored(w, key), key in IndexOf(w, c))
  }

  /** What get() leaves of the index entry: a plain one that takes effect does so by clearing it. */
  function Cleaned(op: Op, cell: Cell): Cell {
    if op.Get? || (ByGet(op) && Existing(op, cell.value).None?) then cell.(indexed := false) else cell
  }

  /** What a task writes to its own key: nothing when it throws or only reads, or when its result splits. */
  function WrittenBy(task: Task, value: Option<Value>): Option<Value> {
    var existing := Existing(task.op, value);
    if Committed(task, existing).IndexWait? then Perform(task.op, existing) else None
  }

  /** The whole effect of a task on its own key. */
  function After(task: Task, cell: Cell): Cell {
    var v := WrittenBy(task, cell.value);
    if v.Some? then Cell(v, true) else Cleaned(task.op, cell)
  }

  /** The tasks of order that work on key, one after the other. */
  function Serially(tasks: seq<Task>, order: seq<nat>, key: string, cell: Cell): Cell {
    if order == [] then cell
    else
      var before, t := Serially(tasks, order[..|order| - 1], key, cell), order[|order| - 1];
      if t < |tasks| && KeyOf(tasks[t]) == key then After(tasks[t], before) else before
  }

  lemma SeriallyMore(tasks: seq<Task>, order: seq<nat>, t: nat, key: string, cell: Cell)
    requires t < |tasks|
    ensures var before := Serially(tasks, order, key, cell);
            Serially(tasks, order + [t], key, cell)
            == if KeyOf(tasks[t]) == key then After(tasks[t], before) else before
  {
    assert (order + [t])[..|order|] == order;
  }

  // ---- the same, with the task that is at work as far as it has got ----

  /** A task at work: it holds its data lock and has not taken effect. */
  predicate Open(s: Stage) {
    HoldsData(s) && !s.Finishing?
  }

  function SoFar(task: Task, s: Stage, cell: Cell): Cell {
    match s
    case Loaded(_) => Cleaned(task.op, cell)
    case IndexWait => Cell(WrittenBy(task, cell.value), Cleaned(task.op, cell).indexed)
    case IndexHold(_) => Cell(WrittenBy(task, cell.value), Cleaned(task.op, cell).indexed)
    case Spreading(_) => Cleaned(task.op, cell)
    case SpreadWait(_, _) => Cleaned(task.op, cell)
    case SpreadHold(_, _, _) => Cleaned(task.op, cell)
    case _ => cell
  }

  /** What a task at work knows of its key is still so. */
  predicate Fits(task: Task, s: Stage, cell: Cell) {
    match s
    case Checking => ByGet(task.op) && Existing(task.op, cell.value).None?
    case CleanWait => ByGet(task.op) && Existing(task.op, cell.value).None?
    case CleanHold(_) => ByGet(task.op) && Existing(task.op, cell.value).None?
    case Loaded(existing) => existing == Existing(task.op, cell.value) && Cleaned(task.op, cell) == cell
    case IndexWait => cell.value.Some?
    case IndexHold(_) => cell.value.Some?
    case Spreading(_) => WrittenBy(task, cell.value).None?
    case SpreadWait(_, _) => WrittenBy(task, cell.value).None?
    case SpreadHold(_, _, _) => WrittenBy(task, cell.value).None?
    case _ => true
  }

  /** What a move does to the task's own cell. */
  function OwnCell(task: Task, s: Stage, cell: Cell): Cell {
    match s
    case Loaded(existing) =>
      if Committed(task, existing).IndexWait? then cell.(value := Perform(task.op, existing)) else cell
    case CleanHold(_) => cell.(indexed := false)
    case IndexHold(_) => cell.(indexed := true)
    case PeekHold(_) => cell.(indexed := false)
    case _ => cell
  }

  /** Only readers peek, and they do nothing else. */
  predicate Apt(task: Task, s: Stage) {
    if task.op.Get? then s.Waiting? || Peeks(s) || s.Done? else !Peeks(s)
  }

  /** A move keeps a task at work in line with what came before it, to its full effect in the end. */
  lemma OwnMoveIsReplayed(task: Task, s: Stage, cell: Cell, index: set<string>, before: Cell)
    requires Open(s) && Apt(task, s) && Fits(task, s, cell) && cell == SoFar(task, s, before)
    requires KeyOf(task) in index <==> cell.indexed
    ensures var s', cell' := Following(task, s, cell.value, index), OwnCell(task, s, cell);
            if s'.Finishing? then cell' == After(task, before)
            else Open(s') && Fits(task, s', cell') && cell' == SoFar(task, s', before)
  {
  }

  /** A reader that clears the entry meanwhile might as well have come before. */
  lemma ReaderMightHaveComeBefore(task: Task, s: Stage, cell: Cell, before: Cell)
    requires Open(s) && Apt(task, s) && Fits(task, s, cell) && cell == SoFar(task, s, before)
    ensures var cell', before' := cell.(indexed := false), before.(indexed := false);
            Fits(task, s, cell') && cell' == SoFar(task, s, before')
  {
  }

  // ---- what a move does to a cell of the world ----

  /** Whoever holds an index lock has loaded the index as it is, and has a spread key noted. */
  predicate Fresh(w: World, task: Task, s: Stage) {
    match s
    case CleanHold(loaded) => loaded == IndexOf(w, task.path.collection)
    case IndexHold(loaded) => loaded == IndexOf(w, task.path.collection)
    case SpreadWait(k, _) => k in w.spread
    case SpreadHold(k, _, loaded) => k in w.spread && loaded == IndexOf(w, task.path.collection)
    case PeekHold(loaded) => loaded == IndexOf(w, task.path.collection)
    case _ => true
  }

  lemma MoveValue(w: World, task: Task, t: nat, key: string)
    requires t < |w.stages| && key !in Move(w, task, t).spread
    ensures Stored(Move(w, task, t), key)
         == if KeyOf(task) == key then OwnCell(task, w.stages[t], Cell(Stored(w, key), false)).value else Stored(w, key)
  {
    match w.stages[t]
    case Waiting =>
    case Loaded(_) =>
    case Spreading(_) =>
    case _ =>
  }

  lemma MoveIndexed(w: World, task: Task, t: nat, key: string, c: string)
    requires t < |w.stages| && Fresh(w, task, w.stages[t]) && key !in Move(w, task, t).spread
    requires KeyOf(task) == key ==> task.path.collection == c
    ensures key in IndexOf(Move(w, task, t), c)
       <==> (if KeyOf(task) == key then OwnCell(task, w.stages[t], CellAt(w, key, c)).indexed else key in IndexOf(w, c))
  {
  }

  lemma OwnMove(w: World, task: Task, t: nat, key: string)
    requires t < |w.stages| && KeyOf(task) == key && Fresh(w, task, w.stages[t])
    requires key !in Move(w, task, t).spread
    ensures var c := task.path.collection;
            CellAt(Move(w, task, t), key, c) == OwnCell(task, w.stages[t], CellAt(w, key, c))
  {
    MoveValue(w, task, t, key);
    MoveIndexed(w, task, t, key, task.path.collection);
  }

  lemma OtherMove(w: World, task: Task, t: nat, key: string, c: string)
    requires t < |w.stages| && KeyOf(task) != key && Fresh(w, task, w.stages[t])
    requires key !in Move(w, task, t).spread
    ensures CellAt(Move(w, task, t), key, c) == CellAt(w, key, c)
  {
    MoveValue(w, task, t, key);
    MoveIndexed(w, task, t, key, c);
  }

  lemma SpreadGrows(w: World, task: Task, t: nat)
    requires t < |w.stages|
    ensures w.spread <= Move(w, task, t).spread
  {
  }

  lemma OwnMoveIsFresh(w: World, task: Task, t: nat)
    requires t < |w.stages| && Fresh(w, task, w.stages[t])
    ensures Fresh(Move(w, task, t), task, StageAfter(w, task, t))
  {
  }

  lemma IndexMove(w: World, task: Task, t: nat, c: string)
    requires t < |w.stages| && (c != task.path.collection || !HoldsIndex(w.stages[t]))
    ensures IndexOf(Move(w, task, t), c) == IndexOf(w, c)
  {
    match w.stages[t]
    case Waiting =>
    case Loaded(_) =>
    case Spreading(_) =>
    case _ =>
  }

  // ---- what every step keeps ----

  /** The effects list each task once it has taken effect; of the readers, only those that do. */
  ghost predicate Listing(tasks: seq<Task>, w: World) {
    && |tasks| == |w.stages|
    && (forall i :: 0 <= i < |w.effects| ==> w.effects[i] < |tasks|)
    && (forall i, j :: 0 <= i < j < |w.effects| ==> w.effects[i] != w.effects[j])
    && (forall t :: 0 <= t < |tasks| && t in w.effects ==> w.stages[t].Finishing? || w.stages[t].Done?)
    && (forall t :: 0 <= t < |tasks| && !tasks[t].op.Get? && (w.stages[t].Finishing? || w.stages[t].Done?) ==>
          t in w.effects)
  }

  ghost predicate AllFresh(tasks: seq<Task>, w: World) {
    && |tasks| == |w.stages|
    && forall t :: 0 <= t < |tasks| ==> Fresh(w, tasks[t], w.stages[t]) && Apt(tasks[t], w.stages[t])
  }

  ghost predicate Inv(tasks: seq<Task>, w: World) {
    Exclusive(tasks, w.locks, w.stages) && Listing(tasks, w) && AllFresh(tasks, w)
  }

  /** All tasks on key are of one collection, hence share its lock. */
  ghost predicate OneCollection(tasks: seq<Task>, key: string, c: string) {
    forall t :: 0 <= t < |tasks| && KeyOf(tasks[t]) == key ==> tasks[t].path.collection == c
  }

  /** Nobody is at work on key. */
  ghost predicate Idle(tasks: seq<Task>, stages: seq<Stage>, key: string)
    requires |tasks| == |stages|
  {
    forall t :: 0 <= t < |tasks| && KeyOf(tasks[t]) == key ==> !Open(stages[t])
  }

  /** The cell is what the effects so far have made of it, and as far as the task at work has got. */
  ghost predicate InStep(tasks: seq<Task>, w: World, key: string, c: string, start: Cell)
    requires |tasks| == |w.stages|
  {
    var before, cell := Serially(tasks, w.effects, key, start), CellAt(w, key, c);
    && (Idle(tasks, w.stages, key) ==> cell == before)
    && forall t :: 0 <= t < |tasks| && KeyOf(tasks[t]) == key && Open(w.stages[t]) ==>
         Fits(tasks[t], w.stages[t], cell) && cell == SoFar(tasks[t], w.stages[t], before)
  }

  /** The tasks of order that take a lock for key. */
  function Turns(tasks: seq<Task>, order: seq<nat>, key: string): seq<nat> {
    if order == [] then []
    else
      var front, t := Turns(tasks, order[..|order| - 1], key), order[|order| - 1];
      if t < |tasks| && KeyOf(tasks[t]) == key && !tasks[t].op.Get? then front + [t] else front
  }

  lemma TurnsMore(tasks: seq<Task>, order: seq<nat>, t: nat, key: string)
    requires t < |tasks|
    ensures Turns(tasks, order + [t], key)
         == Turns(tasks, order, key) + if KeyOf(tasks[t]) == key && !tasks[t].op.Get? then [t] else []
  {
    assert (order + [t])[..|order|] == order;
  }

  /** On one key, tasks take effect in the order of their locks. */
  ghost predicate InTurn(tasks: seq<Task>, w: World, key: string)
    requires |tasks| == |w.stages|
  {
    && (Idle(tasks, w.stages, key) ==> Turns(tasks, w.order, key) == Turns(tasks, w.effects, key))
    && forall t :: 0 <= t < |tasks| && KeyOf(tasks[t]) == key && Open(w.stages[t]) ==>
         Turns(tasks, w.order, key) == Turns(tasks, w.effects, key) + [t]
  }

  lemma StepKeepsListing(tasks: seq<Task>, w: World, t: nat)
    requires Listing(tasks, w) && AllFresh(tasks, w) && t < |tasks| && CanStep(tasks, w, t)
    ensures Listing(tasks, Step(tasks, w, t))
  {
    MoveStages(w, tasks[t], t);
    MoveOrder(w, tasks[t], t);
    EffectIsListed(tasks[t], w.stages[t], Stored(w, KeyOf(tasks[t])), IndexOf(w, tasks[t].path.collection));
    ListingOnwards(tasks, w, Step(tasks, w, t), t, StageAfter(w, tasks[t], t));
  }

  lemma EffectIsListed(task: Task, s: Stage, stored: Option<Value>, index: set<string>)
    requires Apt(task, s) && !s.Done?
    ensures var s' := Following(task, s, stored, index);
            && Apt(task, s')
            && (TakesEffect(s, s') ==> !s.Finishing? && (s'.Finishing? || s'.Done?))
            && (s.Finishing? ==> s'.Done?)
            && (!TakesEffect(s, s') && !task.op.Get? && (s'.Finishing? || s'.Done?) ==> s.Finishing?)
  {
  }

  lemma ListingOnwards(tasks: seq<Task>, w: World, w': World, t: nat, s': Stage)
    requires Listing(tasks, w) && t < |tasks| && w'.stages == w.stages[t := s'] && !w.stages[t].Done?
    requires var s := w.stages[t];
             && w'.effects == (if TakesEffect(s, s') then w.effects + [t] else w.effects)
             && (TakesEffect(s, s') ==> !s.Finishing? && (s'.Finishing? || s'.Done?))
             && (s.Finishing? ==> s'.Done?)
             && (!TakesEffect(s, s') && !tasks[t].op.Get? && (s'.Finishing? || s'.Done?) ==> s.Finishing?)
    ensures Listing(tasks, w')
  {
    forall u | 0 <= u < |tasks|
      ensures u in w'.effects <==> u in w.effects || (u == t && TakesEffect(w.stages[t], s'))
    {
    }
  }

  lemma SameIndexLock(p: Path, q: Path)
    ensures p.collection == q.collection ==> IndexLock(p) == IndexLock(q)
  {
  }

  lemma IndexHoldersDiffer(tasks: seq<Task>, w: World, t: nat, u: nat)
    requires Exclusive(tasks, w.locks, w.stages) && t < |tasks| && u < |tasks| && t != u
    requires HoldsIndex(w.stages[t]) && HoldsIndex(w.stages[u])
    ensures tasks[t].path.collection != tasks[u].path.collection
  {
    SameIndexLock(tasks[t].path, tasks[u].path);
  }

  lemma StillFresh(w: World, w': World, task: Task, s: Stage)
    requires Fresh(w, task, s) && w.spread <= w'.spread
    requires HoldsIndex(s) ==> IndexOf(w', task.path.collection) == IndexOf(w, task.path.collection)
    ensures Fresh(w', task, s)
  {
  }

  lemma StepKeepsFresh(tasks: seq<Task>, w: World, t: nat)
    requires Exclusive(tasks, w.locks, w.stages) && AllFresh(tasks, w) && t < |tasks| && CanStep(tasks, w, t)
    ensures AllFresh(tasks, Step(tasks, w, t))
  {
    var w' := Step(tasks, w, t);
    MoveStages(w, tasks[t], t);
    SpreadGrows(w, tasks[t], t);
    OwnMoveIsFresh(w, tasks[t], t);
    EffectIsListed(tasks[t], w.stages[t], Stored(w, KeyOf(tasks[t])), IndexOf(w, tasks[t].path.collection));
    forall u | 0 <= u < |tasks| && u != t
      ensures Fresh(w', tasks[u], w'.stages[u])
    {
      if HoldsIndex(w.stages[u]) {
        if HoldsIndex(w.stages[t]) {
          IndexHoldersDiffer(tasks, w, t, u);
        }
        IndexMove(w, tasks[t], t, tasks[u].path.collection);
      }
      StillFresh(w, w', tasks[u], w.stages[u]);
    }
  }

  lemma StepKeepsInv(tasks: seq<Task>, w: World, t: nat)
    requires Inv(tasks, w) && t < |tasks|
    ensures Inv(tasks, Step(tasks, w, t))
  {
    if CanStep(tasks, w, t) {
      StepKeepsExclusive(tasks, w, t);
      StepKeepsListing(tasks, w, t);
      StepKeepsFresh(tasks, w, t);
    }
  }

  /** Two holders never work on one key. */
  lemma HoldersHaveDifferentKeys(tasks: seq<Task>, w: World, t: nat, u: nat, key: string, c: string)
    requires OneCollection(tasks, key, c) && Exclusive(tasks, w.locks, w.stages) && t < |tasks| && u < |tasks| && t != u
    requires KeyOf(tasks[t]) == key && KeyOf(tasks[u]) == key && HoldsData(w.stages[t])
    ensures !HoldsData(w.stages[u])
  {
    assert DataLock(tasks[t].path) == DataLock(tasks[u].path);
  }

  /** The lock was free, so nobody holds it for the same key. */
  lemma NewcomerIsAlone(tasks: seq<Task>, w: World, t: nat, u: nat, key: string, c: string)
    requires OneCollection(tasks, key, c) && Exclusive(tasks, w.locks, w.stages) && t < |tasks| && u < |tasks|
    requires w.stages[t].Waiting? && !tasks[t].op.Get? && CanStep(tasks, w, t)
    requires KeyOf(tasks[t]) == key && KeyOf(tasks[u]) == key
    ensures !HoldsData(w.stages[u])
  {
    assert DataLock(tasks[t].path) == DataLock(tasks[u].path);
  }

  lemma HolderIsAlone(tasks: seq<Task>, w: World, t: nat, s': Stage, key: string, c: string)
    requires OneCollection(tasks, key, c) && Exclusive(tasks, w.locks, w.stages) && t < |tasks|
    requires KeyOf(tasks[t]) == key && HoldsData(w.stages[t])
    ensures forall u :: 0 <= u < |tasks| && KeyOf(tasks[u]) == key && u != t ==> !Open(w.stages[u])
    ensures Idle(tasks, w.stages[t := s'], key) <==> !Open(s')
  {
    forall u | 0 <= u < |tasks| && KeyOf(tasks[u]) == key && u != t
      ensures !Open(w.stages[u])
    {
      HoldersHaveDifferentKeys(tasks, w, t, u, key, c);
    }
  }

  lemma NewcomerFindsIdle(tasks: seq<Task>, w: World, t: nat, s': Stage, key: string, c: string)
    requires OneCollection(tasks, key, c) && Exclusive(tasks, w.locks, w.stages) && t < |tasks|
    requires w.stages[t].Waiting? && !tasks[t].op.Get? && CanStep(tasks, w, t) && KeyOf(tasks[t]) == key && Open(s')
    ensures Idle(tasks, w.stages, key) && !Idle(tasks, w.stages[t := s'], key)
  {
    forall u | 0 <= u < |tasks| && KeyOf(tasks[u]) == key
      ensures !Open(w.stages[u])
    {
      NewcomerIsAlone(tasks, w, t, u, key, c);
    }
    assert Open(w.stages[t := s'][t]);
  }

  // ---- each step keeps a key in step ----

  /** A task takes its data lock. */
  lemma LockStepInStep(tasks: seq<Task>, w: World, t: nat, key: string, c: string, start: Cell)
    requires OneCollection(tasks, key, c) && Inv(tasks, w) && InStep(tasks, w, key, c, start)
    requires t < |tasks| && KeyOf(tasks[t]) == key
    requires w.stages[t].Waiting? && !tasks[t].op.Get? && CanStep(tasks, w, t)
    ensures InStep(tasks, Step(tasks, w, t), key, c, start)
  {
    NewcomerFindsIdle(tasks, w, t, Locked, key, c);
  }

  /** A task at work moves on, perhaps to take effect. */
  lemma OwnStepInStep(tasks: seq<Task>, w: World, t: nat, key: string, c: string, start: Cell)
    requires OneCollection(tasks, key, c) && Inv(tasks, w) && InStep(tasks, w, key, c, start)
    requires t < |tasks| && KeyOf(tasks[t]) == key && Open(w.stages[t]) && CanStep(tasks, w, t)
    requires key !in Step(tasks, w, t).spread
    ensures InStep(tasks, Step(tasks, w, t), key, c, start)
  {
    var s', before := StageAfter(w, tasks[t], t), Serially(tasks, w.effects, key, start);
    MoveStages(w, tasks[t], t);
    MoveOrder(w, tasks[t], t);
    OwnMove(w, tasks[t], t, key);
    OwnMoveIsReplayed(tasks[t], w.stages[t], CellAt(w, key, c), IndexOf(w, c), before);
    HolderIsAlone(tasks, w, t, s', key, c);
    SeriallyMore(tasks, w.effects, t, key, start);
  }

  lemma OwnStepInTurn(tasks: seq<Task>, w: World, t: nat, key: string, c: string)
    requires OneCollection(tasks, key, c) && Inv(tasks, w) && InTurn(tasks, w, key)
    requires t < |tasks| && KeyOf(tasks[t]) == key && HoldsData(w.stages[t]) && CanStep(tasks, w, t)
    ensures InTurn(tasks, Step(tasks, w, t), key)
  {
    var s' := StageAfter(w, tasks[t], t);
    MoveStages(w, tasks[t], t);
    MoveOrder(w, tasks[t], t);
    FollowingHolds(tasks[t], w.stages[t], Stored(w, KeyOf(tasks[t])), IndexOf(w, tasks[t].path.collection));
    EffectIsListed(tasks[t], w.stages[t], Stored(w, KeyOf(tasks[t])), IndexOf(w, tasks[t].path.collection));
    HolderIsAlone(tasks, w, t, s', key, c);
    assert w.stages[t := w.stages[t]] == w.stages;
    HolderIsAlone(tasks, w, t, w.stages[t], key, c);
    TurnsMore(tasks, w.effects, t, key);
  }

  /** A task releases its data lock. */
  lemma ReleaseInStep(tasks: seq<Task>, w: World, t: nat, key: string, c: string, start: Cell)
    requires OneCollection(tasks, key, c) && Inv(tasks, w) && InStep(tasks, w, key, c, start)
    requires t < |tasks| && KeyOf(tasks[t]) == key && w.stages[t].Finishing?
    ensures InStep(tasks, Step(tasks, w, t), key, c, start)
  {
    HolderIsAlone(tasks, w, t, Done, key, c);
    assert w.stages[t := w.stages[t]] == w.stages;
    HolderIsAlone(tasks, w, t, w.stages[t], key, c);
  }

  lemma SameIdle(tasks: seq<Task>, stages: seq<Stage>, t: nat, s': Stage, key: string)
    requires |tasks| == |stages| && t < |tasks| && (KeyOf(tasks[t]) == key ==> !Open(stages[t]) && !Open(s'))
    ensures Idle(tasks, stages[t := s'], key) <==> Idle(tasks, stages, key)
  {
    if Idle(tasks, stages[t := s'], key) {
      forall u | 0 <= u < |tasks| && KeyOf(tasks[u]) == key
        ensures !Open(stages[u])
      {
        assert !Open(stages[t := s'][u]);
      }
    }
  }

  /** A reader on the key moves: nothing, or it clears the entry, as if before the task at work. */
  lemma ReaderStepInStep(tasks: seq<Task>, w: World, t: nat, key: string, c: string, start: Cell)
    requires OneCollection(tasks, key, c) && Inv(tasks, w) && InStep(tasks, w, key, c, start)
    requires t < |tasks| && KeyOf(tasks[t]) == key && tasks[t].op.Get? && CanStep(tasks, w, t)
    requires key !in Step(tasks, w, t).spread
    ensures InStep(tasks, Step(tasks, w, t), key, c, start)
  {
    var w', s', cell := Step(tasks, w, t), StageAfter(w, tasks[t], t), CellAt(w, key, c);
    var before := Serially(tasks, w.effects, key, start);
    MoveStages(w, tasks[t], t);
    MoveOrder(w, tasks[t], t);
    EffectIsListed(tasks[t], w.stages[t], Stored(w, KeyOf(tasks[t])), IndexOf(w, tasks[t].path.collection));
    OwnMove(w, tasks[t], t, key);
    SameIdle(tasks, w.stages, t, s', key);
    SeriallyMore(tasks, w.effects, t, key, start);
    ReaderEffect(tasks[t], w.stages[t], s', before);
    forall u | 0 <= u < |tasks| && KeyOf(tasks[u]) == key && Open(w'.stages[u])
      ensures var cell' := CellAt(w', key, c);
              Fits(tasks[u], w'.stages[u], cell')
              && cell' == SoFar(tasks[u], w'.stages[u], Serially(tasks, w'.effects, key, start))
    {
      ReaderMightHaveComeBefore(tasks[u], w.stages[u], cell, before);
    }
  }

  lemma ReaderEffect(task: Task, s: Stage, s': Stage, cell: Cell)
    requires task.op.Get? && Apt(task, s) && Apt(task, s')
    ensures After(task, cell) == cell.(indexed := false)
    ensures TakesEffect(s, s') <==> s.PeekHold?
    ensures OwnCell(task, s, cell) == if s.PeekHold? then cell.(indexed := false) else cell
  {
  }

  /** Steps that are not on the key leave it alone. */
  lemma OtherStepInStep(tasks: seq<Task>, w: World, t: nat, key: string, c: string, start: Cell)
    requires Inv(tasks, w) && InStep(tasks, w, key, c, start)
    requires t < |tasks| && KeyOf(tasks[t]) != key && CanStep(tasks, w, t) && key !in Step(tasks, w, t).spread
    ensures InStep(tasks, Step(tasks, w, t), key, c, start)
  {
    MoveStages(w, tasks[t], t);
    MoveOrder(w, tasks[t], t);
    OtherMove(w, tasks[t], t, key, c);
    SameIdle(tasks, w.stages, t, StageAfter(w, tasks[t], t), key);
    SeriallyMore(tasks, w.effects, t, key, start);
  }

  lemma OtherStepInTurn(tasks: seq<Task>, w: World, t: nat, key: string)
    requires Inv(tasks, w) && InTurn(tasks, w, key) && t < |tasks| && CanStep(tasks, w, t)
    requires KeyOf(tasks[t]) != key || tasks[t].op.Get?
    ensures InTurn(tasks, Step(tasks, w, t), key)
  {
    MoveStages(w, tasks[t], t);
    MoveOrder(w, tasks[t], t);
    EffectIsListed(tasks[t], w.stages[t], Stored(w, KeyOf(tasks[t])), IndexOf(w, tasks[t].path.collection));
    SameIdle(tasks, w.stages, t, StageAfter(w, tasks[t], t), key);
    TurnsMore(tasks, w.order, t, key);
    TurnsMore(tasks, w.effects, t, key);
  }

  /** One key over the run so far; nothing is promised for a key a splitting patch has written. */
  ghost predicate Linear(tasks: seq<Task>, w: World, key: string, c: string, start: Cell) {
    Inv(tasks, w) && InTurn(tasks, w, key) && (key !in w.spread ==> InStep(tasks, w, key, c, start))
  }

  lemma StepKeepsInTurn(tasks: seq<Task>, w: World, t: nat, key: string, c: string)
    requires OneCollection(tasks, key, c) && Inv(tasks, w) && InTurn(tasks, w, key)
    requires t < |tasks| && CanStep(tasks, w, t)
    ensures InTurn(tasks, Step(tasks, w, t), key)
  {
    if KeyOf(tasks[t]) != key || tasks[t].op.Get? {
      OtherStepInTurn(tasks, w, t, key);
    } else if w.stages[t].Waiting? {
      NewcomerFindsIdle(tasks, w, t, Locked, key, c);
      TurnsMore(tasks, w.order, t, key);
    } else {
      OwnStepInTurn(tasks, w, t, key, c);
    }
  }

  lemma StepKeepsLinear(tasks: seq<Task>, w: World, t: nat, key: string, c: string, start: Cell)
    requires OneCollection(tasks, key, c) && Linear(tasks, w, key, c, start) && t < |tasks|
    ensures Linear(tasks, Step(tasks, w, t), key, c, start)
  {
    StepKeepsInv(tasks, w, t);
    if CanStep(tasks, w, t) {
      StepKeepsInTurn(tasks, w, t, key, c);
      SpreadGrows(w, tasks[t], t);
      if key in Step(tasks, w, t).spread {
      } else if KeyOf(tasks[t]) != key {
        OtherStepInStep(tasks, w, t, key, c, start);
      } else if tasks[t].op.Get? {
        ReaderStepInStep(tasks, w, t, key, c, start);
      } else if w.stages[t].Waiting? {
        LockStepInStep(tasks, w, t, key, c, start);
      } else if w.stages[t].Finishing? {
        ReleaseInStep(tasks, w, t, key, c, start);
      } else {
        OwnStepInStep(tasks, w, t, key, c, start);
      }
    }
  }

  function FirstCell(start: map<string, Value>, index: map<string, set<string>>, key: string, c: string): Cell {
    CellAt(Start([], start, index), key, c)
  }

  lemma {:induction false} PlayIsLinear(tasks: seq<Task>, start: map<string, Value>, index: map<string, set<string>>,
                                        schedule: seq<nat>, key: string, c: string)
    requires OneCollection(tasks, key, c)
    ensures Linear(tasks, Play(tasks, Start(tasks, start, index), schedule), key, c, FirstCell(start, index, key, c))
  {
    var w := Start(tasks, start, index);
    if schedule != [] {
      var front, t := schedule[..|schedule| - 1], schedule[|schedule| - 1];
      PlayIsLinear(tasks, start, index, front, key, c);
      if t < |tasks| {
        StepKeepsLinear(tasks, Play(tasks, w, front), t, key, c, FirstCell(start, index, key, c));
      }
    }
  }

  /** Every task that takes a lock, once, and readers at most once. */
  ghost predicate EachOnce(tasks: seq<Task>, order: seq<nat>) {
    && (forall t :: 0 <= t < |tasks| && !tasks[t].op.Get? ==> t in order)
    && (forall i, j :: 0 <= i < j < |order| ==> order[i] != order[j])
    && (forall i :: 0 <= i < |order| ==> order[i] < |tasks|)
  }

  /**
   * Linearizability: whatever the calls and the schedule, once all is done each read-modify-write
   * has taken effect exactly once, on each key in the order of its locks, and every key that no
   * splitting patch wrote holds, and is indexed, as running these tasks one by one in that order
   * makes it, with the readers that cleared its index entry in between. Tasks on the key must
   * share its lock.
   */
  lemma SchedulesAreSerial(calls: seq<Call>, start: map<string, Value>, index: map<string, set<string>>,
                           schedule: seq<nat>, key: string, c: string)
    requires OneCollection(ExpandAll(calls), key, c)
    requires Finished(Play(ExpandAll(calls), Start(ExpandAll(calls), start, index), schedule))
    ensures var tasks := ExpandAll(calls);
            var w := Play(tasks, Start(tasks, start, index), schedule);
            && EachOnce(tasks, w.effects)
            && Turns(tasks, w.effects, key) == Turns(tasks, w.order, key)
            && (key !in w.spread ==>
                  CellAt(w, key, c) == Serially(tasks, w.effects, key, FirstCell(start, index, key, c)))
  {
    var tasks := ExpandAll(calls);
    PlayIsLinear(tasks, start, index, schedule, key, c);
  }

  // ---- when nothing is spread ----

  /** No patch is aimed at the root of a collection. */
  ghost predicate Tame(tasks: seq<Task>) {
    forall t :: 0 <= t < |tasks| && tasks[t].op.Patch? ==> tasks[t].path.segments != []
  }

  predicate InSpread(s: Stage) {
    s.Spreading? || s.SpreadWait? || s.SpreadHold?
  }

  ghost predicate Unspread(w: World) {
    w.spread == {} && forall t :: 0 <= t < |w.stages| ==> !InSpread(w.stages[t])
  }

  lemma TameMove(w: World, task: Task, t: nat)
    requires t < |w.stages| && Unspread(w) && (task.op.Patch? ==> task.path.segments != [])
    ensures Move(w, task, t).spread == {} && !InSpread(StageAfter(w, task, t))
  {
    match w.stages[t]
    case Waiting =>
    case Loaded(_) =>
    case Spreading(_) =>
    case _ =>
  }

  /** Patches at sub-paths never split, so they leave no key out of the theorem. */
  lemma {:induction false} TameRunsSpreadNothing(tasks: seq<Task>, start: map<string, Value>,
                                                 index: map<string, set<string>>, schedule: seq<nat>)
    requires Tame(tasks)
    ensures Unspread(Play(tasks, Start(tasks, start, index), schedule))
  {
    if schedule != [] {
      var front, t := schedule[..|schedule| - 1], schedule[|schedule| - 1];
      TameRunsSpreadNothing(tasks, start, index, front);
      if t < |tasks| {
        var w := Play(tasks, Start(tasks, start, index), front);
        if CanStep(tasks, w, t) {
          TameMove(w, tasks[t], t);
          MoveStages(w, tasks[t], t);
        }
      }
    }
  }

  // ---- appends ----

  ghost predicate OnlyAppendsAndGets(calls: seq<Call>) {
    forall i :: 0 <= i < |calls| ==> calls[i].op.Append? || calls[i].op.Get?
  }

  ghost predicate AppendOrGetTasks(tasks: seq<Task>) {
    forall t :: 0 <= t < |tasks| ==> tasks[t].op.Append? || tasks[t].op.Get?
  }

  lemma {:induction false} AppendsAndGetsExpand(calls: seq<Call>)
    requires OnlyAppendsAndGets(calls)
    ensures AppendOrGetTasks(ExpandAll(calls))
  {
    if calls != [] {
      AppendsAndGetsExpand(calls[..|calls| - 1]);
    }
  }

  /** What the tasks of order append under key. */
  function Items(tasks: seq<Task>, order: seq<nat>, key: string): seq<Value> {
    if order == [] then []
    else
      var front, t := Items(tasks, order[..|order| - 1], key), order[|order| - 1];
      if t < |tasks| && KeyOf(tasks[t]) == key && tasks[t].op.Append? then front + [tasks[t].op.item] else front
  }

  /** Only tasks that take a lock append. */
  lemma {:induction false} ItemsOfTurns(tasks: seq<Task>, order: seq<nat>, key: string)
    ensures Items(tasks, order, key) == Items(tasks, Turns(tasks, order, key), key)
  {
    if order != [] {
      var front, t := order[..|order| - 1], order[|order| - 1];
      ItemsOfTurns(tasks, front, key);
      if t < |tasks| && KeyOf(tasks[t]) == key && !tasks[t].op.Get? {
        assert (Turns(tasks, front, key) + [t])[..|Turns(tasks, front, key)|] == Turns(tasks, front, key);
      }
    }
  }

  /** What was stored, with items appended: an array grows, anything else is wrapped, nothing or null starts one. */
  function Grown(stored: Option<Value>, items: seq<Value>): Option<Value> {
    if items == [] then stored
    else if stored.None? || stored.value.Null? then Some(Arr(items))
    else if stored.value.Arr? then Some(Arr(stored.value.items + items))
    else Some(Arr([stored.value] + items))
  }

  lemma GrownMore(stored: Option<Value>, items: seq<Value>, x: Value)
    ensures Perform(Append(x), Existing(Append(x), Grown(stored, items))) == Grown(stored, items + [x])
  {
    if items == [] {
      assert items + [x] == [x];
      assert stored.Some? ==> [stored.value] + [x] == [stored.value, x];
    } else if stored.Some? && stored.value.Arr? {
      assert stored.value.items + items + [x] == stored.value.items + (items + [x]);
    } else if stored.Some? && !stored.value.Null? {
      assert [stored.value] + items + [x] == [stored.value] + (items + [x]);
    }
  }

  lemma {:induction false} SerialAppends(tasks: seq<Task>, order: seq<nat>, key: string, cell: Cell)
    requires AppendOrGetTasks(tasks)
    ensures Serially(tasks, order, key, cell).value == Grown(cell.value, Items(tasks, order, key))
  {
    if order != [] {
      var front, t := order[..|order| - 1], order[|order| - 1];
      SerialAppends(tasks, front, key, cell);
      if t < |tasks| && KeyOf(tasks[t]) == key && tasks[t].op.Append? {
        GrownMore(cell.value, Items(tasks, front, key), tasks[t].op.item);
      }
    }
  }

  /**
   * No append is lost or repeated: in every schedule, whatever reads go on, a key ends up with what
   * was there at first and everything the calls append under it, in lock order, split objects included.
   */
  lemma AppendsAllLand(calls: seq<Call>, start: map<string, Value>, index: map<string, set<string>>,
                       schedule: seq<nat>, key: string, c: string)
    requires OnlyAppendsAndGets(calls) && OneCollection(ExpandAll(calls), key, c)
    requires Finished(Play(ExpandAll(calls), Start(ExpandAll(calls), start, index), schedule))
    ensures var tasks := ExpandAll(calls);
            var w0 := Start(tasks, start, index);
            var w := Play(tasks, w0, schedule);
            && EachOnce(tasks, w.effects)
            && Turns(tasks, w.effects, key) == Turns(tasks, w.order, key)
            && Stored(w, key) == Grown(Stored(w0, key), Items(tasks, w.order, key))
  {
    var tasks := ExpandAll(calls);
    AppendsAndGetsExpand(calls);
    TameRunsSpreadNothing(tasks, start, index, schedule);
    SchedulesAreSerial(calls, start, index, schedule, key, c);
    var w := Play(tasks, Start(tasks, start, index), schedule);
    SerialAppends(tasks, w.effects, key, FirstCell(start, index, key, c));
    ItemsOfTurns(tasks, w.effects, key);
    ItemsOfTurns(tasks, w.order, key);
  }

  // ---- the key index ----

  datatype Effect = Kept | Wrote | Dropped

  /** What a task does to its key's index entry. */
  function EffectOf(task: Task, cell: Cell): Effect {
    if WrittenBy(task, cell.value).Some? then Wrote
    else if task.op.Get? || (ByGet(task.op) && Existing(task.op, cell.value).None?) then Dropped
    else Kept
  }

  /** The effect of the last task of order on key that has one. */
  function LastEffect(tasks: seq<Task>, order: seq<nat>, key: string, cell: Cell): Effect {
    if order == [] then Kept
    else
      var front, t := order[..|order| - 1], order[|order| - 1];
      if t < |tasks| && KeyOf(tasks[t]) == key && EffectOf(tasks[t], Serially(tasks, front, key, cell)) != Kept
      then EffectOf(tasks[t], Serially(tasks, front, key, cell))
      else LastEffect(tasks, front, key, cell)
  }

  lemma {:induction false} IndexedByLastEffect(tasks: seq<Task>, order: seq<nat>, key: string, cell: Cell)
    ensures var e := LastEffect(tasks, order, key, cell);
            Serially(tasks, order, key, cell).indexed == (e == Wrote || (e == Kept && cell.indexed))
  {
    if order != [] {
      IndexedByLastEffect(tasks, order[..|order| - 1], key, cell);
    }
  }

  /**
   * No index update is lost: in every finished schedule a key is in its collection's index
   * exactly when the last task to touch its entry, readers included, wrote the key, or when none
   * did and it was there from the start.
   */
  lemma IndexUpdatesAreNotLost(calls: seq<Call>, start: map<string, Value>, index: map<string, set<string>>,
                               schedule: seq<nat>, key: string, c: string)
    requires OneCollection(ExpandAll(calls), key, c)
    requires Finished(Play(ExpandAll(calls), Start(ExpandAll(calls), start, index), schedule))
    ensures var tasks := ExpandAll(calls);
            var w, first := Play(tasks, Start(tasks, start, index), schedule), FirstCell(start, index, key, c);
            key !in w.spread ==>
              var e := LastEffect(tasks, w.effects, key, first);
              key in IndexOf(w, c) <==> e == Wrote || (e == Kept && first.indexed)
  {
    var tasks := ExpandAll(calls);
    SchedulesAreSerial(calls, start, index, schedule, key, c);
    var w := Play(tasks, Start(tasks, start, index), schedule);
    IndexedByLastEffect(tasks, w.effects, key, FirstCell(start, index, key, c));
  }

  // ---- a plain get() clears the entry of what it missed ----

  function PlayTo(tasks: seq<Task>, start: map<string, Value>, index: map<string, set<string>>, schedule: seq<nat>,
                  i: nat): (w: World)
    requires i <= |schedule|
    ensures |w.stages| == |tasks|
  {
    Play(tasks, Start(tasks, start, index), schedule[..i])
  }

  /** At its i-th step the schedule lets reader t read, and it finds nothing or a falsy value. */
  ghost predicate MissesAt(tasks: seq<Task>, start: map<string, Value>, index: map<string, set<string>>,
                           schedule: seq<nat>, t: nat, i: nat) {
    && t < |tasks| && i < |schedule| && schedule[i] == t
    && var w := PlayTo(tasks, start, index, schedule, i);
       && w.stages[t].Waiting? && CanStep(tasks, w, t)
       && (KeyOf(tasks[t]) in w.data ==> Falsy(w.data[KeyOf(tasks[t])]))
  }

  /** At its j-th step the schedule lets reader t look into the index, and its key is there. */
  ghost predicate SpotsAt(tasks: seq<Task>, start: map<string, Value>, index: map<string, set<string>>,
                          schedule: seq<nat>, t: nat, j: nat) {
    && t < |tasks| && j < |schedule| && schedule[j] == t
    && var w := PlayTo(tasks, start, index, schedule, j);
       w.stages[t].Peeking? && KeyOf(tasks[t]) in IndexOf(w, tasks[t].path.collection)
  }

  ghost predicate Missed(tasks: seq<Task>, start: map<string, Value>, index: map<string, set<string>>,
                         schedule: seq<nat>, t: nat) {
    exists i :: MissesAt(tasks, start, index, schedule, t, i)
  }

  ghost predicate MissedAndSpotted(tasks: seq<Task>, start: map<string, Value>, index: map<string, set<string>>,
                                   schedule: seq<nat>, t: nat) {
    exists i, j ::
      i < j && MissesAt(tasks, start, index, schedule, t, i) && SpotsAt(tasks, start, index, schedule, t, j)
  }

  lemma EarlierStepsStand(tasks: seq<Task>, start: map<string, Value>, index: map<string, set<string>>,
                          schedule: seq<nat>, u: nat, t: nat, i: nat)
    requires i < |schedule|
    ensures MissesAt(tasks, start, index, schedule + [u], t, i) <==> MissesAt(tasks, start, index, schedule, t, i)
    ensures SpotsAt(tasks, start, index, schedule + [u], t, i) <==> SpotsAt(tasks, start, index, schedule, t, i)
  {
    assert (schedule + [u])[..i] == schedule[..i];
  }

  /** How far a reader's stage tells what it has seen. */
  predicate Tells(task: Task, s: Stage, cleared: bool, missed: bool, spotted: bool) {
    && Apt(task, s)
    && (s.Peeking? ==> missed)
    && (cleared ==> s.Done?)
    && (spotted <==> s.PeekWait? || s.PeekHold? || cleared)
  }

  lemma MoveTells(task: Task, s: Stage, stored: Option<Value>, index: set<string>,
                  cleared: bool, missed: bool, spotted: bool)
    requires task.op.Get? && Tells(task, s, cleared, missed, spotted) && !s.Done?
    ensures var s' := Following(task, s, stored, index);
            Tells(task, s', cleared || TakesEffect(s, s'),
                  missed || (s.Waiting? && Existing(task.op, stored).None?),
                  spotted || (s.Peeking? && KeyOf(task) in index))
  {
  }

  ghost predicate ReaderTells(tasks: seq<Task>, start: map<string, Value>, index: map<string, set<string>>,
                              schedule: seq<nat>, t: nat)
    requires t < |tasks|
  {
    var w := PlayTo(tasks, start, index, schedule, |schedule|);
    Tells(tasks[t], w.stages[t], t in w.effects, Missed(tasks, start, index, schedule, t),
          MissedAndSpotted(tasks, start, index, schedule, t))
  }

  lemma ReaderSees(tasks: seq<Task>, start: map<string, Value>, index: map<string, set<string>>,
                   schedule: seq<nat>, u: nat, t: nat)
    requires t < |tasks| && tasks[t].op.Get? && ReaderTells(tasks, start, index, schedule, t)
    ensures var more, n := schedule + [u], |schedule|;
            && (Missed(tasks, start, index, more, t) <==>
                  Missed(tasks, start, index, schedule, t) || MissesAt(tasks, start, index, more, t, n))
            && (MissedAndSpotted(tasks, start, index, more, t) <==>
                  MissedAndSpotted(tasks, start, index, schedule, t) || SpotsAt(tasks, start, index, more, t, n))
  {
    var more, n := schedule + [u], |schedule|;
    assert schedule[..n] == schedule && more[..n] == schedule;
    forall i: nat | i < n
      ensures MissesAt(tasks, start, index, more, t, i) <==> MissesAt(tasks, start, index, schedule, t, i)
      ensures SpotsAt(tasks, start, index, more, t, i) <==> SpotsAt(tasks, start, index, schedule, t, i)
    {
      EarlierStepsStand(tasks, start, index, schedule, u, t, i);
    }
  }

  lemma StepOfOne(tasks: seq<Task>, w: World, u: nat, t: nat)
    requires |tasks| == |w.stages| && t < |tasks| && u < |tasks|
    ensures var w', s := Step(tasks, w, u), w.stages[t];
            var s' := if u == t && CanStep(tasks, w, t) then StageAfter(w, tasks[t], t) else s;
            && w'.stages[t] == s'
            && (t in w'.effects <==> t in w.effects || (u == t && CanStep(tasks, w, t) && TakesEffect(s, s')))
  {
    if CanStep(tasks, w, u) {
      MoveStages(w, tasks[u], u);
      MoveOrder(w, tasks[u], u);
    }
  }

  lemma ReaderTellsOn(tasks: seq<Task>, start: map<string, Value>, index: map<string, set<string>>,
                      schedule: seq<nat>, u: nat, t: nat)
    requires t < |tasks| && tasks[t].op.Get? && ReaderTells(tasks, start, index, schedule, t)
    ensures ReaderTells(tasks, start, index, schedule + [u], t)
  {
    var more, n, key, c := schedule + [u], |schedule|, KeyOf(tasks[t]), tasks[t].path.collection;
    var w := PlayTo(tasks, start, index, schedule, n);
    assert schedule[..n] == schedule && more[..n] == schedule && more[..n + 1] == more;
    ReaderSees(tasks, start, index, schedule, u, t);
    if u < |tasks| {
      StepOfOne(tasks, w, u, t);
      assert PlayTo(tasks, start, index, more, n + 1) == Step(tasks, w, u);
      if u == t && CanStep(tasks, w, t) {
        MoveTells(tasks[t], w.stages[t], Stored(w, key), IndexOf(w, c), t in w.effects,
                  Missed(tasks, start, index, schedule, t), MissedAndSpotted(tasks, start, index, schedule, t));
      }
    }
  }

  /**
   * A finished reader is among the effects, having cleared its key's entry, exactly when it read
   * nothing or a falsy value and later found the key in the index.
   */
  lemma ReaderClearsIff(tasks: seq<Task>, start: map<string, Value>, index: map<string, set<string>>,
                                           schedule: seq<nat>, t: nat)
    requires t < |tasks| && tasks[t].op.Get?
    requires Play(tasks, Start(tasks, start, index), schedule).stages[t].Done?
    ensures t in Play(tasks, Start(tasks, start, index), schedule).effects
       <==> MissedAndSpotted(tasks, start, index, schedule, t)
  {
    ReaderAlwaysTells(tasks, start, index, schedule, t);
    assert schedule[..|schedule|] == schedule;
  }

  lemma {:induction false} ReaderAlwaysTells(tasks: seq<Task>, start: map<string, Value>,
                                             index: map<string, set<string>>, schedule: seq<nat>, t: nat)
    requires t < |tasks| && tasks[t].op.Get?
    ensures ReaderTells(tasks, start, index, schedule, t)
  {
    if schedule != [] {
      var front, u := schedule[..|schedule| - 1], schedule[|schedule| - 1];
      ReaderAlwaysTells(tasks, start, index, front, t);
      ReaderTellsOn(tasks, start, index, front, u, t);
      assert front + [u] == schedule;
    }
  }

  // ---- when a stored key drops out of the index ----

  /**
   * The guard under which a task drops a stored key from the index: a reader that takes effect, as
   * it missed the key before, or a falsy value that a task reads under the lock and does not replace.
   */
  predicate DropsStored(task: Task, v: Value) {
    task.op.Get?
    || (Falsy(v) && (task.op.DeleteFromArray? || (task.op.Patch? && Splits(task.path, Obj(task.op.fields)))))
  }

  /**
   * A stored, indexed key stays indexed through a task exactly unless a reader clears its entry,
   * or it holds a falsy value and the task is a deleteFromArray, or a patch that splits: get()
   * takes the value for a missing one and drops the entry, and nothing is written to restore it.
   */
  lemma StoredStaysIndexedIff(task: Task, cell: Cell)
    requires cell.value.Some? && cell.indexed
    ensures After(task, cell).value.Some?
    ensures After(task, cell).indexed <==> !DropsStored(task, cell.value.value)
  {
  }

  lemma {:induction false} SeriallyIndexedIff(tasks: seq<Task>, order: seq<nat>, key: string, cell: Cell)
    requires cell.value.Some? ==> cell.indexed
    ensures var end := Serially(tasks, order, key, cell);
            end.value.Some? ==> (end.indexed <==> !LastDrops(tasks, order, key, cell))
  {
    if order != [] {
      var front, t := order[..|order| - 1], order[|order| - 1];
      SeriallyIndexedIff(tasks, front, key, cell);
      if t < |tasks| && KeyOf(tasks[t]) == key && Serially(tasks, front, key, cell).value.Some? {
        if Serially(tasks, front, key, cell).indexed {
          StoredStaysIndexedIff(tasks[t], Serially(tasks, front, key, cell));
        }
      }
    }
  }

  /** Some task of order drops the stored value's entry, and none after it writes the key. */
  predicate LastDrops(tasks: seq<Task>, order: seq<nat>, key: string, cell: Cell) {
    order != [] &&
      var front, t := order[..|order| - 1], order[|order| - 1];
      var before := Serially(tasks, front, key, cell).value;
      var here := t < |tasks| && KeyOf(tasks[t]) == key;
      if here && before.Some? && DropsStored(tasks[t], before.value) then true
      else if here && WrittenBy(tasks[t], before).Some? then false
      else LastDrops(tasks, front, key, cell)
  }

  /**
   * In every finished schedule a stored key is indexed exactly when no such drop comes after its
   * last write: no reader that had missed it clears its entry, and no deleteFromArray or
   * splitting patch finds it falsy.
   */
  lemma StoredAndIndexedIff(calls: seq<Call>, start: map<string, Value>, index: map<string, set<string>>,
                            schedule: seq<nat>, key: string, c: string)
    requires OneCollection(ExpandAll(calls), key, c)
    requires var first := FirstCell(start, index, key, c); first.value.Some? ==> first.indexed
    requires Finished(Play(ExpandAll(calls), Start(ExpandAll(calls), start, index), schedule))
    ensures var tasks := ExpandAll(calls);
            var w, first := Play(tasks, Start(tasks, start, index), schedule), FirstCell(start, index, key, c);
            key !in w.spread && key in w.data ==>
              (key in IndexOf(w, c) <==> !LastDrops(tasks, w.effects, key, first))
  {
    var tasks := ExpandAll(calls);
    SchedulesAreSerial(calls, start, index, schedule, key, c);
    var w := Play(tasks, Start(tasks, start, index), schedule);
    SeriallyIndexedIff(tasks, w.effects, key, FirstCell(start, index, key, c));
  }
}
