/**
 * Concurrent operations under AsyncKeyLock, as interleaved steps: a read-modify-write takes its
 * data lock, reads, writes, visits the key index under the index lock, and releases. A plain get()
 * takes no data lock, yet visits the index when it finds nothing.
 */
module RouterLocks {
  import opened Outcomes
  import opened RouterOps

  datatype Call = Call(path: Path, op: Op)

  /** One operation on a key; one that follows starts when the task before it is done. */
  datatype Task = Task(path: Path, op: Op, follows: bool)

  // ---- a call is one task, or one for each value that set() writes ----

  function Fanned(leaves: seq<Leaf>, merge: bool): seq<Task> {
    seq(|leaves|, i requires 0 <= i < |leaves| =>
      Task(leaves[i].path, if merge then Merge(leaves[i].value) else Append(leaves[i].value), i > 0))
  }

  function Expand(call: Call): seq<Task> {
    match call.op
    case Append(item) => Fanned(Leaves(call.path, item), false)
    case Merge(data) => Fanned(Leaves(call.path, data), true)
    case _ => [Task(call.path, call.op, false)]
  }

  function ExpandAll(calls: seq<Call>): seq<Task> {
    if calls == [] then [] else ExpandAll(calls[..|calls| - 1]) + Expand(calls[|calls| - 1])
  }

  // ---- where a task stands ----

  /**
   * Cleaning and indexing need the index lock as well. A patch whose result splits spreads it
   * over sub-keys, holding its own data lock but not theirs. A get() that found nothing peeks into
   * the index and clears the entry it finds there, without any data lock.
   */
  datatype Stage =
    | Waiting
    | Locked
    | Checking
    | CleanWait
    | CleanHold(loaded: set<string>)
    | Loaded(existing: Option<Value>)
    | IndexWait
    | IndexHold(loaded: set<string>)
    | Spreading(leaves: seq<Leaf>)
    | SpreadWait(key: string, leaves: seq<Leaf>)
    | SpreadHold(key: string, leaves: seq<Leaf>, loaded: set<string>)
    | Peeking
    | PeekWait
    | PeekHold(loaded: set<string>)
    | Finishing
    | Done

  /**
   * locks maps a held lock to the task that holds it; order lists tasks as they take their data
   * locks, effects as they are through with value and index, with the readers that clear an entry
   * as they do so; spread collects the keys that splitting patches have written.
   */
  datatype World = World(
    data: map<string, Value>,
    index: map<string, set<string>>,
    locks: map<string, nat>,
    stages: seq<Stage>,
    order: seq<nat>,
    effects: seq<nat>,
    spread: set<string>)

  function KeyOf(task: Task): string {
    BuildKey(task.path)
  }

  function Stored(w: World, key: string): Option<Value> {
    if key in w.data then Some(w.data[key]) else None
  }

  function IndexOf(w: World, collection: string): set<string> {
    if collection in w.index then w.index[collection] else {}
  }

  predicate HoldsData(s: Stage) {
    !s.Waiting? && !Peeks(s) && !s.Done?
  }

  predicate Peeks(s: Stage) {
    s.Peeking? || s.PeekWait? || s.PeekHold?
  }

  predicate HoldsIndex(s: Stage) {
    s.CleanHold? || s.IndexHold? || s.SpreadHold? || s.PeekHold?
  }

  predicate Wants(s: Stage) {
    s.CleanWait? || s.IndexWait? || s.SpreadWait? || s.PeekWait?
  }

  /** A waiting task's turn has come: nothing of its own call is left to do before it. */
  predicate MayStart(tasks: seq<Task>, w: World, t: nat)
    requires |tasks| == |w.stages| && t < |tasks|
  {
    !tasks[t].follows || t == 0 || w.stages[t - 1].Done?
  }

  /** Whether a task can move now; apart from its own call only a lock another task holds can stop it. */
  predicate CanStep(tasks: seq<Task>, w: World, t: nat)
    requires |tasks| == |w.stages| && t < |tasks|
  {
    if w.stages[t].Waiting? then MayStart(tasks, w, t) && (tasks[t].op.Get? || DataLock(tasks[t].path) !in w.locks)
    else if Wants(w.stages[t]) then IndexLock(tasks[t].path) !in w.locks
    else !w.stages[t].Done?
  }

  function Goto(w: World, t: nat, s: Stage): World
    requires t < |w.stages|
  {
    w.(stages := w.stages[t := s])
  }

  /** Takes the index lock, loads the index, and goes on with it. */
  function TakeIndex(w: World, task: Task, t: nat, s: Stage): World
    requires t < |w.stages|
  {
    Goto(w.(locks := w.locks[IndexLock(task.path) := t]), t, s)
  }

  /** Saves the index and releases its lock. */
  function SaveIndex(w: World, task: Task, t: nat, index: set<string>, s: Stage): World
    requires t < |w.stages|
  {
    Goto(w.(index := w.index[task.path.collection := index], locks := w.locks - {IndexLock(task.path)}), t, s)
  }

  /** From here on only the data lock is left to release. */
  function Finish(w: World, t: nat): World
    requires t < |w.stages|
  {
    Goto(w.(effects := w.effects + [t]), t, Finishing)
  }

  /** The write: at the task's own key, or, for a patch whose result splits, leaf by leaf from here on. */
  function Commit(w: World, task: Task, t: nat, existing: Option<Value>): World
    requires t < |w.stages|
  {
    var v := Perform(task.op, existing);
    if v.None? then Finish(w, t)
    else if task.op.Patch? && Splits(task.path, v.value) then Goto(w, t, Spreading(Leaves(task.path, v.value)))
    else Goto(w.(data := w.data[KeyOf(task) := v.value]), t, IndexWait)
  }

  function SpreadOne(w: World, t: nat, leaves: seq<Leaf>): World
    requires t < |w.stages|
  {
    if leaves == [] then Finish(w, t)
    else
      var key := BuildKey(leaves[0].path);
      Goto(w.(data := w.data[key := leaves[0].value], spread := w.spread + {key}), t, SpreadWait(key, leaves[1..]))
  }

  /** get() of a falsy value looks into the index, and drops the key from it when it is there. */
  function Read(task: Task, stored: Option<Value>): Stage {
    var existing := Existing(task.op, stored);
    if ByGet(task.op) && existing.None? then Checking else Loaded(existing)
  }

  /** A plain get() is over when it finds a value; otherwise it goes on to the index. */
  function Glanced(task: Task, stored: Option<Value>): Stage {
    if Existing(task.op, stored).None? then Peeking else Done
  }

  /** What a task does next from its stage, when nothing stops it. */
  function Move(w: World, task: Task, t: nat): (w': World)
    requires t < |w.stages|
    ensures |w'.stages| == |w.stages|
  {
    var key, index := KeyOf(task), IndexOf(w, task.path.collection);
    match w.stages[t]
    case Waiting =>
      if task.op.Get? then Goto(w, t, Glanced(task, Stored(w, key)))
      else Goto(w.(locks := w.locks[DataLock(task.path) := t], order := w.order + [t]), t, Locked)
    case Locked => Goto(w, t, Read(task, Stored(w, key)))
    case Checking => Goto(w, t, if key in index then CleanWait else Loaded(None))
    case CleanWait => TakeIndex(w, task, t, CleanHold(index))
    case CleanHold(loaded) => SaveIndex(w, task, t, loaded - {key}, Loaded(None))
    case Loaded(existing) => Commit(w, task, t, existing)
    case IndexWait => TakeIndex(w, task, t, IndexHold(index))
    case IndexHold(loaded) => Finish(SaveIndex(w, task, t, loaded + {key}, Finishing), t)
    case Spreading(leaves) => SpreadOne(w, t, leaves)
    case SpreadWait(k, leaves) => TakeIndex(w, task, t, SpreadHold(k, leaves, index))
    case SpreadHold(k, leaves, loaded) => SaveIndex(w, task, t, loaded + {k}, Spreading(leaves))
    case Peeking => Goto(w, t, if key in index then PeekWait else Done)
    case PeekWait => TakeIndex(w, task, t, PeekHold(index))
    case PeekHold(loaded) => SaveIndex(w.(effects := w.effects + [t]), task, t, loaded - {key}, Done)
    case Finishing => Goto(w.(locks := w.locks - {DataLock(task.path)}), t, Done)
    case Done => w
  }

  /** One step of task t; a task that cannot move leaves the world as it is. */
  function Step(tasks: seq<Task>, w: World, t: nat): (w': World)
    requires |tasks| == |w.stages| && t < |tasks|
    ensures |w'.stages| == |tasks|
  {
    if CanStep(tasks, w, t) then Move(w, tasks[t], t) else w
  }

  function Start(tasks: seq<Task>, data: map<string, Value>, index: map<string, set<string>>): World {
    World(data, index, map[], seq(|tasks|, _ => Waiting), [], [], {})
  }

  /** The world after a schedule: the sequence of tasks that get to take a step. */
  function Play(tasks: seq<Task>, w: World, schedule: seq<nat>): (w': World)
    requires |tasks| == |w.stages|
    ensures |w'.stages| == |tasks|
  {
    if schedule == [] then w
    else
      var before, t := Play(tasks, w, schedule[..|schedule| - 1]), schedule[|schedule| - 1];
      if t < |tasks| then Step(tasks, before, t) else before
  }

  // ---- who holds what ----

  /** The lock table says exactly which tasks hold which locks. */
  ghost predicate Exclusive(tasks: seq<Task>, locks: map<string, nat>, stages: seq<Stage>) {
    && |tasks| == |stages|
    && (forall t :: 0 <= t < |tasks| && HoldsData(stages[t]) ==>
          DataLock(tasks[t].path) in locks && locks[DataLock(tasks[t].path)] == t)
    && (forall t :: 0 <= t < |tasks| && HoldsIndex(stages[t]) ==>
          IndexLock(tasks[t].path) in locks && locks[IndexLock(tasks[t].path)] == t)
    && (forall l :: l in locks ==> Owned(tasks, locks, stages, l))
  }

  ghost predicate Owned(tasks: seq<Task>, locks: map<string, nat>, stages: seq<Stage>, l: string)
    requires |tasks| == |stages| && l in locks
  {
    var o := locks[l];
    && o < |tasks|
    && ((HoldsData(stages[o]) && l == DataLock(tasks[o].path))
        || (HoldsIndex(stages[o]) && l == IndexLock(tasks[o].path)))
  }

  lemma OwnLocksDiffer(p: Path)
    ensures DataLock(p) != IndexLock(p)
  {
    if DataLock(p) == IndexLock(p) {
      NameClashGoesUp(p, p);
    }
  }

  lemma TakeKeepsExclusive(tasks: seq<Task>, locks: map<string, nat>, stages: seq<Stage>, t: nat, l: string, s: Stage)
    requires Exclusive(tasks, locks, stages) && t < |tasks| && l !in locks
    requires l == DataLock(tasks[t].path) || l == IndexLock(tasks[t].path)
    requires HoldsData(s) <==> HoldsData(stages[t]) || l == DataLock(tasks[t].path)
    requires HoldsIndex(s) <==> HoldsIndex(stages[t]) || l == IndexLock(tasks[t].path)
    ensures Exclusive(tasks, locks[l := t], stages[t := s])
  {
    var locks', stages' := locks[l := t], stages[t := s];
    forall k | k in locks'
      ensures Owned(tasks, locks', stages', k)
    {
      if k != l {
        assert Owned(tasks, locks, stages, k);
      }
    }
  }

  lemma DropKeepsExclusive(tasks: seq<Task>, locks: map<string, nat>, stages: seq<Stage>, t: nat, l: string, s: Stage)
    requires Exclusive(tasks, locks, stages) && t < |tasks| && l in locks && locks[l] == t
    requires HoldsData(s) <==> HoldsData(stages[t]) && l != DataLock(tasks[t].path)
    requires HoldsIndex(s) <==> HoldsIndex(stages[t]) && l != IndexLock(tasks[t].path)
    ensures Exclusive(tasks, locks - {l}, stages[t := s])
  {
    var locks', stages' := locks - {l}, stages[t := s];
    forall k | k in locks'
      ensures Owned(tasks, locks', stages', k)
    {
      assert Owned(tasks, locks, stages, k);
    }
  }

  lemma MoveKeepsExclusive(tasks: seq<Task>, locks: map<string, nat>, stages: seq<Stage>, t: nat, s: Stage)
    requires Exclusive(tasks, locks, stages) && t < |tasks|
    requires (HoldsData(s) <==> HoldsData(stages[t])) && (HoldsIndex(s) <==> HoldsIndex(stages[t]))
    ensures Exclusive(tasks, locks, stages[t := s])
  {
    forall k | k in locks
      ensures Owned(tasks, locks, stages[t := s], k)
    {
      assert Owned(tasks, locks, stages, k);
    }
  }

  /** What a move does to the lock table. */
  function LocksAfter(w: World, task: Task, t: nat): map<string, nat>
    requires t < |w.stages|
  {
    var s := w.stages[t];
    if s.Waiting? then if task.op.Get? then w.locks else w.locks[DataLock(task.path) := t]
    else if Wants(s) then w.locks[IndexLock(task.path) := t]
    else if HoldsIndex(s) then w.locks - {IndexLock(task.path)}
    else if s.Finishing? then w.locks - {DataLock(task.path)}
    else w.locks
  }

  lemma MoveLocks(w: World, task: Task, t: nat)
    requires t < |w.stages|
    ensures Move(w, task, t).locks == LocksAfter(w, task, t)
  {
    match w.stages[t]
    case Waiting =>
    case Loaded(_) =>
    case Spreading(_) =>
    case _ =>
  }

  /** The stage that follows, given what is stored and indexed. */
  function Following(task: Task, s: Stage, stored: Option<Value>, index: set<string>): Stage {
    match s
    case Waiting => if task.op.Get? then Glanced(task, stored) else Locked
    case Locked => Read(task, stored)
    case Checking => if KeyOf(task) in index then CleanWait else Loaded(None)
    case CleanWait => CleanHold(index)
    case CleanHold(_) => Loaded(None)
    case Loaded(existing) => Committed(task, existing)
    case IndexWait => IndexHold(index)
    case IndexHold(_) => Finishing
    case Spreading(leaves) => if leaves == [] then Finishing else SpreadWait(BuildKey(leaves[0].path), leaves[1..])
    case SpreadWait(k, leaves) => SpreadHold(k, leaves, index)
    case SpreadHold(_, leaves, _) => Spreading(leaves)
    case Peeking => if KeyOf(task) in index then PeekWait else Done
    case PeekWait => PeekHold(index)
    case PeekHold(_) => Done
    case Finishing => Done
    case Done => Done
  }

  function Committed(task: Task, existing: Option<Value>): Stage {
    var v := Perform(task.op, existing);
    if v.None? then Finishing
    else if task.op.Patch? && Splits(task.path, v.value) then Spreading(Leaves(task.path, v.value))
    else IndexWait
  }

  function StageAfter(w: World, task: Task, t: nat): Stage
    requires t < |w.stages|
  {
    Following(task, w.stages[t], Stored(w, KeyOf(task)), IndexOf(w, task.path.collection))
  }

  lemma MoveStages(w: World, task: Task, t: nat)
    requires t < |w.stages|
    ensures Move(w, task, t).stages == w.stages[t := StageAfter(w, task, t)]
  {
    match w.stages[t]
    case Waiting =>
    case Loaded(_) =>
    case Spreading(_) =>
    case _ =>
  }

  lemma FollowingHolds(task: Task, s: Stage, stored: Option<Value>, index: set<string>)
    ensures var s' := Following(task, s, stored, index);
            && (HoldsData(s') <==> (s.Waiting? && !task.op.Get?) || (HoldsData(s) && !s.Finishing?))
            && (HoldsIndex(s') <==> Wants(s))
  {
  }

  /** At every step the lock table says exactly which task holds which lock. */
  lemma StepKeepsExclusive(tasks: seq<Task>, w: World, t: nat)
    requires Exclusive(tasks, w.locks, w.stages) && t < |tasks|
    ensures var w' := Step(tasks, w, t); Exclusive(tasks, w'.locks, w'.stages)
  {
    if CanStep(tasks, w, t) {
      MoveLocks(w, tasks[t], t);
      MoveStages(w, tasks[t], t);
      FollowingHolds(tasks[t], w.stages[t], Stored(w, KeyOf(tasks[t])), IndexOf(w, tasks[t].path.collection));
      ShapedMoveKeepsExclusive(tasks, w, t, StageAfter(w, tasks[t], t));
    }
  }

  lemma ShapedMoveKeepsExclusive(tasks: seq<Task>, w: World, t: nat, s': Stage)
    requires Exclusive(tasks, w.locks, w.stages) && t < |tasks| && CanStep(tasks, w, t)
    requires var s := w.stages[t];
             && (HoldsData(s') <==> (s.Waiting? && !tasks[t].op.Get?) || (HoldsData(s) && !s.Finishing?))
             && (HoldsIndex(s') <==> Wants(s))
    ensures Exclusive(tasks, LocksAfter(w, tasks[t], t), w.stages[t := s'])
  {
    var p, s := tasks[t].path, w.stages[t];
    OwnLocksDiffer(p);
    if s.Waiting? && !tasks[t].op.Get? {
      TakeKeepsExclusive(tasks, w.locks, w.stages, t, DataLock(p), s');
    } else if Wants(s) {
      TakeKeepsExclusive(tasks, w.locks, w.stages, t, IndexLock(p), s');
    } else if HoldsIndex(s) {
      DropKeepsExclusive(tasks, w.locks, w.stages, t, IndexLock(p), s');
    } else if s.Finishing? {
      DropKeepsExclusive(tasks, w.locks, w.stages, t, DataLock(p), s');
    } else {
      MoveKeepsExclusive(tasks, w.locks, w.stages, t, s');
    }
  }

  // ---- no schedule deadlocks ----

  /** Among tasks that want an index lock, one with the shortest collection name. */
  lemma {:induction false} ShortestWaiter(tasks: seq<Task>, w: World, n: nat) returns (t: nat)
    requires |tasks| == |w.stages| && n <= |tasks|
    requires exists i :: 0 <= i < n && Wants(w.stages[i])
    ensures t < n && Wants(w.stages[t])
    ensures forall i :: 0 <= i < n && Wants(w.stages[i]) ==> |tasks[t].path.collection| <= |tasks[i].path.collection|
  {
    var last := n - 1;
    if exists i :: 0 <= i < last && Wants(w.stages[i]) {
      t := ShortestWaiter(tasks, w, last);
      if Wants(w.stages[last]) && |tasks[last].path.collection| < |tasks[t].path.collection| {
        t := last;
      }
    } else {
      t := last;
    }
  }

  lemma {:induction false} FirstUnfinished(stages: seq<Stage>, unfinished: nat) returns (t: nat)
    requires unfinished < |stages| && !stages[unfinished].Done?
    ensures t < |stages| && !stages[t].Done? && forall i :: 0 <= i < t ==> stages[i].Done?
  {
    if i: nat :| i < unfinished && !stages[i].Done? {
      t := FirstUnfinished(stages, i);
    } else {
      t := unfinished;
    }
  }

  /**
   * No deadlock: while some task is unfinished, some task can step. Index-lock holders never
   * wait; a task waiting for an index lock that is another's data lock waits on a shorter name.
   */
  lemma NoDeadlock(tasks: seq<Task>, w: World, unfinished: nat) returns (t: nat)
    requires Exclusive(tasks, w.locks, w.stages) && unfinished < |tasks| && !w.stages[unfinished].Done?
    ensures t < |tasks| && CanStep(tasks, w, t)
  {
    if i :| 0 <= i < |tasks| && !w.stages[i].Waiting? && !w.stages[i].Done? && !Wants(w.stages[i]) {
      t := i;
    } else if exists i :: 0 <= i < |tasks| && Wants(w.stages[i]) {
      t := ShortestWaiter(tasks, w, |tasks|);
      if IndexLock(tasks[t].path) in w.locks {
        IndexLockIsHeldByShorter(tasks, w, t);
      }
    } else {
      t := FirstUnfinished(w.stages, unfinished);
      var l := DataLock(tasks[t].path);
      if l in w.locks {
        HeldByUnfinished(tasks, w, l);
      }
    }
  }

  lemma HeldByUnfinished(tasks: seq<Task>, w: World, l: string)
    requires Exclusive(tasks, w.locks, w.stages) && l in w.locks
    ensures var o := w.locks[l]; o < |tasks| && !w.stages[o].Waiting? && !w.stages[o].Done?
  {
    assert Owned(tasks, w.locks, w.stages, l);
  }

  /** When only waiting tasks hold locks, a wanted index lock is held by one with a shorter collection name. */
  lemma IndexLockIsHeldByShorter(tasks: seq<Task>, w: World, t: nat)
    requires Exclusive(tasks, w.locks, w.stages) && t < |tasks| && IndexLock(tasks[t].path) in w.locks
    requires forall i :: 0 <= i < |tasks| ==> w.stages[i].Waiting? || w.stages[i].Done? || Wants(w.stages[i])
    ensures var o := w.locks[IndexLock(tasks[t].path)];
            o < |tasks| && Wants(w.stages[o]) && |tasks[o].path.collection| < |tasks[t].path.collection|
  {
    var l := IndexLock(tasks[t].path);
    assert Owned(tasks, w.locks, w.stages, l);
    NameClashGoesUp(tasks[w.locks[l]].path, tasks[t].path);
  }

  function Rank(s: Stage): nat {
    match s
    case Waiting => 9
    case Locked => 8
    case Checking => 7
    case CleanWait => 6
    case CleanHold(_) => 5
    case Loaded(_) => 4
    case IndexWait => 3
    case IndexHold(_) => 2
    case Spreading(_) => 2
    case SpreadWait(_, _) => 2
    case SpreadHold(_, _, _) => 2
    case Peeking => 7
    case PeekWait => 6
    case PeekHold(_) => 5
    case Finishing => 1
    case Done => 0
  }

  /** Steps left among the leaves of a split. */
  function Remaining(s: Stage): nat {
    match s
    case Spreading(leaves) => 3 * |leaves|
    case SpreadWait(_, leaves) => 3 * |leaves| + 2
    case SpreadHold(_, leaves, _) => 3 * |leaves| + 1
    case _ => 0
  }

  predicate Ahead(s: Stage, s': Stage) {
    Rank(s') < Rank(s) || (Rank(s') == Rank(s) && Remaining(s') < Remaining(s))
  }

  lemma FollowingIsAhead(task: Task, s: Stage, stored: Option<Value>, index: set<string>)
    requires !s.Done?
    ensures Ahead(s, Following(task, s, stored, index))
  {
  }

  /** A step that can be taken moves its task on and no other. */
  lemma StepAdvances(tasks: seq<Task>, w: World, t: nat)
    requires |tasks| == |w.stages| && t < |tasks| && CanStep(tasks, w, t)
    ensures var s' := Step(tasks, w, t).stages[t];
            Step(tasks, w, t).stages == w.stages[t := s'] && Ahead(w.stages[t], s')
  {
    MoveStages(w, tasks[t], t);
    FollowingIsAhead(tasks[t], w.stages[t], Stored(w, KeyOf(tasks[t])), IndexOf(w, tasks[t].path.collection));
  }

  // ---- so every run can be finished ----

  function Work(stages: seq<Stage>): int {
    if stages == [] then 0 else Work(stages[..|stages| - 1]) + Rank(stages[|stages| - 1])
  }

  function Leftover(stages: seq<Stage>): int {
    if stages == [] then 0 else Leftover(stages[..|stages| - 1]) + Remaining(stages[|stages| - 1])
  }

  lemma {:induction false} SumsChange(stages: seq<Stage>, t: nat, s: Stage)
    requires t < |stages|
    ensures Work(stages[t := s]) == Work(stages) - Rank(stages[t]) + Rank(s)
    ensures Leftover(stages[t := s]) == Leftover(stages) - Remaining(stages[t]) + Remaining(s)
  {
    var front := stages[..|stages| - 1];
    if t == |front| {
      assert stages[t := s][..|front|] == front;
    } else {
      SumsChange(front, t, s);
      assert stages[t := s][..|front|] == front[t := s];
    }
  }

  lemma {:induction false} SumsAreNatural(stages: seq<Stage>)
    ensures Work(stages) >= 0 && Leftover(stages) >= 0
  {
    if stages != [] {
      SumsAreNatural(stages[..|stages| - 1]);
    }
  }

  lemma {:induction false} PlayFrom(tasks: seq<Task>, w: World, t: nat, rest: seq<nat>)
    requires |tasks| == |w.stages| && t < |tasks|
    ensures Play(tasks, w, [t] + rest) == Play(tasks, Step(tasks, w, t), rest)
  {
    if rest == [] {
      assert ([t] + rest)[..0] == [] && [t] + rest == [t];
    } else {
      PlayFrom(tasks, w, t, rest[..|rest| - 1]);
      assert ([t] + rest)[..|rest|] == [t] + rest[..|rest| - 1];
    }
  }

  lemma {:induction false} PlayAppend(tasks: seq<Task>, w: World, before: seq<nat>, after: seq<nat>)
    requires |tasks| == |w.stages|
    ensures Play(tasks, w, before + after) == Play(tasks, Play(tasks, w, before), after)
  {
    if after == [] {
      assert before + after == before;
    } else {
      PlayAppend(tasks, w, before, after[..|after| - 1]);
      assert (before + after)[..|before + after| - 1] == before + after[..|after| - 1];
    }
  }

  lemma PlayThen(tasks: seq<Task>, w: World, before: seq<nat>, after: seq<nat>, t: nat)
    requires |tasks| == |w.stages| && t < |tasks|
    ensures Play(tasks, w, before + after + [t]) == Step(tasks, Play(tasks, Play(tasks, w, before), after), t)
  {
    PlayAppend(tasks, w, before, after);
    assert (before + after + [t])[..|before + after|] == before + after;
  }

  ghost predicate Finished(w: World) {
    forall t :: 0 <= t < |w.stages| ==> w.stages[t].Done?
  }

  lemma StepDoesWork(tasks: seq<Task>, w: World, t: nat)
    requires |tasks| == |w.stages| && t < |tasks| && CanStep(tasks, w, t)
    ensures var w' := Step(tasks, w, t);
            Work(w'.stages) < Work(w.stages)
            || (Work(w'.stages) == Work(w.stages) && Leftover(w'.stages) < Leftover(w.stages))
    ensures Work(w.stages) >= 0 && Leftover(w.stages) >= 0
  {
    StepAdvances(tasks, w, t);
    SumsChange(w.stages, t, Step(tasks, w, t).stages[t]);
    SumsAreNatural(w.stages);
  }

  lemma {:induction false} CanFinish(tasks: seq<Task>, w: World) returns (schedule: seq<nat>)
    requires Exclusive(tasks, w.locks, w.stages)
    ensures Finished(Play(tasks, w, schedule))
    decreases Work(w.stages), Leftover(w.stages)
  {
    if unfinished :| 0 <= unfinished < |tasks| && !w.stages[unfinished].Done? {
      var t := NoDeadlock(tasks, w, unfinished);
      StepDoesWork(tasks, w, t);
      StepKeepsExclusive(tasks, w, t);
      var rest := CanFinish(tasks, Step(tasks, w, t));
      PlayFrom(tasks, w, t, rest);
      schedule := [t] + rest;
    } else {
      schedule := [];
    }
  }

  lemma {:induction false} PlayKeepsExclusive(tasks: seq<Task>, w: World, schedule: seq<nat>)
    requires Exclusive(tasks, w.locks, w.stages)
    ensures var w' := Play(tasks, w, schedule); Exclusive(tasks, w'.locks, w'.stages)
  {
    if schedule != [] {
      var front, t := schedule[..|schedule| - 1], schedule[|schedule| - 1];
      PlayKeepsExclusive(tasks, w, front);
      if t < |tasks| {
        StepKeepsExclusive(tasks, Play(tasks, w, front), t);
      }
    }
  }

  /** However a run began, it can still be finished: no schedule ends in a deadlock. */
  lemma EveryScheduleCanFinish(tasks: seq<Task>, data: map<string, Value>, index: map<string, set<string>>,
                               schedule: seq<nat>)
      returns (rest: seq<nat>)
    ensures Finished(Play(tasks, Start(tasks, data, index), schedule + rest))
  {
    var w := Start(tasks, data, index);
    PlayKeepsExclusive(tasks, w, schedule);
    rest := CanFinish(tasks, Play(tasks, w, schedule));
    PlayAppend(tasks, w, schedule, rest);
  }

  // ---- a task alone ----

  /** No other task holds a lock that t uses. */
  ghost predicate Unhindered(tasks: seq<Task>, w: World, t: nat)
    requires |tasks| == |w.stages| && t < |tasks|
  {
    forall u :: 0 <= u < |tasks| && u != t ==>
      && !HoldsIndex(w.stages[u])
      && (HoldsData(w.stages[u]) ==>
            DataLock(tasks[u].path) != DataLock(tasks[t].path) && DataLock(tasks[u].path) != IndexLock(tasks[t].path))
  }

  lemma UnhinderedSteps(tasks: seq<Task>, w: World, t: nat)
    requires Exclusive(tasks, w.locks, w.stages) && t < |tasks| && Unhindered(tasks, w, t)
    requires !w.stages[t].Done? && (w.stages[t].Waiting? ==> MayStart(tasks, w, t))
    ensures CanStep(tasks, w, t)
  {
    OwnLocksDiffer(tasks[t].path);
    var l := if w.stages[t].Waiting? then DataLock(tasks[t].path) else IndexLock(tasks[t].path);
    if l in w.locks {
      assert Owned(tasks, w.locks, w.stages, l);
    }
  }

  lemma MoveOrder(w: World, task: Task, t: nat)
    requires t < |w.stages|
    ensures var w' := Move(w, task, t);
            && w'.order == (if w.stages[t].Waiting? && !task.op.Get? then w.order + [t] else w.order)
            && w'.effects == (if TakesEffect(w.stages[t], StageAfter(w, task, t)) then w.effects + [t] else w.effects)
  {
    match w.stages[t]
    case Loaded(existing) => CommitOrder(w, task, t, existing);
    case Spreading(leaves) => SpreadOrder(w, t, leaves);
    case _ =>
  }

  lemma CommitOrder(w: World, task: Task, t: nat, existing: Option<Value>)
    requires t < |w.stages|
    ensures var w' := Commit(w, task, t, existing);
            && w'.order == w.order
            && w'.effects == (if Committed(task, existing).Finishing? then w.effects + [t] else w.effects)
  {
  }

  lemma SpreadOrder(w: World, t: nat, leaves: seq<Leaf>)
    requires t < |w.stages|
    ensures var w' := SpreadOne(w, t, leaves);
            w'.order == w.order && w'.effects == (if leaves == [] then w.effects + [t] else w.effects)
  {
  }

  /** The move with which a task's value and index are final: releasing the data lock is all that is left. */
  predicate TakesEffect(s: Stage, s': Stage) {
    (s'.Finishing? && !s.Finishing?) || s.PeekHold?
  }

  lemma StillUnhindered(tasks: seq<Task>, w: World, w': World, t: nat, s: Stage)
    requires |tasks| == |w.stages| && t < |tasks| && Unhindered(tasks, w, t) && w'.stages == w.stages[t := s]
    ensures Unhindered(tasks, w', t)
  {
  }

  /** Whether a task has yet to take effect and is sure to; a reader is once it has seen an entry to clear. */
  predicate WillTakeEffect(task: Task, s: Stage) {
    !s.Finishing? && !s.Done? && !s.Peeking? && !(s.Waiting? && task.op.Get?)
  }

  predicate EffectAsDue(task: Task, s: Stage, s': Stage, effects: seq<nat>, effects': seq<nat>, t: nat) {
    && (WillTakeEffect(task, s) && WillTakeEffect(task, s') ==> effects' == effects)
    && (WillTakeEffect(task, s) && !WillTakeEffect(task, s') ==>
          (s'.Finishing? || s'.Done?) && effects' == effects + [t])
    && (s.Finishing? ==> s'.Done? && effects' == effects)
  }

  lemma FollowingIsDue(task: Task, s: Stage, stored: Option<Value>, index: set<string>)
    requires !s.Done?
    ensures var s' := Following(task, s, stored, index);
            && (WillTakeEffect(task, s) ==> TakesEffect(s, s') == !WillTakeEffect(task, s'))
            && (WillTakeEffect(task, s) && !WillTakeEffect(task, s') ==> s'.Finishing? || s'.Done?)
            && (s.Finishing? ==> s'.Done? && !TakesEffect(s, s'))
  {
  }

  lemma MoveIsDue(w: World, task: Task, t: nat)
    requires t < |w.stages| && !w.stages[t].Done?
    ensures EffectAsDue(task, w.stages[t], StageAfter(w, task, t), w.effects, Move(w, task, t).effects, t)
    ensures Move(w, task, t).stages == w.stages[t := StageAfter(w, task, t)]
  {
    MoveStages(w, task, t);
    MoveOrder(w, task, t);
    FollowingIsDue(task, w.stages[t], Stored(w, KeyOf(task)), IndexOf(w, task.path.collection));
  }

  /** One step towards the end of a task that runs alone. */
  lemma StepAlone(tasks: seq<Task>, w: World, t: nat) returns (w': World)
    requires Exclusive(tasks, w.locks, w.stages) && t < |tasks| && Unhindered(tasks, w, t)
    requires !w.stages[t].Done? && (w.stages[t].Waiting? ==> MayStart(tasks, w, t))
    ensures w' == Step(tasks, w, t)
    ensures Exclusive(tasks, w'.locks, w'.stages) && Unhindered(tasks, w', t)
    ensures w'.stages == w.stages[t := w'.stages[t]] && !w'.stages[t].Waiting?
    ensures EffectAsDue(tasks[t], w.stages[t], w'.stages[t], w.effects, w'.effects, t)
    ensures Work(w'.stages) < Work(w.stages)
            || (Work(w'.stages) == Work(w.stages) && Leftover(w'.stages) < Leftover(w.stages))
    ensures Work(w.stages) >= 0 && Leftover(w.stages) >= 0
  {
    w' := Step(tasks, w, t);
    UnhinderedSteps(tasks, w, t);
    StepAdvances(tasks, w, t);
    StepDoesWork(tasks, w, t);
    StepKeepsExclusive(tasks, w, t);
    MoveIsDue(w, tasks[t], t);
    StillUnhindered(tasks, w, w', t, w'.stages[t]);
  }

  /** Such a task can run to its end with no other moving. */
  lemma {:induction false} RunAlone(tasks: seq<Task>, w: World, t: nat) returns (schedule: seq<nat>)
    requires Exclusive(tasks, w.locks, w.stages) && t < |tasks| && Unhindered(tasks, w, t)
    requires w.stages[t].Waiting? ==> MayStart(tasks, w, t)
    ensures var w' := Play(tasks, w, schedule);
            && w'.stages == w.stages[t := Done]
            && (WillTakeEffect(tasks[t], w.stages[t]) ==> w'.effects == w.effects + [t])
            && (w.stages[t].Finishing? || w.stages[t].Done? ==> w'.effects == w.effects)
            && Exclusive(tasks, w'.locks, w'.stages)
    decreases Work(w.stages), Leftover(w.stages)
  {
    if w.stages[t].Done? {
      schedule := [];
    } else {
      var w' := StepAlone(tasks, w, t);
      var rest := RunAlone(tasks, w', t);
      PlayFrom(tasks, w, t, rest);
      schedule := [t] + rest;
    }
  }
}
