/** Where taking effect one by one is not enough: the exact conditions, and inputs that meet them. */
module RouterConflicts {
  import opened Outcomes
  import opened RouterOps
  import opened RouterLocks
  import opened RouterLinearizable
  import opened Strings

  /** The task has made its writes. */
  predicate HasWritten(s: Stage) {
    s.IndexWait? || s.IndexHold? || s.Finishing? || s.Done?
  }

  ghost predicate AllWritten(w: World) {
    forall t :: 0 <= t < |w.stages| ==> HasWritten(w.stages[t])
  }

  // ---- two appends to one storage key ----

  function TwoAppends(p: Path, x: Value, q: Path, y: Value): seq<Task> {
    ExpandAll([Call(p, Append(x)), Call(q, Append(y))])
  }

  function PlayAppends(p: Path, x: Value, q: Path, y: Value, start: map<string, Value>,
                       index: map<string, set<string>>, schedule: seq<nat>): World {
    var tasks := TwoAppends(p, x, q, y);
    Play(tasks, Start(tasks, start, index), schedule)
  }

  function At(start: map<string, Value>, key: string): Option<Value> {
    if key in start then Some(start[key]) else None
  }

  /** What was there first and both items, in either order. */
  predicate HoldsBoth(end: Option<Value>, prior: Option<Value>, x: Value, y: Value) {
    end == Grown(prior, [x, y]) || end == Grown(prior, [y, x])
  }

  /** However two appends interleave, once both have written the key holds both items with what was there. */
  ghost predicate AppendsSurvive(p: Path, x: Value, q: Path, y: Value, start: map<string, Value>,
                                 index: map<string, set<string>>) {
    forall schedule :: AllWritten(PlayAppends(p, x, q, y, start, index, schedule)) ==>
      HoldsBoth(Stored(PlayAppends(p, x, q, y, start, index, schedule), BuildKey(p)), At(start, BuildKey(p)), x, y)
  }

  /** Two results of appending to one value are told apart by what was appended. */
  lemma GrownTells(prior: Option<Value>, a: seq<Value>, b: seq<Value>)
    ensures Grown(prior, a) == Grown(prior, b) ==> a == b
  {
    if prior.Some? && prior.value.Arr? && a != [] && b != [] {
      var v := prior.value.items;
      assert (v + a)[|v|..] == a && (v + b)[|v|..] == b;
    } else if prior.Some? && !prior.value.Null? && a != [] && b != [] {
      assert ([prior.value] + a)[1..] == a && ([prior.value] + b)[1..] == b;
    } else if prior.Some? && prior.value.Arr? {
      var v := prior.value.items;
      assert |v + a| == |v| + |a| && |v + b| == |v| + |b|;
    }
  }

  lemma ExpandTwo(a: Call, b: Call)
    ensures ExpandAll([a, b]) == Expand(a) + Expand(b)
  {
    assert [a, b][..1] == [a] && [a][..0] == [];
    assert ExpandAll([a]) == Expand(a);
  }

  lemma WholeAppend(p: Path, x: Value)
    requires !Splits(p, x)
    ensures Expand(Call(p, Append(x))) == [Task(p, Append(x), false)]
  {
  }

  /** Taking the lock and reading, as long as no other task is in the way. */
  lemma AppendLoads(tasks: seq<Task>, w: World, t: nat)
    requires |tasks| == |w.stages| && t < |tasks| && tasks[t].op.Append? && !tasks[t].follows
    requires w.stages[t].Waiting? && DataLock(tasks[t].path) !in w.locks
    ensures var w' := Play(tasks, w, [t, t]);
            && w'.stages == w.stages[t := Loaded(Existing(tasks[t].op, Stored(w, KeyOf(tasks[t]))))]
            && w'.data == w.data && w'.locks == w.locks[DataLock(tasks[t].path) := t]
  {
    var w1 := Step(tasks, w, t);
    assert w1.stages == w.stages[t := Locked] && w1.data == w.data;
    PlayFrom(tasks, w1, t, []);
    PlayFrom(tasks, w, t, [t]);
    assert [t] + [t] == [t, t] && [t] + [] == [t];
  }

  lemma LoadedWrites(tasks: seq<Task>, w: World, t: nat)
    requires |tasks| == |w.stages| && t < |tasks| && tasks[t].op.Append? && w.stages[t].Loaded?
    ensures var w' := Step(tasks, w, t);
            && w'.stages == w.stages[t := IndexWait]
            && w'.data == w.data[KeyOf(tasks[t]) := Perform(tasks[t].op, w.stages[t].existing).value]
  {
  }

  /** Both have read before either writes. */
  lemma BothLoad(tasks: seq<Task>, w: World)
    requires |tasks| == 2 && tasks[0].op.Append? && tasks[1].op.Append? && !tasks[0].follows && !tasks[1].follows
    requires w.stages == [Waiting, Waiting] && w.locks == map[]
    requires DataLock(tasks[0].path) != DataLock(tasks[1].path)
    ensures var w' := Play(tasks, w, [0, 0] + [1, 1]);
            && w'.data == w.data
            && w'.stages == [Loaded(Existing(tasks[0].op, Stored(w, KeyOf(tasks[0])))),
                             Loaded(Existing(tasks[1].op, Stored(w, KeyOf(tasks[1]))))]
  {
    AppendLoads(tasks, w, 0);
    AppendLoads(tasks, Play(tasks, w, [0, 0]), 1);
    PlayAppend(tasks, w, [0, 0], [1, 1]);
  }

  lemma BothWrite(tasks: seq<Task>, w: World)
    requires |tasks| == 2 == |w.stages| && tasks[0].op.Append? && tasks[1].op.Append?
    requires w.stages[0].Loaded? && w.stages[1].Loaded?
    ensures var w' := Play(tasks, w, [0] + [1]);
            && w'.stages == [IndexWait, IndexWait]
            && Stored(w', KeyOf(tasks[1])) == Perform(tasks[1].op, w.stages[1].existing)
  {
    LoadedWrites(tasks, w, 0);
    LoadedWrites(tasks, Step(tasks, w, 0), 1);
    PlayFrom(tasks, w, 0, []);
    assert [0] + [] == [0];
    PlayThen(tasks, w, [0], [], 1);
    assert [0] + [] + [1] == [0] + [1];
  }

  /** Two locks let both appends read before either writes, and the second write erases the first. */
  lemma AliasedAppendIsLost(p: Path, x: Value, q: Path, y: Value, start: map<string, Value>,
                            index: map<string, set<string>>) returns (schedule: seq<nat>)
    requires BuildKey(p) == BuildKey(q) && DataLock(p) != DataLock(q) && !Splits(p, x) && !Splits(q, y)
    ensures AllWritten(PlayAppends(p, x, q, y, start, index, schedule))
    ensures Stored(PlayAppends(p, x, q, y, start, index, schedule), BuildKey(p)) == Grown(At(start, BuildKey(p)), [y])
  {
    var tasks := TwoAppends(p, x, q, y);
    ExpandTwo(Call(p, Append(x)), Call(q, Append(y)));
    WholeAppend(p, x);
    WholeAppend(q, y);
    assert tasks == [Task(p, Append(x), false), Task(q, Append(y), false)];
    var w0 := Start(tasks, start, index);
    BothLoad(tasks, w0);
    BothWrite(tasks, Play(tasks, w0, [0, 0] + [1, 1]));
    PlayAppend(tasks, w0, [0, 0] + [1, 1], [0] + [1]);
    GrownMore(At(start, BuildKey(p)), [], y);
    assert [] + [y] == [y];
    schedule := [0, 0] + [1, 1] + ([0] + [1]);
  }

  lemma AppendedSoFar(task: Task, s: Stage, cell: Cell, items: seq<Value>, prior: Option<Value>)
    requires task.op.Append? && cell.value == Grown(prior, items)
    ensures SoFar(task, s, cell).value
         == if s.IndexWait? || s.IndexHold? then Grown(prior, items + [task.op.item]) else cell.value
  {
    GrownMore(prior, items, task.op.item);
  }

  /** Two appends under one key have both written: it holds both items. */
  lemma BothHaveWritten(tasks: seq<Task>, w: World, key: string, c: string, start: Cell)
    requires |tasks| == 2 && tasks[0].op.Append? && tasks[1].op.Append?
    requires KeyOf(tasks[0]) == key && KeyOf(tasks[1]) == key && OneCollection(tasks, key, c)
    requires Linear(tasks, w, key, c, start) && key !in w.spread && AllWritten(w)
    requires Exclusive(tasks, w.locks, w.stages)
    ensures HoldsBoth(Stored(w, key), start.value, tasks[0].op.item, tasks[1].op.item)
  {
    if Open(w.stages[0]) {
      HoldersHaveDifferentKeys(tasks, w, 0, 1, key, c);
      CellAtWork(tasks, w, 0, key, c, start);
      OneIsAtWork(tasks, w, 0, key, c, start);
    } else if Open(w.stages[1]) {
      CellAtWork(tasks, w, 1, key, c, start);
      OneIsAtWork(tasks, w, 1, key, c, start);
    } else {
      BothAreThrough(tasks, w, key, c, start);
    }
  }

  /** Both have taken effect. */
  lemma BothAreThrough(tasks: seq<Task>, w: World, key: string, c: string, start: Cell)
    requires |tasks| == 2 && tasks[0].op.Append? && tasks[1].op.Append?
    requires KeyOf(tasks[0]) == key && KeyOf(tasks[1]) == key
    requires Listing(tasks, w) && InStep(tasks, w, key, c, start) && AllWritten(w)
    requires !Open(w.stages[0]) && !Open(w.stages[1])
    ensures HoldsBoth(Stored(w, key), start.value, tasks[0].op.item, tasks[1].op.item)
  {
    TwoEffects(tasks, w);
    SerialAppends(tasks, w.effects, key, start);
    ItemsOfTwo(tasks, w.effects, key);
  }

  /** One is through, and t has written but not taken effect. */
  lemma OneIsAtWork(tasks: seq<Task>, w: World, t: nat, key: string, c: string, start: Cell)
    requires |tasks| == 2 && tasks[0].op.Append? && tasks[1].op.Append? && t < 2
    requires KeyOf(tasks[0]) == key && KeyOf(tasks[1]) == key
    requires Listing(tasks, w) && AllWritten(w) && Open(w.stages[t]) && !Open(w.stages[1 - t])
    requires CellAt(w, key, c) == SoFar(tasks[t], w.stages[t], Serially(tasks, w.effects, key, start))
    ensures Stored(w, key) == Grown(start.value, [tasks[1 - t].op.item, tasks[t].op.item])
  {
    var first := 1 - t;
    OneEffect(tasks, w, first);
    SerialAppends(tasks, w.effects, key, start);
    ItemsOfOne(tasks, w.effects, first, key);
    AppendedSoFar(tasks[t], w.stages[t], Serially(tasks, w.effects, key, start), [tasks[first].op.item], start.value);
    assert [tasks[first].op.item] + [tasks[t].op.item] == [tasks[first].op.item, tasks[t].op.item];
  }

  lemma CellAtWork(tasks: seq<Task>, w: World, t: nat, key: string, c: string, start: Cell)
    requires |tasks| == |w.stages| && t < |tasks| && KeyOf(tasks[t]) == key && Open(w.stages[t])
    requires InStep(tasks, w, key, c, start)
    ensures CellAt(w, key, c) == SoFar(tasks[t], w.stages[t], Serially(tasks, w.effects, key, start))
  {
  }

  lemma ItemsOfOne(tasks: seq<Task>, order: seq<nat>, t: nat, key: string)
    requires t < |tasks| && tasks[t].op.Append? && KeyOf(tasks[t]) == key && order == [t]
    ensures Items(tasks, order, key) == [tasks[t].op.item]
  {
    assert order[..|order| - 1] == [] && [] + [tasks[t].op.item] == [tasks[t].op.item];
  }

  lemma ItemsOfTwo(tasks: seq<Task>, order: seq<nat>, key: string)
    requires |tasks| == 2 && tasks[0].op.Append? && tasks[1].op.Append?
    requires KeyOf(tasks[0]) == key && KeyOf(tasks[1]) == key && (order == [0, 1] || order == [1, 0])
    ensures Items(tasks, order, key) == [tasks[order[0]].op.item, tasks[order[1]].op.item]
  {
    ItemsOfOne(tasks, [order[0]], order[0], key);
    assert order[..|order| - 1] == [order[0]];
  }

  predicate OneOf(m: nat, i: nat, j: nat) {
    m == i || m == j
  }

  lemma TwoDistinctBelowTwo(order: seq<nat>)
    requires forall i :: 0 <= i < |order| ==> order[i] < 2
    requires forall i, j :: 0 <= i < j < |order| ==> order[i] != order[j]
    requires 0 in order && 1 in order
    ensures order == [0, 1] || order == [1, 0]
  {
    var i :| 0 <= i < |order| && order[i] == 0;
    var j :| 0 <= j < |order| && order[j] == 1;
    forall m: nat | m < |order|
      ensures OneOf(m, i, j)
    {
      assert order[m] == 0 || order[m] == 1;
    }
    assert !OneOf(0, i, j) || !OneOf(1, i, j) || !OneOf(2, i, j);
    assert |order| == 2;
  }

  lemma OneDistinctBelowTwo(order: seq<nat>, t: nat)
    requires t < 2 && t in order && 1 - t !in order
    requires forall i :: 0 <= i < |order| ==> order[i] < 2
    requires forall i, j :: 0 <= i < j < |order| ==> order[i] != order[j]
    ensures order == [t]
  {
    var i :| 0 <= i < |order| && order[i] == t;
    forall m: nat | m < |order|
      ensures OneOf(m, i, i)
    {
      assert order[m] in order;
    }
    assert !OneOf(0, i, i) || !OneOf(1, i, i);
    assert |order| == 1;
  }

  lemma OneEffect(tasks: seq<Task>, w: World, t: nat)
    requires |tasks| == 2 && t < 2 && !tasks[t].op.Get? && Listing(tasks, w) && AllWritten(w)
    requires !Open(w.stages[t]) && Open(w.stages[1 - t])
    ensures w.effects == [t]
  {
    assert t in w.effects && 1 - t !in w.effects;
    OneDistinctBelowTwo(w.effects, t);
  }

  lemma TwoEffects(tasks: seq<Task>, w: World)
    requires |tasks| == 2 && !tasks[0].op.Get? && !tasks[1].op.Get? && Listing(tasks, w) && AllWritten(w)
    requires !Open(w.stages[0]) && !Open(w.stages[1])
    ensures w.effects == [0, 1] || w.effects == [1, 0]
  {
    assert 0 in w.effects && 1 in w.effects;
    TwoDistinctBelowTwo(w.effects);
  }

  lemma LockedAppendsSurvive(p: Path, x: Value, q: Path, y: Value, start: map<string, Value>,
                             index: map<string, set<string>>, schedule: seq<nat>)
    requires BuildKey(p) == BuildKey(q) && p.collection == q.collection && !Splits(p, x) && !Splits(q, y)
    requires AllWritten(PlayAppends(p, x, q, y, start, index, schedule))
    ensures HoldsBoth(Stored(PlayAppends(p, x, q, y, start, index, schedule), BuildKey(p)),
                      At(start, BuildKey(p)), x, y)
  {
    var tasks, w, key := TwoAppends(p, x, q, y), PlayAppends(p, x, q, y, start, index, schedule), BuildKey(p);
    ExpandTwo(Call(p, Append(x)), Call(q, Append(y)));
    WholeAppend(p, x);
    WholeAppend(q, y);
    TameRunsSpreadNothing(tasks, start, index, schedule);
    PlayIsLinear(tasks, start, index, schedule, key, p.collection);
    BothHaveWritten(tasks, w, key, p.collection, FirstCell(start, index, key, p.collection));
  }

  // ---- arrays hold each task's item at most once, whatever the locks ----

  ghost predicate AppendTasks(tasks: seq<Task>) {
    forall t :: 0 <= t < |tasks| ==> tasks[t].op.Append?
  }

  ghost predicate Distinct(ids: seq<nat>) {
    forall i, j :: 0 <= i < j < |ids| ==> ids[i] != ids[j]
  }

  function ItemsOf(tasks: seq<Task>, ids: seq<nat>): seq<Value>
    requires AppendTasks(tasks) && forall i :: 0 <= i < |ids| ==> ids[i] < |tasks|
  {
    seq(|ids|, i requires 0 <= i < |ids| => tasks[ids[i]].op.item)
  }

  /** The value is what was there first with items of different tasks that have written. */
  ghost predicate Drawn(tasks: seq<Task>, stages: seq<Stage>, prior: Option<Value>, v: Option<Value>)
    requires AppendTasks(tasks) && |tasks| == |stages|
  {
    exists ids: seq<nat> :: DrawnAs(tasks, stages, prior, v, ids)
  }

  ghost predicate DrawnAs(tasks: seq<Task>, stages: seq<Stage>, prior: Option<Value>, v: Option<Value>, ids: seq<nat>)
    requires AppendTasks(tasks) && |tasks| == |stages|
  {
    && (forall i :: 0 <= i < |ids| ==> ids[i] < |tasks| && HasWritten(stages[ids[i]]))
    && Distinct(ids) && v == Grown(prior, ItemsOf(tasks, ids))
  }

  /** The stages an append goes through. */
  predicate Straight(s: Stage) {
    s.Waiting? || s.Locked? || s.Loaded? || HasWritten(s)
  }

  /** What a task has read is drawn as well. */
  ghost predicate ReadIsDrawn(tasks: seq<Task>, stages: seq<Stage>, prior: Option<Value>, task: Task, s: Stage)
    requires AppendTasks(tasks) && |tasks| == |stages|
  {
    s.Loaded? ==> exists v :: Drawn(tasks, stages, prior, v) && s.existing == Existing(task.op, v)
  }

  ghost predicate AllDrawn(tasks: seq<Task>, w: World, start: map<string, Value>)
    requires AppendTasks(tasks) && |tasks| == |w.stages|
  {
    && (forall key :: Drawn(tasks, w.stages, At(start, key), Stored(w, key)))
    && (forall t :: 0 <= t < |tasks| ==>
          Straight(w.stages[t]) && ReadIsDrawn(tasks, w.stages, At(start, KeyOf(tasks[t])), tasks[t], w.stages[t]))
  }

  lemma DrawnLater(tasks: seq<Task>, stages: seq<Stage>, t: nat, s: Stage, prior: Option<Value>, v: Option<Value>)
    requires AppendTasks(tasks) && |tasks| == |stages| && t < |tasks| && Drawn(tasks, stages, prior, v)
    requires HasWritten(stages[t]) ==> HasWritten(s)
    ensures Drawn(tasks, stages[t := s], prior, v)
  {
    var ids :| DrawnAs(tasks, stages, prior, v, ids);
    assert DrawnAs(tasks, stages[t := s], prior, v, ids);
  }

  lemma DrawnMore(tasks: seq<Task>, stages: seq<Stage>, t: nat, prior: Option<Value>, v: Option<Value>)
    requires AppendTasks(tasks) && |tasks| == |stages| && t < |tasks| && !HasWritten(stages[t])
    requires Drawn(tasks, stages, prior, v)
    ensures Drawn(tasks, stages[t := IndexWait], prior, Perform(tasks[t].op, Existing(tasks[t].op, v)))
  {
    var ids :| DrawnAs(tasks, stages, prior, v, ids);
    var more := ids + [t];
    assert ItemsOf(tasks, more) == ItemsOf(tasks, ids) + [tasks[t].op.item];
    GrownMore(prior, ItemsOf(tasks, ids), tasks[t].op.item);
    assert DrawnAs(tasks, stages[t := IndexWait], prior, Perform(tasks[t].op, Existing(tasks[t].op, v)), more);
  }

  lemma ReadIsDrawnLater(tasks: seq<Task>, stages: seq<Stage>, t: nat, s: Stage, prior: Option<Value>, task: Task,
                         read: Stage)
    requires AppendTasks(tasks) && |tasks| == |stages| && t < |tasks| && (HasWritten(stages[t]) ==> HasWritten(s))
    requires ReadIsDrawn(tasks, stages, prior, task, read)
    ensures ReadIsDrawn(tasks, stages[t := s], prior, task, read)
  {
    if read.Loaded? {
      var v :| Drawn(tasks, stages, prior, v) && read.existing == Existing(task.op, v);
      DrawnLater(tasks, stages, t, s, prior, v);
    }
  }

  lemma AppendMove(w: World, task: Task, t: nat)
    requires t < |w.stages| && task.op.Append? && Straight(w.stages[t])
    ensures var s, s', w' := w.stages[t], StageAfter(w, task, t), Move(w, task, t);
            && (HasWritten(s) ==> HasWritten(s')) && Straight(s')
            && (s'.Loaded? ==> s'.existing == Existing(task.op, Stored(w, KeyOf(task))))
            && (if s.Loaded?
                then s' == IndexWait && w'.data == w.data[KeyOf(task) := Perform(task.op, s.existing).value]
                else w'.data == w.data)
  {
  }

  lemma StepKeepsDrawn(tasks: seq<Task>, w: World, t: nat, start: map<string, Value>)
    requires AppendTasks(tasks) && |tasks| == |w.stages| && AllDrawn(tasks, w, start)
    requires t < |tasks| && CanStep(tasks, w, t)
    ensures AllDrawn(tasks, Step(tasks, w, t), start)
  {
    var w', s' := Step(tasks, w, t), StageAfter(w, tasks[t], t);
    MoveStages(w, tasks[t], t);
    AppendMove(w, tasks[t], t);
    forall key
      ensures Drawn(tasks, w'.stages, At(start, key), Stored(w', key))
    {
      if w.stages[t].Loaded? && key == KeyOf(tasks[t]) {
        var v :| Drawn(tasks, w.stages, At(start, key), v) && w.stages[t].existing == Existing(tasks[t].op, v);
        DrawnMore(tasks, w.stages, t, At(start, key), v);
      } else {
        DrawnLater(tasks, w.stages, t, s', At(start, key), Stored(w, key));
      }
    }
    forall u | 0 <= u < |tasks|
      ensures Straight(w'.stages[u])
      ensures ReadIsDrawn(tasks, w'.stages, At(start, KeyOf(tasks[u])), tasks[u], w'.stages[u])
    {
      if u != t {
        ReadIsDrawnLater(tasks, w.stages, t, s', At(start, KeyOf(tasks[u])), tasks[u], w.stages[u]);
      } else {
        DrawnLater(tasks, w.stages, t, s', At(start, KeyOf(tasks[t])), Stored(w, KeyOf(tasks[t])));
      }
    }
  }

  lemma {:induction false} PlayKeepsDrawn(tasks: seq<Task>, start: map<string, Value>, index: map<string, set<string>>,
                                          schedule: seq<nat>)
    requires AppendTasks(tasks)
    ensures AllDrawn(tasks, Play(tasks, Start(tasks, start, index), schedule), start)
  {
    if schedule == [] {
      forall key
        ensures Drawn(tasks, Start(tasks, start, index).stages, At(start, key), Stored(Start(tasks, start, index), key))
      {
        assert DrawnAs(tasks, Start(tasks, start, index).stages, At(start, key), At(start, key), []);
      }
    } else {
      var front, t := schedule[..|schedule| - 1], schedule[|schedule| - 1];
      PlayKeepsDrawn(tasks, start, index, front);
      var w := Play(tasks, Start(tasks, start, index), front);
      if t < |tasks| && CanStep(tasks, w, t) {
        StepKeepsDrawn(tasks, w, t, start);
      }
    }
  }

  /** The items one append turns into: itself, or lower parts of itself. */
  lemma ExpandedItems(p: Path, x: Value, k: nat)
    requires k < |Expand(Call(p, Append(x)))|
    ensures var task := Expand(Call(p, Append(x)))[k];
            && task.op.Append?
            && (if Splits(p, x) then Height(task.op.item) < Height(x)
                else task.op.item == x && |Expand(Call(p, Append(x)))| == 1)
  {
    if Splits(p, x) {
      SplitLeavesAreSmaller(p, x);
    }
  }

  /** When one of the items splits, no two tasks append the two items as they are. */
  lemma SplitItemsAreMissing(p: Path, x: Value, q: Path, y: Value, a: nat, b: nat)
    requires Splits(p, x) || Splits(q, y)
    requires a < |TwoAppends(p, x, q, y)| && b < |TwoAppends(p, x, q, y)| && a != b
    ensures var tasks := TwoAppends(p, x, q, y);
            && tasks[a].op.Append? && tasks[b].op.Append?
            && !(tasks[a].op.item == x && tasks[b].op.item == y)
  {
    var first, second := Expand(Call(p, Append(x))), Expand(Call(q, Append(y)));
    ExpandTwo(Call(p, Append(x)), Call(q, Append(y)));
    if a < |first| { ExpandedItems(p, x, a); } else { ExpandedItems(q, y, a - |first|); }
    if b < |first| { ExpandedItems(p, x, b); } else { ExpandedItems(q, y, b - |first|); }
  }

  lemma SplitAppendIsElsewhere(p: Path, x: Value, q: Path, y: Value, prior: Option<Value>, v: Option<Value>,
                               stages: seq<Stage>)
    requires Splits(p, x) || Splits(q, y)
    requires AppendTasks(TwoAppends(p, x, q, y)) && |stages| == |TwoAppends(p, x, q, y)|
    requires Drawn(TwoAppends(p, x, q, y), stages, prior, v)
    ensures !HoldsBoth(v, prior, x, y)
  {
    var tasks := TwoAppends(p, x, q, y);
    var ids :| DrawnAs(tasks, stages, prior, v, ids);
    var items := ItemsOf(tasks, ids);
    GrownTells(prior, items, [x, y]);
    GrownTells(prior, items, [y, x]);
    if |ids| == 2 {
      SplitItemsAreMissing(p, x, q, y, ids[0], ids[1]);
      SplitItemsAreMissing(p, x, q, y, ids[1], ids[0]);
      assert items[0] == tasks[ids[0]].op.item && items[1] == tasks[ids[1]].op.item;
    } else {
      assert |items| == |ids| && |[x, y]| == 2 && |[y, x]| == 2;
    }
  }

  lemma TwoAppendsOnlyAppend(p: Path, x: Value, q: Path, y: Value)
    ensures AppendTasks(TwoAppends(p, x, q, y))
  {
    ExpandTwo(Call(p, Append(x)), Call(q, Append(y)));
  }

  /** A split item never reaches the key itself: in a finished schedule the key lacks it. */
  lemma SplitAppendIsLost(p: Path, x: Value, q: Path, y: Value, start: map<string, Value>,
                          index: map<string, set<string>>) returns (schedule: seq<nat>)
    requires Splits(p, x) || Splits(q, y)
    ensures AllWritten(PlayAppends(p, x, q, y, start, index, schedule))
    ensures !HoldsBoth(Stored(PlayAppends(p, x, q, y, start, index, schedule), BuildKey(p)),
                       At(start, BuildKey(p)), x, y)
  {
    var tasks, key := TwoAppends(p, x, q, y), BuildKey(p);
    TwoAppendsOnlyAppend(p, x, q, y);
    schedule := CanFinish(tasks, Start(tasks, start, index));
    PlayKeepsDrawn(tasks, start, index, schedule);
    var w := PlayAppends(p, x, q, y, start, index, schedule);
    SplitAppendIsElsewhere(p, x, q, y, At(start, key), Stored(w, key), w.stages);
  }

  /**
   * Where two paths share a storage key, appends through them keep both items in every schedule,
   * whatever is stored, exactly when they name one collection, and so one lock, and neither item
   * is an object that is split because it is appended at the root.
   */
  lemma AppendsSurviveIff(p: Path, x: Value, q: Path, y: Value, start: map<string, Value>,
                          index: map<string, set<string>>)
    requires BuildKey(p) == BuildKey(q)
    ensures AppendsSurvive(p, x, q, y, start, index)
       <==> p.collection == q.collection && !Splits(p, x) && !Splits(q, y)
  {
    if Splits(p, x) || Splits(q, y) {
      var schedule := SplitAppendIsLost(p, x, q, y, start, index);
    } else if p.collection == q.collection {
      forall schedule | AllWritten(PlayAppends(p, x, q, y, start, index, schedule))
        ensures HoldsBoth(Stored(PlayAppends(p, x, q, y, start, index, schedule), BuildKey(p)),
                          At(start, BuildKey(p)), x, y)
      {
        LockedAppendsSurvive(p, x, q, y, start, index, schedule);
      }
    } else {
      if DataLock(p) == DataLock(q) {
        assert DataLock(p) == p.collection + (":" + BuildKey(p)) && DataLock(q) == q.collection + (":" + BuildKey(q));
        SameSuffix(p.collection, q.collection, ":" + BuildKey(p));
      }
      var schedule := AliasedAppendIsLost(p, x, q, y, start, index);
      GrownTells(At(start, BuildKey(p)), [y], [x, y]);
      GrownTells(At(start, BuildKey(p)), [y], [y, x]);
      assert |[y]| != |[x, y]| && |[y]| != |[y, x]|;
    }
  }

  lemma SameSuffix(a: string, b: string, s: string)
    requires a + s == b + s
    ensures a == b
  {
    assert |a + s| == |a| + |s| && |b + s| == |b| + |s|;
    assert a == (a + s)[..|a|] && b == (b + s)[..|b|];
  }

  /** Paths that share a key but not a lock exist: "a:b" and "a/b". */
  lemma AliasedPaths()
    ensures var p, q := Path("a:b", []), Path("a", ["b"]);
            BuildKey(p) == BuildKey(q) && p.collection != q.collection
  {
    var p, q := Path("a:b", []), Path("a", ["b"]);
    assert JoinColon(["b"][1..]) == "";
    assert JoinColon(["b"]) == ":b";
    assert BuildKey(p) == "smallstore:a:b" && BuildKey(q) == "smallstore:a:b";
  }

  // ---- a patch that splits against an append at a sub-path ----

  function PatchAndAppend(p: Path, fields: seq<Field>, q: Path, x: Value): seq<Task> {
    ExpandAll([Call(p, Patch(fields)), Call(q, Append(x))])
  }

  lemma PatchAndAppendExpand(p: Path, fields: seq<Field>, q: Path, x: Value)
    requires !Splits(q, x)
    ensures PatchAndAppend(p, fields, q, x) == [Task(p, Patch(fields), false), Task(q, Append(x), false)]
  {
    ExpandTwo(Call(p, Patch(fields)), Call(q, Append(x)));
    WholeAppend(q, x);
  }

  function Holding(a: string, v: Option<Value>, b: string, u: Option<Value>): map<string, Value> {
    (if v.Some? then map[a := v.value] else map[]) + if u.Some? then map[b := u.value] else map[]
  }

  function PlayBoth(p: Path, fields: seq<Field>, stored: Option<Value>, q: Path, x: Value, prior: Option<Value>,
                    schedule: seq<nat>): World {
    var tasks := PatchAndAppend(p, fields, q, x);
    Play(tasks, Start(tasks, Holding(BuildKey(p), stored, BuildKey(q), prior), map[]), schedule)
  }

  /** What the patch spreads over sub-keys, given what is stored under its own key. */
  function SplitWrites(p: Path, fields: seq<Field>, stored: Option<Value>): seq<Leaf> {
    var v := Patched(Existing(Patch(fields), stored), fields);
    if Splits(p, v) then Leaves(p, v) else []
  }

  function LastLeaf(leaves: seq<Leaf>, key: string): Option<Value> {
    if leaves == [] then None
    else if BuildKey(leaves[|leaves| - 1].path) == key then Some(leaves[|leaves| - 1].value)
    else LastLeaf(leaves[..|leaves| - 1], key)
  }

  function Appended(x: Value, v: Option<Value>): Option<Value> {
    Perform(Append(x), Existing(Append(x), v))
  }

  function Or(v: Option<Value>, prior: Option<Value>): Option<Value> {
    if v.Some? then v else prior
  }

  /**
   * Whatever is appended there to whatever is there, in whatever schedule, the key ends as one of
   * the two orders leaves it.
   */
  ghost predicate AmountsToAnOrder(p: Path, fields: seq<Field>, stored: Option<Value>, q: Path) {
    var v := LastLeaf(SplitWrites(p, fields, stored), BuildKey(q));
    forall x, prior, schedule ::
      !Splits(q, x) && AllWritten(PlayBoth(p, fields, stored, q, x, prior, schedule)) ==>
      var end := Stored(PlayBoth(p, fields, stored, q, x, prior, schedule), BuildKey(q));
      end == Appended(x, Or(v, prior)) || end == Or(v, Appended(x, prior))
  }

  // The patch reads what is stored first and last, and spreads within the keys of its split.

  ghost predicate WithinKeys(leaves: seq<Leaf>, keys: set<string>) {
    forall i :: 0 <= i < |leaves| ==> BuildKey(leaves[i].path) in keys
  }

  ghost function KeysOfLeaves(leaves: seq<Leaf>): set<string> {
    set i | 0 <= i < |leaves| :: BuildKey(leaves[i].path)
  }

  lemma {:induction false} LastLeafIff(leaves: seq<Leaf>, key: string)
    ensures key in KeysOfLeaves(leaves) ==> LastLeaf(leaves, key).Some?
  {
    if leaves != [] {
      LastLeafIff(leaves[..|leaves| - 1], key);
      if i :| 0 <= i < |leaves| && BuildKey(leaves[i].path) == key {
        assert i < |leaves| - 1 ==> BuildKey(leaves[..|leaves| - 1][i].path) == key;
      }
    }
  }

  predicate PatchStage(p: Path, fields: seq<Field>, stored: Option<Value>, s: Stage) {
    match s
    case Checking => Existing(Patch(fields), stored).None?
    case CleanWait => Existing(Patch(fields), stored).None?
    case CleanHold(_) => Existing(Patch(fields), stored).None?
    case Loaded(existing) => existing == Existing(Patch(fields), stored)
    case _ => true
  }

  ghost predicate LeavesWithin(s: Stage, keys: set<string>) {
    InSpread(s) ==> WithinKeys(s.leaves, keys)
  }

  ghost predicate Confined(p: Path, fields: seq<Field>, stored: Option<Value>, w: World) {
    var keys := KeysOfLeaves(SplitWrites(p, fields, stored));
    && |w.stages| == 2
    && PatchStage(p, fields, stored, w.stages[0]) && LeavesWithin(w.stages[0], keys)
    && (w.stages[0].Waiting? || w.stages[0].Locked? ==> Stored(w, BuildKey(p)) == stored)
    && Straight(w.stages[1]) && w.spread <= keys
  }

  lemma PatchMoveConfined(w: World, task: Task, stored: Option<Value>)
    requires |w.stages| == 2 && task.op.Patch?
    requires var keys := KeysOfLeaves(SplitWrites(task.path, task.op.fields, stored));
             && PatchStage(task.path, task.op.fields, stored, w.stages[0]) && LeavesWithin(w.stages[0], keys)
             && (w.stages[0].Locked? ==> Stored(w, KeyOf(task)) == stored)
             && w.spread <= keys
    ensures var keys := KeysOfLeaves(SplitWrites(task.path, task.op.fields, stored));
            var s' := StageAfter(w, task, 0);
            && PatchStage(task.path, task.op.fields, stored, s') && LeavesWithin(s', keys)
            && Move(w, task, 0).spread <= keys
            && !s'.Waiting? && (s'.Locked? ==> w.stages[0].Waiting? && Move(w, task, 0).data == w.data)
  {
    var s := w.stages[0];
    if s.Loaded? {
      var s', leaves := StageAfter(w, task, 0), SplitWrites(task.path, task.op.fields, stored);
      assert InSpread(s') ==> s'.leaves == leaves;
    } else if s.Spreading? && s.leaves != [] {
      assert BuildKey(s.leaves[0].path) in KeysOfLeaves(SplitWrites(task.path, task.op.fields, stored));
    }
  }

  lemma AppendMoveConfined(w: World, task: Task)
    requires |w.stages| == 2 && task.op.Append? && Straight(w.stages[1])
    ensures Straight(StageAfter(w, task, 1)) && Move(w, task, 1).spread == w.spread
    ensures forall key :: key != KeyOf(task) ==> Stored(Move(w, task, 1), key) == Stored(w, key)
  {
  }

  lemma {:induction false} PlayIsConfined(p: Path, fields: seq<Field>, stored: Option<Value>, q: Path, x: Value,
                                          prior: Option<Value>, schedule: seq<nat>)
    requires BuildKey(p) != BuildKey(q) && !Splits(q, x)
    ensures Confined(p, fields, stored, PlayBoth(p, fields, stored, q, x, prior, schedule))
  {
    PatchAndAppendExpand(p, fields, q, x);
    if schedule != [] {
      var tasks, front, t := PatchAndAppend(p, fields, q, x), schedule[..|schedule| - 1], schedule[|schedule| - 1];
      PlayIsConfined(p, fields, stored, q, x, prior, front);
      var w := PlayBoth(p, fields, stored, q, x, prior, front);
      if t < 2 && CanStep(tasks, w, t) {
        MoveStages(w, tasks[t], t);
        if t == 0 {
          PatchMoveConfined(w, tasks[0], stored);
        } else {
          AppendMoveConfined(w, tasks[1]);
        }
      }
    }
  }

  /** A key the patch does not spread to takes the append as if the patch were not there. */
  lemma ConfinedPatchIsHarmless(p: Path, fields: seq<Field>, stored: Option<Value>, q: Path, x: Value,
                                prior: Option<Value>, schedule: seq<nat>)
    requires BuildKey(p) != BuildKey(q) && !Splits(q, x) && LastLeaf(SplitWrites(p, fields, stored), BuildKey(q)).None?
    requires AllWritten(PlayBoth(p, fields, stored, q, x, prior, schedule))
    ensures Stored(PlayBoth(p, fields, stored, q, x, prior, schedule), BuildKey(q)) == Appended(x, prior)
  {
    var tasks, key := PatchAndAppend(p, fields, q, x), BuildKey(q);
    var start, w := Holding(BuildKey(p), stored, key, prior), PlayBoth(p, fields, stored, q, x, prior, schedule);
    PatchAndAppendExpand(p, fields, q, x);
    PlayIsConfined(p, fields, stored, q, x, prior, schedule);
    LastLeafIff(SplitWrites(p, fields, stored), key);
    PlayIsLinear(tasks, start, map[], schedule, key, q.collection);
    var first := FirstCell(start, map[], key, q.collection);
    assert first.value == prior;
    WrittenAlone(tasks, w, key, q.collection, first);
  }

  /** The only append on the key has written. */
  lemma WrittenAlone(tasks: seq<Task>, w: World, key: string, c: string, start: Cell)
    requires |tasks| == 2 && KeyOf(tasks[0]) != key && KeyOf(tasks[1]) == key && tasks[1].op.Append?
    requires Listing(tasks, w) && InStep(tasks, w, key, c, start) && AllWritten(w)
    ensures Stored(w, key) == Appended(tasks[1].op.item, start.value)
  {
    SerialAppendHere(tasks, w.effects, key, start);
    assert 1 in w.effects || Open(w.stages[1]);
  }

  /** Only the append works on the key, and at most once. */
  lemma {:induction false} SerialAppendHere(tasks: seq<Task>, order: seq<nat>, key: string, cell: Cell)
    requires |tasks| == 2 && KeyOf(tasks[0]) != key && KeyOf(tasks[1]) == key && tasks[1].op.Append?
    requires forall i, j :: 0 <= i < j < |order| ==> order[i] != order[j]
    ensures Serially(tasks, order, key, cell).value
         == if 1 in order then Appended(tasks[1].op.item, cell.value) else cell.value
  {
    if order != [] {
      var front, t := order[..|order| - 1], order[|order| - 1];
      assert order == front + [t];
      SerialAppendHere(tasks, front, key, cell);
      assert t !in front;
    }
  }

  /** A stored value whose list with Null is told apart from a leaf, and from the leaf's list with Null. */
  function Telling(v: Value): Value {
    var o := Scalar("0", false);
    if v == o || v == Arr([o]) || v == Arr([o, Value.Null]) then Scalar("1", false) else o
  }

  lemma SnocTells(items: seq<Value>, o: Value, x: Value)
    ensures items + [x] == [o, x] ==> items == [o]
  {
    assert (items + [x])[..|items|] == items;
  }

  lemma TellingTells(v: Value)
    ensures var o := Telling(v);
            && o.Scalar? && Appended(Value.Null, Some(o)) == Some(Arr([o, Value.Null]))
            && Arr([o, Value.Null]) != v && Some(Arr([o, Value.Null])) != Appended(Value.Null, Some(v))
  {
    var o := Telling(v);
    var zero, one := Scalar("0", false), Scalar("1", false);
    assert zero != one && Arr([zero]).items[0] == zero && Arr([zero, Value.Null]).items[0] == zero;
    assert Arr([one, Value.Null]).items[0] == one;
    if v.Arr? {
      SnocTells(v.items, o, Value.Null);
    }
    assert |[Value.Null]| == 1 && [v, Value.Null][0] == v && [o, Value.Null][0] == o;
  }

  /** The append has read when the patch runs. */
  lemma ReadBeforePatch(tasks: seq<Task>, w: World, o: Value) returns (schedule: seq<nat>)
    requires |tasks| == 2 && tasks[1].op.Append? && !tasks[0].follows && !tasks[1].follows
    requires KeyOf(tasks[0]) != KeyOf(tasks[1]) && tasks[0].path.collection == tasks[1].path.collection
    requires Exclusive(tasks, w.locks, w.stages) && w.stages == [Waiting, Waiting] && w.locks == map[]
    requires Stored(w, KeyOf(tasks[1])) == Some(o) && !o.Null?
    ensures Play(tasks, w, schedule).stages == [Done, Loaded(Some(o))]
  {
    AppendLoads(tasks, w, 1);
    PlayKeepsExclusive(tasks, w, [1, 1]);
    LocksApart(tasks[0].path, tasks[1].path);
    var alone := RunAlone(tasks, Play(tasks, w, [1, 1]), 0);
    PlayAppend(tasks, w, [1, 1], alone);
    schedule := [1, 1] + alone;
  }

  /** Then it writes back what it read. */
  lemma WriteBackLast(tasks: seq<Task>, w: World, o: Value) returns (schedule: seq<nat>)
    requires |tasks| == 2 && tasks[1].op.Append? && !tasks[0].follows && !tasks[1].follows
    requires KeyOf(tasks[0]) != KeyOf(tasks[1]) && tasks[0].path.collection == tasks[1].path.collection
    requires Exclusive(tasks, w.locks, w.stages) && w.stages == [Waiting, Waiting] && w.locks == map[]
    requires Stored(w, KeyOf(tasks[1])) == Some(o) && !o.Null?
    ensures var w' := Play(tasks, w, schedule);
            w'.stages == [Done, IndexWait] && Stored(w', KeyOf(tasks[1])) == Perform(tasks[1].op, Some(o))
  {
    var before := ReadBeforePatch(tasks, w, o);
    LoadedWrites(tasks, Play(tasks, w, before), 1);
    PlayThen(tasks, w, before, [], 1);
    assert before + [] == before;
    schedule := before + [1];
  }

  lemma SpreadWriteIsLost(p: Path, fields: seq<Field>, stored: Option<Value>, q: Path, x: Value, o: Value)
      returns (schedule: seq<nat>)
    requires BuildKey(p) != BuildKey(q) && p.collection == q.collection && !Splits(q, x) && !o.Null?
    ensures AllWritten(PlayBoth(p, fields, stored, q, x, Some(o), schedule))
    ensures Stored(PlayBoth(p, fields, stored, q, x, Some(o), schedule), BuildKey(q)) == Appended(x, Some(o))
  {
    var tasks := PatchAndAppend(p, fields, q, x);
    PatchAndAppendExpand(p, fields, q, x);
    schedule := WriteBackLast(tasks, Start(tasks, Holding(BuildKey(p), stored, BuildKey(q), Some(o)), map[]), o);
  }

  lemma LocksApart(p: Path, q: Path)
    requires BuildKey(p) != BuildKey(q) && p.collection == q.collection
    ensures DataLock(q) != DataLock(p) && DataLock(q) != IndexLock(p)
  {
    assert DataLock(p)[|p.collection| + 1..] == BuildKey(p) && DataLock(q)[|q.collection| + 1..] == BuildKey(q);
    if DataLock(q) == IndexLock(p) {
      NameClashGoesUp(q, p);
    }
  }

  /**
   * A patch and an append to another key of the same collection amount to one order or the other,
   * whatever is appended there to whatever is there, exactly when the patch does not spread a value
   * to that key: it is not at the root, or its result is no folder-like object, or that object has
   * no part there. An append that is itself split does not write at its own path.
   */
  lemma PatchAndAppendAreSerialIff(p: Path, fields: seq<Field>, stored: Option<Value>, q: Path)
    requires BuildKey(p) != BuildKey(q) && p.collection == q.collection
    ensures AmountsToAnOrder(p, fields, stored, q) <==> LastLeaf(SplitWrites(p, fields, stored), BuildKey(q)).None?
  {
    var v := LastLeaf(SplitWrites(p, fields, stored), BuildKey(q));
    if v.None? {
      forall x, prior, schedule | !Splits(q, x) && AllWritten(PlayBoth(p, fields, stored, q, x, prior, schedule))
        ensures Stored(PlayBoth(p, fields, stored, q, x, prior, schedule), BuildKey(q)) == Appended(x, prior)
      {
        ConfinedPatchIsHarmless(p, fields, stored, q, x, prior, schedule);
      }
    } else {
      var o := Telling(v.value);
      TellingTells(v.value);
      var schedule := SpreadWriteIsLost(p, fields, stored, q, Value.Null, o);
    }
  }

  /** Such a patch exists: two array fields at the root "c", against "c/a". */
  lemma SplittingPatch()
    ensures var fields := [Field("a", Arr([])), Field("b", Arr([]))];
            LastLeaf(SplitWrites(Path("c", []), fields, None), BuildKey(Path("c", ["a"]))) == Some(Arr([]))
  {
    var p, fields := Path("c", []), [Field("a", Arr([])), Field("b", Arr([]))];
    var v := Obj(fields);
    SplitSolid("a", '/');
    SplitSolid("b", '/');
    assert NonEmpty(["a"]) == ["a"] && NonEmpty(["b"]) == ["b"] by {
      assert ["a"][..0] == [] && ["b"][..0] == [];
    }
    assert ComplexCount(fields) == 2 by {
      assert fields[..1] == [Field("a", Arr([]))] && fields[..1][..0] == [];
    }
    var a, b := Leaf(Path("c", ["a"]), Arr([])), Leaf(Path("c", ["b"]), Arr([]));
    assert LeavesUpTo(p, v, 0) == [];
    assert LeavesUpTo(p, v, 1) == [a];
    assert Leaves(p, v) == [a, b];
    assert JoinColon(["a"]) == ":a" && JoinColon(["b"]) == ":b" by {
      assert ["a"][1..] == [] && ["b"][1..] == [];
    }
    assert BuildKey(a.path)[|"smallstore:c:"|] == 'a' && BuildKey(b.path)[|"smallstore:c:"|] == 'b';
    assert [a, b][..1] == [a];
  }

  // ---- what a patch that splits writes ----

  /** The first n leaves are written, each over the one before it, and nothing else. */
  ghost predicate WrittenUpTo(leaves: seq<Leaf>, start: map<string, Value>, w: World, n: nat) {
    n <= |leaves|
    && forall key :: Stored(w, key) == Or(LastLeaf(leaves[..n], key), At(start, key))
  }

  ghost predicate IndexedUpTo(leaves: seq<Leaf>, w: World, c: string, n: nat) {
    n <= |leaves| && forall i :: 0 <= i < n ==> BuildKey(leaves[i].path) in IndexOf(w, c)
  }

  /** How far the patch has got, by its stage. */
  ghost predicate Spreads(task: Task, leaves: seq<Leaf>, start: map<string, Value>, w: World) {
    |w.stages| == 1
    && var c, s := task.path.collection, w.stages[0];
       match s
       case Spreading(rest) =>
         |rest| <= |leaves| && rest == leaves[|leaves| - |rest|..]
         && WrittenUpTo(leaves, start, w, |leaves| - |rest|) && IndexedUpTo(leaves, w, c, |leaves| - |rest|)
       case SpreadWait(k, rest) => SpreadPending(leaves, start, w, c, k, rest)
       case SpreadHold(k, rest, loaded) => SpreadPending(leaves, start, w, c, k, rest) && loaded == IndexOf(w, c)
       case Finishing => WrittenUpTo(leaves, start, w, |leaves|) && IndexedUpTo(leaves, w, c, |leaves|)
       case Done => WrittenUpTo(leaves, start, w, |leaves|) && IndexedUpTo(leaves, w, c, |leaves|)
       case IndexWait => false
       case IndexHold(_) => false
       case Loaded(existing) =>
         WrittenUpTo(leaves, start, w, 0) && existing == Existing(task.op, At(start, KeyOf(task)))
       case _ => !Peeks(s) && WrittenUpTo(leaves, start, w, 0) && MissedBefore(task, s, start)
  }

  /** One leaf is written but not yet indexed. */
  ghost predicate SpreadPending(leaves: seq<Leaf>, start: map<string, Value>, w: World, c: string, k: string,
                                rest: seq<Leaf>) {
    && |rest| < |leaves| && rest == leaves[|leaves| - |rest|..]
    && WrittenUpTo(leaves, start, w, |leaves| - |rest|) && IndexedUpTo(leaves, w, c, |leaves| - |rest| - 1)
    && k == BuildKey(leaves[|leaves| - |rest| - 1].path)
  }

  predicate MissedBefore(task: Task, s: Stage, start: map<string, Value>) {
    s.Checking? || s.CleanWait? || s.CleanHold? ==> Existing(task.op, At(start, KeyOf(task))).None?
  }

  lemma WritesOneMore(leaves: seq<Leaf>, start: map<string, Value>, w: World, w': World, n: nat)
    requires WrittenUpTo(leaves, start, w, n) && n < |leaves|
    requires w'.data == w.data[BuildKey(leaves[n].path) := leaves[n].value]
    ensures WrittenUpTo(leaves, start, w', n + 1)
  {
    forall key
      ensures Stored(w', key) == Or(LastLeaf(leaves[..n + 1], key), At(start, key))
    {
      assert leaves[..n + 1][..n] == leaves[..n] && leaves[..n + 1][n] == leaves[n];
    }
  }

  lemma SameDataSameWrites(leaves: seq<Leaf>, start: map<string, Value>, w: World, w': World, n: nat)
    requires WrittenUpTo(leaves, start, w, n) && w'.data == w.data
    ensures WrittenUpTo(leaves, start, w', n)
  {
    forall key
      ensures Stored(w', key) == Or(LastLeaf(leaves[..n], key), At(start, key))
    {
      assert Stored(w', key) == Stored(w, key);
    }
  }

  lemma SpreadsOneLeaf(task: Task, leaves: seq<Leaf>, start: map<string, Value>, w: World)
    requires Spreads(task, leaves, start, w) && w.stages[0].Spreading? && w.stages[0].leaves != []
    ensures Spreads(task, leaves, start, Move(w, task, 0))
  {
    var rest := w.stages[0].leaves;
    var n := |leaves| - |rest|;
    assert rest[0] == leaves[n] && rest[1..] == leaves[n + 1..];
    WritesOneMore(leaves, start, w, Move(w, task, 0), n);
  }

  lemma SpreadsIndexed(task: Task, leaves: seq<Leaf>, start: map<string, Value>, w: World)
    requires Spreads(task, leaves, start, w) && (w.stages[0].SpreadWait? || w.stages[0].SpreadHold?)
    ensures Spreads(task, leaves, start, Move(w, task, 0))
  {
    SameDataSameWrites(leaves, start, w, Move(w, task, 0), |leaves| - |w.stages[0].leaves|);
  }

  lemma SpreadsEnd(task: Task, leaves: seq<Leaf>, start: map<string, Value>, w: World)
    requires Spreads(task, leaves, start, w)
    requires w.stages[0] == Spreading([]) || w.stages[0].Finishing? || w.stages[0].Done?
    ensures Spreads(task, leaves, start, Move(w, task, 0))
  {
    SameDataSameWrites(leaves, start, w, Move(w, task, 0), |leaves|);
  }

  lemma SpreadsBegin(task: Task, leaves: seq<Leaf>, start: map<string, Value>, w: World)
    requires task.op.Patch? && Spreads(task, leaves, start, w) && w.stages[0].Loaded?
    requires var v := Patched(Existing(task.op, At(start, KeyOf(task))), task.op.fields);
             Splits(task.path, v) && leaves == Leaves(task.path, v)
    ensures Spreads(task, leaves, start, Move(w, task, 0))
  {
    assert leaves[0..] == leaves;
    SameDataSameWrites(leaves, start, w, Move(w, task, 0), 0);
  }

  predicate Early(s: Stage) {
    s.Waiting? || s.Locked? || s.Checking? || s.CleanWait? || s.CleanHold?
  }

  lemma SpreadsNothingYet(task: Task, leaves: seq<Leaf>, start: map<string, Value>, w: World)
    requires task.op.Patch? && Spreads(task, leaves, start, w) && Early(w.stages[0])
    ensures Spreads(task, leaves, start, Move(w, task, 0))
  {
    StoredAtFirst(leaves, start, w, KeyOf(task));
    SameDataSameWrites(leaves, start, w, Move(w, task, 0), 0);
  }

  lemma SpreadsOn(task: Task, leaves: seq<Leaf>, start: map<string, Value>, w: World)
    requires task.op.Patch? && Spreads(task, leaves, start, w)
    requires leaves == SplitWrites(task.path, task.op.fields, At(start, KeyOf(task)))
    requires Splits(task.path, Patched(Existing(task.op, At(start, KeyOf(task))), task.op.fields))
    ensures Spreads(task, leaves, start, Move(w, task, 0))
  {
    var s := w.stages[0];
    if Early(s) {
      SpreadsNothingYet(task, leaves, start, w);
    } else if s.Loaded? {
      SpreadsBegin(task, leaves, start, w);
    } else if s.Spreading? && s.leaves != [] {
      SpreadsOneLeaf(task, leaves, start, w);
    } else if s.SpreadWait? || s.SpreadHold? {
      SpreadsIndexed(task, leaves, start, w);
    } else {
      SpreadsEnd(task, leaves, start, w);
    }
  }

  lemma StoredAtFirst(leaves: seq<Leaf>, start: map<string, Value>, w: World, key: string)
    requires WrittenUpTo(leaves, start, w, 0)
    ensures Stored(w, key) == At(start, key)
  {
    assert leaves[..0] == [];
  }

  lemma {:induction false} PlaySpreads(task: Task, leaves: seq<Leaf>, start: map<string, Value>,
                                       index: map<string, set<string>>, schedule: seq<nat>)
    requires task.op.Patch? && leaves == SplitWrites(task.path, task.op.fields, At(start, KeyOf(task)))
    requires Splits(task.path, Patched(Existing(task.op, At(start, KeyOf(task))), task.op.fields))
    ensures Spreads(task, leaves, start, Play([task], Start([task], start, index), schedule))
  {
    if schedule == [] {
      assert leaves[..0] == [];
    } else {
      var front, t := schedule[..|schedule| - 1], schedule[|schedule| - 1];
      PlaySpreads(task, leaves, start, index, front);
      if t == 0 {
        SpreadsOn(task, leaves, start, Play([task], Start([task], start, index), front));
      }
    }
  }

  /**
   * A patch whose result splits, alone: in the end every key holds the last of the leaves that go to
   * it, or what it held, and the key of every leaf is in the index.
   */
  lemma SplittingPatchWrites(p: Path, fields: seq<Field>, start: map<string, Value>, index: map<string, set<string>>,
                             schedule: seq<nat>, key: string)
    requires Splits(p, Patched(Existing(Patch(fields), At(start, BuildKey(p))), fields))
    requires var tasks := ExpandAll([Call(p, Patch(fields))]);
             Finished(Play(tasks, Start(tasks, start, index), schedule))
    ensures var tasks := ExpandAll([Call(p, Patch(fields))]);
            var w := Play(tasks, Start(tasks, start, index), schedule);
            var leaf := LastLeaf(SplitWrites(p, fields, At(start, BuildKey(p))), key);
            && Stored(w, key) == (if leaf.Some? then leaf else At(start, key))
            && (leaf.Some? ==> key in IndexOf(w, p.collection))
  {
    var task, leaves := Task(p, Patch(fields), false), SplitWrites(p, fields, At(start, BuildKey(p)));
    assert [Call(p, Patch(fields))][..0] == [];
    assert ExpandAll([Call(p, Patch(fields))]) == [task];
    PlaySpreads(task, leaves, start, index, schedule);
    assert leaves[..|leaves|] == leaves;
    LastLeafIsThere(leaves, key);
  }

  lemma {:induction false} LastLeafIsThere(leaves: seq<Leaf>, key: string)
    ensures LastLeaf(leaves, key).Some? ==> exists i :: 0 <= i < |leaves| && BuildKey(leaves[i].path) == key
  {
    if leaves != [] && BuildKey(leaves[|leaves| - 1].path) != key {
      LastLeafIsThere(leaves[..|leaves| - 1], key);
      if LastLeaf(leaves, key).Some? {
        var i :| 0 <= i < |leaves| - 1 && BuildKey(leaves[..|leaves| - 1][i].path) == key;
        assert BuildKey(leaves[i].path) == key;
      }
    }
  }

  // ---- a stored key that drops out of the index ----

  /** Two separate calls, one after the other. */
  lemma RunInTurn(tasks: seq<Task>, start: map<string, Value>, index: map<string, set<string>>)
      returns (schedule: seq<nat>)
    requires |tasks| == 2 && !tasks[0].follows && !tasks[1].follows && !tasks[0].op.Get? && !tasks[1].op.Get?
    ensures var w := Play(tasks, Start(tasks, start, index), schedule); Finished(w) && w.effects == [0, 1]
  {
    var w0 := Start(tasks, start, index);
    var first := RunAlone(tasks, w0, 0);
    var w1 := Play(tasks, w0, first);
    var second := RunAlone(tasks, w1, 1);
    PlayAppend(tasks, w0, first, second);
    schedule := first + second;
  }

  lemma SeriallyTwo(tasks: seq<Task>, key: string, cell: Cell)
    requires |tasks| == 2 && KeyOf(tasks[0]) == key && KeyOf(tasks[1]) == key
    ensures Serially(tasks, [0, 1], key, cell) == After(tasks[1], After(tasks[0], cell))
  {
    var one, two: seq<nat> := [0], [0, 1];
    assert one[..|one| - 1] == [] && two[..|two| - 1] == one;
    assert Serially(tasks, one, key, cell) == After(tasks[0], cell);
  }

  lemma MergeThenDelete(merge: Task, delete: Task, text: string, filter: Value -> bool)
    requires merge.op == Merge(Scalar(text, true)) && delete.op == DeleteFromArray(filter)
    ensures After(delete, After(merge, Cell(None, false))) == Cell(Some(Scalar(text, true)), false)
  {
    assert After(merge, Cell(None, false)) == Cell(Some(Scalar(text, true)), true);
  }

  /**
   * A falsy value is stored and indexed; deleteFromArray finds no array, throws, and takes the key
   * out of the index.
   */
  lemma StoredKeyLeavesTheIndex(p: Path, text: string, filter: Value -> bool) returns (schedule: seq<nat>)
    ensures var tasks := ExpandAll([Call(p, Merge(Scalar(text, true))), Call(p, DeleteFromArray(filter))]);
            var w := Play(tasks, Start(tasks, map[], map[]), schedule);
            && Finished(w) && Stored(w, BuildKey(p)) == Some(Scalar(text, true))
            && BuildKey(p) !in IndexOf(w, p.collection)
  {
    var calls, key := [Call(p, Merge(Scalar(text, true))), Call(p, DeleteFromArray(filter))], BuildKey(p);
    ExpandTwo(calls[0], calls[1]);
    var tasks := ExpandAll(calls);
    assert tasks == [Task(p, Merge(Scalar(text, true)), false), Task(p, DeleteFromArray(filter), false)];
    schedule := RunInTurn(tasks, map[], map[]);
    TameRunsSpreadNothing(tasks, map[], map[], schedule);
    SchedulesAreSerial(calls, map[], map[], schedule, key, p.collection);
    SeriallyTwo(tasks, key, Cell(None, false));
    MergeThenDelete(tasks[0], tasks[1], text, filter);
  }

  /** A reader that has missed the key sees its entry, clears it, and is done, while nobody else moves. */
  lemma ReaderClears(tasks: seq<Task>, w: World) returns (schedule: seq<nat>)
    requires |tasks| == 2 && tasks[1].op.Get? && Exclusive(tasks, w.locks, w.stages)
    requires w.stages == [Done, Peeking] && KeyOf(tasks[1]) in IndexOf(w, tasks[1].path.collection)
    ensures var w' := Play(tasks, w, schedule); Finished(w') && w'.effects == w.effects + [1]
  {
    StepKeepsExclusive(tasks, w, 1);
    var w1 := Step(tasks, w, 1);
    assert w1.stages == [Done, PeekWait];
    var rest := RunAlone(tasks, w1, 1);
    PlayFrom(tasks, w, 1, rest);
    schedule := [1] + rest;
  }

  /** So when the first of two tasks has written the key and the second is such a reader. */
  lemma ThenReaderClears(tasks: seq<Task>, before: seq<nat>, key: string, c: string) returns (schedule: seq<nat>)
    requires |tasks| == 2 && tasks[1].op.Get? && tasks[1].path.collection == c && KeyOf(tasks[1]) == key
    requires var w := Play(tasks, Start(tasks, map[], map[]), before);
             w.stages == [Done, Peeking] && w.effects == [0] && key in IndexOf(w, c)
    ensures var w := Play(tasks, Start(tasks, map[], map[]), schedule); Finished(w) && w.effects == [0, 1]
  {
    var w0 := Start(tasks, map[], map[]);
    PlayKeepsExclusive(tasks, w0, before);
    var rest := ReaderClears(tasks, Play(tasks, w0, before));
    PlayAppend(tasks, w0, before, rest);
    schedule := before + rest;
  }

  lemma ReaderClearsAtLast(calls: seq<Call>, before: seq<nat>, key: string, c: string) returns (schedule: seq<nat>)
    requires |ExpandAll(calls)| == 2 && ExpandAll(calls)[1].op.Get? && ExpandAll(calls)[1].path.collection == c
    requires Tame(ExpandAll(calls)) && OneCollection(ExpandAll(calls), key, c)
    requires KeyOf(ExpandAll(calls)[0]) == key && KeyOf(ExpandAll(calls)[1]) == key
    requires WrittenBy(ExpandAll(calls)[0], None).Some?
    requires var w := Play(ExpandAll(calls), Start(ExpandAll(calls), map[], map[]), before);
             w.stages == [Done, Peeking] && w.effects == [0]
    ensures var tasks := ExpandAll(calls);
            var w := Play(tasks, Start(tasks, map[], map[]), schedule);
            Finished(w) && CellAt(w, key, c) == Cell(WrittenBy(tasks[0], None), false)
  {
    var tasks := ExpandAll(calls);
    FirstIsThrough(tasks, Play(tasks, Start(tasks, map[], map[]), before), before, key, c);
    schedule := ThenReaderClears(tasks, before, key, c);
    BothTookEffect(calls, schedule, key, c);
  }

  /** Plain get() of a falsy value that a merge has stored: it takes the key out of the index. */
  lemma FalsyReadClears(p: Path, text: string) returns (schedule: seq<nat>)
    ensures var tasks := ExpandAll([Call(p, Merge(Scalar(text, true))), Call(p, Get)]);
            var w := Play(tasks, Start(tasks, map[], map[]), schedule);
            && Finished(w) && Stored(w, BuildKey(p)) == Some(Scalar(text, true))
            && BuildKey(p) !in IndexOf(w, p.collection)
  {
    var calls, key := [Call(p, Merge(Scalar(text, true))), Call(p, Get)], BuildKey(p);
    ExpandTwo(calls[0], calls[1]);
    var tasks := ExpandAll(calls);
    assert tasks == [Task(p, Merge(Scalar(text, true)), false), Task(p, Get, false)];
    var w0 := Start(tasks, map[], map[]);
    var first := RunAlone(tasks, w0, 0);
    FirstIsThrough(tasks, Play(tasks, w0, first), first, key, p.collection);
    ReaderMisses(tasks, first);
    schedule := ReaderClearsAtLast(calls, first + [1], key, p.collection);
  }

  lemma ReaderMisses(tasks: seq<Task>, before: seq<nat>)
    requires |tasks| == 2 && tasks[1].op.Get? && !tasks[1].follows
    requires var w := Play(tasks, Start(tasks, map[], map[]), before);
             w.stages == [Done, Waiting] && Existing(Get, Stored(w, KeyOf(tasks[1]))).None?
    ensures var w, w' := Play(tasks, Start(tasks, map[], map[]), before),
                         Play(tasks, Start(tasks, map[], map[]), before + [1]);
            w'.stages == [Done, Peeking] && w'.effects == w.effects
  {
    PlayThen(tasks, Start(tasks, map[], map[]), before, [], 1);
    assert before + [] == before;
  }

  /** Of two tasks on the key only the first is through. */
  lemma OneIsThrough(tasks: seq<Task>, w: World, key: string, c: string)
    requires |tasks| == 2 && KeyOf(tasks[0]) == key
    requires Linear(tasks, w, key, c, Cell(None, false)) && key !in w.spread
    requires w.effects == [0] && Idle(tasks, w.stages, key)
    ensures CellAt(w, key, c) == After(tasks[0], Cell(None, false))
  {
    AtRest(tasks, w, key, c, Cell(None, false));
    SeriallyOne(tasks, key, Cell(None, false));
  }

  lemma FromNothing(tasks: seq<Task>, schedule: seq<nat>, key: string, c: string)
    requires Tame(tasks) && OneCollection(tasks, key, c)
    ensures var w := Play(tasks, Start(tasks, map[], map[]), schedule);
            Linear(tasks, w, key, c, Cell(None, false)) && key !in w.spread
  {
    TameRunsSpreadNothing(tasks, map[], map[], schedule);
    PlayIsLinear(tasks, map[], map[], schedule, key, c);
  }

  lemma FirstIsThrough(tasks: seq<Task>, w: World, schedule: seq<nat>, key: string, c: string)
    requires Tame(tasks) && OneCollection(tasks, key, c) && w == Play(tasks, Start(tasks, map[], map[]), schedule)
    requires |tasks| == 2 && KeyOf(tasks[0]) == key && w.effects == [0] && Idle(tasks, w.stages, key)
    ensures CellAt(w, key, c) == After(tasks[0], Cell(None, false))
  {
    FromNothing(tasks, schedule, key, c);
    OneIsThrough(tasks, w, key, c);
  }

  lemma AtRest(tasks: seq<Task>, w: World, key: string, c: string, start: Cell)
    requires Linear(tasks, w, key, c, start) && key !in w.spread && Idle(tasks, w.stages, key)
    ensures CellAt(w, key, c) == Serially(tasks, w.effects, key, start)
  {
  }

  lemma SeriallyOne(tasks: seq<Task>, key: string, cell: Cell)
    requires |tasks| > 0 && KeyOf(tasks[0]) == key
    ensures Serially(tasks, [0], key, cell) == After(tasks[0], cell)
  {
    SeriallyMore(tasks, [], 0, key, cell);
    assert [] + [0] == [0];
  }

  /** Both are, in order. */
  lemma BothTookEffect(calls: seq<Call>, schedule: seq<nat>, key: string, c: string)
    requires |ExpandAll(calls)| == 2 && Tame(ExpandAll(calls)) && OneCollection(ExpandAll(calls), key, c)
    requires KeyOf(ExpandAll(calls)[0]) == key && KeyOf(ExpandAll(calls)[1]) == key
    requires var w := Play(ExpandAll(calls), Start(ExpandAll(calls), map[], map[]), schedule);
             Finished(w) && w.effects == [0, 1]
    ensures var tasks := ExpandAll(calls);
            CellAt(Play(tasks, Start(tasks, map[], map[]), schedule), key, c)
            == After(tasks[1], After(tasks[0], Cell(None, false)))
  {
    TameRunsSpreadNothing(ExpandAll(calls), map[], map[], schedule);
    SchedulesAreSerial(calls, map[], map[], schedule, key, c);
    SeriallyTwo(ExpandAll(calls), key, Cell(None, false));
  }

  /**
   * A get() reads before an append writes and looks into the index after the append has saved it:
   * the array stays stored, its key is out of the index.
   */
  lemma LateReaderClears(p: Path, x: Value) returns (schedule: seq<nat>)
    requires !Splits(p, x)
    ensures var tasks := ExpandAll([Call(p, Append(x)), Call(p, Get)]);
            var w := Play(tasks, Start(tasks, map[], map[]), schedule);
            && Finished(w) && Stored(w, BuildKey(p)) == Some(Arr([x]))
            && BuildKey(p) !in IndexOf(w, p.collection)
  {
    var calls, key := [Call(p, Append(x)), Call(p, Get)], BuildKey(p);
    ExpandTwo(calls[0], calls[1]);
    WholeAppend(p, x);
    var tasks := ExpandAll(calls);
    assert tasks == [Task(p, Append(x), false), Task(p, Get, false)];
    var w0 := Start(tasks, map[], map[]);
    StepKeepsExclusive(tasks, w0, 1);
    var w1 := Step(tasks, w0, 1);
    assert w1.stages == [Waiting, Peeking];
    var alone := RunAlone(tasks, w1, 0);
    PlayFrom(tasks, w0, 1, alone);
    schedule := ReaderClearsAtLast(calls, [1] + alone, key, p.collection);
  }
}
