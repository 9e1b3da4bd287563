/** What concurrent calls leave under a key, told from the calls and the values alone. */
module RouterEffects {
  import opened Outcomes
  import opened Strings
  import opened Selection
  import opened RouterOps
  import opened RouterLocks
  import opened RouterLinearizable

  // ---- objects ----

  ghost predicate UniqueNames(fields: seq<Field>) {
    forall i, j :: 0 <= i < j < |fields| ==> fields[i].name != fields[j].name
  }

  ghost predicate Has(fields: seq<Field>, name: string, value: Value) {
    exists i :: 0 <= i < |fields| && fields[i] == Field(name, value)
  }

  ghost predicate Names(fields: seq<Field>, name: string) {
    exists i :: 0 <= i < |fields| && fields[i].name == name
  }

  /** m has the properties of b, and those of a that b does not name; those of a keep their places. */
  ghost predicate Overlays(a: seq<Field>, b: seq<Field>, m: seq<Field>) {
    && (forall name, value :: Has(m, name, value) <==> Has(b, name, value) || (Has(a, name, value) && !Names(b, name)))
    && UniqueNames(m)
    && |a| <= |m| && forall i :: 0 <= i < |a| ==> m[i].name == a[i].name
  }

  // ---- one call on one key ----

  /** An append: nothing or null starts an array, an array grows, anything else is wrapped. */
  ghost predicate AppendedTo(before: Option<Value>, item: Value, after: Option<Value>) {
    match before
    case None => after == Some(Arr([item]))
    case Some(Null) => after == Some(Arr([item]))
    case Some(Arr(items)) => after == Some(Arr(items + [item]))
    case Some(v) => after == Some(Arr([v, item]))
  }

  /** A merge: nothing or null is replaced, two objects are overlaid, anything else is an append. */
  ghost predicate MergedInto(before: Option<Value>, data: Value, after: Option<Value>) {
    match (before, data)
    case (None, _) => after == Some(data)
    case (Some(Null), _) => after == Some(data)
    case (Some(Obj(a)), Obj(b)) =>
      after.Some? && after.value.Obj? && (UniqueNames(a) && UniqueNames(b) ==> Overlays(a, b, after.value.fields))
    case _ => AppendedTo(before, data, after)
  }

  /** What a patch makes: an object, also one alone in an array, is overlaid; anything else is replaced. */
  ghost predicate PatchMakes(before: Option<Value>, fields: seq<Field>, made: Value) {
    made.Obj?
    && match before
       case Some(Obj(a)) => UniqueNames(a) && UniqueNames(fields) ==> Overlays(a, fields, made.fields)
       case Some(Arr(items)) =>
         if |items| == 1 && items[0].Obj?
         then UniqueNames(items[0].fields) && UniqueNames(fields) ==> Overlays(items[0].fields, fields, made.fields)
         else made.fields == fields
       case _ => made.fields == fields
  }

  /** deleteFromArray: an array keeps just what the filter rejects; anything else stays. */
  ghost predicate FilteredBy(before: Option<Value>, filter: Value -> bool, after: Option<Value>) {
    match before
    case Some(Arr(items)) => after.Some? && after.value.Arr? && Selects(items, x => !filter(x), after.value.items)
    case _ => after == before
  }

  /** What a task makes of its key's value; a patch whose result is split leaves the key itself alone. */
  ghost predicate TakesEffectAs(task: Task, before: Option<Value>, after: Option<Value>) {
    match task.op
    case Append(item) => AppendedTo(before, item, after)
    case Merge(data) => MergedInto(before, data, after)
    case Patch(fields) =>
      exists made :: PatchMakes(before, fields, made) && after == if Splits(task.path, made) then before else Some(made)
    case DeleteFromArray(filter) => FilteredBy(before, filter, after)
    case Get => after == before
  }

  // ---- overlaying ----

  lemma {:induction false} AssignedOverlays(fields: seq<Field>, f: Field)
    requires UniqueNames(fields)
    ensures Overlays(fields, [f], Assigned(fields, f))
  {
    var m := Assigned(fields, f);
    if fields == [] {
      assert m[0] == f && [f][0] == f;
    } else if fields[0].name == f.name {
      forall name, value
        ensures Has(m, name, value) <==> Has([f], name, value) || (Has(fields, name, value) && !Names([f], name))
      {
        assert [f][0] == f && m[0] == f;
        HasCons(f, fields[1..], name, value);
        HasCons(fields[0], fields[1..], name, value);
        assert fields == [fields[0]] + fields[1..];
      }
    } else {
      AssignedOverlays(fields[1..], f);
      var rest := Assigned(fields[1..], f);
      forall name, value
        ensures Has(m, name, value) <==> Has([f], name, value) || (Has(fields, name, value) && !Names([f], name))
      {
        assert [f][0] == f;
        HasCons(fields[0], rest, name, value);
        HasCons(fields[0], fields[1..], name, value);
        assert fields == [fields[0]] + fields[1..];
      }
      forall i | 0 <= i < |rest|
        ensures rest[i].name != fields[0].name
      {
        assert Has(rest, rest[i].name, rest[i].value);
        if Has(fields[1..], rest[i].name, rest[i].value) {
          var j :| 0 <= j < |fields[1..]| && fields[1..][j] == rest[i];
          assert fields[j + 1] == rest[i];
        }
      }
    }
  }

  lemma HasCons(f: Field, fields: seq<Field>, name: string, value: Value)
    ensures Has([f] + fields, name, value) <==> f == Field(name, value) || Has(fields, name, value)
  {
    if f == Field(name, value) {
      assert ([f] + fields)[0] == f;
    }
    if i :| 0 <= i < |fields| && fields[i] == Field(name, value) {
      assert ([f] + fields)[i + 1] == fields[i];
    }
  }

  lemma HasSnoc(fields: seq<Field>, f: Field, name: string, value: Value)
    ensures Has(fields + [f], name, value) <==> Has(fields, name, value) || f == Field(name, value)
    ensures Names(fields + [f], name) <==> Names(fields, name) || f.name == name
  {
    if i :| 0 <= i < |fields| && fields[i] == Field(name, value) {
      assert (fields + [f])[i] == fields[i];
    }
    if i :| 0 <= i < |fields| && fields[i].name == name {
      assert (fields + [f])[i] == fields[i];
    }
    assert (fields + [f])[|fields|] == f;
  }

  /** Assigning one property after another overlays the whole. */
  lemma {:induction false} SpreadOverlays(a: seq<Field>, b: seq<Field>)
    requires UniqueNames(a) && UniqueNames(b)
    ensures Overlays(a, b, Spread(a, b))
  {
    if b == [] {
      assert Spread(a, b) == a;
    } else {
      var front, last := b[..|b| - 1], b[|b| - 1];
      SpreadOverlays(a, front);
      var mid := Spread(a, front);
      AssignedOverlays(mid, last);
      OverlaysMore(a, front, mid, last, Assigned(mid, last));
      assert b == front + [last];
    }
  }

  lemma NamedBefore(b: seq<Field>, f: Field, name: string, value: Value)
    requires UniqueNames(b + [f])
    ensures Has(b, name, value) ==> f.name != name
  {
    if i :| 0 <= i < |b| && b[i] == Field(name, value) {
      assert (b + [f])[i] == b[i] && (b + [f])[|b|] == f;
    }
  }

  lemma OverlaysMore(a: seq<Field>, b: seq<Field>, mid: seq<Field>, f: Field, m: seq<Field>)
    requires Overlays(a, b, mid) && Overlays(mid, [f], m) && UniqueNames(b + [f])
    ensures Overlays(a, b + [f], m)
  {
    forall name, value
      ensures Has(m, name, value) <==>
                Has(b + [f], name, value) || (Has(a, name, value) && !Names(b + [f], name))
    {
      HasSnoc(b, f, name, value);
      assert [f][0] == f;
      assert Has([f], name, value) <==> f == Field(name, value);
      assert Names([f], name) <==> f.name == name;
      NamedBefore(b, f, name, value);
    }
  }

  // ---- so much for one task ----

  lemma RestMore(front: seq<Value>, last: Value, filter: Value -> bool)
    ensures Rest(front + [last], filter)
         == if Not(filter)(last) then Rest(front, filter) + [last] else Rest(front, filter)
  {
    assert (front + [last])[..|front|] == front;
  }

  lemma {:induction false} RestIsSelected(items: seq<Value>, filter: Value -> bool)
    ensures Selects(items, Not(filter), Rest(items, filter))
  {
    if items == [] {
      SelectsNone(Not(filter));
    } else {
      var front, last := items[..|items| - 1], items[|items| - 1];
      assert items == front + [last];
      RestIsSelected(front, filter);
      RestMore(front, last, filter);
      SelectsMore(front, Not(filter), Rest(front, filter), last);
    }
  }

  lemma FilterTakesEffect(task: Task, cell: Cell)
    requires task.op.DeleteFromArray?
    ensures FilteredBy(cell.value, task.op.filter, After(task, cell).value)
  {
    match cell.value
    case Some(Arr(items)) =>
      RestIsSelected(items, task.op.filter);
      SelectsSame(items, Not(task.op.filter), x => !task.op.filter(x), Rest(items, task.op.filter));
    case _ =>
  }

  lemma PatchTakesEffect(task: Task, cell: Cell)
    requires task.op.Patch?
    ensures TakesEffectAs(task, cell.value, After(task, cell).value)
  {
    var fields, before := task.op.fields, cell.value;
    var made := Patched(Existing(task.op, before), fields);
    match before
    case Some(Obj(a)) =>
      if UniqueNames(a) && UniqueNames(fields) {
        SpreadOverlays(a, fields);
      }
    case Some(Arr(items)) =>
      if |items| == 1 && items[0].Obj? && UniqueNames(items[0].fields) && UniqueNames(fields) {
        SpreadOverlays(items[0].fields, fields);
      }
    case _ =>
    assert PatchMakes(before, fields, made);
  }

  lemma TaskTakesEffect(task: Task, cell: Cell)
    ensures TakesEffectAs(task, cell.value, After(task, cell).value)
  {
    match task.op
    case Merge(data) =>
      if cell.value.Some? && cell.value.value.Obj? && data.Obj? {
        if UniqueNames(cell.value.value.fields) && UniqueNames(data.fields) {
          SpreadOverlays(cell.value.value.fields, data.fields);
        }
      }
    case Patch(_) => PatchTakesEffect(task, cell);
    case DeleteFromArray(_) => FilterTakesEffect(task, cell);
    case _ =>
  }

  // ---- over finished schedules ----

  /** The value under a key from turn to turn. */
  ghost predicate ByTurns(tasks: seq<Task>, turns: seq<nat>, values: seq<Option<Value>>) {
    && |values| == |turns| + 1
    && forall i :: 0 <= i < |turns| ==>
         turns[i] < |tasks| && TakesEffectAs(tasks[turns[i]], values[i], values[i + 1])
  }

  lemma {:induction false} SeriallyByTurns(tasks: seq<Task>, order: seq<nat>, key: string, cell: Cell)
      returns (values: seq<Option<Value>>)
    ensures ByTurns(tasks, Turns(tasks, order, key), values)
    ensures values[0] == cell.value && values[|values| - 1] == Serially(tasks, order, key, cell).value
  {
    if order == [] {
      values := [cell.value];
    } else {
      var front, t := order[..|order| - 1], order[|order| - 1];
      values := SeriallyByTurns(tasks, front, key, cell);
      if t < |tasks| && KeyOf(tasks[t]) == key {
        var before := Serially(tasks, front, key, cell);
        TaskTakesEffect(tasks[t], before);
        if !tasks[t].op.Get? {
          values := values + [After(tasks[t], before).value];
        }
      }
    }
  }

  /**
   * In every finished schedule the value under a key passes from what was there first to what is
   * there in the end by the calls on it, one after the other in the order of their locks, each doing
   * what it promises: an append adds its item, a merge or a patch overlays its properties, a
   * deleteFromArray keeps just the items the filter rejects, in place, and leaves anything else alone.
   */
  lemma ValuesByTurns(calls: seq<Call>, start: map<string, Value>, index: map<string, set<string>>,
                      schedule: seq<nat>, key: string, c: string) returns (values: seq<Option<Value>>)
    requires OneCollection(ExpandAll(calls), key, c)
    requires Finished(Play(ExpandAll(calls), Start(ExpandAll(calls), start, index), schedule))
    requires key !in Play(ExpandAll(calls), Start(ExpandAll(calls), start, index), schedule).spread
    ensures var tasks := ExpandAll(calls);
            var w0 := Start(tasks, start, index);
            var w := Play(tasks, w0, schedule);
            && ByTurns(tasks, Turns(tasks, w.order, key), values)
            && values[0] == Stored(w0, key) && values[|values| - 1] == Stored(w, key)
  {
    var tasks := ExpandAll(calls);
    SchedulesAreSerial(calls, start, index, schedule, key, c);
    var w := Play(tasks, Start(tasks, start, index), schedule);
    values := SeriallyByTurns(tasks, w.effects, key, FirstCell(start, index, key, c));
  }

  // ---- what is split, and how ----

  /** An object is split exactly when two of its properties are arrays or objects. */
  lemma HeterogeneousIff(v: Value)
    ensures Heterogeneous(v) <==>
              v.Obj? && exists i, j ::
                0 <= i < j < |v.fields| && (v.fields[i].value.Arr? || v.fields[i].value.Obj?)
                && (v.fields[j].value.Arr? || v.fields[j].value.Obj?)
  {
    if v.Obj? {
      TwoComplex(v.fields);
    }
  }

  lemma {:induction false} OneComplex(fields: seq<Field>)
    ensures ComplexCount(fields) >= 1 <==> exists i :: 0 <= i < |fields| && Complex(fields[i].value)
  {
    if fields != [] {
      var front := fields[..|fields| - 1];
      OneComplex(front);
      if i :| 0 <= i < |fields| && Complex(fields[i].value) {
        assert i < |front| ==> front[i] == fields[i];
      }
    }
  }

  lemma {:induction false} TwoComplex(fields: seq<Field>)
    ensures ComplexCount(fields) >= 2 <==>
              exists i, j :: 0 <= i < j < |fields| && Complex(fields[i].value) && Complex(fields[j].value)
  {
    if fields != [] {
      var front, n := fields[..|fields| - 1], |fields| - 1;
      TwoComplex(front);
      OneComplex(front);
      if i, j :| 0 <= i < j < |fields| && Complex(fields[i].value) && Complex(fields[j].value) {
        assert front[i] == fields[i];
        assert j < n ==> front[j] == fields[j];
      }
      if ComplexCount(fields) >= 2 {
        if ComplexCount(front) >= 2 {
          var i, j :| 0 <= i < j < |front| && Complex(front[i].value) && Complex(front[j].value);
          assert fields[i] == front[i] && fields[j] == front[j];
        } else {
          var i :| 0 <= i < |front| && Complex(front[i].value);
          assert fields[i] == front[i] && Complex(fields[n].value);
        }
      }
    }
  }

  /** A property whose name has a segment goes, whole, to the path of its segments below the root. */
  ghost predicate SplitInto(c: string, fields: seq<Field>, leaves: seq<Leaf>) {
    |leaves| == |fields|
    && forall i :: 0 <= i < |fields| ==>
         leaves[i] == Leaf(Path(c, NonEmpty(Split(fields[i].name, '/'))), fields[i].value)
  }

  /** So a split object loses nothing: each property has its own write, in order. */
  lemma SplitKeepsEveryProperty(c: string, v: Value)
    requires Splits(Path(c, []), v)
    requires forall i :: 0 <= i < |v.fields| ==> NonEmpty(Split(v.fields[i].name, '/')) != []
    ensures SplitInto(c, v.fields, Leaves(Path(c, []), v))
  {
    LeavesUpToKeep(c, v, |v.fields|);
    assert v.fields[..|v.fields|] == v.fields;
  }

  lemma {:induction false} LeavesUpToKeep(c: string, v: Value, n: nat)
    requires v.Obj? && n <= |v.fields|
    requires forall i :: 0 <= i < |v.fields| ==> NonEmpty(Split(v.fields[i].name, '/')) != []
    ensures SplitInto(c, v.fields[..n], LeavesUpTo(Path(c, []), v, n))
  {
    if n > 0 {
      LeavesUpToKeep(c, v, n - 1);
      OneLeaf(c, v.fields[n - 1]);
      assert v.fields[..n] == v.fields[..n - 1] + [v.fields[n - 1]];
      SplitMore(c, v.fields[..n - 1], LeavesUpTo(Path(c, []), v, n - 1), v.fields[n - 1]);
    }
  }

  lemma OneLeaf(c: string, f: Field)
    requires NonEmpty(Split(f.name, '/')) != []
    ensures Leaves(SubPath(Path(c, []), f.name), f.value) == [Leaf(Path(c, NonEmpty(Split(f.name, '/'))), f.value)]
  {
    var parts: seq<string> := [];
    assert parts + NonEmpty(Split(f.name, '/')) == NonEmpty(Split(f.name, '/'));
  }

  lemma SplitMore(c: string, fields: seq<Field>, leaves: seq<Leaf>, f: Field)
    requires SplitInto(c, fields, leaves)
    ensures SplitInto(c, fields + [f], leaves + [Leaf(Path(c, NonEmpty(Split(f.name, '/'))), f.value)])
  {
  }

  /** A property whose name has no segment is written at the root again, where it may split in turn. */
  lemma NamelessPropertyStaysAtRoot(c: string, name: string, v: Value)
    requires NonEmpty(Split(name, '/')) == []
    ensures Leaves(SubPath(Path(c, []), name), v) == Leaves(Path(c, []), v)
  {
  }

  /** What does not split is one task at its own path; what does, one task for each write, in turn. */
  lemma CallsExpand(call: Call, i: nat)
    requires i < |Expand(call)|
    ensures match call.op
            case Append(item) =>
              var leaves := Leaves(call.path, item);
              |Expand(call)| == |leaves| && Expand(call)[i] == Task(leaves[i].path, Append(leaves[i].value), i > 0)
            case Merge(data) =>
              var leaves := Leaves(call.path, data);
              |Expand(call)| == |leaves| && Expand(call)[i] == Task(leaves[i].path, Merge(leaves[i].value), i > 0)
            case _ => |Expand(call)| == 1 && Expand(call)[i] == Task(call.path, call.op, false)
  {
  }

  // ---- storage keys ----

  /** Paths without colons have one storage key exactly when they are one path. */
  lemma KeysTellPathsApart(p: Path, q: Path)
    requires NoColons(p) && NoColons(q)
    ensures BuildKey(p) == BuildKey(q) <==> p == q
  {
    if BuildKey(p) == BuildKey(q) {
      KeyIsJoined(p);
      KeyIsJoined(q);
      var a, b := ["smallstore", p.collection] + p.segments, ["smallstore", q.collection] + q.segments;
      SplitJoin(a, ':');
      SplitJoin(b, ':');
      assert a == b;
      assert p.collection == a[1] == b[1] && p.segments == a[2..] == b[2..];
    }
  }

  ghost predicate NoColons(p: Path) {
    ':' !in p.collection && forall s :: s in p.segments ==> ':' !in s
  }

  lemma {:induction false} JoinedByColons(head: string, parts: seq<string>)
    ensures Join([head] + parts, ':') == head + JoinColon(parts)
    decreases |parts|
  {
    if parts == [] {
      assert [head] + parts == [head] && head + "" == head;
    } else {
      JoinedByColons(parts[0], parts[1..]);
      assert [parts[0]] + parts[1..] == parts;
      assert ([head] + parts)[1..] == parts;
      assert head + [':'] + (parts[0] + JoinColon(parts[1..])) == head + (":" + parts[0] + JoinColon(parts[1..]));
    }
  }

  lemma KeyIsJoined(p: Path)
    requires NoColons(p)
    ensures Join(["smallstore", p.collection] + p.segments, ':') == BuildKey(p)
    ensures forall s :: s in ["smallstore", p.collection] + p.segments ==> ':' !in s
  {
    JoinedByColons("smallstore", [p.collection] + p.segments);
    assert ["smallstore", p.collection] + p.segments == ["smallstore"] + ([p.collection] + p.segments);
    assert ([p.collection] + p.segments)[1..] == p.segments;
    assert "smallstore" + (":" + p.collection + JoinColon(p.segments))
        == "smallstore:" + p.collection + JoinColon(p.segments);
  }
}
