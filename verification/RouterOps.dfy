/** Keys, lock names and the read-modify-write operations of src/router.ts. */
module RouterOps {
  import opened Outcomes
  import opened Strings

  /** A parsed collection path. */
  datatype Path = Path(collection: string, segments: seq<string>)

  function JoinColon(parts: seq<string>): string {
    if parts == [] then "" else ":" + parts[0] + JoinColon(parts[1..])
  }

  /** The storage key: prefix, collection and segments joined by colons. */
  function BuildKey(p: Path): string {
    "smallstore:" + p.collection + JoinColon(p.segments)
  }

  function DataLock(p: Path): string {
    p.collection + ":" + BuildKey(p)
  }

  function IndexLock(p: Path): string {
    "__keyindex__:" + p.collection
  }

  /** Stored JSON values; falsy scalars are 0, false and the empty string. An object lists its fields in order. */
  datatype Value = Null | Scalar(text: string, falsy: bool) | Arr(items: seq<Value>) | Obj(fields: seq<Field>)
  datatype Field = Field(name: string, value: Value)

  /** Assigning one property: a known name keeps its place. */
  function Assigned(fields: seq<Field>, f: Field): seq<Field> {
    if fields == [] then [f]
    else if fields[0].name == f.name then [f] + fields[1..]
    else [fields[0]] + Assigned(fields[1..], f)
  }

  /** { ...a, ...b } */
  function Spread(a: seq<Field>, b: seq<Field>): seq<Field> {
    if b == [] then a else Assigned(Spread(a, b[..|b| - 1]), b[|b| - 1])
  }

  datatype Op =
    | Append(item: Value)
    | Merge(data: Value)
    | Patch(fields: seq<Field>)
    | DeleteFromArray(filter: Value -> bool)
    | Get

  /** patch and deleteFromArray read through get() as well, the other two straight from the adapter. */
  predicate ByGet(op: Op) {
    op.Patch? || op.DeleteFromArray? || op.Get?
  }

  predicate Falsy(v: Value) {
    v.Null? || (v.Scalar? && v.falsy)
  }

  /** What the operation takes the stored value to be: get() turns every falsy value into null. */
  function Existing(op: Op, stored: Option<Value>): Option<Value> {
    if stored.None? || stored.value.Null? || (ByGet(op) && Falsy(stored.value)) then None else stored
  }

  function Listed(v: Value, item: Value): Value {
    if v.Arr? then Arr(v.items + [item]) else Arr([v, item])
  }

  function Rest(items: seq<Value>, drop: Value -> bool): seq<Value> {
    if items == [] then []
    else
      var front := Rest(items[..|items| - 1], drop);
      if drop(items[|items| - 1]) then front else front + [items[|items| - 1]]
  }

  function Not(filter: Value -> bool): Value -> bool {
    x => !filter(x)
  }

  /** The loop of deleteFromArray. */
  method Partition(items: seq<Value>, filter: Value -> bool) returns (toKeep: seq<Value>, toDelete: seq<Value>)
    ensures toKeep == Rest(items, filter) && toDelete == Rest(items, Not(filter))
  {
    toKeep, toDelete := [], [];
    for i := 0 to |items|
      invariant toKeep == Rest(items[..i], filter) && toDelete == Rest(items[..i], Not(filter))
    {
      assert items[..i + 1][..i] == items[..i];
      if filter(items[i]) {
        toDelete := toDelete + [items[i]];
      } else {
        toKeep := toKeep + [items[i]];
      }
    }
    assert items[..|items|] == items;
  }

  /** What is kept and what is deleted are together all the items, sorted by the filter. */
  lemma {:induction false} PartitionLosesNothing(items: seq<Value>, filter: Value -> bool)
    ensures multiset(Rest(items, filter)) + multiset(Rest(items, Not(filter))) == multiset(items)
    ensures forall x :: x in Rest(items, filter) ==> !filter(x)
    ensures forall x :: x in Rest(items, Not(filter)) ==> filter(x)
  {
    if items != [] {
      PartitionLosesNothing(items[..|items| - 1], filter);
      assert items == items[..|items| - 1] + [items[|items| - 1]];
    }
  }

  /** The value to write, or None when the operation throws, or only reads, and writes nothing. */
  function Perform(op: Op, existing: Option<Value>): Option<Value> {
    match op
    case Append(item) => Some(if existing.None? then Arr([item]) else Listed(existing.value, item))
    case Merge(data) =>
      Some(if existing.None? then data
           else if existing.value.Obj? && data.Obj? then Obj(Spread(existing.value.fields, data.fields))
           else Listed(existing.value, data))
    case Patch(fields) => Some(Patched(existing, fields))
    case DeleteFromArray(filter) =>
      if existing.Some? && existing.value.Arr? then Some(Arr(Rest(existing.value.items, filter))) else None
    case Get => None
  }

  function Patched(existing: Option<Value>, fields: seq<Field>): Value {
    var single := existing.Some? && existing.value.Arr? && |existing.value.items| == 1;
    var inner := if single then Some(existing.value.items[0]) else existing;
    if inner.Some? && inner.value.Obj? then Obj(Spread(inner.value.fields, fields)) else Obj(fields)
  }

  // ---- objects that set() splits over sub-keys ----

  predicate Complex(v: Value) {
    v.Arr? || v.Obj?
  }

  function ComplexCount(fields: seq<Field>): nat {
    if fields == [] then 0
    else ComplexCount(fields[..|fields| - 1]) + if Complex(fields[|fields| - 1].value) then 1 else 0
  }

  /** A folder-like object: several fields, at least two of them arrays or objects. */
  predicate Heterogeneous(v: Value) {
    v.Obj? && |v.fields| > 1 && ComplexCount(v.fields) >= 2
  }

  /** set() splits such an object when it is written at the root of a collection. */
  predicate Splits(p: Path, v: Value) {
    p.segments == [] && Heterogeneous(v)
  }

  function SubPath(p: Path, name: string): Path {
    p.(segments := p.segments + NonEmpty(Split(name, '/')))
  }

  datatype Leaf = Leaf(path: Path, value: Value)

  /** What set() writes in the end, in order; a field whose name holds no segment is at the root again. */
  function Leaves(p: Path, v: Value): seq<Leaf>
    decreases v, 1, 0
  {
    if Splits(p, v) then LeavesUpTo(p, v, |v.fields|) else [Leaf(p, v)]
  }

  function LeavesUpTo(p: Path, v: Value, n: nat): seq<Leaf>
    requires v.Obj? && n <= |v.fields|
    decreases v, 0, n
  {
    if n == 0 then []
    else LeavesUpTo(p, v, n - 1) + Leaves(SubPath(p, v.fields[n - 1].name), v.fields[n - 1].value)
  }

  ghost predicate InCollection(leaves: seq<Leaf>, c: string) {
    forall i :: 0 <= i < |leaves| ==> leaves[i].path.collection == c
  }

  /** A split stays in its collection. */
  lemma {:induction false} LeavesStay(p: Path, v: Value)
    ensures InCollection(Leaves(p, v), p.collection)
    decreases v, 1, 0
  {
    if Splits(p, v) {
      LeavesUpToStay(p, v, |v.fields|);
    }
  }

  lemma {:induction false} LeavesUpToStay(p: Path, v: Value, n: nat)
    requires v.Obj? && n <= |v.fields|
    ensures InCollection(LeavesUpTo(p, v, n), p.collection)
    decreases v, 0, n
  {
    if n > 0 {
      LeavesUpToStay(p, v, n - 1);
      LeavesStay(SubPath(p, v.fields[n - 1].name), v.fields[n - 1].value);
    }
  }

  ghost predicate Settled(leaves: seq<Leaf>) {
    forall i :: 0 <= i < |leaves| ==> !Splits(leaves[i].path, leaves[i].value)
  }

  /** Nothing that set() writes in the end would be split again. */
  lemma {:induction false} LeavesAreSettled(p: Path, v: Value)
    ensures Settled(Leaves(p, v))
    decreases v, 1, 0
  {
    if Splits(p, v) {
      LeavesUpToSettled(p, v, |v.fields|);
    }
  }

  lemma {:induction false} LeavesUpToSettled(p: Path, v: Value, n: nat)
    requires v.Obj? && n <= |v.fields|
    ensures Settled(LeavesUpTo(p, v, n))
    decreases v, 0, n
  {
    if n > 0 {
      LeavesUpToSettled(p, v, n - 1);
      LeavesAreSettled(SubPath(p, v.fields[n - 1].name), v.fields[n - 1].value);
    }
  }

  ghost predicate Smaller(leaves: seq<Leaf>, v: Value) {
    forall i :: 0 <= i < |leaves| ==> Height(leaves[i].value) < Height(v)
  }

  function Height(v: Value): nat {
    if v.Obj? then 1 + Tallest(v, |v.fields|) else 0
  }

  function Tallest(v: Value, n: nat): nat
    requires v.Obj? && n <= |v.fields|
    decreases v, 0, n
  {
    if n == 0 then 0
    else
      var before, here := Tallest(v, n - 1), Height(v.fields[n - 1].value);
      if before < here then here else before
  }

  lemma {:induction false} FieldIsLower(v: Value, n: nat, i: nat)
    requires v.Obj? && i < n <= |v.fields|
    ensures Height(v.fields[i].value) <= Tallest(v, n)
  {
    if i < n - 1 {
      FieldIsLower(v, n - 1, i);
    }
  }

  /** A split writes parts of the object only, never the object itself. */
  lemma {:induction false} SplitLeavesAreSmaller(p: Path, v: Value)
    requires Splits(p, v)
    ensures Smaller(Leaves(p, v), v)
  {
    LeavesUpToAreSmaller(p, v, |v.fields|);
  }

  lemma {:induction false} LeavesUpToAreSmaller(p: Path, v: Value, n: nat)
    requires v.Obj? && n <= |v.fields|
    ensures Smaller(LeavesUpTo(p, v, n), v)
    decreases v, 0, n
  {
    if n > 0 {
      LeavesUpToAreSmaller(p, v, n - 1);
      var q, x := SubPath(p, v.fields[n - 1].name), v.fields[n - 1].value;
      FieldIsLower(v, |v.fields|, n - 1);
      if Splits(q, x) {
        LeavesUpToAreSmaller(q, x, |x.fields|);
      }
    }
  }

  // ---- keys of the store's own records ----

  /** Where the schema and the key index of a collection are kept. */
  function MetadataKey(collection: string): string {
    "smallstore:meta:" + collection
  }

  function IndexKey(collection: string): string {
    "smallstore:index:" + collection
  }

  /** Nothing sets these apart from data: the collections "meta" and "index" have paths to them. */
  lemma OwnRecordsAreAddressable(c: string)
    ensures BuildKey(Path("meta", [c])) == MetadataKey(c)
    ensures BuildKey(Path("index", [c])) == IndexKey(c)
  {
    assert JoinColon([c]) == ":" + c by {
      assert [c][1..] == [] && ":" + c + "" == ":" + c;
    }
  }

  // ---- lock names ----

  lemma LockLengths(o: Path, t: Path)
    requires DataLock(o) == IndexLock(t)
    ensures |t.collection| + 1 >= 2 * |o.collection|
  {
    assert |DataLock(o)| == |o.collection| + 1 + |BuildKey(o)|;
    assert |BuildKey(o)| >= 11 + |o.collection|;
    assert |IndexLock(t)| == 13 + |t.collection|;
  }

  /**
   * A data lock can share its name with an index lock, but only with that of a strictly
   * longer collection name; in particular never with its own.
   */
  lemma NameClashGoesUp(o: Path, t: Path)
    requires DataLock(o) == IndexLock(t)
    ensures |o.collection| < |t.collection|
  {
    LockLengths(o, t);
    var d, i := DataLock(o), IndexLock(t);
    assert i[0] == '_' && i[1] == '_';
    assert d == o.collection + (":" + BuildKey(o));
    assert d[|o.collection|] == ':';
    assert |o.collection| != 0 && |o.collection| != 1;
  }
}
