/** The three-way classification of src/sync.ts: source, target and the saved baseline. */
module SyncDiff {
  import opened Outcomes
  import opened Adapter

  datatype Entry = Entry(sourceHash: string, targetHash: string)
  type Entries = map<string, Entry>
  type Hashes = map<string, string>

  datatype Class = ToPush | ToPull | DeleteFromSource | DeleteFromTarget | Conflict | Unchanged | Gone

  datatype Diff = Diff(
    toPush: seq<string>,
    toPull: seq<string>,
    deleteFromSource: seq<string>,
    deleteFromTarget: seq<string>,
    conflicts: seq<string>,
    unchangedKeys: seq<string>)

  /** The three inputs of the diff, together with the deletion switch. */
  datatype Sides = Sides(source: Hashes, target: Hashes, baseline: Option<Entries>, detectDeletions: bool)

  /** A missing hash and an empty one are both falsy, so "" stands for either. */
  function HashAt(hashes: Hashes, key: string): string {
    if key in hashes then hashes[key] else ""
  }

  function EntryAt(baseline: Option<Entries>, key: string): Option<Entry> {
    if baseline.Some? && key in baseline.value then Some(baseline.value[key]) else None
  }

  function Classify(s: string, t: string, base: Option<Entry>, detectDeletions: bool): Class {
    if s != "" && t != "" && s == t then Unchanged
    else if s == "" && t == "" then Gone
    else if t == "" then
      if base.Some? && detectDeletions then
        if s == base.value.sourceHash then DeleteFromSource else Conflict
      else ToPush
    else if s == "" then
      if base.Some? && detectDeletions then
        if t == base.value.targetHash then DeleteFromTarget else Conflict
      else ToPull
    else if base.Some? then
      var sourceChanged := s != base.value.sourceHash;
      var targetChanged := t != base.value.targetHash;
      if sourceChanged && targetChanged then Conflict
      else if sourceChanged then ToPush
      else if targetChanged then ToPull
      else Unchanged
    else Conflict
  }

  function ClassOf(x: Sides, key: string): Class {
    Classify(HashAt(x.source, key), HashAt(x.target, key), EntryAt(x.baseline, key), x.detectDeletions)
  }

  /** The keys of one class, in listing order. */
  function Select(keys: seq<string>, x: Sides, c: Class): seq<string> {
    if keys == [] then []
    else
      var front := Select(keys[..|keys| - 1], x, c);
      var key := keys[|keys| - 1];
      if ClassOf(x, key) == c then front + [key] else front
  }

  function DiffOf(keys: seq<string>, x: Sides): Diff {
    Diff(Select(keys, x, ToPush), Select(keys, x, ToPull),
         Select(keys, x, DeleteFromSource), Select(keys, x, DeleteFromTarget),
         Select(keys, x, Conflict), Select(keys, x, Unchanged))
  }

  /** The keys of b that are not already in a: what adding b to a Set appends. */
  function Fresh(a: seq<string>, b: seq<string>): seq<string> {
    if b == [] then []
    else
      var front := Fresh(a, b[..|b| - 1]);
      var key := b[|b| - 1];
      if key in a || key in front then front else front + [key]
  }

  lemma {:induction false} FreshMembers(a: seq<string>, b: seq<string>, key: string)
    ensures key in Fresh(a, b) <==> key in b && key !in a
  {
    if b != [] {
      FreshMembers(a, b[..|b| - 1], key);
      assert b == b[..|b| - 1] + [b[|b| - 1]];
    }
  }

  lemma {:induction false} FreshNoDuplicates(a: seq<string>, b: seq<string>)
    requires NoDuplicates(a)
    ensures NoDuplicates(a + Fresh(a, b))
  {
    if b != [] {
      FreshNoDuplicates(a, b[..|b| - 1]);
      var front, key := Fresh(a, b[..|b| - 1]), b[|b| - 1];
      if key !in a && key !in front {
        assert a + (front + [key]) == (a + front) + [key];
        assert key !in a + front;
      }
    } else {
      assert a + [] == a;
    }
  }

  lemma {:induction false} SelectMembers(keys: seq<string>, x: Sides, c: Class, key: string)
    ensures key in Select(keys, x, c) <==> key in keys && ClassOf(x, key) == c
  {
    if keys != [] {
      SelectMembers(keys[..|keys| - 1], x, c, key);
      assert keys == keys[..|keys| - 1] + [keys[|keys| - 1]];
    }
  }

  /** Lists the keys of a baseline, in some order. */
  method ListKeys(entries: Entries) returns (keys: seq<string>)
    ensures forall k :: k in keys <==> k in entries
  {
    keys := [];
    var rest := entries.Keys;
    while rest != {}
      invariant rest <= entries.Keys
      invariant forall k :: k in keys <==> k in entries && k !in rest
      decreases rest
    {
      var k :| k in rest;
      rest := rest - {k};
      keys := keys + [k];
    }
  }

  lemma {:induction false} SelectIgnores(keys: seq<string>, extra: seq<string>, x: Sides, c: Class)
    requires forall k :: k in extra ==> ClassOf(x, k) != c
    ensures Select(keys + extra, x, c) == Select(keys, x, c)
  {
    if extra == [] {
      assert keys + extra == keys;
    } else {
      var front, last := extra[..|extra| - 1], extra[|extra| - 1];
      assert extra == front + [last] && last in extra;
      SelectIgnores(keys, front, x, c);
      assert keys + extra == (keys + front) + [last];
      assert (keys + extra)[..|keys + front|] == keys + front;
    }
  }

  lemma GoneKeysAddNothing(keys: seq<string>, extra: seq<string>, x: Sides)
    requires forall k :: k in extra ==> ClassOf(x, k) == Gone
    ensures DiffOf(keys + extra, x) == DiffOf(keys, x)
  {
    SelectIgnores(keys, extra, x, ToPush);
    SelectIgnores(keys, extra, x, ToPull);
    SelectIgnores(keys, extra, x, DeleteFromSource);
    SelectIgnores(keys, extra, x, DeleteFromTarget);
    SelectIgnores(keys, extra, x, Conflict);
    SelectIgnores(keys, extra, x, Unchanged);
  }

  lemma OnlyBaselineKnows(sourceOrder: seq<string>, targetOrder: seq<string>, baseOrder: seq<string>, x: Sides)
    requires forall k :: k in x.source ==> k in sourceOrder
    requires forall k :: k in x.target ==> k in targetOrder
    ensures var present := sourceOrder + Fresh(sourceOrder, targetOrder);
            DiffOf(present + Fresh(present, baseOrder), x) == DiffOf(present, x)
  {
    var present := sourceOrder + Fresh(sourceOrder, targetOrder);
    forall k | k in Fresh(present, baseOrder)
      ensures ClassOf(x, k) == Gone
    {
      FreshMembers(present, baseOrder, k);
      FreshMembers(sourceOrder, targetOrder, k);
    }
    GoneKeysAddNothing(present, Fresh(present, baseOrder), x);
  }

  function Assign(d: Diff, c: Class, key: string): Diff {
    match c
    case ToPush => d.(toPush := d.toPush + [key])
    case ToPull => d.(toPull := d.toPull + [key])
    case DeleteFromSource => d.(deleteFromSource := d.deleteFromSource + [key])
    case DeleteFromTarget => d.(deleteFromTarget := d.deleteFromTarget + [key])
    case Conflict => d.(conflicts := d.conflicts + [key])
    case Unchanged => d.(unchangedKeys := d.unchangedKeys + [key])
    case Gone => d
  }

  lemma SelectSnoc(keys: seq<string>, key: string, x: Sides, c: Class)
    ensures Select(keys + [key], x, c) == Select(keys, x, c) + if ClassOf(x, key) == c then [key] else []
  {
    assert (keys + [key])[..|keys|] == keys;
  }

  lemma DiffSnoc(keys: seq<string>, key: string, x: Sides)
    ensures DiffOf(keys + [key], x) == Assign(DiffOf(keys, x), ClassOf(x, key), key)
  {
    SelectSnoc(keys, key, x, ToPush);
    SelectSnoc(keys, key, x, ToPull);
    SelectSnoc(keys, key, x, DeleteFromSource);
    SelectSnoc(keys, key, x, DeleteFromTarget);
    SelectSnoc(keys, key, x, Conflict);
    SelectSnoc(keys, key, x, Unchanged);
  }

  /** Keys known only to the baseline are visited too, and end up in no list. */
  method ComputeSyncDiff(sourceOrder: seq<string>, targetOrder: seq<string>, x: Sides) returns (diff: Diff)
    requires forall k :: k in x.source ==> k in sourceOrder
    requires forall k :: k in x.target ==> k in targetOrder
    ensures diff == DiffOf(sourceOrder + Fresh(sourceOrder, targetOrder), x)
  {
    var present := sourceOrder + Fresh(sourceOrder, targetOrder);
    var baseEntries := if x.baseline.Some? then x.baseline.value else map[];
    var baseOrder := ListKeys(baseEntries);
    var allKeys := present + Fresh(present, baseOrder);
    diff := Diff([], [], [], [], [], []);
    for i := 0 to |allKeys|
      invariant diff == DiffOf(allKeys[..i], x)
    {
      var key := allKeys[i];
      DiffSnoc(allKeys[..i], key, x);
      assert allKeys[..i + 1] == allKeys[..i] + [key];
      var s := if key in x.source then x.source[key] else "";
      var t := if key in x.target then x.target[key] else "";
      var known := key in baseEntries;
      if s != "" && t != "" && s == t {
        diff := diff.(unchangedKeys := diff.unchangedKeys + [key]);
      } else if s == "" && t == "" {
        // only the baseline knows it: deleted on both sides
      } else if t == "" {
        if known && x.detectDeletions {
          if s == baseEntries[key].sourceHash {
            diff := diff.(deleteFromSource := diff.deleteFromSource + [key]);
          } else {
            diff := diff.(conflicts := diff.conflicts + [key]);
          }
        } else {
          diff := diff.(toPush := diff.toPush + [key]);
        }
      } else if s == "" {
        if known && x.detectDeletions {
          if t == baseEntries[key].targetHash {
            diff := diff.(deleteFromTarget := diff.deleteFromTarget + [key]);
          } else {
            diff := diff.(conflicts := diff.conflicts + [key]);
          }
        } else {
          diff := diff.(toPull := diff.toPull + [key]);
        }
      } else if known {
        var sourceChanged := s != baseEntries[key].sourceHash;
        var targetChanged := t != baseEntries[key].targetHash;
        if sourceChanged && targetChanged {
          diff := diff.(conflicts := diff.conflicts + [key]);
        } else if sourceChanged {
          diff := diff.(toPush := diff.toPush + [key]);
        } else if targetChanged {
          diff := diff.(toPull := diff.toPull + [key]);
        } else {
          diff := diff.(unchangedKeys := diff.unchangedKeys + [key]);
        }
      } else {
        diff := diff.(conflicts := diff.conflicts + [key]);
      }
    }
    assert allKeys[..|allKeys|] == allKeys;
    OnlyBaselineKnows(sourceOrder, targetOrder, baseOrder, x);
  }

  function Count(key: string, keys: seq<string>): nat {
    multiset(keys)[key]
  }

  lemma {:induction false} SelectCount(keys: seq<string>, x: Sides, c: Class, key: string)
    requires NoDuplicates(keys)
    ensures Count(key, Select(keys, x, c)) == if key in keys && ClassOf(x, key) == c then 1 else 0
  {
    if keys != [] {
      var front, last := keys[..|keys| - 1], keys[|keys| - 1];
      SelectCount(front, x, c, key);
      assert keys == front + [last];
      assert last !in front;
    }
  }

  /**
   * The diff is a partition: among distinct keys, one that some side holds is in exactly
   * one of the six lists and occurs there once; any other key is in none.
   */
  lemma DiffIsPartition(keys: seq<string>, x: Sides, key: string)
    requires NoDuplicates(keys)
    ensures var d := DiffOf(keys, x);
            Count(key, d.toPush) + Count(key, d.toPull) + Count(key, d.deleteFromSource)
            + Count(key, d.deleteFromTarget) + Count(key, d.conflicts) + Count(key, d.unchangedKeys)
            == if key in keys && (HashAt(x.source, key) != "" || HashAt(x.target, key) != "") then 1 else 0
  {
    SelectCount(keys, x, ToPush, key);
    SelectCount(keys, x, ToPull, key);
    SelectCount(keys, x, DeleteFromSource, key);
    SelectCount(keys, x, DeleteFromTarget, key);
    SelectCount(keys, x, Conflict, key);
    SelectCount(keys, x, Unchanged, key);
  }

  function SwapEntries(entries: Entries): Entries {
    map k | k in entries :: Entry(entries[k].targetHash, entries[k].sourceHash)
  }

  /** The same situation seen from the other side. */
  function Swap(x: Sides): Sides {
    Sides(x.target, x.source, if x.baseline.Some? then Some(SwapEntries(x.baseline.value)) else None, x.detectDeletions)
  }

  function Mirror(c: Class): Class {
    match c
    case ToPush => ToPull
    case ToPull => ToPush
    case DeleteFromSource => DeleteFromTarget
    case DeleteFromTarget => DeleteFromSource
    case _ => c
  }

  lemma SelectMirrors(keys: seq<string>, keys': seq<string>, x: Sides, c: Class, key: string)
    requires key in keys <==> key in keys'
    ensures key in Select(keys, x, c) <==> key in Select(keys', Swap(x), Mirror(c))
  {
    SelectMembers(keys, x, c, key);
    SelectMembers(keys', Swap(x), Mirror(c), key);
  }

  /**
   * The diff is symmetric: swapping the sides swaps pushes with pulls and the two kinds of
   * deletion, and leaves conflicts and unchanged keys where they were.
   */
  lemma DiffIsSymmetric(keys: seq<string>, keys': seq<string>, x: Sides, key: string)
    requires key in keys <==> key in keys'
    ensures var d, d' := DiffOf(keys, x), DiffOf(keys', Swap(x));
            && (key in d.toPush <==> key in d'.toPull)
            && (key in d.toPull <==> key in d'.toPush)
            && (key in d.deleteFromSource <==> key in d'.deleteFromTarget)
            && (key in d.deleteFromTarget <==> key in d'.deleteFromSource)
            && (key in d.conflicts <==> key in d'.conflicts)
            && (key in d.unchangedKeys <==> key in d'.unchangedKeys)
  {
    SelectMirrors(keys, keys', x, ToPush, key);
    SelectMirrors(keys, keys', x, ToPull, key);
    SelectMirrors(keys, keys', x, DeleteFromSource, key);
    SelectMirrors(keys, keys', x, DeleteFromTarget, key);
    SelectMirrors(keys, keys', x, Conflict, key);
    SelectMirrors(keys, keys', x, Unchanged, key);
  }
}
