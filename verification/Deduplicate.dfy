/** The deduplication strategies of src/router.ts, against first and last occurrences. */
module Deduplicate {
  import opened Selection
  import opened Outcomes

  // ---- the reference: which occurrences stay ----

  predicate HasKey<T>(items: seq<T>, key: T -> string, k: string) {
    exists i :: 0 <= i < |items| && key(items[i]) == k
  }

  /** The subsequence of items with no earlier item of the same key. */
  function FirstOccurrences<T>(items: seq<T>, key: T -> string): seq<T> {
    if items == [] then []
    else
      var front, last := FirstOccurrences(items[..|items| - 1], key), items[|items| - 1];
      if HasKey(items[..|items| - 1], key, key(last)) then front else front + [last]
  }

  /** The subsequence of items with no later item of the same key. */
  function LastOccurrences<T>(items: seq<T>, key: T -> string): seq<T> {
    if items == [] then []
    else
      var rest := LastOccurrences(items[1..], key);
      if HasKey(items[1..], key, key(items[0])) then rest else [items[0]] + rest
  }

  ghost predicate KeysDiffer<T>(items: seq<T>, key: T -> string) {
    forall i, j :: 0 <= i < j < |items| ==> key(items[i]) != key(items[j])
  }

  lemma HasKeySplit<T>(a: seq<T>, b: seq<T>, key: T -> string, k: string)
    ensures HasKey(a + b, key, k) <==> HasKey(a, key, k) || HasKey(b, key, k)
  {
    if i :| 0 <= i < |a| && key(a[i]) == k {
      assert (a + b)[i] == a[i];
    }
    if i :| 0 <= i < |b| && key(b[i]) == k {
      assert (a + b)[|a| + i] == b[i];
    }
  }

  lemma HasKeySnoc<T>(items: seq<T>, x: T, key: T -> string, k: string)
    ensures HasKey(items + [x], key, k) <==> HasKey(items, key, k) || key(x) == k
  {
    HasKeySplit(items, [x], key, k);
    assert [x][0] == x;
  }

  /** First occurrences: one item per key present, each key's first. */
  lemma {:induction false} FirstKeepsOnePerKey<T>(items: seq<T>, key: T -> string, k: string)
    ensures KeysDiffer(FirstOccurrences(items, key), key)
    ensures HasKey(FirstOccurrences(items, key), key, k) <==> HasKey(items, key, k)
  {
    if items != [] {
      var front, last := items[..|items| - 1], items[|items| - 1];
      FirstKeepsOnePerKey(front, key, k);
      FirstKeepsOnePerKey(front, key, key(last));
      assert items == front + [last];
      HasKeySplit(front, [last], key, k);
      HasKeySplit(FirstOccurrences(front, key), [last], key, k);
      assert HasKey([last], key, k) <==> key(last) == k by {
        assert [last][0] == last;
      }
    }
  }

  /** Last occurrences: one item per key present, each key's last. */
  lemma {:induction false} LastKeepsOnePerKey<T>(items: seq<T>, key: T -> string, k: string)
    ensures KeysDiffer(LastOccurrences(items, key), key)
    ensures HasKey(LastOccurrences(items, key), key, k) <==> HasKey(items, key, k)
  {
    if items != [] {
      var head, rest := items[0], items[1..];
      LastKeepsOnePerKey(rest, key, k);
      LastKeepsOnePerKey(rest, key, key(head));
      assert items == [head] + rest;
      HasKeySplit([head], rest, key, k);
      HasKeySplit([head], LastOccurrences(rest, key), key, k);
      assert HasKey([head], key, k) <==> key(head) == k by {
        assert [head][0] == head;
      }
    }
  }

  lemma {:induction false} FirstOfDistinct<T>(items: seq<T>, key: T -> string)
    requires KeysDiffer(items, key)
    ensures FirstOccurrences(items, key) == items
  {
    if items != [] {
      FirstOfDistinct(items[..|items| - 1], key);
    }
  }

  lemma {:induction false} LastOfDistinct<T>(items: seq<T>, key: T -> string)
    requires KeysDiffer(items, key)
    ensures LastOccurrences(items, key) == items
  {
    if items != [] {
      LastOfDistinct(items[1..], key);
    }
  }

  /** Deduplicating again changes nothing. */
  lemma Idempotent<T>(items: seq<T>, key: T -> string)
    ensures var f, l := FirstOccurrences(items, key), LastOccurrences(items, key);
            FirstOccurrences(f, key) == f && LastOccurrences(l, key) == l
  {
    FirstKeepsOnePerKey(items, key, "");
    LastKeepsOnePerKey(items, key, "");
    FirstOfDistinct(FirstOccurrences(items, key), key);
    LastOfDistinct(LastOccurrences(items, key), key);
  }

  function Backwards<T>(items: seq<T>): seq<T> {
    if items == [] then [] else Backwards(items[1..]) + [items[0]]
  }

  lemma {:induction false} BackwardsKeys<T>(items: seq<T>, key: T -> string, k: string)
    ensures HasKey(Backwards(items), key, k) <==> HasKey(items, key, k)
  {
    if items != [] {
      BackwardsKeys(items[1..], key, k);
      assert items == [items[0]] + items[1..];
      HasKeySplit([items[0]], items[1..], key, k);
      HasKeySplit(Backwards(items[1..]), [items[0]], key, k);
    }
  }

  /** Keeping the last is keeping the first of the reversed list. */
  lemma {:induction false} LastIsFirstBackwards<T>(items: seq<T>, key: T -> string)
    ensures Backwards(LastOccurrences(items, key)) == FirstOccurrences(Backwards(items), key)
  {
    if items != [] {
      var head, rest := items[0], items[1..];
      LastIsFirstBackwards(rest, key);
      BackwardsKeys(rest, key, key(head));
      var b := Backwards(rest) + [head];
      assert b[..|b| - 1] == Backwards(rest);
      if !HasKey(rest, key, key(head)) {
        assert ([head] + LastOccurrences(rest, key))[1..] == LastOccurrences(rest, key);
      }
    }
  }

  // ---- keep the first: a set of keys already seen ----

  method KeepFirst<T>(items: seq<T>, key: T -> string) returns (kept: seq<T>)
    ensures kept == FirstOccurrences(items, key)
  {
    var seen: set<string> := {};
    kept := [];
    for i := 0 to |items|
      invariant kept == FirstOccurrences(items[..i], key)
      invariant forall k :: k in seen <==> HasKey(items[..i], key, k)
    {
      var k := key(items[i]);
      assert items[..i + 1][..i] == items[..i];
      assert items[..i + 1] == items[..i] + [items[i]];
      forall k'
        ensures HasKey(items[..i + 1], key, k') <==> HasKey(items[..i], key, k') || k' == k
      {
        HasKeySnoc(items[..i], items[i], key, k');
      }
      if k !in seen {
        seen := seen + {k};
        kept := kept + [items[i]];
      }
    }
    assert items[..|items|] == items;
  }

  // ---- keep the last, by filtering out what is superseded ----

  function Dropping<T>(items: seq<T>, key: T -> string, k: string): seq<T> {
    if items == [] then []
    else (if key(items[0]) == k then [] else [items[0]]) + Dropping(items[1..], key, k)
  }

  lemma {:induction false} DroppingAbsent<T>(items: seq<T>, key: T -> string, k: string)
    requires !HasKey(items, key, k)
    ensures Dropping(items, key, k) == items
  {
    if items != [] {
      assert items == [items[0]] + items[1..];
      HasKeySplit([items[0]], items[1..], key, k);
      assert [items[0]][0] == items[0];
      DroppingAbsent(items[1..], key, k);
    }
  }

  lemma DroppingCons<T>(head: T, tail: seq<T>, key: T -> string, k: string)
    ensures Dropping([head] + tail, key, k) == (if key(head) == k then [] else [head]) + Dropping(tail, key, k)
  {
    assert ([head] + tail)[1..] == tail;
  }

  /** Dropping a key from a survivor and those after it. */
  lemma DroppingLast<T>(head: T, rest: seq<T>, key: T -> string, k: string)
    requires !HasKey(rest, key, key(head))
    ensures var dropped := Dropping(LastOccurrences(rest, key), key, k);
            Dropping([head] + LastOccurrences(rest, key), key, k)
            == if key(head) == k then dropped else [head] + dropped
  {
    DroppingCons(head, LastOccurrences(rest, key), key, k);
  }

  /** A new last item supersedes its key's earlier survivor. */
  lemma {:induction false} LastOfSnoc<T>(items: seq<T>, key: T -> string, x: T)
    ensures LastOccurrences(items + [x], key) == Dropping(LastOccurrences(items, key), key, key(x)) + [x]
  {
    if items == [] {
      assert items + [x] == [x];
      assert [x][1..] == [];
    } else {
      var head, rest := items[0], items[1..];
      LastOfSnoc(rest, key, x);
      assert (items + [x])[1..] == rest + [x];
      HasKeySnoc(rest, x, key, key(head));
      if !HasKey(rest, key, key(head)) {
        DroppingLast(head, rest, key, key(x));
      }
    }
  }

  method KeepLastByFilter<T>(items: seq<T>, key: T -> string) returns (kept: seq<T>)
    ensures kept == LastOccurrences(items, key)
  {
    var seen: set<string> := {};
    kept := [];
    for i := 0 to |items|
      invariant kept == LastOccurrences(items[..i], key)
      invariant forall k :: k in seen <==> HasKey(items[..i], key, k)
    {
      var k := key(items[i]);
      assert items[..i + 1] == items[..i] + [items[i]];
      LastOfSnoc(items[..i], key, items[i]);
      forall k'
        ensures HasKey(items[..i + 1], key, k') <==> HasKey(items[..i], key, k') || k' == k
      {
        HasKeySnoc(items[..i], items[i], key, k');
      }
      if k !in seen {
        LastKeepsOnePerKey(items[..i], key, k);
        DroppingAbsent(kept, key, k);
        seen := seen + {k};
        kept := kept + [items[i]];
      } else {
        kept := Dropping(kept, key, k);
        kept := kept + [items[i]];
      }
    }
    assert items[..|items|] == items;
  }

  // ---- keep the last, by nulling slots ----

  /** An array element: null, or a value. */
  datatype Item<+T> = Absent | Present(value: T)

  function NonNull<T>(items: seq<Item<T>>): seq<Item<T>> {
    if items == [] then [] else (if items[0].Absent? then [] else [items[0]]) + NonNull(items[1..])
  }

  ghost predicate LastAt<T>(items: seq<T>, key: T -> string, p: int)
    requires 0 <= p < |items|
  {
    forall q :: p < q < |items| ==> key(items[q]) != key(items[p])
  }

  /** Slots that keep exactly the last occurrences compress to the last occurrences that are not null. */
  lemma {:induction false} SlotsAreLast<T>(items: seq<Item<T>>, key: Item<T> -> string, slots: seq<Item<T>>)
    requires |slots| == |items|
    requires forall p :: 0 <= p < |items| ==> slots[p] == if LastAt(items, key, p) then items[p] else Absent
    ensures NonNull(slots) == NonNull(LastOccurrences(items, key))
  {
    if items != [] {
      var rest := items[1..];
      forall p | 0 <= p < |rest|
        ensures slots[1..][p] == if LastAt(rest, key, p) then rest[p] else Absent
      {
        assert LastAt(rest, key, p) <==> LastAt(items, key, p + 1) by {
          assert forall q :: p < q < |rest| ==> rest[q] == items[q + 1];
          assert forall q :: p + 1 < q < |items| ==> items[q] == rest[q - 1];
        }
      }
      SlotsAreLast(rest, key, slots[1..]);
      assert LastAt(items, key, 0) <==> !HasKey(rest, key, key(items[0])) by {
        assert forall q :: 0 <= q < |rest| ==> rest[q] == items[q + 1];
        assert forall q :: 0 < q < |items| ==> items[q] == rest[q - 1];
      }
      var l := LastOccurrences(rest, key);
      assert ([items[0]] + l)[1..] == l;
    }
  }

  method KeepLastBySlots<T>(items: seq<Item<T>>, hash: Item<T> -> string) returns (kept: seq<Item<T>>)
    ensures kept == NonNull(LastOccurrences(items, hash))
  {
    var hashToIndex: map<string, nat> := map[];
    var slots: seq<Item<T>> := [];
    for i := 0 to |items|
      invariant |slots| == i
      invariant forall p :: 0 <= p < i ==> hash(items[p]) in hashToIndex && p <= hashToIndex[hash(items[p])]
      invariant forall h :: h in hashToIndex ==> hashToIndex[h] < i && hash(items[hashToIndex[h]]) == h
      invariant forall p :: 0 <= p < i ==> slots[p] == if hashToIndex[hash(items[p])] == p then items[p] else Absent
    {
      var h := hash(items[i]);
      if h in hashToIndex {
        slots := slots[hashToIndex[h] := Absent];
      }
      hashToIndex := hashToIndex[h := i];
      slots := slots + [items[i]];
    }
    forall p | 0 <= p < |items|
      ensures slots[p] == if LastAt(items, hash, p) then items[p] else Absent
    {
      var q := hashToIndex[hash(items[p])];
      if q != p {
        assert p < q && hash(items[q]) == hash(items[p]);
      }
    }
    SlotsAreLast(items, hash, slots);
    kept := NonNull(slots);
  }

  lemma {:induction false} LastMembers<T>(items: seq<T>, key: T -> string, x: T)
    ensures x in LastOccurrences(items, key) ==> x in items
  {
    if items != [] {
      LastMembers(items[1..], key, x);
    }
  }

  lemma {:induction false} NonNullIff<T>(items: seq<Item<T>>)
    ensures |NonNull(items)| <= |items|
    ensures NonNull(items) == items <==> Absent !in items
  {
    if items != [] {
      NonNullIff(items[1..]);
      assert items == [items[0]] + items[1..];
      if items[0].Absent? {
        assert |NonNull(items)| < |items|;
      }
    }
  }

  /** An item whose key no other item has is its own last occurrence. */
  lemma {:induction false} LoneKeySurvives<T>(items: seq<T>, key: T -> string, x: T)
    requires x in items
    requires forall i :: 0 <= i < |items| && key(items[i]) == key(x) ==> items[i] == x
    ensures x in LastOccurrences(items, key)
  {
    var head, rest := items[0], items[1..];
    if x in rest {
      forall i | 0 <= i < |rest| && key(rest[i]) == key(x)
        ensures rest[i] == x
      {
        assert rest[i] == items[i + 1];
      }
      LoneKeySurvives(rest, key, x);
    } else {
      forall i | 0 <= i < |rest|
        ensures key(rest[i]) != key(x)
      {
        assert rest[i] == items[i + 1];
      }
    }
  }

  /**
   * The slot scheme gives the last occurrences exactly when no item is null: a null item is
   * taken for a vacated slot and dropped. (A null hashes apart from every value.)
   */
  lemma {:induction false} SlotsKeepLastIff<T>(items: seq<Item<T>>, hash: Item<T> -> string)
    requires forall x: Item<T> :: hash(x) == hash(Absent) ==> x == Absent
    ensures NonNull(LastOccurrences(items, hash)) == LastOccurrences(items, hash) <==> Absent !in items
  {
    NonNullIff(LastOccurrences(items, hash));
    LastMembers(items, hash, Absent);
    if Absent in items {
      LoneKeySurvives(items, hash, Absent);
    }
  }

  // ---- by an id field: an insertion-ordered map ----

  function WithId<T>(items: seq<T>, id: T -> Option<string>): seq<T> {
    if items == [] then []
    else WithId(items[..|items| - 1], id) + if id(items[|items| - 1]).Some? then [items[|items| - 1]] else []
  }

  function IdKey<T>(id: T -> Option<string>): T -> string {
    x => if id(x).Some? then id(x).value else ""
  }

  /** Position of key k among items whose keys differ, or |items|. */
  function PositionOf<T>(items: seq<T>, key: T -> string, k: string): (p: nat)
    ensures p <= |items| && (p < |items| ==> key(items[p]) == k) && (forall i :: 0 <= i < p ==> key(items[i]) != k)
  {
    if items == [] || key(items[0]) == k then 0 else 1 + PositionOf(items[1..], key, k)
  }

  /** Map.set on an existing key replaces the value and keeps the place. */
  function Replaced<T>(items: seq<T>, key: T -> string, x: T): seq<T> {
    var p := PositionOf(items, key, key(x));
    if p < |items| then items[p := x] else items + [x]
  }

  /** The values of the map after keeping last: each key's last item, in the place of its first. */
  function LastInFirstPlace<T>(items: seq<T>, key: T -> string): seq<T> {
    if items == [] then [] else Replaced(LastInFirstPlace(items[..|items| - 1], key), key, items[|items| - 1])
  }

  method ById<T>(items: seq<T>, id: T -> Option<string>, keepLast: bool) returns (kept: seq<T>)
    ensures !keepLast ==> kept == FirstOccurrences(WithId(items, id), IdKey(id))
    ensures keepLast ==> kept == LastInFirstPlace(WithId(items, id), IdKey(id))
  {
    kept := [];
    var key := IdKey(id);
    ghost var used: seq<T> := [];
    for i := 0 to |items|
      invariant used == WithId(items[..i], id)
      invariant !keepLast ==> kept == FirstOccurrences(used, key)
      invariant keepLast ==> kept == LastInFirstPlace(used, key)
    {
      var item := items[i];
      assert items[..i + 1][..i] == items[..i];
      if id(item).Some? {
        assert (used + [item])[..|used|] == used;
        var p := PositionOf(kept, key, id(item).value);
        if !keepLast {
          FirstKeepsOnePerKey(used, key, key(item));
        }
        if p == |kept| {
          assert !HasKey(kept, key, key(item));
          kept := kept + [item];
        } else {
          assert HasKey(kept, key, key(item));
          if keepLast {
            kept := kept[p := item];
          }
        }
        used := used + [item];
      }
    }
    assert items[..|items|] == items;
  }

  /** Both id modes list the same keys in the same places; keeping last only changes the values. */
  lemma {:induction false} SamePlaces<T>(items: seq<T>, key: T -> string)
    ensures var f, l := FirstOccurrences(items, key), LastInFirstPlace(items, key);
            |f| == |l| && forall i :: 0 <= i < |f| ==> key(f[i]) == key(l[i])
  {
    if items != [] {
      var front, last := items[..|items| - 1], items[|items| - 1];
      SamePlaces(front, key);
      FirstKeepsOnePerKey(front, key, key(last));
      var l := LastInFirstPlace(front, key);
      var p := PositionOf(l, key, key(last));
      if p < |l| {
        assert key(FirstOccurrences(front, key)[p]) == key(last);
        assert HasKey(FirstOccurrences(front, key), key, key(last));
      } else {
        assert !HasKey(FirstOccurrences(front, key), key, key(last));
      }
    }
  }

  /** And the values are the last occurrences, rearranged. */
  lemma {:induction false} LastInFirstPlaceIsLast<T>(items: seq<T>, key: T -> string, x: T)
    ensures x in LastInFirstPlace(items, key) <==> x in LastOccurrences(items, key)
  {
    if items != [] {
      var front, last := items[..|items| - 1], items[|items| - 1];
      assert items == front + [last];
      LastInFirstPlaceIsLast(front, key, x);
      LastOfSnoc(front, key, last);
      SamePlaces(front, key);
      FirstKeepsOnePerKey(front, key, key(last));
      DroppingMembers(LastOccurrences(front, key), key, key(last), x);
      ReplacedMembers(LastInFirstPlace(front, key), key, last, x);
    }
  }

  lemma {:induction false} DroppingMembers<T>(items: seq<T>, key: T -> string, k: string, x: T)
    ensures x in Dropping(items, key, k) <==> x in items && key(x) != k
  {
    if items != [] {
      DroppingMembers(items[1..], key, k, x);
    }
  }

  lemma ReplacedMembers<T>(items: seq<T>, key: T -> string, y: T, x: T)
    requires KeysDiffer(items, key)
    ensures x in Replaced(items, key, y) <==> x == y || (x in items && key(x) != key(y))
  {
    var r, p := Replaced(items, key, y), PositionOf(items, key, key(y));
    if x in items && key(x) != key(y) {
      var i :| 0 <= i < |items| && items[i] == x;
      assert r[i] == x;
    }
    if x == y {
      assert r[if p < |items| then p else |items|] == y;
    }
    if x in r && x != y {
      var i :| 0 <= i < |r| && r[i] == x;
      assert i < |items| && items[i] == x && i != p;
    }
  }

  lemma {:induction false} PlacesOfDistinct<T>(items: seq<T>, key: T -> string)
    requires KeysDiffer(items, key)
    ensures LastInFirstPlace(items, key) == items
  {
    if items != [] {
      var front, last := items[..|items| - 1], items[|items| - 1];
      PlacesOfDistinct(front, key);
    }
  }

  lemma {:induction false} NonNullOfPresent<T>(items: seq<Item<T>>)
    ensures Absent !in NonNull(items)
    ensures forall x :: x in NonNull(items) ==> x in items
  {
    if items != [] {
      NonNullOfPresent(items[1..]);
    }
  }

  lemma {:induction false} NonNullKeysDiffer<T>(items: seq<Item<T>>, hash: Item<T> -> string)
    requires KeysDiffer(items, hash)
    ensures KeysDiffer(NonNull(items), hash)
  {
    if items != [] {
      NonNullKeysDiffer(items[1..], hash);
      NonNullOfPresent(items[1..]);
      var rest := NonNull(items[1..]);
      forall j | 0 <= j < |rest|
        ensures hash(rest[j]) != hash(items[0])
      {
        assert rest[j] in items[1..];
      }
    }
  }

  ghost predicate AllHaveIds<T>(items: seq<T>, id: T -> Option<string>) {
    forall x :: x in items ==> id(x).Some?
  }

  lemma {:induction false} WithIdHasIds<T>(items: seq<T>, id: T -> Option<string>)
    ensures AllHaveIds(WithId(items, id), id)
  {
    if items != [] {
      WithIdHasIds(items[..|items| - 1], id);
    }
  }

  lemma {:induction false} WithIdOfIds<T>(items: seq<T>, id: T -> Option<string>)
    requires AllHaveIds(items, id)
    ensures WithId(items, id) == items
  {
    if items != [] {
      assert items[|items| - 1] in items;
      WithIdOfIds(items[..|items| - 1], id);
    }
  }

  lemma {:induction false} FirstMembers<T>(items: seq<T>, key: T -> string, x: T)
    ensures x in FirstOccurrences(items, key) ==> x in items
  {
    if items != [] {
      FirstMembers(items[..|items| - 1], key, x);
    }
  }

  lemma KeptHaveIds<T>(items: seq<T>, id: T -> Option<string>)
    requires AllHaveIds(items, id)
    ensures AllHaveIds(FirstOccurrences(items, IdKey(id)), id) && AllHaveIds(LastInFirstPlace(items, IdKey(id)), id)
  {
    var key := IdKey(id);
    forall x | x in FirstOccurrences(items, key)
      ensures id(x).Some?
    {
      FirstMembers(items, key, x);
    }
    forall x | x in LastInFirstPlace(items, key)
      ensures id(x).Some?
    {
      LastInFirstPlaceIsLast(items, key, x);
      LastMembers(items, key, x);
    }
  }

  /** By id, in both modes: deduplicating again changes nothing. */
  lemma ByIdIsIdempotent<T>(items: seq<T>, id: T -> Option<string>)
    ensures var key := IdKey(id);
            var f, l := FirstOccurrences(WithId(items, id), key), LastInFirstPlace(WithId(items, id), key);
            FirstOccurrences(WithId(f, id), key) == f && LastInFirstPlace(WithId(l, id), key) == l
  {
    var key, used := IdKey(id), WithId(items, id);
    var f, l := FirstOccurrences(used, key), LastInFirstPlace(used, key);
    WithIdHasIds(items, id);
    KeptHaveIds(used, id);
    WithIdOfIds(f, id);
    WithIdOfIds(l, id);
    SamePlaces(used, key);
    FirstKeepsOnePerKey(used, key, "");
    FirstOfDistinct(f, key);
    PlacesOfDistinct(l, key);
  }

  /** Nor does nulling slots a second time. */
  lemma SlotsAreIdempotent<T>(items: seq<Item<T>>, hash: Item<T> -> string)
    ensures var l := NonNull(LastOccurrences(items, hash)); NonNull(LastOccurrences(l, hash)) == l
  {
    var last := LastOccurrences(items, hash);
    LastKeepsOnePerKey(items, hash, "");
    NonNullKeysDiffer(last, hash);
    NonNullOfPresent(last);
    LastOfDistinct(NonNull(last), hash);
    NonNullIff(NonNull(last));
  }

  // ---- which items are considered, and which of them stay ----

  function HasId<T>(id: T -> Option<string>): T -> bool {
    x => id(x).Some?
  }

  lemma WithIdMore<T>(front: seq<T>, last: T, id: T -> Option<string>)
    ensures WithId(front + [last], id) == if HasId(id)(last) then WithId(front, id) + [last] else WithId(front, id)
  {
    assert (front + [last])[..|front|] == front;
  }

  /** By id, items without one are dropped and the others keep their order. */
  lemma {:induction false} WithIdSelects<T(!new)>(items: seq<T>, id: T -> Option<string>)
    ensures Selects(items, HasId(id), WithId(items, id))
    ensures forall x :: HasId(id)(x) <==> id(x) != None
  {
    if items == [] {
      SelectsNone(HasId(id));
    } else {
      var front, last := items[..|items| - 1], items[|items| - 1];
      assert items == front + [last];
      WithIdSelects(front, id);
      WithIdMore(front, last, id);
      SelectsMore(front, HasId(id), WithId(front, id), last);
    }
  }

  /** Filtering out the nulls drops each null and nothing else, and keeps the order. */
  lemma {:induction false} NonNullConcat<T>(a: seq<Item<T>>, b: seq<Item<T>>)
    ensures NonNull(a + b) == NonNull(a) + NonNull(b)
  {
    if a == [] {
      assert a + b == b;
    } else {
      NonNullConcat(a[1..], b);
      assert (a + b)[1..] == a[1..] + b;
    }
  }

  lemma NonNullOfOne<T>(x: Item<T>)
    ensures NonNull([x]) == match x case Absent => [] case Present(v) => [Present(v)]
  {
    assert [x][1..] == [];
  }

  /** The places of the items that have no earlier, or no later, item of their key. */
  ghost predicate FirstPlaces<T>(items: seq<T>, key: T -> string, at: seq<nat>) {
    forall k: nat :: k < |items| ==> (k in at <==> !HasKey(items[..k], key, key(items[k])))
  }

  ghost predicate LastPlaces<T>(items: seq<T>, key: T -> string, at: seq<nat>) {
    forall k: nat :: k < |items| ==> (k in at <==> !HasKey(items[k + 1..], key, key(items[k])))
  }

  lemma FirstPlacesMore<T>(front: seq<T>, x: T, key: T -> string, at: seq<nat>)
    requires FirstPlaces(front, key, at) && forall i :: 0 <= i < |at| ==> at[i] < |front|
    ensures FirstPlaces(front + [x], key, if HasKey(front, key, key(x)) then at else at + [|front|])
  {
    var items, n := front + [x], |front|;
    var more := if HasKey(front, key, key(x)) then at else at + [n];
    forall k: nat | k < |items|
      ensures k in more <==> !HasKey(items[..k], key, key(items[k]))
    {
      if k < n {
        assert items[..k] == front[..k];
        assert k in more <==> k in at;
      } else {
        assert items[..n] == front;
      }
    }
  }

  /** First occurrences are the items without an earlier one of their key, in place. */
  lemma {:induction false} FirstAreFirst<T(!new)>(items: seq<T>, key: T -> string) returns (at: seq<nat>)
    ensures Increasing(at) && ReadsAt(items, FirstOccurrences(items, key), at) && FirstPlaces(items, key, at)
  {
    if items == [] {
      at := [];
    } else {
      var front, x := items[..|items| - 1], items[|items| - 1];
      assert items == front + [x];
      at := FirstAreFirst(front, key);
      FirstPlacesMore(front, x, key, at);
      ReadsMore(front, FirstOccurrences(front, key), at, x);
      at := if HasKey(front, key, key(x)) then at else at + [|front|];
    }
  }

  lemma LastPlacesMore<T>(x: T, rest: seq<T>, key: T -> string, at: seq<nat>)
    requires LastPlaces(rest, key, at)
    ensures LastPlaces([x] + rest, key, (if HasKey(rest, key, key(x)) then [] else [0]) + Shifted(at))
  {
    var items := [x] + rest;
    var head: seq<nat> := if HasKey(rest, key, key(x)) then [] else [0];
    forall k: nat | k < |items|
      ensures k in head + Shifted(at) <==> !HasKey(items[k + 1..], key, key(items[k]))
    {
      if k > 0 {
        ShiftedMembers(at, k - 1);
        assert items[k + 1..] == rest[k..] && rest[k - 1] == items[k];
      } else {
        ShiftedMembers(at, 0);
        assert items[1..] == rest;
      }
    }
  }

  /** Last occurrences are the items without a later one of their key, in place. */
  lemma {:induction false} LastAreLast<T(!new)>(items: seq<T>, key: T -> string) returns (at: seq<nat>)
    ensures Increasing(at) && ReadsAt(items, LastOccurrences(items, key), at) && LastPlaces(items, key, at)
  {
    if items == [] {
      at := [];
    } else {
      var x, rest := items[0], items[1..];
      assert items == [x] + rest;
      var after := LastAreLast(rest, key);
      LastPlacesMore(x, rest, key, after);
      ReadsBefore(rest, LastOccurrences(rest, key), after, x);
      assert [] + Shifted(after) == Shifted(after);
      at := (if HasKey(rest, key, key(x)) then [] else [0]) + Shifted(after);
    }
  }
}
