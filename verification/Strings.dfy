/** Splitting and joining text at a separator, as JavaScript's split, join and filter(Boolean) do. */
module Strings {
  import opened Selection
  function Split(s: string, c: char): (parts: seq<string>)
    ensures parts != []
  {
    if s == "" then [""]
    else
      var rest := Split(s[1..], c);
      if s[0] == c then [""] + rest else [[s[0]] + rest[0]] + rest[1..]
  }

  function Join(parts: seq<string>, c: char): string {
    if parts == [] then ""
    else if |parts| == 1 then parts[0]
    else parts[0] + [c] + Join(parts[1..], c)
  }

  function NonEmpty(parts: seq<string>): seq<string> {
    if parts == [] then []
    else NonEmpty(parts[..|parts| - 1]) + if parts[|parts| - 1] == "" then [] else [parts[|parts| - 1]]
  }

  lemma SplitCons(h: char, s: string, c: char)
    ensures var rest := Split(s, c);
            Split([h] + s, c) == if h == c then [""] + rest else [[h] + rest[0]] + rest[1..]
  {
    assert ([h] + s)[1..] == s;
  }

  lemma {:induction false} SplitConcat(a: string, b: string, c: char)
    ensures Split(a + [c] + b, c) == Split(a, c) + Split(b, c)
  {
    if a == "" {
      assert a + [c] + b == [c] + b;
      SplitCons(c, b, c);
    } else {
      assert a + [c] + b == [a[0]] + (a[1..] + [c] + b) && a == [a[0]] + a[1..];
      SplitConcat(a[1..], b, c);
      SplitCons(a[0], a[1..] + [c] + b, c);
      SplitCons(a[0], a[1..], c);
    }
  }

  lemma {:induction false} SplitSolid(s: string, c: char)
    requires c !in s
    ensures Split(s, c) == [s]
  {
    if s != "" {
      assert s[0] in s;
      SplitSolid(s[1..], c);
      assert [s[0]] + s[1..] == s;
    }
  }

  /** Splitting undoes joining, for segments without the separator. */
  lemma {:induction false} SplitJoin(parts: seq<string>, c: char)
    requires parts != [] && forall p :: p in parts ==> c !in p
    ensures Split(Join(parts, c), c) == parts
  {
    assert parts[0] in parts;
    SplitSolid(parts[0], c);
    if |parts| > 1 {
      SplitJoin(parts[1..], c);
      SplitConcat(parts[0], Join(parts[1..], c), c);
      assert parts == [parts[0]] + parts[1..];
    } else {
      assert parts == [parts[0]];
    }
  }

  lemma {:induction false} SplitParts(s: string, c: char)
    ensures forall p :: p in Split(s, c) ==> c !in p
  {
    if s != "" {
      SplitParts(s[1..], c);
      var rest := Split(s[1..], c);
      assert rest[0] in rest && forall p :: p in rest[1..] ==> p in rest;
    }
  }

  lemma {:induction false} NonEmptyMembers(parts: seq<string>, p: string)
    ensures p in NonEmpty(parts) <==> p in parts && p != ""
  {
    if parts != [] {
      assert parts == parts[..|parts| - 1] + [parts[|parts| - 1]];
      NonEmptyMembers(parts[..|parts| - 1], p);
    }
  }

  lemma {:induction false} JoinEmpty(parts: seq<string>)
    requires "" !in parts
    ensures Join(parts, '/') == "" <==> parts == []
  {
    if parts != [] {
      assert parts[0] in parts;
    }
  }

  function IsFilled(): string -> bool {
    p => p != ""
  }

  lemma NonEmptyMore(front: seq<string>, last: string)
    ensures NonEmpty(front + [last]) == if IsFilled()(last) then NonEmpty(front) + [last] else NonEmpty(front)
  {
    assert (front + [last])[..|front|] == front;
  }

  /** filter(Boolean) leaves the parts that are not empty, in order. */
  lemma {:induction false} NonEmptySelects(parts: seq<string>)
    ensures Selects(parts, p => p != "", NonEmpty(parts))
  {
    if parts == [] {
      SelectsNone((p: string) => p != "");
    } else {
      var front, last := parts[..|parts| - 1], parts[|parts| - 1];
      assert parts == front + [last];
      NonEmptySelects(front);
      NonEmptyMore(front, last);
      SelectsMore(front, p => p != "", NonEmpty(front), last);
    }
  }
}
