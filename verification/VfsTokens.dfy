/** Tokenizing a command line in apps/cli/vfs.ts. */
module VfsTokens {
  import opened Outcomes

  /** Position of c in s, or |s|. */
  function IndexOf(s: string, c: char): (n: nat)
    ensures n <= |s| && (n < |s| ==> s[n] == c) && c !in s[..n]
  {
    if s == "" || s[0] == c then 0 else 1 + IndexOf(s[1..], c)
  }

  predicate IsQuote(c: char) {
    c == '"' || c == '\''
  }

  function Lex(s: string): seq<string>
    decreases |s|
  {
    if s == "" then []
    else if s[0] == ' ' then Lex(s[1..])
    else if IsQuote(s[0]) then
      var n := IndexOf(s[1..], s[0]);
      [s[1..1 + n]] + Lex(if n + 1 < |s| then s[n + 2..] else "")
    else
      var n := IndexOf(s, ' ');
      [s[..n]] + Lex(s[n..])
  }

  datatype Flag = Set | Value(text: string)
  datatype Command = Command(command: string, args: seq<string>, flags: map<string, Flag>)

  predicate IsLongFlag(t: string) {
    "--" <= t
  }

  predicate IsShortFlag(t: string) {
    |t| == 2 && t[0] == '-' && t[1] != '-'
  }

  predicate IsFlag(t: string) {
    IsLongFlag(t) || IsShortFlag(t)
  }

  function FlagOf(t: string): (string, Flag)
    requires IsFlag(t)
  {
    if IsShortFlag(t) then (t[1..], Set)
    else
      var eq := IndexOf(t, '=');
      if eq < |t| then (t[2..eq], Value(t[eq + 1..])) else (t[2..], Set)
  }

  /** Sorting the tokens after the command word into arguments and flags; a later flag wins. */
  function Classify(command: string, tokens: seq<string>): Command {
    if tokens == [] then Command(command, [], map[])
    else
      var before, t := Classify(command, tokens[..|tokens| - 1]), tokens[|tokens| - 1];
      if IsFlag(t) then before.(flags := before.flags[FlagOf(t).0 := FlagOf(t).1])
      else before.(args := before.args + [t])
  }

  function CommandOf(tokens: seq<string>): Command {
    if tokens == [] then Command("", [], map[]) else Classify(tokens[0], tokens[1..])
  }

  lemma IndexOfFrom(s: string, c: char, i: nat)
    requires i < |s| && s[i] != c
    ensures IndexOf(s[i..], c) == 1 + IndexOf(s[i + 1..], c)
  {
    assert s[i..][1..] == s[i + 1..];
  }

  method Tokenize(input: string) returns (result: Command)
    ensures result == CommandOf(Lex(input))
  {
    var tokens: seq<string> := [];
    var i := SkipSpaces(input, 0);
    assert input[0..] == input;
    while i < |input|
      invariant 0 <= i <= |input| && (i < |input| ==> input[i] != ' ')
      invariant tokens + Lex(input[i..]) == Lex(input)
      decreases |input| - i
    {
      var token: string, next: nat;
      if IsQuote(input[i]) {
        token, next := ReadQuoted(input, i);
      } else {
        token, next := ReadBare(input, i);
      }
      Shift(tokens, token, Lex(input[next..]));
      tokens := tokens + [token];
      i := SkipSpaces(input, next);
    }
    assert input[i..] == "" && Lex("") == [];
    assert tokens + [] == tokens;
    result := SortTokens(tokens);
  }

  lemma Shift(tokens: seq<string>, token: string, rest: seq<string>)
    ensures tokens + ([token] + rest) == (tokens + [token]) + rest
  {
  }

  method SkipSpaces(input: string, start: nat) returns (i: nat)
    requires start <= |input|
    ensures start <= i <= |input| && (i < |input| ==> input[i] != ' ')
    ensures Lex(input[i..]) == Lex(input[start..])
  {
    i := start;
    while i < |input| && input[i] == ' '
      invariant start <= i <= |input| && forall j :: start <= j < i ==> input[j] == ' '
    {
      i := i + 1;
    }
    LexSpaces(input, start, i);
  }

  lemma {:induction false} LexSpaces(input: string, start: nat, i: nat)
    requires start <= i <= |input| && forall j :: start <= j < i ==> input[j] == ' '
    ensures Lex(input[i..]) == Lex(input[start..])
    decreases i - start
  {
    if start < i {
      LexSpaces(input, start + 1, i);
      assert input[start..][1..] == input[start + 1..];
    }
  }

  lemma ClosedSlice(input: string, start: nat, end: nat)
    requires start < end < |input| && input[end] == input[start]
    ensures input[start..] == [input[start]] + input[start + 1..end] + [input[start]] + input[end + 1..]
  {
  }

  lemma OpenSlice(input: string, start: nat)
    requires start < |input|
    ensures input[start..] == [input[start]] + input[start + 1..]
  {
  }

  /** A quoted token reaches to the next quote of its kind, or to the end. */
  lemma QuotedToken(input: string, start: nat, end: nat, next: nat)
    requires start < end <= |input| && IsQuote(input[start])
    requires input[start] !in input[start + 1..end] && (end < |input| ==> input[end] == input[start])
    requires next == if end < |input| then end + 1 else end
    ensures Lex(input[start..]) == [input[start + 1..end]] + Lex(input[next..])
  {
    if end < |input| {
      ClosedSlice(input, start, end);
      LexQuoted(input[start + 1..end], input[start], input[next..]);
    } else {
      OpenSlice(input, start);
      LexUnclosed(input[start + 1..], input[start]);
      assert input[start + 1..] == input[start + 1..end] && input[next..] == "";
    }
  }

  method ReadQuoted(input: string, start: nat) returns (token: string, i: nat)
    requires start < |input| && IsQuote(input[start])
    ensures start < i <= |input| && Lex(input[start..]) == [token] + Lex(input[i..])
  {
    var quote := input[start];
    i := start + 1;
    token := "";
    while i < |input| && input[i] != quote
      invariant start < i <= |input| && token == input[start + 1..i] && quote !in token
    {
      token := token + [input[i]];
      i := i + 1;
    }
    ghost var end := i;
    if i < |input| {
      i := i + 1;
    }
    QuotedToken(input, start, end, i);
  }

  method ReadBare(input: string, start: nat) returns (token: string, i: nat)
    requires start < |input| && input[start] != ' ' && !IsQuote(input[start])
    ensures start < i <= |input| && Lex(input[start..]) == [token] + Lex(input[i..])
  {
    i := start;
    token := "";
    ghost var s := input[start..];
    ghost var n := IndexOf(s, ' ');
    while i < |input| && input[i] != ' '
      invariant start <= i <= |input| && token == input[start..i]
      invariant n == i - start + IndexOf(input[i..], ' ')
    {
      IndexOfFrom(input, ' ', i);
      token := token + [input[i]];
      i := i + 1;
    }
    assert n == i - start && s[..n] == token && s[n..] == input[i..];
  }

  method SortTokens(tokens: seq<string>) returns (result: Command)
    ensures result == CommandOf(tokens)
  {
    if |tokens| == 0 {
      return Command("", [], map[]);
    }
    var args: seq<string>, flags: map<string, Flag> := [], map[];
    var rest := tokens[1..];
    for j := 0 to |rest|
      invariant Command(tokens[0], args, flags) == Classify(tokens[0], rest[..j])
    {
      assert rest[..j + 1][..j] == rest[..j];
      var t := rest[j];
      if IsFlag(t) {
        flags := flags[FlagOf(t).0 := FlagOf(t).1];
      } else {
        args := args + [t];
      }
    }
    assert rest[..|rest|] == rest;
    result := Command(tokens[0], args, flags);
  }

  // ---- printing ----

  /** A token that needs no quotes. */
  predicate Bare(t: string) {
    t != "" && ' ' !in t && !IsQuote(t[0])
  }

  /** A token some quoting can carry: there is no escape, so it may not need both quotes at once. */
  predicate Printable(t: string) {
    Bare(t) || '"' !in t || '\'' !in t
  }

  function Quoted(t: string): string {
    if Bare(t) then t else if '"' !in t then "\"" + t + "\"" else "'" + t + "'"
  }

  function Print(tokens: seq<string>): string {
    if tokens == [] then ""
    else if |tokens| == 1 then Quoted(tokens[0])
    else Quoted(tokens[0]) + " " + Print(tokens[1..])
  }

  lemma {:induction false} IndexOfIn(a: string, c: char, b: string)
    requires c !in a && (b == "" || b[0] == c)
    ensures IndexOf(a + b, c) == |a|
  {
    if a != "" {
      assert a[0] in a;
      assert (a + b)[1..] == a[1..] + b;
      IndexOfIn(a[1..], c, b);
    }
  }

  lemma LexQuoted(t: string, q: char, rest: string)
    requires IsQuote(q) && q !in t
    ensures Lex([q] + t + [q] + rest) == [t] + Lex(rest)
  {
    var s := [q] + t + [q] + rest;
    assert s[1..] == t + ([q] + rest);
    IndexOfIn(t, q, [q] + rest);
    assert s[1..1 + |t|] == t && s[|t| + 2..] == rest;
  }

  lemma LexUnclosed(t: string, q: char)
    requires IsQuote(q) && q !in t
    ensures Lex([q] + t) == [t] + Lex("")
  {
    var s := [q] + t;
    assert s[1..] == t + "";
    IndexOfIn(t, q, "");
    assert s[1..1 + |t|] == t;
  }

  lemma LexBare(t: string, rest: string)
    requires Bare(t) && (rest == "" || rest[0] == ' ')
    ensures Lex(t + rest) == [t] + Lex(rest)
  {
    assert t[0] in t;
    IndexOfIn(t, ' ', rest);
    assert (t + rest)[..|t|] == t && (t + rest)[|t|..] == rest;
  }

  lemma LexPrinted(t: string, rest: string)
    requires Printable(t) && (rest == "" || rest[0] == ' ')
    ensures Lex(Quoted(t) + rest) == [t] + Lex(rest)
  {
    if Bare(t) {
      LexBare(t, rest);
    } else if '"' !in t {
      LexQuoted(t, '"', rest);
      assert "\"" + t + "\"" + rest == ['"'] + t + ['"'] + rest;
    } else {
      LexQuoted(t, '\'', rest);
      assert "'" + t + "'" + rest == ['\''] + t + ['\''] + rest;
    }
  }

  lemma LexSpaced(t: string, more: string)
    requires Printable(t)
    ensures Lex(Quoted(t) + " " + more) == [t] + Lex(more)
  {
    var rest := " " + more;
    LexPrinted(t, rest);
    assert rest[1..] == more;
    assert Quoted(t) + " " + more == Quoted(t) + rest;
  }

  lemma LexAlone(t: string)
    requires Printable(t)
    ensures Lex(Quoted(t)) == [t]
  {
    LexPrinted(t, "");
    assert Quoted(t) + "" == Quoted(t);
  }

  /** Printing a printable list with single spaces and tokenizing it gives the list back. */
  lemma {:induction false} LexPrint(tokens: seq<string>)
    requires forall t :: t in tokens ==> Printable(t)
    ensures Lex(Print(tokens)) == tokens
  {
    if tokens != [] {
      assert tokens[0] in tokens && tokens == [tokens[0]] + tokens[1..];
      if |tokens| == 1 {
        LexAlone(tokens[0]);
      } else {
        LexPrint(tokens[1..]);
        LexSpaced(tokens[0], Print(tokens[1..]));
      }
    }
  }

  /** The tokenizer never produces a token that could not be printed. */
  lemma {:induction false} LexIsPrintable(s: string)
    ensures forall t :: t in Lex(s) ==> Printable(t)
    decreases |s|
  {
    if s != "" {
      if s[0] == ' ' {
        LexIsPrintable(s[1..]);
      } else if IsQuote(s[0]) {
        var n := IndexOf(s[1..], s[0]);
        LexIsPrintable(if n + 1 < |s| then s[n + 2..] else "");
        assert s[1..][..n] == s[1..1 + n];
      } else {
        var n := IndexOf(s, ' ');
        LexIsPrintable(s[n..]);
      }
    }
  }

  /**
   * So a token list is what some command line means exactly when its tokens are printable, and
   * the printed line is read as the same command word, arguments and flags.
   */
  lemma CommandLinesAreThePrintable(tokens: seq<string>)
    ensures (exists s :: Lex(s) == tokens) <==> (forall t :: t in tokens ==> Printable(t))
    ensures (forall t :: t in tokens ==> Printable(t)) ==> CommandOf(Lex(Print(tokens))) == CommandOf(tokens)
  {
    if s :| Lex(s) == tokens {
      LexIsPrintable(s);
    }
    if forall t :: t in tokens ==> Printable(t) {
      LexPrint(tokens);
    }
  }

  /** The arguments are exactly the tokens that are no flags, in order. */
  function NotFlags(tokens: seq<string>): seq<string> {
    if tokens == [] then []
    else (if IsFlag(tokens[0]) then [] else [tokens[0]]) + NotFlags(tokens[1..])
  }

  lemma {:induction false} NotFlagsSnoc(tokens: seq<string>, t: string)
    ensures NotFlags(tokens + [t]) == NotFlags(tokens) + if IsFlag(t) then [] else [t]
  {
    if tokens == [] {
      assert tokens + [t] == [t] && [t][1..] == [];
    } else {
      assert (tokens + [t])[1..] == tokens[1..] + [t];
      NotFlagsSnoc(tokens[1..], t);
    }
  }

  lemma {:induction false} ArgsAreNotFlags(command: string, tokens: seq<string>)
    ensures Classify(command, tokens).args == NotFlags(tokens) && Classify(command, tokens).command == command
  {
    if tokens != [] {
      ArgsAreNotFlags(command, tokens[..|tokens| - 1]);
      NotFlagsSnoc(tokens[..|tokens| - 1], tokens[|tokens| - 1]);
      assert tokens == tokens[..|tokens| - 1] + [tokens[|tokens| - 1]];
    }
  }

  /** What the last token that sets flag k sets it to. */
  function LastSetting(tokens: seq<string>, k: string): Option<Flag> {
    if tokens == [] then None
    else
      var later := LastSetting(tokens[1..], k);
      if later.Some? then later
      else if IsFlag(tokens[0]) && FlagOf(tokens[0]).0 == k then Some(FlagOf(tokens[0]).1)
      else None
  }

  lemma {:induction false} LastSettingSnoc(tokens: seq<string>, t: string, k: string)
    ensures LastSetting(tokens + [t], k)
         == if IsFlag(t) && FlagOf(t).0 == k then Some(FlagOf(t).1) else LastSetting(tokens, k)
  {
    if tokens == [] {
      assert tokens + [t] == [t] && [t][1..] == [];
    } else {
      assert (tokens + [t])[1..] == tokens[1..] + [t];
      LastSettingSnoc(tokens[1..], t, k);
    }
  }

  /** A flag is set exactly when some token sets it, and then as the last such token says. */
  lemma {:induction false} LastFlagWins(command: string, tokens: seq<string>, k: string)
    ensures var flags := Classify(command, tokens).flags;
            (if k in flags then Some(flags[k]) else None) == LastSetting(tokens, k)
  {
    if tokens != [] {
      LastFlagWins(command, tokens[..|tokens| - 1], k);
      LastSettingSnoc(tokens[..|tokens| - 1], tokens[|tokens| - 1], k);
      assert tokens == tokens[..|tokens| - 1] + [tokens[|tokens| - 1]];
    }
  }

  // ---- what a flag is ----

  /** A flag begins with two dashes, or is one dash and one more character. */
  lemma FlagsBeginWithDashes(t: string)
    ensures IsFlag(t) <==> |t| >= 2 && t[0] == '-' && (t[1] == '-' || |t| == 2)
  {
  }

  /** --name=value sets name to value, --name and -c set a name; only the first equals sign counts. */
  lemma FlagsSet(name: string, value: string, c: char)
    requires '=' !in name && c != '-'
    ensures var t := "--" + name + "=" + value; IsFlag(t) && FlagOf(t) == (name, Value(value))
    ensures var t := "--" + name; IsFlag(t) && FlagOf(t) == (name, Set)
    ensures var t := ['-', c]; IsFlag(t) && FlagOf(t) == ([c], Set)
  {
    var t, u := "--" + name + "=" + value, "--" + name;
    assert t == u + ("=" + value) && t[..2] == "--" && u[..2] == "--";
    IndexOfIn(u, '=', "=" + value);
    IndexOfIn(u, '=', "");
    assert u + "" == u;
    assert t[2..|u|] == name && t[|u| + 1..] == value && u[2..] == name;
  }
}
