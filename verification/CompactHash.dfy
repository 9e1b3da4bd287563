/**
 * The djb2 fingerprint that src/sync.ts stores in a baseline: a loop over signed
 * 32-bit values, printed as eight hexadecimal digits.
 */
module CompactHash {
  import opened Numerals

  /** A UTF-16 code unit, as charCodeAt returns it. */
  type CodeUnit = c: int | 0 <= c < 0x1_0000

  const TWO32 := 0x1_0000_0000
  const TWO31 := 0x8000_0000
  /** Integers up to this magnitude are exact in a double. */
  const MAX_EXACT := 0x20_0000_0000_0000

  /** The ToInt32 conversion that JavaScript's << and & apply to their operands. */
  function ToInt32(x: int): (r: int) {
    (x + TWO31) % TWO32 - TWO31
  }

  /** (hash << 5) + hash + code, before it is cut to 32 bits. */
  function Sum(hash: int, code: CodeUnit): int {
    ToInt32(hash * 32) + hash + code
  }

  /** One turn of the loop body. */
  function Mix(hash: int, code: CodeUnit): int {
    ToInt32(Sum(hash, code))
  }

  /** The loop as a left fold. */
  function Djb2Of(text: seq<CodeUnit>): int {
    if text == [] then 5381 else Mix(Djb2Of(text[..|text| - 1]), text[|text| - 1])
  }

  function CompactHashOf(text: seq<CodeUnit>): string {
    PadStart(ToRadix(Djb2Of(text) % TWO32, 16), 8)
  }

  /** The closed form: 5381 * 33^n + sum of text[i] * 33^(n-1-i). */
  ghost function Polynomial(text: seq<CodeUnit>): nat {
    5381 * Power(33, |text|) + Weighted(text, 0)
  }

  ghost function Weighted(text: seq<CodeUnit>, i: nat): nat
    requires i <= |text|
    decreases |text| - i
  {
    if i == |text| then 0 else text[i] * Power(33, |text| - 1 - i) + Weighted(text, i + 1)
  }

  method CompactHash(text: seq<CodeUnit>) returns (digits: string)
    ensures digits == CompactHashOf(text)
    ensures forall i :: 0 <= i < |text| ==> -MAX_EXACT <= Sum(Djb2Of(text[..i]), text[i]) <= MAX_EXACT
  {
    var hash := 5381;
    var i := 0;
    while i < |text|
      invariant 0 <= i <= |text|
      invariant hash == Djb2Of(text[..i])
      invariant -TWO31 <= hash < TWO31
      invariant forall j :: 0 <= j < i ==> -MAX_EXACT <= Sum(Djb2Of(text[..j]), text[j]) <= MAX_EXACT
    {
      hash := ToInt32(Sum(hash, text[i]));
      assert text[..i + 1][..i] == text[..i];
      i := i + 1;
    }
    assert text[..|text|] == text;
    digits := PadStart(ToRadix(hash % TWO32, 16), 8);
  }

  lemma {:induction false} WeightedSnoc(text: seq<CodeUnit>, i: nat)
    requires text != [] && i < |text|
    ensures Weighted(text, i) == 33 * Weighted(text[..|text| - 1], i) + text[|text| - 1]
    decreases |text| - i
  {
    var front := text[..|text| - 1];
    if i == |front| {
      assert Power(33, 0) == 1;
      assert Weighted(text, i + 1) == 0;
    } else {
      WeightedSnoc(text, i + 1);
      var p := Power(33, |front| - 1 - i);
      assert Power(33, |text| - 1 - i) == 33 * p;
      assert text[i] * (33 * p) == 33 * (text[i] * p);
    }
  }

  /** Numbers a whole number of 2^32 apart have the same residue. */
  lemma Congruent(a: int, b: int, k: int)
    requires a == b + k * TWO32
    ensures a % TWO32 == b % TWO32
  {
  }

  lemma Apart(a: int, b: int) returns (k: int)
    requires a % TWO32 == b % TWO32
    ensures a == b + k * TWO32
  {
    k := a / TWO32 - b / TWO32;
  }

  lemma ToInt32Apart(x: int) returns (k: int)
    ensures ToInt32(x) == x + k * TWO32
  {
    k := -((x + TWO31) / TWO32);
  }

  lemma CongruentStep(h: int, p: int, c: CodeUnit)
    requires h % TWO32 == p % TWO32
    ensures Mix(h, c) % TWO32 == (33 * p + c) % TWO32
  {
    var j := Apart(h, p);
    var k := ToInt32Apart(h * 32);
    var l := ToInt32Apart(Sum(h, c));
    Congruent(Mix(h, c), 33 * p + c, 33 * j + k + l);
  }

  lemma PolynomialSnoc(text: seq<CodeUnit>)
    requires text != []
    ensures Polynomial(text) == 33 * Polynomial(text[..|text| - 1]) + text[|text| - 1]
  {
    WeightedSnoc(text, 0);
    assert Power(33, |text|) == 33 * Power(33, |text| - 1);
  }

  lemma Djb2Fits(text: seq<CodeUnit>)
    ensures -TWO31 <= Djb2Of(text) < TWO31
  {
  }

  /** The 32-bit loop computes the polynomial modulo 2^32, for every string. */
  lemma {:induction false} Djb2IsPolynomial(text: seq<CodeUnit>)
    ensures Djb2Of(text) % TWO32 == Polynomial(text) % TWO32
    ensures -TWO31 <= Djb2Of(text) < TWO31
  {
    Djb2Fits(text);
    if text == [] {
      assert Power(33, 0) == 1;
    } else {
      var front := text[..|text| - 1];
      Djb2IsPolynomial(front);
      PolynomialSnoc(text);
      CongruentStep(Djb2Of(front), Polynomial(front), text[|text| - 1]);
    }
  }

  lemma EightHexDigits()
    ensures Power(16, 8) == TWO32
  {
    assert Power(16, 4) == 0x1_0000;
  }

  lemma PrintedWord(u: nat)
    requires u < TWO32
    ensures |PadStart(ToRadix(u, 16), 8)| == 8
    ensures IsNumeral(PadStart(ToRadix(u, 16), 8), 16)
    ensures Parse(PadStart(ToRadix(u, 16), 8), 16) == u
  {
    ParsePadded(u, 8, 16);
    EightHexDigits();
    HexLength(u, 8);
  }

  /** Every fingerprint is eight hexadecimal digits that spell the polynomial modulo 2^32. */
  lemma HashShape(text: seq<CodeUnit>)
    ensures |CompactHashOf(text)| == 8
    ensures IsNumeral(CompactHashOf(text), 16)
    ensures Parse(CompactHashOf(text), 16) == Polynomial(text) % TWO32
  {
    Djb2IsPolynomial(text);
    PrintedWord(Djb2Of(text) % TWO32);
  }

  /** Two strings share a fingerprint exactly when their polynomials agree modulo 2^32. */
  lemma HashEqualIff(a: seq<CodeUnit>, b: seq<CodeUnit>)
    ensures CompactHashOf(a) == CompactHashOf(b) <==> Polynomial(a) % TWO32 == Polynomial(b) % TWO32
  {
    HashShape(a);
    HashShape(b);
    Djb2IsPolynomial(a);
    Djb2IsPolynomial(b);
  }

  /** So the fingerprint is not injective: "Az" and "BY" collide. */
  lemma HashCollision()
    ensures CompactHashOf([65, 122]) == CompactHashOf([66, 89])
  {
    var a: seq<CodeUnit>, b: seq<CodeUnit> := [65, 122], [66, 89];
    calc {
      Polynomial(a);
      5381 * Power(33, 2) + (65 * Power(33, 1) + (122 * Power(33, 0) + Weighted(a, 2)));
      { assert Power(33, 0) == 1 && Power(33, 1) == 33; }
      5381 * Power(33, 2) + (66 * Power(33, 1) + (89 * Power(33, 0) + Weighted(b, 2)));
      Polynomial(b);
    }
    HashEqualIff(a, b);
  }
}
