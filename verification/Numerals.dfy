/** Positional numerals, as JavaScript's toString, padStart and parseInt produce and read them. */
module Numerals {
  const DIGITS := "0123456789abcdef"

  type Radix = b: int | 2 <= b <= 16 witness 10

  predicate IsDigit(c: char, base: Radix) {
    c in DIGITS[..base]
  }

  ghost predicate IsNumeral(s: string, base: Radix) {
    forall i :: 0 <= i < |s| ==> IsDigit(s[i], base)
  }

  function DigitValue(c: char): nat {
    if '0' <= c <= '9' then c as int - '0' as int
    else if 'a' <= c <= 'f' then c as int - 'a' as int + 10
    else 0
  }

  /** n.toString(base) for a natural number: no leading zero, "0" for zero. */
  function ToRadix(n: nat, base: Radix): string {
    if n < base then [DIGITS[n]] else ToRadix(n / base, base) + [DIGITS[n % base]]
  }

  function Zeros(n: nat): string {
    if n == 0 then "" else "0" + Zeros(n - 1)
  }

  function PadStart(s: string, width: nat): string {
    if |s| < width then Zeros(width - |s|) + s else s
  }

  /** The number a numeral denotes. */
  function Parse(s: string, base: Radix): nat {
    if s == "" then 0 else Parse(s[..|s| - 1], base) * base + DigitValue(s[|s| - 1])
  }

  function Power(base: nat, n: nat): nat {
    if n == 0 then 1 else base * Power(base, n - 1)
  }

  lemma DigitRoundTrip(d: nat, base: Radix)
    requires d < base
    ensures DigitValue(DIGITS[d]) == d && IsDigit(DIGITS[d], base)
  {
    assert DIGITS[..base][d] == DIGITS[d];
    assert d == 0 || d == 1 || d == 2 || d == 3 || d == 4 || d == 5 || d == 6 || d == 7
        || d == 8 || d == 9 || d == 10 || d == 11 || d == 12 || d == 13 || d == 14 || d == 15;
  }

  lemma DivMod(n: nat, base: Radix)
    ensures n / base * base + n % base == n
  {
  }

  lemma ParseSnoc(s: string, d: nat, base: Radix)
    requires d < base
    ensures Parse(s + [DIGITS[d]], base) == Parse(s, base) * base + d
    ensures IsNumeral(s, base) ==> IsNumeral(s + [DIGITS[d]], base)
  {
    assert (s + [DIGITS[d]])[..|s|] == s;
    DigitRoundTrip(d, base);
  }

  lemma {:induction false} ParseToRadix(n: nat, base: Radix)
    ensures Parse(ToRadix(n, base), base) == n
    ensures IsNumeral(ToRadix(n, base), base) && ToRadix(n, base) != ""
  {
    if n < base {
      ParseSnoc("", n, base);
      assert "" + [DIGITS[n]] == [DIGITS[n]];
    } else {
      ParseToRadix(n / base, base);
      ParseSnoc(ToRadix(n / base, base), n % base, base);
      DivMod(n, base);
    }
  }

  lemma {:induction false} ParseZeros(k: nat, s: string, base: Radix)
    ensures Parse(Zeros(k) + s, base) == Parse(s, base)
    decreases |s|, k
  {
    var z := Zeros(k) + s;
    if s != "" {
      ParseZeros(k, s[..|s| - 1], base);
      assert z[..|z| - 1] == Zeros(k) + s[..|s| - 1];
    } else if k > 0 {
      assert Zeros(k) + "" == Zeros(k);
      ZerosSnoc(k - 1);
      assert Zeros(k)[..k - 1] == Zeros(k - 1);
      ParseZeros(k - 1, "", base);
      assert Zeros(k - 1) + "" == Zeros(k - 1);
    }
  }

  lemma {:induction false} ZerosSnoc(k: nat)
    ensures |Zeros(k)| == k && Zeros(k + 1) == Zeros(k) + "0"
  {
    if k > 0 {
      ZerosSnoc(k - 1);
      assert "0" + (Zeros(k - 1) + "0") == ("0" + Zeros(k - 1)) + "0";
    }
  }

  lemma {:induction false} ZerosAreDigits(k: nat, base: Radix)
    ensures |Zeros(k)| == k && IsNumeral(Zeros(k), base)
  {
    if k > 0 {
      ZerosAreDigits(k - 1, base);
      DigitRoundTrip(0, base);
    }
  }

  /** A padded numeral is still a numeral and still denotes the same number. */
  lemma {:induction false} ParsePadded(n: nat, width: nat, base: Radix)
    ensures Parse(PadStart(ToRadix(n, base), width), base) == n
    ensures IsNumeral(PadStart(ToRadix(n, base), width), base)
    ensures |PadStart(ToRadix(n, base), width)| >= width
  {
    var s := ToRadix(n, base);
    ParseToRadix(n, base);
    if |s| < width {
      ParseZeros(width - |s|, s, base);
      ZerosAreDigits(width - |s|, base);
    }
  }

  lemma {:induction false} HexLength(n: nat, width: nat)
    requires 0 < width && n < Power(16, width)
    ensures |ToRadix(n, 16)| <= width
  {
    if n >= 16 {
      HexLength(n / 16, width - 1);
    }
  }
}
