/** Character classes, runs of characters and decimal formatting of integers,
    shared by the two pipelines. */
module Text {

  /** The ASCII decimal digits (the model's reading of the regex class `\d`). */
  predicate IsDigit(c: char) {
    '0' <= c <= '9'
  }

  /** Python's `str.isspace()`, which is what the regex class `\s` matches in a
      `str` pattern. */
  predicate IsSpace(c: char) {
    || ('\t' <= c <= '\r')
    || ('\U{1C}' <= c <= ' ')
    || c == '\U{85}' || c == '\U{A0}' || c == '\U{1680}'
    || ('\U{2000}' <= c <= '\U{200A}')
    || c == '\U{2028}' || c == '\U{2029}' || c == '\U{202F}' || c == '\U{205F}'
    || c == '\U{3000}'
  }

  predicate AllDigits(s: string) {
    forall i :: 0 <= i < |s| ==> IsDigit(s[i])
  }

  predicate AllSpaces(s: string) {
    forall i :: 0 <= i < |s| ==> IsSpace(s[i])
  }

  /** `lit` occurs in `s` starting at index `i`. */
  predicate LiteralAt(s: string, i: nat, lit: string) {
    i + |lit| <= |s| && s[i..i + |lit|] == lit
  }

  /** Length of the longest run of characters satisfying `p` that starts at
      index `i`: what a greedy `p+` or `p*` consumes. */
  function RunLength(s: string, i: nat, p: char -> bool): (n: nat)
    requires i <= |s|
    ensures i + n <= |s|
    decreases |s| - i
  {
    if i < |s| && p(s[i]) then 1 + RunLength(s, i + 1, p) else 0
  }

  /** The run is made of `p` characters and stops at the end or at a
      character that is not `p`. */
  lemma {:induction false} RunLengthRun(s: string, i: nat, p: char -> bool)
    requires i <= |s|
    ensures forall k :: i <= k < i + RunLength(s, i, p) ==> p(s[k])
    ensures i + RunLength(s, i, p) == |s| || !p(s[i + RunLength(s, i, p)])
    decreases |s| - i
  {
    if i < |s| && p(s[i]) {
      RunLengthRun(s, i + 1, p);
    }
  }

  /** A run is determined by its contents and by the character that stops it. */
  lemma {:induction false} RunLengthExact(s: string, i: nat, w: string, p: char -> bool)
    requires LiteralAt(s, i, w)
    requires forall k :: 0 <= k < |w| ==> p(w[k])
    requires i + |w| == |s| || !p(s[i + |w|])
    ensures RunLength(s, i, p) == |w|
    decreases |w|
  {
    if w != [] {
      assert s[i] == w[0];
      assert LiteralAt(s, i + 1, w[1..]) by {
        assert s[i + 1..i + |w|] == s[i..i + |w|][1..];
      }
      RunLengthExact(s, i + 1, w[1..], p);
    } else if i < |s| {
      assert !p(s[i]);
    }
  }

  function DigitChar(d: nat): (c: char)
    requires d < 10
    ensures IsDigit(c) && c as int - '0' as int == d
  {
    ('0' as int + d) as char
  }

  /** The decimal spelling of a natural number, as Python's `str(int)`. */
  function NatToDecimal(n: nat): (s: string)
    ensures s != [] && AllDigits(s)
    ensures |s| > 1 ==> s[0] != '0'
  {
    if n < 10 then [DigitChar(n)] else NatToDecimal(n / 10) + [DigitChar(n % 10)]
  }

  /** Python's `str(int)` for any integer. */
  function IntToDecimal(n: int): (s: string)
    ensures s != []
    ensures n >= 0 <==> AllDigits(s)
  {
    if n < 0 then
      var s := "-" + NatToDecimal(-n);
      assert !IsDigit(s[0]);
      s
    else NatToDecimal(n)
  }

  /** The number a string of decimal digits denotes. */
  function DigitsValue(s: string): nat
    requires AllDigits(s)
  {
    if s == [] then 0 else 10 * DigitsValue(s[..|s| - 1]) + (s[|s| - 1] as int - '0' as int)
  }

  lemma {:induction false} DigitsValueOfDecimal(n: nat)
    ensures DigitsValue(NatToDecimal(n)) == n
  {
    var s := NatToDecimal(n);
    if n >= 10 {
      assert s[..|s| - 1] == NatToDecimal(n / 10);
      DigitsValueOfDecimal(n / 10);
    }
  }

  /** Formatting an integer is injective: distinct integers give distinct strings. */
  lemma IntToDecimalInjective(m: int, n: int)
    requires IntToDecimal(m) == IntToDecimal(n)
    ensures m == n
  {
    if m >= 0 && n >= 0 {
      DigitsValueOfDecimal(m);
      DigitsValueOfDecimal(n);
    } else if m < 0 && n < 0 {
      assert NatToDecimal(-m) == IntToDecimal(m)[1..];
      assert NatToDecimal(-n) == IntToDecimal(n)[1..];
      DigitsValueOfDecimal(-m);
      DigitsValueOfDecimal(-n);
    }
  }

  function Pow10(k: nat): (p: nat)
    ensures p >= 1
  {
    if k == 0 then 1 else 10 * Pow10(k - 1)
  }

  /** Appending digits shifts the value left by that many places. */
  lemma {:induction false} DigitsValueConcat(a: string, b: string)
    requires AllDigits(a) && AllDigits(b)
    ensures DigitsValue(a + b) == DigitsValue(a) * Pow10(|b|) + DigitsValue(b)
  {
    if b == [] {
      assert a + b == a;
    } else {
      var b', ab := b[..|b| - 1], a + b;
      assert ab[..|ab| - 1] == a + b';
      assert ab[|ab| - 1] == b[|b| - 1];
      DigitsValueConcat(a, b');
      ShiftStep(DigitsValue(a), Pow10(|b'|), DigitsValue(b'), b[|b| - 1] as int - '0' as int);
    }
  }

  lemma ShiftStep(x: int, y: int, z: int, d: int)
    ensures 10 * (x * y + z) + d == x * (10 * y) + (10 * z + d)
  {
  }
}
