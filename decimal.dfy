/** Python's `float(str)` on the only strings the price cleaning can hand to
    it: strings of ASCII digits and periods. The value is an exact decimal
    (a `real`), not the nearest binary double. */
module Decimal {
  import opened Wrappers
  import opened Text

  predicate IsDecimalChar(c: char) {
    IsDigit(c) || c == '.'
  }

  predicate DecimalChars(s: string) {
    forall i :: 0 <= i < |s| ==> IsDecimalChar(s[i])
  }

  predicate HasDigit(s: string) {
    exists i :: 0 <= i < |s| && IsDigit(s[i])
  }

  function CountDots(s: string): nat {
    if s == [] then 0 else (if s[0] == '.' then 1 else 0) + CountDots(s[1..])
  }

  /** The characters before the first period (all of `s` if it has none). */
  function BeforeDot(s: string): (w: string)
    ensures AllDigits(w) <== DecimalChars(s)
    ensures |w| <= |s|
  {
    if s == [] || s[0] == '.' then [] else [s[0]] + BeforeDot(s[1..])
  }

  /** The characters after the first period (empty if it has none). */
  function AfterDot(s: string): (f: string)
    ensures |f| <= |s|
  {
    if s == [] then [] else if s[0] == '.' then s[1..] else AfterDot(s[1..])
  }

  lemma {:induction false} AfterDotDigits(s: string)
    requires DecimalChars(s) && CountDots(s) <= 1
    ensures AllDigits(AfterDot(s))
  {
    if s != [] {
      if s[0] == '.' {
        NoDotsAllDigits(s[1..]);
      } else {
        AfterDotDigits(s[1..]);
      }
    }
  }

  lemma {:induction false} NoDotsAllDigits(s: string)
    requires DecimalChars(s) && CountDots(s) == 0
    ensures AllDigits(s)
  {
    if s != [] {
      NoDotsAllDigits(s[1..]);
      assert s == [s[0]] + s[1..];
    }
  }

  /** `float(s)` for a string of digits and periods: it is accepted exactly
      when it holds at least one digit and at most one period ("1.", ".5" and
      "007" are accepted; "", "." and "1.2.3" raise `ValueError`, read here as
      `None`). */
  function ParseDecimal(s: string): (r: Option<real>)
    requires DecimalChars(s)
    ensures r.Some? <==> HasDigit(s) && CountDots(s) <= 1
    ensures r.Some? ==> r.value >= 0.0
  {
    if !HasDigit(s) || CountDots(s) > 1 then None
    else
      var whole, frac := BeforeDot(s), AfterDot(s);
      AfterDotDigits(s);
      Some(DecimalValue(whole, frac))
  }

  /** The number written by whole digits, a period and fraction digits. */
  function DecimalValue(whole: string, frac: string): (v: real)
    requires AllDigits(whole) && AllDigits(frac)
    ensures v >= 0.0
  {
    DigitsValue(whole) as real + DigitsValue(frac) as real / Pow10(|frac|) as real
  }

  lemma {:induction false} SplitNoDot(w: string)
    requires AllDigits(w)
    ensures DecimalChars(w) && CountDots(w) == 0
    ensures BeforeDot(w) == w && AfterDot(w) == []
  {
    if w != [] {
      SplitNoDot(w[1..]);
      assert w == [w[0]] + w[1..];
    }
  }

  /** A non-empty digit string denotes the integer written that way. */
  lemma ParseDecimalOfDigits(w: string)
    requires AllDigits(w) && w != []
    ensures ParseDecimal(w) == Some(DigitsValue(w) as real)
  {
    SplitNoDot(w);
    assert IsDigit(w[0]);
    assert HasDigit(w);
    assert Pow10(|AfterDot(w)|) == 1;
    assert DigitsValue(AfterDot(w)) == 0;
  }

  /** Reading back a formatted natural number gives the number. */
  lemma ParseDecimalOfNat(n: nat)
    ensures ParseDecimal(NatToDecimal(n)) == Some(n as real)
  {
    ParseDecimalOfDigits(NatToDecimal(n));
    DigitsValueOfDecimal(n);
  }

  /** A concatenation has a digit exactly when one of its parts has. */
  lemma HasDigitConcat(a: string, b: string)
    ensures HasDigit(a + b) <==> HasDigit(a) || HasDigit(b)
  {
    if HasDigit(a + b) {
      var i :| 0 <= i < |a + b| && IsDigit((a + b)[i]);
      if i >= |a| {
        assert b[i - |a|] == (a + b)[i];
      }
    }
    if HasDigit(a) {
      var i :| 0 <= i < |a| && IsDigit(a[i]);
      assert (a + b)[i] == a[i];
    }
    if HasDigit(b) {
      var i :| 0 <= i < |b| && IsDigit(b[i]);
      assert (a + b)[|a| + i] == b[i];
    }
  }

  /** Periods add up over a concatenation. */
  lemma {:induction false} CountDotsConcat(a: string, b: string)
    ensures CountDots(a + b) == CountDots(a) + CountDots(b)
  {
    if a != [] {
      assert (a + b)[1..] == a[1..] + b;
      CountDotsConcat(a[1..], b);
    } else {
      assert a + b == b;
    }
  }

  // ---------------------------------------------------------------------------
  // Fixed-point notation
  // ---------------------------------------------------------------------------

  /** The `k` lowest decimal digits of `n`, padded with leading zeros. */
  function LowDigits(n: nat, k: nat): (s: string)
    ensures |s| == k && AllDigits(s)
  {
    if k == 0 then [] else LowDigits(n / 10, k - 1) + [DigitChar(n % 10)]
  }

  /** The digits of `n / 10^k` before the decimal separator. */
  function WholePart(n: nat, k: nat): (w: string)
    ensures AllDigits(w) && w != []
  {
    DivMod(n, Pow10(k));
    NatToDecimal(n / Pow10(k))
  }

  /** The `k` digits of `n / 10^k` after the decimal separator. */
  function FractionPart(n: nat, k: nat): (f: string)
    ensures AllDigits(f) && |f| == k
  {
    DivMod(n, Pow10(k));
    LowDigits(n % Pow10(k), k)
  }

  /** The number `n / 10^k` written with exactly `k` digits after a period,
      e.g. `FormatFixed(150, 2) == "1.50"`. */
  function FormatFixed(n: nat, k: nat): string {
    WholePart(n, k) + "." + FractionPart(n, k)
  }

  /** The same number with a decimal comma, as market prices are written in
      many currencies, e.g. `CommaFixed(150, 2) == "1,50"`. */
  function CommaFixed(n: nat, k: nat): string {
    WholePart(n, k) + "," + FractionPart(n, k)
  }

  /** Padded to `k` places, a number below `10^k` keeps its value. */
  lemma {:induction false} LowDigitsValue(r: nat, k: nat)
    requires r < Pow10(k)
    ensures DigitsValue(LowDigits(r, k)) == r
  {
    if k > 0 {
      var s := LowDigits(r, k);
      assert s[..|s| - 1] == LowDigits(r / 10, k - 1);
      LowDigitsValue(r / 10, k - 1);
    }
  }

  /** A whole part plus a fraction of `p`ths is one quotient by `p`. */
  lemma FractionSum(q: nat, r: nat, p: nat)
    requires p >= 1
    ensures q as real + r as real / p as real == (q * p + r) as real / p as real
  {
    assert (q * p + r) as real == q as real * p as real + r as real;
  }

  /** Digits, then a period, then digits: the period splits the string there. */
  lemma {:induction false} SplitAtDot(w: string, f: string)
    requires AllDigits(w) && AllDigits(f)
    ensures DecimalChars(w + "." + f) && CountDots(w + "." + f) == 1
    ensures BeforeDot(w + "." + f) == w && AfterDot(w + "." + f) == f
  {
    if w == [] {
      PeriodThenDigits(f);
    } else {
      var s := w + "." + f;
      SplitAtDot(w[1..], f);
      assert s[1..] == w[1..] + "." + f;
      assert s[0] == w[0];
    }
  }

  lemma PeriodThenDigits(f: string)
    requires AllDigits(f)
    ensures DecimalChars("." + f) && CountDots("." + f) == 1
    ensures BeforeDot("." + f) == [] && AfterDot("." + f) == f
  {
    SplitNoDot(f);
    assert ("." + f)[1..] == f;
  }

  /** Whole digits, a period and fraction digits read as the whole part plus
      the fraction over the matching power of ten. */
  lemma ParseDecimalOfSplit(w: string, f: string)
    requires AllDigits(w) && w != [] && AllDigits(f)
    ensures DecimalChars(w + "." + f)
    ensures ParseDecimal(w + "." + f) == Some(DecimalValue(w, f))
  {
    var s := w + "." + f;
    SplitAtDot(w, f);
    assert IsDigit(s[0]);
    assert HasDigit(s);
    ParseDecimalOfParts(s, w, f);
  }

  /** A parsable string reads as its whole part plus its fraction. */
  lemma ParseDecimalOfParts(s: string, w: string, f: string)
    requires DecimalChars(s) && HasDigit(s) && CountDots(s) <= 1
    requires BeforeDot(s) == w && AfterDot(s) == f && AllDigits(w)
    ensures AllDigits(f)
    ensures ParseDecimal(s) == Some(DecimalValue(w, f))
  {
    AfterDotDigits(s);
  }

  /** A whole part and a padded remainder read back as one quotient. */
  lemma ParseDecimalOfQuotient(q: nat, r: nat, k: nat)
    requires r < Pow10(k)
    ensures DecimalChars(NatToDecimal(q) + "." + LowDigits(r, k))
    ensures ParseDecimal(NatToDecimal(q) + "." + LowDigits(r, k))
         == Some((q * Pow10(k) + r) as real / Pow10(k) as real)
  {
    var w, f := NatToDecimal(q), LowDigits(r, k);
    ParseDecimalOfSplit(w, f);
    DigitsValueOfDecimal(q);
    LowDigitsValue(r, k);
    ParseAsFraction(ParseDecimal(w + "." + f), q, r, Pow10(|f|));
  }

  lemma ParseAsFraction(x: Option<real>, q: nat, r: nat, p: nat)
    requires p >= 1
    requires x == Some(q as real + r as real / p as real)
    ensures x == Some((q * p + r) as real / p as real)
  {
    FractionSum(q, r, p);
  }

  /** Euclidean division by a positive divisor. */
  lemma DivMod(n: nat, p: nat)
    requires p >= 1
    ensures 0 <= n / p && 0 <= n % p < p && (n / p) * p + n % p == n
  {
  }

  /** Fixed-point notation reads back as the number it writes: `float()`
      on `n / 10^k` with `k` decimals gives exactly `n / 10^k`. */
  lemma ParseDecimalOfFixed(n: nat, k: nat)
    ensures DecimalChars(FormatFixed(n, k))
    ensures ParseDecimal(FormatFixed(n, k)) == Some(n as real / Pow10(k) as real)
  {
    DivMod(n, Pow10(k));
    ParseDecimalOfQuotient(n / Pow10(k), n % Pow10(k), k);
  }

  /** `v` added to itself `n` times, which is `n` times `v`. */
  function Repeated(n: nat, v: real): (r: real)
    ensures r == n as real * v
  {
    if n == 0 then 0.0
    else
      var r := Repeated(n - 1, v) + v;
      assert (n - 1) as real * v + v == n as real * v;
      r
  }
}
