/**
 Decimal rendering of non-negative integers, as Java's `Integer.toString`
 and string concatenation of an `int` produce it, together with a parser
 that reads the rendering back (`ParseDecimal`, `ParseToDecimal`).
 */
module Decimal {

  /** 10 to the power `k`. */
  function Pow10(k: nat): (p: nat)
    ensures p >= 1
  {
    if k == 0 then 1 else 10 * Pow10(k - 1)
  }

  predicate IsDigit(c: char) {
    '0' <= c <= '9'
  }

  predicate AllDigits(s: string) {
    forall i :: 0 <= i < |s| ==> IsDigit(s[i])
  }

  /** A decimal text as Java writes a non-negative int: digits only, no leading zero except "0" itself. */
  predicate CanonicalDecimal(s: string) {
    1 <= |s| && AllDigits(s) && (s[0] == '0' ==> s == "0")
  }

  /** The character for a single decimal digit. */
  function DigitChar(d: nat): (c: char)
    requires d < 10
    ensures IsDigit(c)
    ensures c as int - '0' as int == d
  {
    ('0' as int + d) as char
  }

  /** The value of a single decimal digit character. */
  function DigitValue(c: char): (d: nat)
    requires IsDigit(c)
    ensures d < 10
    ensures DigitChar(d) == c
  {
    c as int - '0' as int
  }

  /**
   The shortest decimal spelling of `n`: at least one character, only digits,
   and no leading zero unless `n` is zero itself.
   */
  function ToDecimal(n: nat): (s: string)
    ensures 1 <= |s|
    ensures AllDigits(s)
    ensures s[0] == '0' ==> n == 0 && s == "0"
    decreases n
  {
    if n < 10 then [DigitChar(n)] else ToDecimal(n / 10) + [DigitChar(n % 10)]
  }

  /** Reads a string of digits back as a number (most significant digit first). */
  function ParseDecimal(s: string): (n: nat)
    requires AllDigits(s)
    decreases |s|
  {
    if |s| == 0 then 0 else 10 * ParseDecimal(s[..|s| - 1]) + DigitValue(s[|s| - 1])
  }

  /** Parsing undoes rendering: the decimal spelling of `n` denotes `n`. */
  lemma {:induction false} ParseToDecimal(n: nat)
    ensures ParseDecimal(ToDecimal(n)) == n
    decreases n
  {
    var s := ToDecimal(n);
    if n < 10 {
      assert s[..|s| - 1] == [];
    } else {
      ParseToDecimal(n / 10);
      assert s[..|s| - 1] == ToDecimal(n / 10);
      assert s[|s| - 1] == DigitChar(n % 10);
    }
  }

  /** A number below 10^k needs at most k digits (k >= 1, since zero takes one). */
  lemma {:induction false} ToDecimalLengthBound(n: nat, k: nat)
    requires 1 <= k
    requires n < Pow10(k)
    ensures |ToDecimal(n)| <= k
    decreases k
  {
    if n >= 10 {
      ToDecimalLengthBound(n / 10, k - 1);
    }
  }

  /** Concatenating digit strings gives a digit string. */
  lemma AllDigitsConcat(a: string, b: string)
    requires AllDigits(a) && AllDigits(b)
    ensures AllDigits(a + b)
  {
    var c := a + b;
    forall i | 0 <= i < |c| ensures IsDigit(c[i]) {
      if i >= |a| { assert c[i] == b[i - |a|]; }
    }
  }

  /** Digits written one after the other denote the first number shifted past the second. */
  lemma {:induction false} ParseConcat(a: string, b: string)
    requires AllDigits(a) && AllDigits(b)
    ensures AllDigits(a + b)
    ensures ParseDecimal(a + b) == ParseDecimal(a) * Pow10(|b|) + ParseDecimal(b)
    decreases |b|
  {
    AllDigitsConcat(a, b);
    if |b| == 0 {
      assert a + b == a;
    } else {
      var c := a + b;
      var b' := b[..|b| - 1];
      var last := DigitValue(b[|b| - 1]);
      assert AllDigits(b') by {
        forall i | 0 <= i < |b'| ensures IsDigit(b'[i]) { assert b'[i] == b[i]; }
      }
      assert c[..|c| - 1] == a + b';
      assert c[|c| - 1] == b[|b| - 1];
      ParseConcat(a, b');
      var pa, pb' := ParseDecimal(a), ParseDecimal(b');
      assert ParseDecimal(c) == 10 * (pa * Pow10(|b'|) + pb') + last;
      assert ParseDecimal(b) == 10 * pb' + last;
      ShiftStep(pa, Pow10(|b'|), pb', last);
    }
  }

  /** One more digit on the right multiplies the shift by ten. */
  lemma ShiftStep(x: nat, p: nat, y: nat, d: nat)
    ensures 10 * (x * p + y) + d == x * (10 * p) + (10 * y + d)
  {
  }
}
