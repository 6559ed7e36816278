/** Decimal digit strings of natural numbers, as `Number.toString` and `BigInt` exchange them. */
module Decimals {

  predicate IsDigit(c: char) { '0' <= c <= '9' }

  ghost predicate AllDigits(s: string) {
    forall i :: 0 <= i < |s| ==> IsDigit(s[i])
  }

  function DigitChar(d: nat): (c: char)
    requires d < 10
    ensures IsDigit(c) && c as int - '0' as int == d
  {
    ('0' as int + d) as char
  }

  function DigitValue(c: char): (d: nat)
    requires IsDigit(c)
    ensures d < 10 && DigitChar(d) == c
  {
    c as int - '0' as int
  }

  /** The shortest decimal representation. */
  function ToDecimal(n: nat): (s: string)
    ensures |s| > 0 && AllDigits(s)
  {
    if n < 10 then [DigitChar(n)] else ToDecimal(n / 10) + [DigitChar(n % 10)]
  }

  /** The number a digit string denotes; leading zeros are allowed. */
  function Value(s: string): nat
    requires AllDigits(s)
  {
    if |s| == 0 then 0 else 10 * Value(s[..|s| - 1]) + DigitValue(s[|s| - 1])
  }

  lemma {:induction false} ValueOfDecimal(n: nat)
    ensures Value(ToDecimal(n)) == n
  {
    var s := ToDecimal(n);
    if n >= 10 {
      assert s[..|s| - 1] == ToDecimal(n / 10);
      ValueOfDecimal(n / 10);
    } else {
      assert s[..0] == "";
      assert Value(s[..0]) == 0;
    }
  }

  lemma DecimalIsInjective(a: nat, b: nat)
    requires ToDecimal(a) == ToDecimal(b)
    ensures a == b
  {
    ValueOfDecimal(a);
    ValueOfDecimal(b);
  }

  /** A digit string in front of a fixed non-digit ends at the first non-digit of the whole string. */
  lemma DigitPrefixEndsFirst(a: string, x: string, b: string, y: string, mark: char)
    requires AllDigits(a) && AllDigits(b) && !IsDigit(mark)
    requires a + [mark] + x == b + [mark] + y
    ensures |a| >= |b|
  {
    var s := a + [mark] + x;
    assert s[|a|] == mark;
    assert forall i :: 0 <= i < |b| ==> (b + [mark] + y)[i] == b[i];
  }

  /** A digit string in front of a fixed non-digit is determined by the whole string. */
  lemma DigitPrefixIsUnique(a: string, x: string, b: string, y: string, mark: char)
    requires AllDigits(a) && AllDigits(b) && !IsDigit(mark)
    requires a + [mark] + x == b + [mark] + y
    ensures a == b
  {
    DigitPrefixEndsFirst(a, x, b, y, mark);
    DigitPrefixEndsFirst(b, y, a, x, mark);
    assert a == (a + [mark] + x)[..|a|] && b == (b + [mark] + y)[..|b|];
  }

  // ---- powers of ten, concatenation and padding ----

  function Pow10(n: nat): (p: nat)
    ensures p > 0
  {
    if n == 0 then 1 else 10 * Pow10(n - 1)
  }

  lemma {:induction false} Pow10Adds(a: nat, b: nat)
    ensures Pow10(a + b) == Pow10(a) * Pow10(b)
  {
    if b > 0 {
      Pow10Adds(a, b - 1);
      assert Pow10(a) * (10 * Pow10(b - 1)) == 10 * (Pow10(a) * Pow10(b - 1));
    }
  }

  lemma {:induction false} ValueOfConcat(a: string, b: string)
    requires AllDigits(a) && AllDigits(b)
    ensures AllDigits(a + b) && Value(a + b) == Value(a) * Pow10(|b|) + Value(b)
  {
    if |b| == 0 {
      assert a + b == a;
    } else {
      var n := |b| - 1;
      assert (a + b)[..|a + b| - 1] == a + b[..n];
      ValueOfConcat(a, b[..n]);
      ShiftedSum(Value(a), Pow10(n), Value(b[..n]), DigitValue(b[n]));
    }
  }

  lemma ShiftedSum(v: nat, p: nat, rest: nat, d: nat)
    ensures 10 * (v * p + rest) + d == v * (10 * p) + (10 * rest + d)
  {
  }

  function Zeros(n: nat): (s: string)
    ensures |s| == n && AllDigits(s)
  {
    seq(n, _ => '0')
  }

  lemma {:induction false} ValueOfZeros(n: nat)
    ensures Value(Zeros(n)) == 0
  {
    if n > 0 {
      assert Zeros(n)[..n - 1] == Zeros(n - 1);
      ValueOfZeros(n - 1);
    }
  }

  /** A digit string denotes less than the power of ten of its length. */
  lemma {:induction false} ValueIsBounded(s: string)
    requires AllDigits(s)
    ensures Value(s) < Pow10(|s|)
  {
    if |s| > 0 {
      ValueIsBounded(s[..|s| - 1]);
    }
  }

  lemma {:induction false} ZeroValueIsZeros(s: string)
    requires AllDigits(s)
    ensures Value(s) == 0 <==> forall i :: 0 <= i < |s| ==> s[i] == '0'
  {
    if |s| > 0 {
      ZeroValueIsZeros(s[..|s| - 1]);
      assert s[|s| - 1] == '0' <==> DigitValue(s[|s| - 1]) == 0;
      assert s == s[..|s| - 1] + [s[|s| - 1]];
    }
  }

  /** Numbers below a power of ten have at most that many digits. */
  lemma {:induction false} DecimalLength(n: nat, k: nat)
    requires n < Pow10(k) && 0 < k
    ensures |ToDecimal(n)| <= k
  {
    if n >= 10 {
      assert k > 1;
      DecimalLength(n / 10, k - 1);
    }
  }
}
