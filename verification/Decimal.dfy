/** Decimal strings of natural numbers: what BigInt reads and prints, and the paddings used around it. */
module Decimal {

  function Pow10(n: nat): (p: nat)
    ensures p > 0
  {
    if n == 0 then 1 else 10 * Pow10(n - 1)
  }

  function Quotient(x: nat, p: nat): nat
    requires p > 0
  {
    x / p
  }

  function Remainder(x: nat, p: nat): (r: nat)
    requires p > 0
    ensures r < p && x == Quotient(x, p) * p + r
  {
    x % p
  }

  predicate IsDigit(c: char) { '0' <= c <= '9' }

  predicate AllDigits(s: string) { forall i :: 0 <= i < |s| ==> IsDigit(s[i]) }

  function DigitValue(c: char): nat
    requires IsDigit(c)
  {
    (c as int) - ('0' as int)
  }

  function DigitChar(d: nat): (c: char)
    requires d < 10
    ensures IsDigit(c) && DigitValue(c) == d
  {
    (d + ('0' as int)) as char
  }

  /** BigInt of a string of digits; the empty string reads as zero. */
  function FromDecimal(s: string): nat
    requires AllDigits(s)
  {
    if s == [] then 0 else 10 * FromDecimal(s[..|s| - 1]) + DigitValue(s[|s| - 1])
  }

  /** Shortest decimal string of `n`. */
  function ToDecimal(n: nat): (s: string)
    ensures AllDigits(s) && |s| >= 1
    ensures FromDecimal(s) == n
  {
    if n < 10 then [DigitChar(n)] else ToDecimal(n / 10) + [DigitChar(n % 10)]
  }

  function Zeros(n: nat): (s: string)
    ensures |s| == n && AllDigits(s) && forall i :: 0 <= i < n ==> s[i] == '0'
  {
    seq(n, i => '0')
  }

  function PadStart(s: string, n: nat): (t: string)
    requires AllDigits(s)
    ensures AllDigits(t) && |t| == if |s| < n then n else |s|
  {
    if |s| < n then Zeros(n - |s|) + s else s
  }

  function PadEnd(s: string, n: nat): (t: string)
    requires AllDigits(s)
    ensures AllDigits(t) && |t| == if |s| < n then n else |s|
  {
    if |s| < n then s + Zeros(n - |s|) else s
  }

  /** How many digits `s` starts with. */
  function DigitRun(s: string): (k: nat)
    ensures k <= |s| && AllDigits(s[..k]) && (k < |s| ==> !IsDigit(s[k]))
  {
    if s == [] || !IsDigit(s[0]) then 0 else 1 + DigitRun(s[1..])
  }

  lemma {:induction false} DigitRunIs(s: string, k: nat)
    requires k <= |s| && AllDigits(s[..k]) && (k < |s| ==> !IsDigit(s[k]))
    ensures DigitRun(s) == k
  {
    if k > 0 {
      assert IsDigit(s[..k][0]);
      assert s[1..][..k - 1] == s[..k][1..];
      DigitRunIs(s[1..], k - 1);
    }
  }

  lemma {:induction false} FromDecimalConcat(s: string, t: string)
    requires AllDigits(s) && AllDigits(t)
    ensures AllDigits(s + t) && FromDecimal(s + t) == FromDecimal(s) * Pow10(|t|) + FromDecimal(t)
  {
    if t == [] {
      assert s + t == s;
    } else {
      var n := |t| - 1;
      FromDecimalConcat(s, t[..n]);
      assert (s + t)[..|s + t| - 1] == s + t[..n];
      TimesTen(FromDecimal(s), Pow10(n), FromDecimal(t[..n]), DigitValue(t[n]));
    }
  }

  lemma TimesTen(a: int, p: int, b: int, d: int)
    ensures 10 * (a * p + b) + d == a * (10 * p) + (10 * b + d)
  {
  }

  lemma {:induction false} FromDecimalZeros(n: nat)
    ensures FromDecimal(Zeros(n)) == 0
  {
    if n > 0 {
      assert Zeros(n)[..n - 1] == Zeros(n - 1);
      FromDecimalZeros(n - 1);
    }
  }

  lemma PadStartKeepsValue(s: string, n: nat)
    requires AllDigits(s)
    ensures FromDecimal(PadStart(s, n)) == FromDecimal(s)
  {
    if |s| < n {
      FromDecimalConcat(Zeros(n - |s|), s);
      FromDecimalZeros(n - |s|);
    }
  }

  lemma PadEndScalesValue(s: string, n: nat)
    requires AllDigits(s) && |s| <= n
    ensures FromDecimal(PadEnd(s, n)) == FromDecimal(s) * Pow10(n - |s|)
  {
    if |s| < n {
      FromDecimalConcat(s, Zeros(n - |s|));
      FromDecimalZeros(n - |s|);
    }
  }

  /** Printing is injective, so a number can be recovered from its text. */
  lemma ToDecimalInjective(m: nat, n: nat)
    requires ToDecimal(m) == ToDecimal(n)
    ensures m == n
  {
    assert FromDecimal(ToDecimal(m)) == m && FromDecimal(ToDecimal(n)) == n;
  }
}
