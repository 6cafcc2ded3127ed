/**
 Decimal digit strings, most significant digit first, and the conversions the
 Luhn code gets from Python's `str` and `int`.
 */
module Digits {

  /** Every element is a single decimal digit. */
  predicate IsDigits(s: seq<nat>)
  {
    forall i :: 0 <= i < |s| ==> s[i] <= 9
  }

  /** Every element is zero. */
  predicate AllZero(z: seq<nat>)
  {
    forall i :: 0 <= i < |z| ==> z[i] == 0
  }

  /** Sum of the decimal digits of `n`. */
  function DigitSum(n: nat): nat
    decreases n
  {
    if n < 10 then n else n % 10 + DigitSum(n / 10)
  }

  /** The doubled-and-folded value of a digit: twice the digit, less nine when
      that exceeds nine. */
  function Fold(d: nat): nat
  {
    if d * 2 > 9 then d * 2 - 9 else d * 2
  }

  /** Folding a digit gives the digit sum of its double, so the result is
      again a single digit. */
  lemma FoldIsDigitSum(d: nat)
    requires d <= 9
    ensures Fold(d) <= 9
    ensures Fold(d) == DigitSum(2 * d)
  {
  }

  /** Folding maps the ten digits to ten distinct digits. */
  lemma FoldInjective(a: nat, b: nat)
    requires a <= 9 && b <= 9
    requires Fold(a) == Fold(b)
    ensures a == b
  {
  }

  /** 10 to the power k. */
  function Pow10(k: nat): (r: nat)
    ensures r >= 1
  {
    if k == 0 then 1 else 10 * Pow10(k - 1)
  }

  /** The number a digit string denotes. */
  function Value(s: seq<nat>): nat
  {
    if s == [] then 0 else Value(s[..|s| - 1]) * 10 + s[|s| - 1]
  }

  /** Decimal notation of a natural number, as Python's `str` writes it: no
      leading zero unless the number is zero itself. */
  function ToDigits(n: nat): (r: seq<nat>)
    ensures 1 <= |r|
    ensures IsDigits(r)
    ensures r[0] == 0 <==> n == 0
    ensures Value(r) == n
    decreases n
  {
    if n < 10 then [n]
    else
      var prefix := ToDigits(n / 10);
      var r := prefix + [n % 10];
      assert r[..|r| - 1] == prefix;
      r
  }

  /** A number between 10^(k-1) and 10^k - 1 is written with exactly k digits. */
  lemma {:induction false} ToDigitsLength(n: nat, k: nat)
    requires 1 <= k
    requires Pow10(k - 1) <= n < Pow10(k)
    ensures |ToDigits(n)| == k
    decreases k
  {
    if k > 1 {
      assert Pow10(k - 1) == 10 * Pow10(k - 2);
      ToDigitsLength(n / 10, k - 1);
    }
  }

  /** A digit string denotes a number below 10^|s|, and one that does not
      start with 0 a number of at least 10^(|s|-1). */
  lemma {:induction false} ValueBounds(s: seq<nat>)
    requires IsDigits(s)
    ensures Value(s) < Pow10(|s|)
    ensures |s| >= 1 && s[0] != 0 ==> Pow10(|s| - 1) <= Value(s)
    decreases |s|
  {
    if s != [] {
      var prefix := s[..|s| - 1];
      assert IsDigits(prefix) by {
        forall i | 0 <= i < |prefix| ensures prefix[i] <= 9 {
          assert prefix[i] == s[i];
        }
      }
      ValueBounds(prefix);
      if |s| > 1 {
        assert prefix[0] == s[0];
      }
    }
  }

  /** `str(int(s))` gives back a digit string that does not start with 0. */
  lemma {:induction false} ToDigitsOfValue(s: seq<nat>)
    requires IsDigits(s)
    requires |s| >= 1 && s[0] != 0
    ensures ToDigits(Value(s)) == s
    decreases |s|
  {
    if |s| > 1 {
      var prefix := s[..|s| - 1];
      assert IsDigits(prefix) by {
        forall i | 0 <= i < |prefix| ensures prefix[i] <= 9 {
          assert prefix[i] == s[i];
        }
      }
      assert prefix[0] == s[0];
      ValueBounds(prefix);
      ToDigitsOfValue(prefix);
      var n, last := Value(s), s[|s| - 1];
      assert n == Value(prefix) * 10 + last;
      assert n / 10 == Value(prefix) && n % 10 == last && n >= 10;
      assert s == prefix + [last];
    }
  }

  /** What `int` followed by `str` does to a non-empty digit string: the
      leading zeros go, but one digit always remains. */
  function StripLeadingZeros(s: seq<nat>): (r: seq<nat>)
    requires |s| >= 1
    ensures 1 <= |r| <= |s|
    ensures |r| == 1 || r[0] != 0
    decreases |s|
  {
    if |s| > 1 && s[0] == 0 then StripLeadingZeros(s[1..]) else s
  }

  /** What the stripping removes is a run of zeros: the input is those zeros
      followed by the result. */
  lemma {:induction false} StripLeadingZerosSplit(s: seq<nat>)
    requires |s| >= 1
    ensures var k := |s| - |StripLeadingZeros(s)|;
      AllZero(s[..k]) && s == s[..k] + StripLeadingZeros(s)
    decreases |s|
  {
    if |s| > 1 && s[0] == 0 {
      StripLeadingZerosSplit(s[1..]);
      var k := |s| - |StripLeadingZeros(s)|;
      assert s[1..][..k - 1] == s[1..k];
    }
  }
}
