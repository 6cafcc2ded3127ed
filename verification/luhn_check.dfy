/**
 Luhn validation (`luhn_check`): reverse the digits, keep the ones at even
 indices, double and fold the ones at odd indices, and accept when the sum is
 a multiple of ten. The weighted sum used here is shared with the check-digit
 generator, which applies the same per-digit term with another parity.
 */
module LuhnCheck {
  import opened Digits

  /** The per-digit term of both generator expressions in the source: a digit
      at an index whose parity equals that of `p` counts as it is, any other
      digit is doubled and folded. */
  function Term(i: nat, p: nat, d: nat): nat
  {
    if i % 2 == p % 2 then d else Fold(d)
  }

  /** Every digit contributes a single digit to the sum, whichever way it is
      weighted. */
  lemma TermIsDigit(i: nat, p: nat, d: nat)
    requires d <= 9
    ensures Term(i, p, d) <= 9
    ensures i % 2 == p % 2 ==> Term(i, p, d) == d
    ensures i % 2 != p % 2 ==> Term(i, p, d) == DigitSum(2 * d)
  {
    FoldIsDigitSum(d);
  }

  /** The sum of `Term` over `ds`, with `ds[0]` at index `i` (Python's
      `sum(... for i, d in enumerate(ds))` when `i` is 0). */
  function ParitySum(ds: seq<nat>, i: nat, p: nat): nat
    decreases |ds|
  {
    if ds == [] then 0 else Term(i, p, ds[0]) + ParitySum(ds[1..], i + 1, p)
  }

  /** The digits in the opposite order (`[::-1]`). */
  function Reverse(s: seq<nat>): seq<nat>
  {
    seq(|s|, j requires 0 <= j < |s| => s[|s| - 1 - j])
  }

  /** The code's checksum: the parity sum of the reversed digits, where index
      0 is the rightmost digit and even indices are not doubled. */
  function Checksum(s: seq<nat>): nat
  {
    ParitySum(Reverse(s), 0, 0)
  }

  /** `luhn_check`: the checksum is a multiple of ten. What that means in
      terms of the digits is `ChecksumIsLuhnSum`. */
  function IsValid(s: seq<nat>): bool
  {
    Checksum(s) % 10 == 0
  }

  /** The Luhn sum as the algorithm defines it: every digit weighted by its
      distance from the right end, the rightmost digit being at distance 0
      and the digits at odd distances being doubled and folded. */
  function LuhnSum(s: seq<nat>): nat
    decreases |s|
  {
    if s == [] then 0 else Term(|s| - 1, 0, s[0]) + LuhnSum(s[1..])
  }

  /** A parity sum splits over concatenation; the second part starts at the
      index just after the first. */
  lemma {:induction false} ParitySumAppend(a: seq<nat>, b: seq<nat>, i: nat, p: nat)
    ensures ParitySum(a + b, i, p) == ParitySum(a, i, p) + ParitySum(b, i + |a|, p)
    decreases |a|
  {
    if a != [] {
      assert (a + b)[0] == a[0];
      assert (a + b)[1..] == a[1..] + b;
      ParitySumAppend(a[1..], b, i + 1, p);
    } else {
      assert a + b == b;
    }
  }

  /** Appending one digit adds that digit's term at the next index. */
  lemma ParitySumSnoc(a: seq<nat>, c: nat, i: nat, p: nat)
    ensures ParitySum(a + [c], i, p) == ParitySum(a, i, p) + Term(i + |a|, p, c)
  {
    ParitySumAppend(a, [c], i, p);
    assert [c][1..] == [];
  }

  /** A parity sum whose last digit sits at an index of the same parity as `p`
      weights every digit exactly as the Luhn sum does. */
  lemma {:induction false} ParitySumAligned(s: seq<nat>, i: nat, p: nat)
    requires (i + |s| - 1) % 2 == p % 2
    ensures ParitySum(s, i, p) == LuhnSum(s)
    decreases |s|
  {
    if s != [] {
      ParitySumAligned(s[1..], i + 1, p);
    }
  }

  /** Summing the reversed digits from an index of parity `p` is the Luhn sum
      of the digits in their original order. */
  lemma {:induction false} ParitySumReverse(s: seq<nat>, i: nat, p: nat)
    requires i % 2 == p % 2
    ensures ParitySum(Reverse(s), i, p) == LuhnSum(s)
    decreases |s|
  {
    if s != [] {
      var t := s[1..];
      assert Reverse(s) == Reverse(t) + [s[0]];
      ParitySumReverse(t, i, p);
      ParitySumSnoc(Reverse(t), s[0], i, p);
    }
  }

  /** `luhn_check` accepts exactly the digit strings whose Luhn sum is a
      multiple of ten. */
  lemma ChecksumIsLuhnSum(s: seq<nat>)
    ensures Checksum(s) == LuhnSum(s)
    ensures IsValid(s) <==> LuhnSum(s) % 10 == 0
  {
    ParitySumReverse(s, 0, 0);
  }

  /** The rightmost digit counts as it is, and the digits before it are
      summed with the parity of their own count: this is the weighting the
      check-digit generator has to use. */
  lemma LuhnSumLastDigit(s: seq<nat>, n: nat)
    requires |s| == n + 1
    ensures LuhnSum(s) == ParitySum(s[..n], 0, n) + s[n]
  {
    assert s == s[..n] + [s[n]];
    ParitySumSnoc(s[..n], s[n], 0, n);
    ParitySumAligned(s, 0, n);
  }

  /** A digit string with zeros in front has the same Luhn sum. */
  lemma {:induction false} LuhnSumLeadingZeros(z: seq<nat>, s: seq<nat>)
    requires AllZero(z)
    ensures LuhnSum(z + s) == LuhnSum(s)
    decreases |z|
  {
    if z != [] {
      assert (z + s)[0] == 0;
      assert (z + s)[1..] == z[1..] + s;
      LuhnSumLeadingZeros(z[1..], s);
    } else {
      assert z + s == s;
    }
  }

  /** Digits followed by an even number of further digits keep their
      parity of distance from the right end, so the Luhn sum splits there. */
  lemma {:induction false} LuhnSumConcatEven(a: seq<nat>, b: seq<nat>)
    requires |b| % 2 == 0
    ensures LuhnSum(a + b) == LuhnSum(a) + LuhnSum(b)
    decreases |a|
  {
    if a != [] {
      assert (a + b)[0] == a[0];
      assert (a + b)[1..] == a[1..] + b;
      LuhnSumConcatEven(a[1..], b);
    } else {
      assert a + b == b;
    }
  }

  /** Prepending zeros never changes the verdict. */
  lemma LeadingZerosKeepVerdict(z: seq<nat>, s: seq<nat>)
    requires AllZero(z)
    ensures IsValid(z + s) == IsValid(s)
  {
    LuhnSumLeadingZeros(z, s);
    ChecksumIsLuhnSum(z + s);
    ChecksumIsLuhnSum(s);
  }

  /** Dropping leading zeros (what `int` does) never changes the checksum,
      hence never the verdict. */
  lemma StripKeepsVerdict(s: seq<nat>)
    requires |s| >= 1
    ensures Checksum(StripLeadingZeros(s)) == Checksum(s)
  {
    var r := StripLeadingZeros(s);
    var z := s[..|s| - |r|];
    StripLeadingZerosSplit(s);
    LuhnSumLeadingZeros(z, r);
    ChecksumIsLuhnSum(s);
    ChecksumIsLuhnSum(r);
  }

  /** Replacing the digit at position `j` changes the Luhn sum by exactly the
      difference of the two digits' terms. */
  lemma {:induction false} LuhnSumUpdate(s: seq<nat>, j: nat, d: nat)
    requires j < |s|
    ensures LuhnSum(s[j := d]) + Term(|s| - 1 - j, 0, s[j])
         == LuhnSum(s) + Term(|s| - 1 - j, 0, d)
    decreases |s|
  {
    if j > 0 {
      assert s[j := d][1..] == s[1..][j - 1 := d];
      LuhnSumUpdate(s[1..], j - 1, d);
    } else {
      assert s[j := d][1..] == s[1..];
    }
  }

  /** A Luhn-valid digit string with any single digit changed is rejected. */
  lemma SingleDigitErrorDetected(s: seq<nat>, j: nat, d: nat)
    requires IsDigits(s) && j < |s| && d <= 9 && d != s[j]
    requires IsValid(s)
    ensures !IsValid(s[j := d])
  {
    var s' := s[j := d];
    var k := |s| - 1 - j;
    LuhnSumUpdate(s, j, d);
    ChecksumIsLuhnSum(s);
    ChecksumIsLuhnSum(s');
    var before, after := Term(k, 0, s[j]), Term(k, 0, d);
    FoldIsDigitSum(s[j]);
    FoldIsDigitSum(d);
    if before == after {
      if k % 2 != 0 {
        FoldInjective(s[j], d);
      }
    }
    assert before != after;
    MultipleOfTenShift(LuhnSum(s), LuhnSum(s'), before, after);
  }

  /** Moving a multiple of ten by a non-zero amount of at most nine in either
      direction leaves the multiples of ten. */
  lemma MultipleOfTenShift(a: nat, b: nat, x: nat, y: nat)
    requires x <= 9 && y <= 9 && x != y
    requires b + x == a + y
    requires a % 10 == 0
    ensures b % 10 != 0
  {
  }

  /** The empty string is accepted: its sum is 0. */
  lemma EmptyAccepted()
    ensures IsValid([])
  {
  }
}
