/**
 Check-digit generation (`luhn_generate`). The source appends a placeholder 0,
 sums the base digits with a parity rule, derives the check digit from that
 sum, and returns the base followed by the check digit as a Python `int`.

 The parity rule as written compares each left-to-right index with the length
 AFTER the placeholder is appended, which doubles exactly the digits that
 `luhn_check` leaves alone. `ChecksumAsWritten`/`GenerateAsWritten` keep that
 rule; `CheckDigit`/`Generate` compare with the length of the base instead,
 which is the rule under which the promised round trip holds.
 */
module LuhnGenerate {
  import opened Digits
  import opened LuhnCheck

  /** The digit that brings a weighted sum up to a multiple of ten. */
  function CheckDigitFor(sum: nat): (c: nat)
    ensures c <= 9
    ensures (sum + c) % 10 == 0
  {
    (10 - sum % 10) % 10
  }

  /** No other digit completes the sum to a multiple of ten. */
  lemma CheckDigitForUnique(sum: nat, c: nat)
    requires c <= 9
    requires (sum + c) % 10 == 0
    ensures c == CheckDigitFor(sum)
  {
  }

  /** Two sums get the same check digit exactly when they agree modulo
      ten. */
  lemma CheckDigitForEqual(x: nat, y: nat)
    ensures CheckDigitFor(x) == CheckDigitFor(y) <==> x % 10 == y % 10
  {
  }

  /** The weighted sum of the base as the source computes it: the placeholder
      is appended first, so the parity compared with is that of the base's
      length plus one. */
  function ChecksumAsWritten(base: seq<nat>): (r: nat)
    ensures r == ParitySum(base, 0, |base| + 1)
  {
    var digits := base + [0];
    assert digits[..|digits| - 1] == base;
    ParitySum(digits[..|digits| - 1], 0, |digits|)
  }

  /** `luhn_generate` as written: the base followed by the as-written check
      digit, with leading zeros dropped by the conversion to `int`. */
  function GenerateAsWritten(base: seq<nat>): (r: seq<nat>)
    ensures 1 <= |r| <= |base| + 1
    ensures IsDigits(base) ==> IsDigits(r)
    ensures |base| >= 1 && base[0] != 0 ==>
      r == base + [CheckDigitFor(ChecksumAsWritten(base))]
  {
    var full := base + [CheckDigitFor(ChecksumAsWritten(base))];
    StripLeadingZerosSplit(full);
    StripLeadingZeros(full)
  }

  /** Appending a digit to the base gives a string whose Luhn sum is the
      base's sum under the corrected parity rule plus that digit. */
  lemma LuhnSumExtend(base: seq<nat>, c: nat)
    ensures LuhnSum(base + [c]) == ParitySum(base, 0, |base|) + c
  {
    var full := base + [c];
    assert full[..|base|] == base && full[|base|] == c;
    LuhnSumLastDigit(full, |base|);
  }

  /** The code's sum is the Luhn sum of the base itself, weighting the base
      as if its own last digit were the check digit; the sum the check digit
      must complete is that of the base followed by the placeholder 0. */
  lemma ChecksumAsWrittenIsLuhnSum(base: seq<nat>)
    ensures ChecksumAsWritten(base) == LuhnSum(base)
    ensures ParitySum(base, 0, |base|) == LuhnSum(base + [0])
  {
    ParitySumAligned(base, 0, |base| + 1);
    LuhnSumExtend(base, 0);
  }

  /** The base extended by `c` passes `luhn_check` exactly when `c` completes
      the base's corrected parity sum to a multiple of ten. */
  lemma ExtendValidIff(base: seq<nat>, c: nat, sum: nat)
    requires sum == ParitySum(base, 0, |base|)
    ensures IsValid(base + [c]) <==> (sum + c) % 10 == 0
  {
    LuhnSumExtend(base, c);
    ChecksumIsLuhnSum(base + [c]);
  }

  /** The check digit with the corrected parity rule: appending it to the base
      yields a string `luhn_check` accepts. */
  function CheckDigit(base: seq<nat>): (c: nat)
    ensures c <= 9
    ensures IsValid(base + [c])
  {
    var sum := ParitySum(base, 0, |base|);
    var c := CheckDigitFor(sum);
    ExtendValidIff(base, c, sum);
    c
  }

  /** The check digit is the only digit that makes the extended string valid. */
  lemma CheckDigitUnique(base: seq<nat>, c: nat)
    requires c <= 9
    requires IsValid(base + [c])
    ensures c == CheckDigit(base)
  {
    var sum := ParitySum(base, 0, |base|);
    ExtendValidIff(base, c, sum);
    CheckDigitForUnique(sum, c);
  }

  /** The output of the as-written generator passes `luhn_check` exactly when
      its check digit is the corrected one. */
  lemma AsWrittenValidIff(base: seq<nat>)
    ensures IsValid(GenerateAsWritten(base))
        <==> CheckDigitFor(ChecksumAsWritten(base)) == CheckDigit(base)
  {
    var written := CheckDigitFor(ChecksumAsWritten(base));
    StripKeepsVerdict(base + [written]);
    if IsValid(base + [written]) {
      CheckDigitUnique(base, written);
    }
  }

  /** `luhn_generate` with the corrected parity rule. The result is the base
      followed by its check digit, with leading zeros dropped by the
      conversion to `int`; it always passes `luhn_check`. */
  function Generate(base: seq<nat>): (r: seq<nat>)
    ensures IsValid(r)
    ensures IsDigits(base) ==> IsDigits(r)
    ensures |base| >= 1 && base[0] != 0 ==> r == base + [CheckDigit(base)]
  {
    var full := base + [CheckDigit(base)];
    StripKeepsVerdict(full);
    StripLeadingZerosSplit(full);
    StripLeadingZeros(full)
  }

  /** Round trip: a base without a leading zero, once extended by `Generate`,
      passes `luhn_check`, and `Generate` appends the one digit that does so. */
  lemma GenerateRoundTrip(base: seq<nat>, c: nat)
    requires |base| >= 1 && base[0] != 0 && c <= 9
    ensures IsValid(Generate(base))
    ensures IsValid(base + [c]) <==> Generate(base) == base + [c]
  {
    if IsValid(base + [c]) {
      CheckDigitUnique(base, c);
    }
  }

  /** Counterexample to the round trip for the code as written: base 7 gives
      73, which `luhn_check` rejects; the corrected rule gives 75. */
  lemma AsWrittenRoundTripFails()
    ensures GenerateAsWritten([7]) == [7, 3]
    ensures !IsValid(GenerateAsWritten([7]))
    ensures Generate([7]) == [7, 5]
  {
    assert ChecksumAsWritten([7]) == 7;
    assert ParitySum([7], 0, 1) == 5;
  }

  /** A base written with leading zeros loses them in the output, because
      `int` drops them: the code turns "0123" into the four digits 1232, which
      `luhn_check` rejects, and the corrected rule into 1230. */
  lemma LeadingZerosDropped()
    ensures GenerateAsWritten([0, 1, 2, 3]) == [1, 2, 3, 2]
    ensures !IsValid([1, 2, 3, 2])
    ensures Generate([0, 1, 2, 3]) == [1, 2, 3, 0]
  {
    assert ParitySum([0, 1, 2, 3], 0, 5) == 8;
    var written := [0, 1, 2, 3] + [CheckDigitFor(ChecksumAsWritten([0, 1, 2, 3]))];
    assert written == [0, 1, 2, 3, 2];
    assert StripLeadingZeros(written) == StripLeadingZeros(written[1..]);
    assert written[1..] == [1, 2, 3, 2];
    ChecksumIsLuhnSum([1, 2, 3, 2]);
    assert ParitySum([0, 1, 2, 3], 0, 4) == 10;
    var full := [0, 1, 2, 3] + [CheckDigit([0, 1, 2, 3])];
    assert full == [0, 1, 2, 3, 0];
    assert StripLeadingZeros(full) == StripLeadingZeros(full[1..]);
    assert full[1..] == [1, 2, 3, 0];
  }
}
