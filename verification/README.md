# Luhn check digits

A Dafny model of the Luhn ("mod 10", double-add-double) arithmetic of the
`luhn_algo` command-line tool, the check-digit scheme of Annex B of
ISO/IEC 7812-1. The model covers the three pure functions of `luhn_cli.py`:

- `luhn_check` validates a number. It reverses the digits. Digits at even
  indices count unchanged. Digits at odd indices are doubled, with 9
  subtracted when the double exceeds 9. The number is valid when the sum is a
  multiple of ten.
- `luhn_generate` appends a placeholder 0 to a base. It sums the base digits
  under a parity rule, derives the check digit `(10 - sum % 10) % 10`, and
  returns the base followed by that digit as an `int`.
- `generate_random_luhn` rejects lengths below 2. Otherwise it draws a base
  with `length - 1` digits and no leading zero, and hands it to
  `luhn_generate`.

Numbers are digit strings `seq<nat>`, most significant digit first, with
`IsDigits` saying every element is at most 9 (module `Digits`, which also
models the `str`/`int` conversions).

Module `LuhnCheck` writes the validator in the code's own terms. It defines
one per-digit term, `Term(i, p, d)`: the digit itself when `i % 2 == p % 2`,
else the doubled-and-folded digit. The sum `ParitySum` adds that term up over
a sequence. `Checksum` is `ParitySum` of the reversed digits with parity 0.
The independent reference is `LuhnSum`, which weights every digit by its
distance from the right end.

Module `LuhnGenerate` holds two versions of the generator:

- `GenerateAsWritten` is the code's rule, comparing with the length after the
  placeholder is appended.
- `Generate` (with `CheckDigit`) compares with the length of the base.

Module `RandomLuhn` gives `generate_random_luhn` with the random draw as a
parameter, once over each generator (`GenerateRandomAsWritten`,
`GenerateRandom`). Module `LuhnVectors` holds concrete numbers.

## Model

| member | source | states |
|---|---|---|
| Digits.Fold | luhn_cli.py:6-7 | the doubled-and-folded digit, `2d - 9` when `2d > 9` and `2d` otherwise; its bound and meaning are in `Digits.FoldIsDigitSum` |
| Digits.FoldIsDigitSum | luhn_cli.py:6-7 | for a digit d, the folded double `2d - 9 if 2d > 9 else 2d` is at most 9 and equals the decimal digit sum of 2d |
| Digits.FoldInjective | luhn_cli.py:6-7 | two digits with the same folded double are the same digit |
| Digits.ToDigits | luhn_cli.py:12 | `str` of a natural number: at least one digit, all digits, a leading 0 only for the number 0, and the digits denote the number |
| Digits.ToDigitsLength | luhn_cli.py:23 | a number in [10^(k-1), 10^k) is written with exactly k digits |
| Digits.ToDigitsOfValue | luhn_cli.py:23-24 | writing out the value of a digit string without a leading zero gives back that string |
| Digits.ValueBounds | luhn_cli.py:23 | k digits denote a number below 10^k, and at least 10^(k-1) when the first digit is not 0 |
| Digits.StripLeadingZeros | luhn_cli.py:17 | the `int` conversion keeps at least one digit, never lengthens the string, and leaves no leading 0 unless one digit remains |
| Digits.StripLeadingZerosSplit | luhn_cli.py:17 | the input is a run of zeros followed by the stripped result |
| LuhnCheck.Term | luhn_cli.py:6-14 | the per-digit term of both sums: the digit when its index has the compared parity, its folded double otherwise |
| LuhnCheck.TermIsDigit | luhn_cli.py:6-7 | a digit's term is again at most 9: the digit itself at the compared parity, the digit sum of its double otherwise |
| LuhnCheck.ParitySum | luhn_cli.py:6-15 | the `sum(... for i, d in enumerate(...))` of both functions: the terms of the digits, indexed from `i`, compared with parity `p` |
| LuhnCheck.Reverse | luhn_cli.py:5 | the digits in the opposite order, as `[::-1]` gives them |
| LuhnCheck.Checksum | luhn_cli.py:5-7 | the sum over the reversed digits with parity 0; what it adds up to is `LuhnCheck.ChecksumIsLuhnSum` |
| LuhnCheck.IsValid | luhn_cli.py:3-8 | the verdict of `luhn_check`, the checksum modulo ten being 0; characterised by `LuhnCheck.ChecksumIsLuhnSum` |
| LuhnCheck.ChecksumIsLuhnSum | luhn_cli.py:5-8 | the checksum over the reversed digits equals the sum weighted by distance from the right end, and the verdict is true exactly when that sum is a multiple of ten |
| LuhnCheck.ParitySumReverse | luhn_cli.py:5-7 | summing the reversed digits from an index of parity p weights each digit by its distance from the right end |
| LuhnCheck.ParitySumAligned | luhn_cli.py:14-15 | a left-to-right parity sum whose last digit has the compared parity is the right-indexed Luhn sum |
| LuhnCheck.LuhnSumLastDigit | luhn_cli.py:6-7 | the rightmost digit counts as it is, and the digits before it are summed with the parity of their own count |
| LuhnCheck.LuhnSumConcatEven | luhn_cli.py:6-7 | digits followed by an even number of further digits keep their weights, so the sum splits there |
| LuhnCheck.LeadingZerosKeepVerdict | luhn_cli.py:5-8 | prepending zeros never changes the verdict |
| LuhnCheck.StripKeepsVerdict | luhn_cli.py:17 | dropping leading zeros, as `int` does, never changes the checksum, so never the verdict |
| LuhnCheck.SingleDigitErrorDetected | luhn_cli.py:3-8 | changing any single digit of a valid number to another digit gives a number the check rejects |
| LuhnCheck.EmptyAccepted | luhn_cli.py:5-8 | the empty string has sum 0 and is accepted |
| LuhnGenerate.CheckDigitFor | luhn_cli.py:16 | the check digit is in 0..9 and brings the sum to a multiple of ten |
| LuhnGenerate.CheckDigitForUnique | luhn_cli.py:16 | no other digit in 0..9 brings the sum to a multiple of ten |
| LuhnGenerate.CheckDigitForEqual | luhn_cli.py:16 | two sums get the same check digit exactly when they agree modulo ten |
| LuhnGenerate.ChecksumAsWritten | luhn_cli.py:12-15 | the code's sum over the base: the parity sum of the base digits compared with the length after the placeholder, `len(base) + 1`; what it adds up to is `LuhnGenerate.ChecksumAsWrittenIsLuhnSum` |
| LuhnGenerate.ChecksumAsWrittenIsLuhnSum | luhn_cli.py:12-15 | for every base, the code's sum is the Luhn sum of the base itself, as if its last digit were the check digit, while the sum a check digit must complete is the Luhn sum of the base followed by 0 |
| LuhnGenerate.GenerateAsWritten | luhn_cli.py:10-17 | the code's generator: at most one digit longer than the base, digits in, digits out, and for a base without a leading zero exactly the base followed by the digit completing the as-written sum |
| LuhnGenerate.AsWrittenValidIff | luhn_cli.py:13-17 | the code's output passes `luhn_check` exactly when its check digit is the one the corrected rule gives |
| LuhnGenerate.AsWrittenRoundTripFails | luhn_cli.py:11-17 | base 7 gives 73 under the code's rule, which `luhn_check` rejects; the corrected rule gives 75 |
| LuhnGenerate.LuhnSumExtend | luhn_cli.py:13-15 | the Luhn sum of the base extended by a digit is the base's sum under the corrected parity plus that digit |
| LuhnGenerate.ExtendValidIff | luhn_cli.py:13-16 | the extended base passes `luhn_check` exactly when the appended digit completes the base's corrected parity sum to a multiple of ten |
| LuhnGenerate.CheckDigit | luhn_cli.py:13-16 | the corrected check digit is in 0..9 and the base followed by it passes `luhn_check` |
| LuhnGenerate.CheckDigitUnique | luhn_cli.py:16 | it is the only digit whose appending makes the base valid |
| LuhnGenerate.Generate | luhn_cli.py:10-17 | the corrected generator's output always passes `luhn_check`, keeps digits digits, and for a base without a leading zero is the base followed by its check digit |
| LuhnGenerate.GenerateRoundTrip | luhn_cli.py:11 | for a base without a leading zero, the output is valid, and a digit appended to the base gives a valid number exactly when that is the output |
| LuhnGenerate.LeadingZerosDropped | luhn_cli.py:12-17 | the base "0123" loses its leading zero to `int`: the code gives the four digits 1232, which `luhn_check` rejects, and the corrected rule gives 1230 |
| RandomLuhn.GenerateRandomAsWritten | luhn_cli.py:10-24 | the code as written: fails with the `ValueError` message exactly when the length is below 2; otherwise the output has exactly `length` digits, a nonzero first digit, starts with the drawn base, ends with the code's check digit for that base, and passes `luhn_check` exactly when the code's check digit is the corrected one |
| RandomLuhn.AsWrittenTwoDigitsValidIff | luhn_cli.py:10-24 | for length 2 the code's output passes `luhn_check` exactly when the draw is 9, so of the nine valid two-digit numbers it produces only 91 |
| RandomLuhn.AsWrittenRandomCounterexample | luhn_cli.py:10-24 | for length 2 the draw 7 gives 73 under the code, which `luhn_check` rejects; the corrected generator gives 75 |
| RandomLuhn.GenerateRandom | luhn_cli.py:19-24 | with the corrected generator: fails with the `ValueError` message exactly when the length is below 2; otherwise the output has exactly `length` digits, a nonzero first digit, passes `luhn_check`, and starts with the drawn base |
| RandomLuhn.GenerateRandomReachesAll | luhn_cli.py:23-24 | with the corrected generator, every valid number of that length without a leading zero comes from some draw in the `randint` range |
| LuhnVectors.ValidExample | luhn_cli.py:3-8 | 79927398713 is accepted |
| LuhnVectors.InvalidExample | luhn_cli.py:3-8 | 79927398714 is rejected |
| LuhnVectors.InvalidSequence | luhn_cli.py:3-8 | 1234567890 is rejected |
| LuhnVectors.ValidCardNumber | luhn_cli.py:3-8 | 4539148803436467 has Luhn sum 80 and is accepted |
| LuhnVectors.AsWrittenSumOfLongerBase | luhn_cli.py:13-15 | the code's sum of the base 7992739871 is 56 |
| LuhnVectors.AsWrittenLongerCounterexample | luhn_cli.py:10-17 | on the base 7992739871 the code appends 4, which is rejected; the corrected rule appends 3 |

## Left out

- The interactive part of `luhn_cli.py` (`get_valid_number`, `validate_batch`, `main`, lines 26-123) is not modelled. It is console input and output with no arithmetic.
- `random.randint` (luhn_cli.py:23) is not modelled as randomness. The drawn value is the parameter `draw` of `RandomLuhn.GenerateRandom`, and its range is the precondition for lengths of 2 or more.
- The default argument `length=16` of `generate_random_luhn` is not modelled. Every call gives the length explicitly.
- Parsing text into digits (`int(d) for d in str(...)`, luhn_cli.py:5 and 12) is not modelled for characters other than 0-9. The model takes digit strings, and the `ValueError` that `int` raises on other characters is out of scope. The callers' `isdigit()` test does not rule it out: it accepts characters such as '²' or '①', on which `int(d)` raises an uncaught `ValueError`.
- The empty string is accepted by `luhn_check`, whose sum is then 0. `LuhnCheck.IsValid` follows the code here (`LuhnCheck.EmptyAccepted`), although a digit sequence is meant to be non-empty and empty input is meant to be an error. The code's callers never pass it, since `isdigit()` rejects `""`.
- RandomLuhn.GenerateRandom: builds on the corrected `LuhnGenerate.Generate`, not on the code's generator. With the code's parity rule the output is not always valid (see Findings), so the promise of a valid number holds only with the correction. The code as written is `RandomLuhn.GenerateRandomAsWritten`.
- RandomLuhn.GenerateRandomReachesAll: holds for the corrected generator only. The code as written reaches only some valid numbers; for length 2 only 91 (`RandomLuhn.AsWrittenTwoDigitsValidIff`).
- RandomLuhn.GenerateRandomAsWritten: always succeeds for a length of 2 or more. On CPython 3.11 and later, conversions between `int` and `str` are limited to 4300 digits by default, so `str(base_number)` and `int(...)` in `luhn_generate` raise `ValueError` once the length exceeds 4300. Integers are unbounded here. The same holds for `RandomLuhn.GenerateRandom`.
- LuhnGenerate.GenerateAsWritten: always returns a number. The 4300-digit limit above makes `int(...)` at luhn_cli.py:17 raise for a base of 4300 or more digits. The same holds for `LuhnGenerate.Generate`, and for `luhn_check` given an `int` of more than 4300 digits.

## Findings

| source | as written | input that shows it | evidently intended | confidence | as-written member | corrected member |
|---|---|---|---|---|---|---|
| luhn_cli.py:13-15 | the parity test `i % 2 == len(digits) % 2` uses the length after the placeholder 0 is appended, so it doubles exactly the base digits that `luhn_check` leaves alone | base 7 gives 73, which `luhn_check` rejects; base 7992739871 gives 79927398714, also rejected | compare with the length of the base, so base 7 gives 75 and base 7992739871 gives 79927398713, both accepted, and every output passes `luhn_check` as the doc-comment at line 11 promises | high (proved; not executed) | LuhnGenerate.AsWrittenRoundTripFails | LuhnGenerate.GenerateRoundTrip |
