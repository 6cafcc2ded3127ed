/**
 Random Luhn numbers of a given length (`generate_random_luhn`). The random
 draw is a parameter: the source takes it from `random.randint` over the
 numbers with `length - 1` digits, and the model states the range as the
 precondition on the draw. `GenerateRandomAsWritten` hands the draw to the
 code's generator, `GenerateRandom` to the corrected one.
 */
module RandomLuhn {
  import opened Digits
  import opened LuhnCheck
  import opened LuhnGenerate

  /** The outcome of a call that may raise. */
  datatype Result<T> = Success(value: T) | Failure(error: string)

  /** The message of the `ValueError` raised for a length below 2. */
  const TooShort: string := "Length must be at least 2"

  /** `generate_random_luhn(length)` as written, with the value
      `random.randint` returned given as `draw`: a base of `length - 1` digits
      extended by the code's check digit. A length below 2 is rejected before
      any draw is made. The output passes `luhn_check` exactly when the
      code's check digit is the corrected one. */
  function GenerateRandomAsWritten(length: int, draw: nat): (r: Result<seq<nat>>)
    requires length >= 2 ==> Pow10(length - 2) <= draw < Pow10(length - 1)
    ensures r.Failure? <==> length < 2
    ensures r.Failure? ==> r.error == TooShort
    ensures r.Success? ==>
      && |r.value| == length
      && r.value[0] != 0
      && IsDigits(r.value)
      && r.value[..length - 1] == ToDigits(draw)
      && r.value[length - 1] == CheckDigitFor(ChecksumAsWritten(ToDigits(draw)))
      && (IsValid(r.value)
          <==> CheckDigitFor(ChecksumAsWritten(ToDigits(draw))) == CheckDigit(ToDigits(draw)))
  {
    if length < 2 then Failure(TooShort)
    else
      var base := ToDigits(draw);
      ToDigitsLength(draw, length - 1);
      AsWrittenValidIff(base);
      var full := GenerateAsWritten(base);
      assert full[..length - 1] == base;
      Success(full)
  }

  /** For length 2 the code's output passes `luhn_check` only for the draw 9:
      of the nine valid two-digit numbers without a leading zero it reaches
      91 alone. */
  lemma AsWrittenTwoDigitsValidIff(draw: nat)
    requires 1 <= draw <= 9
    ensures GenerateRandomAsWritten(2, draw).Success?
    ensures IsValid(GenerateRandomAsWritten(2, draw).value) <==> draw == 9
  {
    assert ToDigits(draw) == [draw];
    assert ParitySum([draw], 0, 2) == draw;
    assert ParitySum([draw], 0, 1) == Fold(draw);
    CheckDigitForEqual(draw, Fold(draw));
  }

  /** The draw 7 for length 2: the code returns 73, which `luhn_check`
      rejects; the corrected generator returns 75. */
  lemma AsWrittenRandomCounterexample()
    ensures GenerateRandomAsWritten(2, 7) == Success([7, 3])
    ensures !IsValid([7, 3])
    ensures GenerateRandom(2, 7) == Success([7, 5])
  {
    AsWrittenRoundTripFails();
  }

  /** `generate_random_luhn(length)` with the corrected generator: a base of
      `length - 1` digits extended by its check digit, always accepted by
      `luhn_check`. */
  function GenerateRandom(length: int, draw: nat): (r: Result<seq<nat>>)
    requires length >= 2 ==> Pow10(length - 2) <= draw < Pow10(length - 1)
    ensures r.Failure? <==> length < 2
    ensures r.Failure? ==> r.error == TooShort
    ensures r.Success? ==>
      && |r.value| == length
      && r.value[0] != 0
      && IsDigits(r.value)
      && IsValid(r.value)
      && r.value[..length - 1] == ToDigits(draw)
  {
    if length < 2 then Failure(TooShort)
    else
      var base := ToDigits(draw);
      ToDigitsLength(draw, length - 1);
      var full := Generate(base);
      assert full == base + [CheckDigit(base)];
      assert full[..length - 1] == base;
      Success(full)
  }

  /** With the corrected generator, every Luhn-valid number with `length`
      digits and no leading zero is the outcome of some draw from the range,
      so the range misses none of them: the draw is the number without its
      last digit. */
  lemma GenerateRandomReachesAll(length: int, s: seq<nat>)
    requires length >= 2
    requires |s| == length && s[0] != 0 && IsDigits(s) && IsValid(s)
    ensures var draw := Value(s[..length - 1]);
      && Pow10(length - 2) <= draw < Pow10(length - 1)
      && GenerateRandom(length, draw) == Success(s)
  {
    var base := s[..length - 1];
    assert IsDigits(base) by {
      forall i | 0 <= i < |base| ensures base[i] <= 9 {
        assert base[i] == s[i];
      }
    }
    assert base[0] == s[0];
    ValueBounds(base);
    ToDigitsOfValue(base);
    assert s == base + [s[length - 1]];
    CheckDigitUnique(base, s[length - 1]);
  }
}
