/**
 Concrete numbers: the usual Luhn examples, and a longer base on which the
 as-written generator goes wrong. Each Luhn sum is split into chunks whose
 later parts have even length, so that every chunk is weighted on its own.
 The numbers reach each lemma as parameters fixed by a precondition, and the
 card number as two halves, which keeps the solver from unfolding the sum
 over one long literal.
 */
module LuhnVectors {
  import opened Digits
  import opened LuhnCheck
  import opened LuhnGenerate

  /** The Luhn sum of four digits: the first and third are doubled and
      folded. */
  lemma LuhnSumFour(w: nat, x: nat, y: nat, z: nat)
    ensures LuhnSum([w, x, y, z]) == Fold(w) + x + Fold(y) + z
  {
    assert [w, x, y, z][1..] == [x, y, z];
    assert [x, y, z][1..] == [y, z];
    assert [y, z][1..] == [z];
    assert LuhnSum([z]) == z;
    assert LuhnSum([y, z]) == Fold(y) + z;
    assert LuhnSum([x, y, z]) == x + Fold(y) + z;
  }

  /** Lengths that are both even add up to an even length. */
  lemma EvenLengths(x: nat, y: nat)
    requires x % 2 == 0 && y % 2 == 0
    ensures (x + y) % 2 == 0
  {
  }

  /** The Luhn sum of eight digits: the first, third, fifth and seventh are
      doubled and folded. */
  lemma LuhnSumEight(s: seq<nat>, d0: nat, d1: nat, d2: nat, d3: nat,
                     d4: nat, d5: nat, d6: nat, d7: nat)
    requires s == [d0, d1, d2, d3, d4, d5, d6, d7]
    ensures LuhnSum(s)
         == Fold(d0) + d1 + Fold(d2) + d3 + Fold(d4) + d5 + Fold(d6) + d7
  {
    assert s == [d0, d1, d2, d3] + [d4, d5, d6, d7];
    LuhnSumFour(d0, d1, d2, d3);
    LuhnSumFour(d4, d5, d6, d7);
    LuhnSumConcatEven([d0, d1, d2, d3], [d4, d5, d6, d7]);
  }

  /** A number cut into three chunks, the last two of even length, has the
      chunks' Luhn sums added up as its own Luhn sum. */
  lemma ChunkedLuhnSum(a: seq<nat>, b: seq<nat>, c: seq<nat>)
    requires |b| % 2 == 0 && |c| % 2 == 0
    ensures LuhnSum(a + (b + c)) == LuhnSum(a) + LuhnSum(b) + LuhnSum(c)
  {
    EvenLengths(|b|, |c|);
    LuhnSumConcatEven(b, c);
    LuhnSumConcatEven(a, b + c);
  }

  /** 79927398713 is accepted: its Luhn sum is 25 + 26 + 19 = 70. */
  lemma ValidExample(s: seq<nat>)
    requires s == [7, 9, 9, 2, 7, 3, 9, 8, 7, 1, 3]
    ensures IsValid(s)
  {
    var a, b, c := [7, 9, 9], [2, 7, 3, 9], [8, 7, 1, 3];
    assert LuhnSum(a) == 25;
    LuhnSumFour(2, 7, 3, 9);
    LuhnSumFour(8, 7, 1, 3);
    assert s == a + (b + c);
    ChunkedLuhnSum(a, b, c);
    ChecksumIsLuhnSum(s);
  }

  /** 79927398714 is rejected: its Luhn sum is 25 + 26 + 20 = 71. */
  lemma InvalidExample(s: seq<nat>)
    requires s == [7, 9, 9, 2, 7, 3, 9, 8, 7, 1, 4]
    ensures !IsValid(s)
  {
    var a, b, c := [7, 9, 9], [2, 7, 3, 9], [8, 7, 1, 4];
    assert LuhnSum(a) == 25;
    LuhnSumFour(2, 7, 3, 9);
    LuhnSumFour(8, 7, 1, 4);
    assert s == a + (b + c);
    ChunkedLuhnSum(a, b, c);
    ChecksumIsLuhnSum(s);
  }

  /** 1234567890 is rejected: its Luhn sum is 4 + 17 + 22 = 43. */
  lemma InvalidSequence(s: seq<nat>)
    requires s == [1, 2, 3, 4, 5, 6, 7, 8, 9, 0]
    ensures !IsValid(s)
  {
    var a, b, c := [1, 2], [3, 4, 5, 6], [7, 8, 9, 0];
    assert LuhnSum(a) == 4;
    LuhnSumFour(3, 4, 5, 6);
    LuhnSumFour(7, 8, 9, 0);
    assert s == a + (b + c);
    ChunkedLuhnSum(a, b, c);
    ChecksumIsLuhnSum(s);
  }

  /** The card number 4539148803436467, written as its two halves, has the
      Luhn sum (28 + 21) + (14 + 17) = 80 and is accepted. */
  lemma ValidCardNumber(front: seq<nat>, back: seq<nat>)
    requires front == [4, 5, 3, 9, 1, 4, 8, 8]
    requires back == [0, 3, 4, 3, 6, 4, 6, 7]
    ensures LuhnSum(front + back) == 80
    ensures IsValid(front + back)
  {
    LuhnSumEight(front, 4, 5, 3, 9, 1, 4, 8, 8);
    LuhnSumEight(back, 0, 3, 4, 3, 6, 4, 6, 7);
    LuhnSumConcatEven(front, back);
    ChecksumIsLuhnSum(front + back);
  }

  /** The as-written sum of the ten-digit base 7992739871 is its Luhn sum,
      14 + 19 + 23 = 56: with the placeholder counted, its last digit sits at
      an index of the compared parity. */
  lemma AsWrittenSumOfLongerBase(base: seq<nat>)
    requires base == [7, 9, 9, 2, 7, 3, 9, 8, 7, 1]
    ensures ChecksumAsWritten(base) == 56
  {
    assert (base + [0])[..|base|] == base;
    ParitySumAligned(base, 0, |base| + 1);
    var a, b, c := [7, 9], [9, 2, 7, 3], [9, 8, 7, 1];
    assert LuhnSum(a) == 14;
    LuhnSumFour(9, 2, 7, 3);
    LuhnSumFour(9, 8, 7, 1);
    assert base == a + (b + c);
    ChunkedLuhnSum(a, b, c);
  }

  /** On the base 7992739871 the code as written appends 4, giving the
      rejected 79927398714; the corrected rule appends 3, giving the accepted
      79927398713. */
  lemma AsWrittenLongerCounterexample(base: seq<nat>)
    requires base == [7, 9, 9, 2, 7, 3, 9, 8, 7, 1]
    ensures GenerateAsWritten(base) == base + [4]
    ensures !IsValid(GenerateAsWritten(base))
    ensures Generate(base) == base + [3]
  {
    AsWrittenSumOfLongerBase(base);
    InvalidExample(base + [4]);
    ValidExample(base + [3]);
    CheckDigitUnique(base, 3);
  }
}
