/** The register against division of bit strings: it is zero exactly behind multiples of the generator. */
module CrcRemainder {
  import opened Crc
  import Iteration

  /** x^16 + x^12 + x^5 + 1, highest power first. */
  function Generator(): (g: seq<bool>)
    ensures |g| == 17
  {
    [true, false, false, false, true, false, false, false, false,
     false, false, true, false, false, false, false, true]
  }

  function PlusBit(a: bool, b: bool): bool { a != b }

  /** The generator subtracted from the front of a longer string. */
  function Subtracted(bits: seq<bool>): (r: seq<bool>)
    requires |bits| >= 17
    ensures |r| == |bits|
  {
    seq(|bits|, i requires 0 <= i < |bits| => if i < 17 then PlusBit(bits[i], Generator()[i]) else bits[i])
  }

  /** Long division: what is left after the generator has been subtracted wherever a leading bit is set. */
  function Remainder(bits: seq<bool>): seq<bool>
    decreases |bits|
  {
    if |bits| <= 16 then bits
    else if bits[0] then Remainder(Subtracted(bits)[1..])
    else Remainder(bits[1..])
  }

  /** The generator divides these bits. */
  predicate IsMultiple(bits: seq<bool>) {
    !HasBit(Remainder(bits))
  }

  lemma StepBitLinear(a: bv16, b: bv16, p: bool, q: bool)
    ensures StepBit(Plus(a, b), PlusBit(p, q)) == Plus(StepBit(a, p), StepBit(b, q))
  {
    SumOfSums(a, b, BitValue(p), BitValue(q), BitValue(PlusBit(p, q)));
    StepLinear(Plus(a, BitValue(p)), Plus(b, BitValue(q)));
  }

  lemma SumOfSums(a: bv16, b: bv16, p: bv16, q: bv16, sum: bv16)
    requires sum == p ^ q
    ensures Plus(Plus(a, b), sum) == Plus(Plus(a, p), Plus(b, q))
  {
  }

  lemma {:induction false} FoldBitsLinear(
    c: bv16, d: bv16, a: seq<bool>, b: seq<bool>, sum: seq<bool>)
    requires |a| == |b| == |sum| && forall i :: 0 <= i < |a| ==> sum[i] == PlusBit(a[i], b[i])
    ensures FoldBits(Plus(c, d), sum) == Plus(FoldBits(c, a), FoldBits(d, b))
    decreases |a|
  {
    if a == [] {
    } else {
      StepBitLinear(c, d, a[0], b[0]);
      FoldBitsLinear(StepBit(c, a[0]), StepBit(d, b[0]), a[1..], b[1..], sum[1..]);
    }
  }

  /** One bit of the generator. */
  lemma GeneratorBit(k: nat, crc: bv16, bit: bool, next: bv16)
    requires k < 17 && Generator()[k] == bit && StepBit(crc, bit) == next
    ensures FoldBits(crc, Generator()[k..]) == FoldBits(next, Generator()[k + 1..])
  {
    Iteration.FoldLeftTail(StepBit, crc, Generator(), k);
  }

  lemma GeneratorBits0()
    ensures FoldBits(0, Generator()[0..]) == FoldBits(0x2102, Generator()[3..])
  {
    GeneratorBit(0, 0, true, 0x8408);
    GeneratorBit(1, 0x8408, false, 0x4204);
    GeneratorBit(2, 0x4204, false, 0x2102);
  }

  lemma GeneratorBits3()
    ensures FoldBits(0x2102, Generator()[3..]) == FoldBits(0x0840, Generator()[5..])
  {
    GeneratorBit(3, 0x2102, false, 0x1081);
    GeneratorBit(4, 0x1081, true, 0x0840);
  }

  lemma GeneratorBits5()
    ensures FoldBits(0x0840, Generator()[5..]) == FoldBits(0x0108, Generator()[8..])
  {
    GeneratorBit(5, 0x0840, false, 0x0420);
    GeneratorBit(6, 0x0420, false, 0x0210);
    GeneratorBit(7, 0x0210, false, 0x0108);
  }

  lemma GeneratorBits8()
    ensures FoldBits(0x0108, Generator()[8..]) == FoldBits(0x0021, Generator()[11..])
  {
    GeneratorBit(8, 0x0108, false, 0x0084);
    GeneratorBit(9, 0x0084, false, 0x0042);
    GeneratorBit(10, 0x0042, false, 0x0021);
  }

  lemma GeneratorBits11()
    ensures FoldBits(0x0021, Generator()[11..]) == FoldBits(0x0004, Generator()[14..])
  {
    GeneratorBit(11, 0x0021, true, 0x0010);
    GeneratorBit(12, 0x0010, false, 0x0008);
    GeneratorBit(13, 0x0008, false, 0x0004);
  }

  lemma GeneratorBits14()
    ensures FoldBits(0x0004, Generator()[14..]) == FoldBits(0, Generator()[17..])
  {
    GeneratorBit(14, 0x0004, false, 0x0002);
    GeneratorBit(15, 0x0002, false, 0x0001);
    GeneratorBit(16, 0x0001, true, 0);
  }

  /** The generator itself leaves nothing in the register. */
  lemma GeneratorFolds()
    ensures FoldBits(0, Generator()) == 0
  {
    GeneratorBits0();
    GeneratorBits3();
    GeneratorBits5();
    GeneratorBits8();
    GeneratorBits11();
    GeneratorBits14();
    assert Generator()[0..] == Generator() && Generator()[17..] == [];
  }

  lemma NoBits(n: nat) returns (zeros: seq<bool>)
    ensures |zeros| == n && forall i :: 0 <= i < n ==> !zeros[i]
  {
    zeros := seq(n, _ => false);
  }

  /** The generator, as long as a longer string. */
  lemma PaddedFolds(zeros: seq<bool>)
    requires forall i :: 0 <= i < |zeros| ==> !zeros[i]
    ensures FoldBits(0, Generator() + zeros) == 0
  {
    GeneratorFolds();
    Iteration.FoldLeftAppend(StepBit, 0, Generator(), zeros);
    FoldNoBits(0, zeros);
    Iteration.IterateFixed(Step, 0, |zeros|);
  }

  lemma SubtractedFolds(bits: seq<bool>)
    requires |bits| >= 17
    ensures FoldBits(0, Subtracted(bits)) == FoldBits(0, bits)
  {
    var zeros := NoBits(|bits| - 17);
    PaddedFolds(zeros);
    PlusZero(0);
    PlusZero(FoldBits(0, bits));
    FoldBitsLinear(0, 0, bits, Generator() + zeros, Subtracted(bits));
  }

  lemma LeadingZero(bits: seq<bool>)
    requires bits != [] && !bits[0]
    ensures FoldBits(0, bits) == FoldBits(0, bits[1..])
  {
  }

  lemma FewBitsIff(bits: seq<bool>)
    requires |bits| <= 16
    ensures FoldBits(0, bits) == 0 <==> !HasBit(bits)
  {
    if HasBit(bits) {
      BitsAreSeen(bits, 0, |bits|);
    } else {
      FoldNoBits(0, bits);
      Iteration.IterateFixed(Step, 0, |bits|);
    }
  }

  lemma {:induction false} ZeroIffMultiple(bits: seq<bool>)
    ensures FoldBits(0, bits) == 0 <==> IsMultiple(bits)
    decreases |bits|
  {
    if |bits| <= 16 {
      FewBitsIff(bits);
    } else if bits[0] {
      SubtractedFolds(bits);
      LeadingZero(Subtracted(bits));
      ZeroIffMultiple(Subtracted(bits)[1..]);
    } else {
      LeadingZero(bits);
      ZeroIffMultiple(bits[1..]);
    }
  }

  /**
  A message leaves zero in the register if and only if its bits, lowest first in each byte, are a
  multiple of x^16 + x^12 + x^5 + 1.
  */
  lemma FoldIsDivision(bytes: seq<bv8>)
    ensures Fold(0, bytes) == 0 <==> IsMultiple(Bits(bytes))
  {
    FoldIsBitwise(0, bytes);
    ZeroIffMultiple(Bits(bytes));
  }

  /** So what a writer stores makes sync byte, block and CRC together a multiple. */
  lemma StoredIsMultiple(block: seq<bv8>)
    ensures IsMultiple(Bits([0x80] + Stored(block)))
  {
    BlockResidue(block);
    Iteration.FoldLeftFront(CrcByte, 0, 0x80, Stored(block));
    FoldIsDivision([0x80] + Stored(block));
  }
}
