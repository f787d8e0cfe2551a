/**
The CRC register of the FDS read channel: a reflected 16-bit CRC with polynomial
$8408, folded one byte at a time.
*/
module Crc {
  import opened Iteration

  /** One shift of the register. */
  function Step(crc: bv16): bv16 {
    if crc & 1 != 0 then (crc >> 1) ^ 0x8408 else crc >> 1
  }

  function CrcByte(crc: bv16, value: bv8): bv16 {
    Iterate(Step, crc ^ (value as bv16), 8)
  }

  method ComputeCrcByte(start: bv16, value: bv8) returns (crc: bv16)
    ensures crc == CrcByte(start, value)
  {
    crc := start ^ (value as bv16);
    for i := 0 to 8
      invariant Iterate(Step, crc, 8 - i) == CrcByte(start, value)
    {
      crc := if crc & 1 != 0 then (crc >> 1) ^ 0x8408 else crc >> 1;
    }
  }

  function Fold(crc: bv16, bytes: seq<bv8>): bv16 {
    FoldLeft(CrcByte, crc, bytes)
  }

  /** The register value a writer stores after a block, sync byte included. */
  function BlockCrc(block: seq<bv8>): bv16 {
    Fold(CrcByte(0, 0x80), block)
  }

  function Low(crc: bv16): bv8 { (crc & 0xFF) as bv8 }

  function High(crc: bv16): bv8 { (crc >> 8) as bv8 }

  function LittleEndian(crc: bv16): seq<bv8> {
    [Low(crc), High(crc)]
  }

  /** The stored bytes of a block: its body followed by its CRC, low byte first. */
  function Stored(block: seq<bv8>): seq<bv8> {
    block + LittleEndian(BlockCrc(block))
  }

  // ----- linearity and injectivity of the register

  function Plus(a: bv16, b: bv16): bv16 { a ^ b }

  function PlusByte(a: bv8, b: bv8): bv8 { a ^ b }

  lemma StepXor(sum: bv16, a: bv16, b: bv16)
    requires sum == a ^ b
    ensures Step(sum) == Step(a) ^ Step(b)
  {
    if a & 1 == 0 {
      if b & 1 == 0 {
      } else {
      }
    } else {
      if b & 1 == 0 {
      } else {
      }
    }
  }

  lemma StepLinear(a: bv16, b: bv16)
    ensures Step(Plus(a, b)) == Plus(Step(a), Step(b))
  {
    StepXor(Plus(a, b), a, b);
  }

  lemma StepInjective(a: bv16, b: bv16)
    requires Step(a) == Step(b)
    ensures a == b
  {
  }

  lemma StepsLinear(a: bv16, b: bv16, n: nat)
    ensures Iterate(Step, Plus(a, b), n) == Plus(Iterate(Step, a, n), Iterate(Step, b, n))
  {
    forall x, y
      ensures Step(Plus(x, y)) == Plus(Step(x), Step(y))
    {
      StepLinear(x, y);
    }
    IterateHomomorphic(Step, Plus, a, b, n);
  }

  lemma StepsInjective(a: bv16, b: bv16, n: nat)
    requires Iterate(Step, a, n) == Iterate(Step, b, n)
    ensures a == b
  {
    forall x, y | Step(x) == Step(y)
      ensures x == y
    {
      StepInjective(x, y);
    }
    IterateInjective(Step, a, b, n);
  }

  lemma CrcByteLinear(c: bv16, d: bv16, x: bv8, y: bv8)
    ensures CrcByte(Plus(c, d), PlusByte(x, y)) == Plus(CrcByte(c, x), CrcByte(d, y))
  {
    var cx, dy := c ^ (x as bv16), d ^ (y as bv16);
    assert Plus(c, d) ^ (PlusByte(x, y) as bv16) == Plus(cx, dy);
    StepsLinear(cx, dy, 8);
  }

  function Corrupt(bytes: seq<bv8>, error: seq<bv8>): (r: seq<bv8>)
    requires |bytes| == |error|
  {
    seq(|bytes|, i requires 0 <= i < |bytes| => PlusByte(bytes[i], error[i]))
  }

  /** Corrupting a message XORs the register with the fold of the error pattern alone. */
  lemma FoldLinear(c: bv16, d: bv16, bytes: seq<bv8>, error: seq<bv8>)
    requires |bytes| == |error|
    ensures Fold(Plus(c, d), Corrupt(bytes, error)) == Plus(Fold(c, bytes), Fold(d, error))
  {
    forall x, y, p, q
      ensures CrcByte(Plus(x, y), PlusByte(p, q)) == Plus(CrcByte(x, p), CrcByte(y, q))
    {
      CrcByteLinear(x, y, p, q);
    }
    FoldLeftHomomorphic(CrcByte, Plus, PlusByte, c, d, bytes, error, Corrupt(bytes, error));
  }

  // ----- the residue of an intact block

  lemma EightZeroShifts(c: bv16)
    requires c & 0xFF == 0
    ensures Iterate(Step, c, 8) == c >> 8
  {
    var c1, c2, c3, c4 := c >> 1, c >> 2, c >> 3, c >> 4;
    assert Step(c) == c1 && Step(c1) == c2 && Step(c2) == c3 && Step(c3) == c4;
    var c5, c6, c7, c8 := c >> 5, c >> 6, c >> 7, c >> 8;
    assert Step(c4) == c5 && Step(c5) == c6 && Step(c6) == c7 && Step(c7) == c8;
    assert Iterate(Step, c, 8) == Iterate(Step, c4, 4) == Iterate(Step, c8, 0);
  }

  lemma FoldTwo(crc: bv16, first: bv8, second: bv8)
    ensures Fold(crc, [first, second]) == CrcByte(CrcByte(crc, first), second)
  {
    var two := [first, second];
    var middle := CrcByte(crc, first);
    assert two[1..] == [second] && [second][1..] == [];
    assert Fold(middle, [second]) == FoldLeft(CrcByte, CrcByte(middle, second), []);
  }

  lemma LowCancels(crc: bv16)
    ensures (crc ^ (Low(crc) as bv16)) & 0xFF == 0
    ensures (crc ^ (Low(crc) as bv16)) >> 8 == crc >> 8
  {
  }

  lemma HighCancels(crc: bv16)
    ensures (crc >> 8) ^ (High(crc) as bv16) == 0
  {
  }

  lemma ResidueOfOwnCrc(crc: bv16)
    ensures Fold(crc, LittleEndian(crc)) == 0
  {
    LowCancels(crc);
    EightZeroShifts(crc ^ (Low(crc) as bv16));
    HighCancels(crc);
    EightZeroShifts(0);
    FoldTwo(crc, Low(crc), High(crc));
  }

  /** Folding a block together with its stored CRC always leaves zero. */
  lemma BlockResidue(block: seq<bv8>)
    ensures Fold(CrcByte(0, 0x80), Stored(block)) == 0
  {
    FoldLeftAppend(CrcByte, CrcByte(0, 0x80), block, LittleEndian(BlockCrc(block)));
    ResidueOfOwnCrc(BlockCrc(block));
  }

  // ----- what a corruption leaves in the register

  /** The register after a corrupted block is the fold of the error pattern alone. */
  lemma CorruptedResidue(block: seq<bv8>, error: seq<bv8>)
    requires |error| == |Stored(block)|
    ensures Fold(CrcByte(0, 0x80), Corrupt(Stored(block), error)) == Fold(0, error)
  {
    var start := CrcByte(0, 0x80);
    assert Plus(start, 0) == start;
    FoldLinear(start, 0, Stored(block), error);
    BlockResidue(block);
    assert Plus(0, Fold(0, error)) == Fold(0, error);
  }

  // ----- the register one bit at a time

  function BitValue(bit: bool): bv16 {
    if bit then 1 else 0
  }

  function StepBit(crc: bv16, bit: bool): bv16 {
    Step(Plus(crc, BitValue(bit)))
  }

  /** The register fed with single bits. */
  function FoldBits(crc: bv16, bits: seq<bool>): bv16 {
    FoldLeft(StepBit, crc, bits)
  }

  /** The lowest `n` bits of a byte, lowest first. */
  function LowBits(value: bv8, n: nat): (bits: seq<bool>)
    ensures |bits| == n
    decreases n
  {
    if n == 0 then [] else [value & 1 != 0] + LowBits(value >> 1, n - 1)
  }

  /** The bits of a byte in the order they pass the head. */
  function ByteBits(value: bv8): (bits: seq<bool>)
    ensures |bits| == 8
  {
    LowBits(value, 8)
  }

  function Bits(bytes: seq<bv8>): (bits: seq<bool>)
    ensures |bits| == 8 * |bytes|
  {
    if bytes == [] then [] else ByteBits(bytes[0]) + Bits(bytes[1..])
  }

  /** At most sixteen bits as the register they amount to. */
  function Packed(bits: seq<bool>): bv16 {
    if bits == [] then 0 else BitValue(bits[0]) ^ (Packed(bits[1..]) << 1)
  }

  /** 0x8000, halved `room` times. */
  function Limit(room: nat): (limit: bv16)
    ensures limit <= 0x8000
  {
    if room == 0 then 0x8000 else Limit(room - 1) >> 1
  }

  lemma {:induction false} PackedBound(bits: seq<bool>, room: nat)
    requires |bits| + room == 15
    ensures Packed(bits) < Limit(room)
    decreases |bits|
  {
    if bits == [] {
      assert Limit(15) == 1;
    } else {
      PackedBound(bits[1..], room + 1);
    }
  }

  lemma ShiftBack(rest: bv16, shifted: bv16)
    requires rest < 0x8000 && shifted == rest << 1
    ensures shifted & 1 == 0 && shifted >> 1 == rest && (shifted == 0 ==> rest == 0)
  {
  }

  lemma Regroup(crc: bv16, bit: bv16, shifted: bv16, sum: bv16, total: bv16)
    requires total == crc ^ (bit ^ shifted) && sum == crc ^ bit
    ensures total == sum ^ shifted
  {
  }

  lemma StepEven(rest: bv16, shifted: bv16)
    requires shifted & 1 == 0 && shifted >> 1 == rest
    ensures Step(shifted) == rest
  {
  }

  lemma StepOfSum(sum: bv16, shifted: bv16, total: bv16)
    requires total == sum ^ shifted
    ensures Step(total) == Plus(Step(sum), Step(shifted))
  {
    StepXor(total, sum, shifted);
  }

  lemma TotalStep(crc: bv16, bit: bv16, rest: bv16, shifted: bv16, sum: bv16, total: bv16)
    requires rest < 0x8000 && shifted == rest << 1
    requires sum == crc ^ bit && total == crc ^ (bit ^ shifted)
    ensures Step(total) == Plus(Step(sum), rest)
  {
    ShiftBack(rest, shifted);
    Regroup(crc, bit, shifted, sum, total);
    StepEven(rest, shifted);
    StepOfSum(sum, shifted, total);
  }

  /** The first bit goes in, the others move down one place. */
  lemma PackedStep(crc: bv16, bit: bv16, rest: bv16, shifted: bv16, packed: bv16, sum: bv16)
    requires rest < 0x8000 && shifted == rest << 1 && packed == bit ^ shifted && sum == Plus(crc, bit)
    ensures Step(Plus(crc, packed)) == Plus(Step(sum), rest)
  {
    TotalStep(crc, bit, rest, shifted, sum, Plus(crc, packed));
  }

  /** Feeding up to sixteen bits is adding them to the register at once, then shifting. */
  lemma {:induction false} FewBits(crc: bv16, bits: seq<bool>, packed: bv16)
    requires |bits| <= 16 && packed == Packed(bits)
    ensures FoldBits(crc, bits) == Iterate(Step, Plus(crc, packed), |bits|)
    decreases |bits|
  {
    if bits == [] {
      PlusZero(crc);
    } else {
      var bit, rest := BitValue(bits[0]), Packed(bits[1..]);
      PackedBound(bits[1..], 15 - |bits[1..]|);
      PackedStep(crc, bit, rest, rest << 1, packed, Plus(crc, bit));
      FewBits(StepBit(crc, bits[0]), bits[1..], rest);
    }
  }

  lemma PlusZero(crc: bv16)
    ensures Plus(crc, 0) == crc && Plus(0, crc) == crc
  {
  }

  /** Packing up to sixteen bits loses none. */
  lemma {:induction false} PackedZero(bits: seq<bool>, i: nat)
    requires |bits| <= 16 && Packed(bits) == 0 && i < |bits|
    ensures !bits[i]
    decreases |bits|
  {
    var bit, rest := BitValue(bits[0]), Packed(bits[1..]);
    PackedBound(bits[1..], 15 - |bits[1..]|);
    ShiftBack(rest, rest << 1);
    assert bit == 0 && rest << 1 == 0;
    if i == 0 {
    } else {
      PackedZero(bits[1..], i - 1);
    }
  }

  function ShiftedDown(value: bv8, n: nat): bv8
    decreases n
  {
    if n == 0 then value else ShiftedDown(value >> 1, n - 1)
  }

  lemma EightBits(value: bv8)
    ensures ShiftedDown(value, 8) == 0
  {
    assert ShiftedDown(value, 8) == ShiftedDown(value >> 4, 4) == ShiftedDown((value >> 4) >> 4, 0);
  }

  lemma Reassemble(value: bv8, half: bv8)
    requires half == value >> 1
    ensures BitValue(value & 1 != 0) ^ ((half as bv16) << 1) == value as bv16
    ensures value == 0 <==> value & 1 == 0 && half == 0
  {
  }

  lemma {:induction false} PackedByte(value: bv8, n: nat)
    requires ShiftedDown(value, n) == 0
    ensures Packed(LowBits(value, n)) == value as bv16
    decreases n
  {
    if n == 0 {
    } else {
      PackedByte(value >> 1, n - 1);
      Reassemble(value, value >> 1);
      assert LowBits(value, n)[1..] == LowBits(value >> 1, n - 1);
    }
  }

  lemma ByteIsBitwise(crc: bv16, value: bv8)
    ensures CrcByte(crc, value) == FoldBits(crc, ByteBits(value))
  {
    EightBits(value);
    PackedByte(value, 8);
    FewBits(crc, ByteBits(value), value as bv16);
  }

  /** The byte-wise register is the bit-wise one. */
  lemma {:induction false} FoldIsBitwise(crc: bv16, bytes: seq<bv8>)
    ensures Fold(crc, bytes) == FoldBits(crc, Bits(bytes))
    decreases |bytes|
  {
    if bytes == [] {
    } else {
      ByteIsBitwise(crc, bytes[0]);
      FoldLeftAppend(StepBit, crc, ByteBits(bytes[0]), Bits(bytes[1..]));
      FoldIsBitwise(CrcByte(crc, bytes[0]), bytes[1..]);
    }
  }

  // ----- bursts

  predicate HasBit(bits: seq<bool>) {
    exists k :: 0 <= k < |bits| && bits[k]
  }

  /** There is an error bit, and all of them lie in the sixteen from bit `at` on. */
  predicate IsBurst(error: seq<bv8>, at: nat) {
    var bits := Bits(error);
    HasBit(bits) && forall i :: 0 <= i < |bits| && bits[i] ==> at <= i < at + 16
  }

  lemma StepsKeepNonzero(seen: bv16, n: nat)
    requires seen != 0
    ensures Iterate(Step, seen, n) != 0
  {
    IterateFixed(Step, 0, n);
    if Iterate(Step, seen, n) == 0 {
      StepsInjective(seen, 0, n);
    }
  }

  lemma {:induction false} FoldNoBits(crc: bv16, bits: seq<bool>)
    requires forall i :: 0 <= i < |bits| ==> !bits[i]
    ensures FoldBits(crc, bits) == Iterate(Step, crc, |bits|)
    decreases |bits|
  {
    if bits == [] {
    } else {
      assert Plus(crc, BitValue(bits[0])) == crc;
      FoldNoBits(Step(crc), bits[1..]);
    }
  }

  lemma BitsOfBurst(before: seq<bool>, few: seq<bool>, after: seq<bool>)
    requires |few| <= 16 && HasBit(few)
    requires forall i :: 0 <= i < |before| ==> !before[i]
    requires forall i :: 0 <= i < |after| ==> !after[i]
    ensures FoldBits(0, (before + few) + after) != 0
  {
    FoldLeftAppend(StepBit, 0, before + few, after);
    FoldLeftAppend(StepBit, 0, before, few);
    FoldNoBits(0, before);
    IterateFixed(Step, 0, |before|);
    FewBits(0, few, Packed(few));
    PlusZero(Packed(few));
    if Packed(few) == 0 {
      var i :| 0 <= i < |few| && few[i];
      PackedZero(few, i);
    }
    StepsKeepNonzero(Packed(few), |few|);
    FoldNoBits(FoldBits(0, few), after);
    StepsKeepNonzero(FoldBits(0, few), |after|);
  }

  lemma ThreeParts(bits: seq<bool>, at: nat, past: nat)
    requires at <= past <= |bits|
    ensures bits == (bits[..at] + bits[at..past]) + bits[past..]
  {
  }

  lemma BitsAreSeen(bits: seq<bool>, at: nat, past: nat)
    requires at <= past <= |bits| && past <= at + 16 && HasBit(bits)
    requires forall i :: 0 <= i < |bits| && bits[i] ==> at <= i < past
    ensures FoldBits(0, bits) != 0
  {
    var few := bits[at..past];
    var i :| 0 <= i < |bits| && bits[i];
    assert few[i - at];
    ThreeParts(bits, at, past);
    BitsOfBurst(bits[..at], few, bits[past..]);
  }

  /** A nonzero error within sixteen consecutive bits never folds to zero, however long the message. */
  lemma BurstIsSeen(error: seq<bv8>, at: nat)
    requires IsBurst(error, at)
    ensures Fold(0, error) != 0
  {
    var bits := Bits(error);
    var end := if at + 16 < |bits| then at + 16 else |bits|;
    BitsAreSeen(bits, if at < end then at else end, end);
    FoldIsBitwise(0, error);
  }

  lemma {:induction false} BitsAt(bytes: seq<bv8>, i: nat, k: nat, place: nat)
    requires i < |bytes| && k < 8 && place == 8 * i + k
    ensures Bits(bytes)[place] == ByteBits(bytes[i])[k]
    decreases i
  {
    if i == 0 {
    } else {
      BitsAt(bytes[1..], i - 1, k, place - 8);
      assert bytes[1..][i - 1] == bytes[i];
    }
  }

  lemma FirstOrLater(first: bool, rest: seq<bool>)
    ensures HasBit([first] + rest) <==> first || HasBit(rest)
  {
    var bits := [first] + rest;
    if k :| 0 <= k < |rest| && rest[k] {
      assert bits[k + 1];
    }
    if k :| 0 < k < |bits| && bits[k] {
      assert rest[k - 1];
    }
    assert bits[0] == first;
  }

  lemma {:induction false} NonzeroLowBits(value: bv8, n: nat)
    requires ShiftedDown(value, n) == 0
    ensures value != 0 <==> HasBit(LowBits(value, n))
    decreases n
  {
    if n == 0 {
    } else {
      NonzeroLowBits(value >> 1, n - 1);
      Reassemble(value, value >> 1);
      FirstOrLater(value & 1 != 0, LowBits(value >> 1, n - 1));
    }
  }

  lemma NonzeroByte(value: bv8)
    ensures value != 0 <==> HasBit(ByteBits(value))
  {
    EightBits(value);
    NonzeroLowBits(value, 8);
  }

  /** A set bit lies in a nonzero byte. */
  lemma BitInByte(error: seq<bv8>, i: nat)
    requires i < 8 * |error| && Bits(error)[i]
    ensures error[i / 8] != 0
  {
    BitsAt(error, i / 8, i % 8, i);
    NonzeroByte(error[i / 8]);
  }

  lemma ByteHasBit(error: seq<bv8>, byte: nat)
    requires byte < |error| && error[byte] != 0
    ensures HasBit(Bits(error))
  {
    NonzeroByte(error[byte]);
    var k :| 0 <= k < 8 && ByteBits(error[byte])[k];
    BitsAt(error, byte, k, 8 * byte + k);
  }

  /** In particular any error confined to two adjacent bytes is such a burst. */
  lemma AdjacentBytesAreBurst(error: seq<bv8>, at: nat)
    requires at + 1 < |error| && (error[at] != 0 || error[at + 1] != 0)
    requires forall i :: 0 <= i < |error| && i != at && i != at + 1 ==> error[i] == 0
    ensures IsBurst(error, 8 * at)
  {
    var bits := Bits(error);
    ByteHasBit(error, if error[at] != 0 then at else at + 1);
    forall i | 0 <= i < |bits| && bits[i]
      ensures 8 * at <= i < 8 * at + 16
    {
      BitInByte(error, i);
    }
  }
}
