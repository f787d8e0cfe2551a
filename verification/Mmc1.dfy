/**
MMC1.  Registers are loaded one bit at a time through a 5-bit shift register whose low
sentinel bit counts the writes; a write in the cycle right after an accepted one is dropped.
*/
module Mmc1Serial {
  import opened Iteration
  import opened MachineWords
  import opened Options

  const U64_MAX := 0xFFFF_FFFF_FFFF_FFFF
  type Cycle = n: int | 0 <= n <= U64_MAX

  datatype Registers = Registers(
    control: Byte, chrBank0: Byte, chrBank1: Byte, prgBank: Byte, ramEnabled: bool,
    mismatchReported: bool)

  /** The serial port and the registers behind it. */
  datatype Port = Port(shift: Byte, last: Option<Cycle>, regs: Registers)

  /** A write to $8000-$FFFF. */
  datatype Access = Access(addr: RomAddr, value: Byte, cycle: Cycle)
  type RomAddr = a: int | 0x8000 <= a <= 0xFFFF witness 0x8000

  function PowerOn(): Port {
    Port(0x10, None, Registers(0x0C, 0, 0, 0, true, false))
  }

  /** The last accepted write was in the cycle before this one. */
  predicate IsAdjacent(last: Option<Cycle>, cycle: Cycle) {
    last.Some? && last.value != U64_MAX && last.value + 1 == cycle
  }

  function ForceFixedUpper(control: Byte): Byte {
    control - control % 16 + 12 + control % 4
  }

  function Commit(r: Registers, addr: RomAddr, data: Byte): Registers {
    if addr < 0xA000 then r.(control := data % 32, mismatchReported := false)
    else if addr < 0xC000 then r.(chrBank0 := data % 32, mismatchReported := false)
    else if addr < 0xE000 then r.(chrBank1 := data % 32, mismatchReported := false)
    else r.(prgBank := data % 32, ramEnabled := (data / 16) % 2 == 0)
  }

  /** Shift right and bring a bit in at position 4. */
  function ShiftIn(shift: Byte, bit: int): Byte
    requires 0 <= bit <= 1
  {
    var half := shift / 2;
    if (half / 16) % 2 == 1 then half else half + 16 * bit
  }

  function Write(p: Port, w: Access): Port {
    if w.value >= 0x80 then
      Port(0x10, Some(w.cycle), p.regs.(control := ForceFixedUpper(p.regs.control)))
    else if IsAdjacent(p.last, w.cycle) then p
    else
      var shift := ShiftIn(p.shift, w.value % 2);
      if p.shift % 2 == 1 then Port(0x10, Some(w.cycle), Commit(p.regs, w.addr, shift % 32))
      else Port(shift, Some(w.cycle), p.regs)
  }

  // ----- what the port means

  type Bits = s: seq<int> | |s| <= 4 && forall i :: 0 <= i < |s| ==> 0 <= s[i] <= 1

  /** The bits accepted since the last reset or commit, oldest first, instead of a shift register. */
  datatype Queue = Queue(bits: Bits, last: Option<Cycle>, regs: Registers)

  /** The value of a list of bits, least significant first. */
  function Value(bits: seq<int>): int {
    if bits == [] then 0 else bits[0] + 2 * Value(bits[1..])
  }

  function QueueWrite(q: Queue, w: Access): Queue {
    if w.value >= 0x80 then
      Queue([], Some(w.cycle), q.regs.(control := ForceFixedUpper(q.regs.control)))
    else if IsAdjacent(q.last, w.cycle) then q
    else
      var bits := q.bits + [w.value % 2];
      if |bits| == 5 then
        Queue([], Some(w.cycle), Commit(q.regs, w.addr, FiveBits(bits)))
      else Queue(bits, Some(w.cycle), q.regs)
  }

  function FiveBits(bits: seq<int>): (b: Byte)
    requires |bits| == 5 && forall i :: 0 <= i < 5 ==> 0 <= bits[i] <= 1
    ensures b == Value(bits) < 32
  {
    ValueOfFive(bits);
    Value(bits)
  }

  lemma ValueOfFive(bits: seq<int>)
    requires |bits| == 5 && forall i :: 0 <= i < 5 ==> 0 <= bits[i] <= 1
    ensures Value(bits) == bits[0] + 2 * bits[1] + 4 * bits[2] + 8 * bits[3] + 16 * bits[4]
  {
    assert Value(bits[3..]) == bits[3] + 2 * bits[4] by {
      assert bits[3..][1..] == [bits[4]];
      assert Value([bits[4]]) == bits[4] + 2 * Value([bits[4]][1..]);
    }
    assert Value(bits[2..]) == bits[2] + 2 * Value(bits[3..]) by {
      assert bits[2..][1..] == bits[3..];
    }
    assert Value(bits[1..]) == bits[1] + 2 * Value(bits[2..]) by {
      assert bits[1..][1..] == bits[2..];
    }
  }

  lemma {:induction false} ValueAppend(bits: seq<int>, bit: int)
    ensures Value(bits + [bit]) == Value(bits) + Power2(|bits|) * bit
    decreases |bits|
  {
    if bits == [] {
      assert ([] + [bit])[1..] == [];
    } else {
      ValueAppend(bits[1..], bit);
      assert (bits + [bit])[1..] == bits[1..] + [bit];
      assert 2 * (Power2(|bits| - 1) * bit) == Power2(|bits|) * bit;
    }
  }

  function Power2(n: nat): nat {
    if n == 0 then 1 else 2 * Power2(n - 1)
  }

  /** `n` queued bits of this value under the sentinel, shifted down from position 4. */
  function Shifted(n: nat, value: int): int
    requires n <= 4
  {
    if n == 0 then 16
    else if n == 1 then 8 + 16 * value
    else if n == 2 then 4 + 8 * value
    else if n == 3 then 2 + 4 * value
    else 1 + 2 * value
  }

  predicate Encodes(shift: Byte, bits: Bits) {
    0 <= Value(bits) < Power2(|bits|) && shift == Shifted(|bits|, Value(bits))
  }

  predicate Represents(p: Port, q: Queue) {
    Encodes(p.shift, q.bits) && p.last == q.last && p.regs == q.regs
  }

  lemma Powers(n: nat)
    requires n <= 4
    ensures Power2(n) == if n == 0 then 1 else if n == 1 then 2 else if n == 2 then 4
                         else if n == 3 then 8 else 16
  {
    assert Power2(2) == 4;
  }

  lemma ShiftEncodes(shift: Byte, bits: Bits, bit: int)
    requires Encodes(shift, bits) && 0 <= bit <= 1
    ensures (shift % 2 == 1) == (|bits| == 4)
    ensures |bits| < 4 ==> Encodes(ShiftIn(shift, bit), bits + [bit])
    ensures |bits| == 4 ==> ShiftIn(shift, bit) == Value(bits + [bit])
  {
    var n, added := |bits|, Power2(|bits|) * bit;
    PlaceValue(n, bit, added);
    ShiftArithmetic(shift, n, n + 1, Value(bits), bit, added);
    ValueAppend(bits, bit);
    assert |bits + [bit]| == n + 1;
  }

  lemma PlaceValue(n: nat, bit: int, added: int)
    requires n <= 4 && 0 <= bit <= 1 && added == Power2(n) * bit
    ensures added == if bit == 0 then 0 else Power2(n)
  {
  }

  lemma ShiftArithmetic(shift: Byte, n: nat, next: nat, value: int, bit: int, added: int)
    requires n <= 4 && next == n + 1 && 0 <= value < Power2(n) && 0 <= bit <= 1
    requires shift == Shifted(n, value) && added == if bit == 0 then 0 else Power2(n)
    ensures (shift % 2 == 1) == (n == 4)
    ensures 0 <= added && (n < 4 ==> value + added < Power2(next))
    ensures ShiftIn(shift, bit) == if n < 4 then Shifted(next, value + added) else value + added
  {
    Powers(n);
  }

  lemma WriteRefines(p: Port, q: Queue, w: Access)
    requires Represents(p, q)
    ensures Represents(Write(p, w), QueueWrite(q, w))
  {
    ShiftEncodes(p.shift, q.bits, w.value % 2);
  }

  /** Over every sequence of writes the shift register encodes exactly the queued bits. */
  lemma {:induction false} RunRefines(p: Port, q: Queue, log: seq<Access>)
    requires Represents(p, q)
    ensures Represents(FoldLeft(Write, p, log), FoldLeft(QueueWrite, q, log))
    decreases |log|
  {
    if log == [] {
    } else {
      WriteRefines(p, q, log[0]);
      RunRefines(Write(p, log[0]), QueueWrite(q, log[0]), log[1..]);
    }
  }

  lemma RunFromPowerOn(log: seq<Access>)
    ensures Represents(FoldLeft(Write, PowerOn(), log),
                       FoldLeft(QueueWrite, Queue([], None, PowerOn().regs), log))
  {
    RunRefines(PowerOn(), Queue([], None, PowerOn().regs), log);
  }

  /** A write in a new cycle leaves the port as it was exactly when it is a dropped serial bit. */
  lemma DroppedIff(p: Port, w: Access)
    requires p.last != Some(w.cycle)
    ensures Write(p, w) == p <==> w.value < 0x80 && IsAdjacent(p.last, w.cycle)
  {
  }

  /**
  A read-modify-write instruction writes twice in a row: after an accepted first write a serial
  second one is dropped, and the log without it leaves the port the same.
  */
  lemma SecondWriteDropped(p: Port, first: Access, second: Access, rest: seq<Access>)
    requires second.value < 0x80 && second.cycle == first.cycle + 1
    requires first.value >= 0x80 || !IsAdjacent(p.last, first.cycle)
    ensures FoldLeft(Write, p, [first] + ([second] + rest)) == FoldLeft(Write, p, [first] + rest)
  {
    FoldLeftFront(Write, p, first, [second] + rest);
    FoldLeftFront(Write, Write(p, first), second, rest);
    FoldLeftFront(Write, p, first, rest);
    AcceptedIsLast(p, first);
    DroppedIff(Write(p, first), second);
  }

  lemma AcceptedIsLast(p: Port, w: Access)
    requires w.value >= 0x80 || !IsAdjacent(p.last, w.cycle)
    ensures Write(p, w).last == Some(w.cycle)
  {
  }

  /** In every run work RAM is enabled exactly while bit 4 of the PRG register is clear. */
  predicate RamFollowsPrg(r: Registers) {
    r.ramEnabled == ((r.prgBank / 16) % 2 == 0) && r.control < 32 && r.chrBank0 < 32 &&
    r.chrBank1 < 32 && r.prgBank < 32
  }

  lemma {:induction false} RunKeepsRamGate(p: Port, log: seq<Access>)
    requires RamFollowsPrg(p.regs)
    ensures RamFollowsPrg(FoldLeft(Write, p, log).regs)
    decreases |log|
  {
    if log == [] {
    } else {
      RunKeepsRamGate(Write(p, log[0]), log[1..]);
    }
  }

  /** Each of five writes is a serial bit and none is in the cycle after the one before. */
  predicate FiveAccepted(last: Option<Cycle>, w: seq<Access>) {
    |w| == 5 && (forall i :: 0 <= i < 5 ==> w[i].value < 0x80) &&
    (last.Some? ==> w[0].cycle != last.value + 1) &&
    w[1].cycle != w[0].cycle + 1 && w[2].cycle != w[1].cycle + 1 &&
    w[3].cycle != w[2].cycle + 1 && w[4].cycle != w[3].cycle + 1
  }

  /**
  Five accepted bits after a reset or commit load their value, first bit lowest, into the
  register that the fifth write's address selects; the other four addresses do not matter.
  */
  lemma FiveBitsCommit(p: Port, w: seq<Access>)
    requires p.shift == 0x10 && FiveAccepted(p.last, w)
    ensures FoldLeft(Write, p, w)
         == Port(0x10, Some(w[4].cycle),
                 Commit(p.regs, w[4].addr,
                        w[0].value % 2 + 2 * (w[1].value % 2) + 4 * (w[2].value % 2)
                        + 8 * (w[3].value % 2) + 16 * (w[4].value % 2)))
  {
    var q := Queue([], p.last, p.regs);
    RunRefines(p, q, w);
    FoldLeftFive(QueueWrite, q, w);
    FiveBitsQueue(q, w);
  }

  lemma FourBitsQueue(q: Queue, w: seq<Access>)
    requires q.bits == [] && FiveAccepted(q.last, w)
    ensures QueueWrite(QueueWrite(QueueWrite(QueueWrite(q, w[0]), w[1]), w[2]), w[3])
         == Queue([w[0].value % 2, w[1].value % 2, w[2].value % 2, w[3].value % 2],
                  Some(w[3].cycle), q.regs)
  {
  }

  lemma FiveBitsQueue(q: Queue, w: seq<Access>)
    requires q.bits == [] && FiveAccepted(q.last, w)
    ensures QueueWrite(QueueWrite(QueueWrite(QueueWrite(QueueWrite(q, w[0]), w[1]), w[2]), w[3]), w[4])
         == Queue([], Some(w[4].cycle),
                  Commit(q.regs, w[4].addr,
                         w[0].value % 2 + 2 * (w[1].value % 2) + 4 * (w[2].value % 2)
                         + 8 * (w[3].value % 2) + 16 * (w[4].value % 2)))
  {
    FourBitsQueue(q, w);
    var bits := [w[0].value % 2, w[1].value % 2, w[2].value % 2, w[3].value % 2, w[4].value % 2];
    assert [w[0].value % 2, w[1].value % 2, w[2].value % 2, w[3].value % 2] + [w[4].value % 2] == bits;
    ValueOfFive(bits);
  }
}
