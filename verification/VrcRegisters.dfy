/**
The VRC interrupt registers as a program sees them: which address bits select them on each board, and
what a programmed counter does until it is acknowledged, and after.
*/
module VrcRegisters {
  import opened Iteration
  import opened MachineWords
  import opened VrcIrq

  lemma LineNext(addr: nat, line: nat, next: nat)
    requires next == line + 1
    ensures AddressLine(addr, next) == AddressLine(addr / 2, line)
  {
  }

  lemma LowLines(addr: nat)
    ensures AddressLine(addr, 0) == addr % 2 && AddressLine(addr, 1) == addr / 2 % 2
    ensures AddressLine(addr, 2) == addr / 4 % 2 && AddressLine(addr, 3) == addr / 8 % 2
  {
    var a1, a2 := addr / 2, addr / 4;
    assert a1 / 2 == a2 && a2 / 2 == addr / 8;
    LineNext(a2, 0, 1);
    LineNext(a1, 0, 1);
    LineNext(a1, 1, 2);
    LineNext(addr, 0, 1);
    LineNext(addr, 1, 2);
    LineNext(addr, 2, 3);
  }

  lemma HighLines(addr: nat, upper: nat)
    requires upper == addr / 16
    ensures AddressLine(addr, 6) == upper / 4 % 2 && AddressLine(addr, 7) == upper / 8 % 2
  {
    var a1, a2, a3 := addr / 2, addr / 4, addr / 8;
    assert a1 / 2 == a2 && a2 / 2 == a3 && a3 / 2 == upper;
    LowLines(upper);
    LineNext(addr, 5, 6);
    LineNext(addr, 6, 7);
    LineNext(a1, 4, 5);
    LineNext(a1, 5, 6);
    LineNext(a2, 3, 4);
    LineNext(a2, 4, 5);
    LineNext(a3, 2, 3);
    LineNext(a3, 3, 4);
  }

  /** The register that two bits of an address select, as the weights of those bits. */
  predicate SelectsBy(mapper: nat, submapper: nat, addr: Word, low: nat, high: nat)
    requires low > 0 && high > 0
  {
    RegisterSelect(mapper, submapper, addr) == addr / low % 2 + 2 * (addr / high % 2)
  }

  /** The address bits of every board, by mapper and submapper number. */
  lemma BoardAddresses(submapper: nat, addr: Word)
    ensures SelectsBy(21, submapper, addr, if submapper == 2 then 0x40 else 0x02,
                                           if submapper == 2 then 0x80 else 0x04)
    ensures SelectsBy(22, submapper, addr, 0x02, 0x01)
    ensures SelectsBy(23, submapper, addr, if submapper == 2 then 0x04 else 0x01,
                                           if submapper == 2 then 0x08 else 0x02)
    ensures SelectsBy(25, submapper, addr, if submapper == 2 then 0x08 else 0x02,
                                           if submapper == 2 then 0x04 else 0x01)
    ensures SelectsBy(27, submapper, addr, 0x01, 0x02)
  {
    var upper := addr / 16;
    LowLines(addr);
    HighLines(addr, upper);
    assert upper / 4 == addr / 0x40 && upper / 8 == addr / 0x80;
  }

  // ----- a programmed counter

  /** Latch nibbles and control written, in this order. */
  function Vrc4Started(s: Vrc4, low: Byte, high: Byte, control: Byte): Vrc4 {
    Vrc4Write(Vrc4Write(Vrc4Write(s, 0, low), 1, high), 2, control)
  }

  lemma StartedSpelled(s: Vrc4, low: Byte, high: Byte, control: Byte)
    requires low < 16 && high < 16
    ensures var t := Vrc4Started(s, low, high, control);
      t.enabled == (control % 4 >= 2) && CountsCycles(t) == (control % 8 >= 4) && t.prescaler == 0 &&
      !t.counter.pending && t.counter.latch == low + 16 * high && t.control == control % 8 &&
      (t.enabled ==> t.counter.value == low + 16 * high)
  {
    ControlBits(control);
  }

  lemma ControlBits(control: Byte)
    ensures (control / 2) % 2 == 1 <==> control % 4 >= 2
    ensures (control % 8 / 4) % 2 == 1 <==> control % 8 >= 4
    ensures control % 8 % 2 == control % 2
  {
  }

  /** The cycles a latch of `latch` needs to its interrupt: 256 less it, or as many scanlines. */
  function Due(latch: nat, control: Byte, cycles: nat): bool {
    if control % 8 >= 4 then cycles >= 0x100 - latch else 3 * cycles >= 341 * (0x100 - latch)
  }

  /**
  Whatever came before, a programmed VRC4 counter is pending exactly once the cycles, or the scanlines of
  113 2/3 cycles, that the latch leaves to 256 have passed, in one chunk of any size, if bit 1 enabled it.
  */
  lemma Vrc4Programmed(s: Vrc4, low: Byte, high: Byte, control: Byte, cycles: nat)
    requires low < 16 && high < 16
    ensures Vrc4Bulk(Vrc4Started(s, low, high, control), cycles).counter.pending
       <==> control % 4 >= 2 && Due(low + 16 * high, control, cycles)
  {
    var t := Vrc4Started(s, low, high, control);
    StartedSpelled(s, low, high, control);
    if t.enabled && !CountsCycles(t) {
      ScanlinesDue(low + 16 * high, cycles, 3 * cycles / 341);
    }
  }

  lemma ScanlinesDue(latch: nat, cycles: nat, lines: nat)
    requires latch < 0x100 && lines == 3 * cycles / 341
    ensures latch + lines >= 0x100 <==> 3 * cycles >= 341 * (0x100 - latch)
  {
  }

  /** Acknowledging clears the interrupt, keeps the counter, and leaves it running exactly if bit 0 is set. */
  lemma Vrc4Acknowledged(s: Vrc4, low: Byte, high: Byte, control: Byte, cycles: nat, value: Byte)
    requires low < 16 && high < 16
    ensures var t := Vrc4Bulk(Vrc4Started(s, low, high, control), cycles);
      Vrc4Write(t, 3, value)
        == t.(counter := t.counter.(pending := false), enabled := control % 2 == 1)
  {
    StartedSpelled(s, low, high, control);
    ControlBits(control);
  }

  // ----- VRC3

  function Vrc3Started(s: Vrc3, n0: Byte, n1: Byte, n2: Byte, n3: Byte, control: Byte): Vrc3 {
    Vrc3Write(Vrc3Latched(s, n0, n1, n2, n3), 0xC, control)
  }

  /**
  A programmed VRC3 counter is pending exactly once the cycles its latch leaves to its width have passed:
  $100 with bit 2 of the control register, $10000 without it.
  */
  lemma Vrc3Programmed(
    s: Vrc3, n0: Byte, n1: Byte, n2: Byte, n3: Byte, control: Byte, cycles: nat)
    requires n0 < 16 && n1 < 16 && n2 < 16 && n3 < 16 && control % 4 >= 2 && cycles >= 1
    ensures Iterate(Vrc3Tick, Vrc3Started(s, n0, n1, n2, n3, control), cycles).pending <==>
      n0 + 0x10 * n1 + 0x100 * n2 + 0x1000 * n3 + cycles >= if control % 8 >= 4 then 0x100 else 0x1_0000
  {
    Vrc3Bits(control);
    Vrc3ProgrammedPeriod(s, n0, n1, n2, n3, control, cycles);
  }

  lemma Vrc3Bits(control: Byte)
    ensures (control / 2) % 2 == 1 <==> control % 4 >= 2
    ensures (control / 4) % 2 == 1 <==> control % 8 >= 4
  {
  }

  lemma {:induction false} Vrc3TicksKeep(s: Vrc3, cycles: nat)
    ensures var t := Iterate(Vrc3Tick, s, cycles);
      t.control == s.control && t.latch == s.latch && t.enabled == s.enabled
    decreases cycles
  {
    if cycles == 0 {
    } else {
      Vrc3TicksKeep(Vrc3Tick(s), cycles - 1);
    }
  }

  /** Acknowledging it clears the interrupt and leaves it running exactly if bit 0 is set. */
  lemma Vrc3Acknowledged(
    s: Vrc3, n0: Byte, n1: Byte, n2: Byte, n3: Byte, control: Byte, cycles: nat, value: Byte)
    ensures var t := Iterate(Vrc3Tick, Vrc3Started(s, n0, n1, n2, n3, control), cycles);
      Vrc3Write(t, 0xD, value) == t.(pending := false, enabled := control % 2 == 1)
  {
    Vrc3TicksKeep(Vrc3Started(s, n0, n1, n2, n3, control), cycles);
  }
}
