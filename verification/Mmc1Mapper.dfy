/**
The MMC1 mapper in place: serial port, registers, work RAM and CHR backing.  Every method is one
operation of module Mmc1Snapshot.
*/
module Mmc1Board {
  import Banks
  import opened Codec
  import opened MachineWords
  import opened Mmc1Serial
  import opened Mmc1Snapshot
  import Options
  import PrgWindows

  class Mmc1Mapper {
    const config: Config
    const prgRam: array<Byte>
    const chr: array<Byte>
    var shift: Byte
    var lastMapperWriteCycle: Options.Option<Cycle>
    var regs: Registers
    var lastPpuAddr: Word

    ghost predicate Valid()
    {
      prgRam.Length > 0 && prgRam != chr
    }

    ghost function PortState(): Port
      reads this
    {
      Port(shift, lastMapperWriteCycle, regs)
    }

    ghost function State(): Chip
      requires Valid()
      reads this, prgRam, chr
    {
      Chip(config, PortState(), lastPpuAddr, prgRam[..], chr[..])
    }

    /** Work RAM has at least one byte. */
    constructor (config: Config, ramSize: nat, chrBytes: seq<Byte>)
      ensures Valid() && fresh(prgRam) && fresh(chr)
      ensures State() == Chip(config, PowerOn(), 0,
                              seq(if ramSize > 1 then ramSize else 1, _ => 0), chrBytes)
    {
      this.config := config;
      prgRam := new Byte[if ramSize > 1 then ramSize else 1](_ => 0);
      chr := new Byte[|chrBytes|](i requires 0 <= i < |chrBytes| => chrBytes[i]);
      shift, lastMapperWriteCycle, regs, lastPpuAddr := 0x10, Options.None, PowerOn().regs, 0;
      new;
      assert prgRam[..] == seq(if ramSize > 1 then ramSize else 1, _ => 0) && chr[..] == chrBytes;
    }

    method WriteSerial(addr: RomAddr, value: Byte, cycle: Cycle)
      modifies this`shift, this`lastMapperWriteCycle, this`regs
      ensures PortState() == Write(old(PortState()), Access(addr, value, cycle))
    {
      if value >= 0x80 {
        shift := 0x10;
        regs := regs.(control := ForceFixedUpper(regs.control));
        lastMapperWriteCycle := Options.Some(cycle);
      } else {
        if lastMapperWriteCycle.Some? && lastMapperWriteCycle.value != U64_MAX
           && lastMapperWriteCycle.value + 1 == cycle {
          return;
        }
        lastMapperWriteCycle := Options.Some(cycle);
        var complete := shift % 2 == 1;
        shift := ShiftIn(shift, value % 2);
        if complete {
          regs := Commit(regs, addr, shift % 32);
          shift := 0x10;
        }
      }
    }

    /** RAM takes writes only while enabled; ROM addresses drive the serial port. */
    method WritePrg(addr: Word, value: Byte, cycle: Cycle)
      requires Valid()
      modifies this`shift, this`lastMapperWriteCycle, this`regs, prgRam
      ensures State() == Step(old(State()), Op.WritePrg(addr, value, cycle))
      ensures 0x6000 <= addr < 0x8000 && !old(regs.ramEnabled) ==> State() == old(State())
    {
      if 0x6000 <= addr < 0x8000 {
        if regs.ramEnabled {
          prgRam[(addr - 0x6000) % prgRam.Length] := value;
        }
      } else if addr >= 0x8000 {
        WriteSerial(addr, value, cycle);
      }
    }

    method ReadPrg(addr: Word) returns (value: Byte)
      requires Valid()
      ensures value == Seen(State(), Op.ReadPrg(addr))
      ensures 0x6000 <= addr < 0x8000 && !regs.ramEnabled ==> value == 0xFF
    {
      if 0x6000 <= addr < 0x8000 {
        value := if regs.ramEnabled then prgRam[(addr - 0x6000) % prgRam.Length] else 0xFF;
      } else {
        var windows := PrgWindows.Mmc1(config.rom, prgRam[..], config.surom, regs.control, regs.chrBank0,
                                       regs.prgBank, regs.ramEnabled);
        value := PrgWindows.Mmc1Read(windows, addr);
      }
    }

    method ReadChr(addr: Word) returns (value: Byte)
      requires Valid()
      ensures value == Seen(State(), Op.ReadChr(addr))
    {
      var window := ChrWindow(regs, addr);
      value := Banks.ReadBank(chr[..], window.0, window.1, window.2);
    }

    method WriteChr(addr: Word, value: Byte)
      requires Valid()
      modifies chr
      ensures State() == Step(old(State()), Op.WriteChr(addr, value))
    {
      var window := ChrWindow(regs, addr);
      if config.chrWritable && chr.Length > 0 {
        chr[Banks.BankIndex(chr.Length, window.0, window.1, window.2)] := value;
      }
    }

    /** The mismatch is reported once, until a CHR or control commit rearms it. */
    method NotifyPpuAddr(addr: Word) returns (reported: bool)
      requires Valid()
      modifies this`lastPpuAddr, this`regs
      ensures State() == Step(old(State()), NotifyPpu(addr))
      ensures Bit(reported) == Seen(old(State()), NotifyPpu(addr))
    {
      lastPpuAddr := addr;
      reported := config.surom && (regs.control / 16) % 2 == 1 &&
        (regs.chrBank0 / 16) % 2 != (regs.chrBank1 / 16) % 2 && !regs.mismatchReported;
      if reported {
        regs := regs.(mismatchReported := true);
      }
    }

    method SnapshotBytes() returns (bytes: seq<Byte>)
      requires Valid()
      ensures bytes == Snapshot(State())
    {
      var head: seq<Byte> :=
        [shift, regs.control, regs.chrBank0, regs.chrBank1, regs.prgBank, config.mirroring,
         Bit(config.battery), Bit(config.surom), config.submapper, Bit(regs.ramEnabled),
         Bit(regs.mismatchReported)];
      var last := if lastMapperWriteCycle.Some? then lastMapperWriteCycle.value else U64_MAX;
      var fields: seq<seq<Byte>> :=
        [head, LittleEndian(last, 8), LittleEndian(lastPpuAddr, 2), prgRam[..], chr[..]];
      bytes := Concat(fields);
    }

    /** A rejected snapshot changes nothing; an accepted one replaces all mutable state. */
    method RestoreSnapshotBytes(bytes: seq<Byte>) returns (ok: bool)
      requires Valid()
      modifies this`shift, this`lastMapperWriteCycle, this`regs, this`lastPpuAddr, prgRam, chr
      ensures ok <==> Restore(old(State()), bytes).Some?
      ensures State() == if ok then Restore(old(State()), bytes).value else old(State())
    {
      var ramEnd := HEADER + prgRam.Length;
      if |bytes| != ramEnd + chr.Length || bytes[5] != config.mirroring
         || bytes[6] != Bit(config.battery) || bytes[7] != Bit(config.surom)
         || bytes[8] != config.submapper {
        return false;
      }
      Ranges();
      LittleEndianRange(bytes[11..19]);
      LittleEndianRange(bytes[19..21]);
      shift := bytes[0];
      regs := Registers(bytes[1], bytes[2], bytes[3], bytes[4], bytes[9] != 0, bytes[10] != 0);
      lastMapperWriteCycle := LastFrom(FromLittleEndian(bytes[11..19]));
      lastPpuAddr := FromLittleEndian(bytes[19..21]);
      CopyInto(prgRam, bytes[HEADER..ramEnd]);
      CopyInto(chr, bytes[ramEnd..]);
      ok := true;
    }
  }
}
