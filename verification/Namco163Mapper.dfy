/**
The Namco 163 mapper in place: its registers, work RAM and CHR backing around the sound unit.
Every method is one operation of module Namco163Snapshot.
*/
module Namco163Board {
  import opened Banks
  import opened Codec
  import Integrator
  import opened MachineWords
  import Namco163
  import opened Namco163Snapshot

  class Namco163Mapper {
    const config: Config
    const sound: Namco163.SoundUnit
    const prgRam: array<Byte>
    const chr: array<Byte>
    var regs: Registers

    ghost predicate Valid()
      reads this
    {
      sound.Valid() && prgRam.Length == 0x2000 &&
      prgRam != chr && prgRam != sound.internalRam && chr != sound.internalRam
    }

    ghost function State(): Chip
      requires Valid()
      reads this, sound, sound.internalRam, sound.channelOutputs, prgRam, chr
    {
      Chip(config, regs, sound.VoicesState(), sound.soundDivider, sound.sampleArea,
           sound.sampleCycles, prgRam[..], chr[..])
    }

    constructor (config: Config, nametables: NtRegs, chrBytes: seq<Byte>)
      ensures Valid() && State() == PowerOn(config, nametables, chrBytes, false)
    {
      this.config := config;
      sound := new Namco163.SoundUnit();
      prgRam := new Byte[0x2000](_ => 0);
      chr := new Byte[|chrBytes|](i requires 0 <= i < |chrBytes| => chrBytes[i]);
      regs := PowerOn(config, nametables, chrBytes, false).regs;
      new;
      assert prgRam[..] == seq(0x2000, _ => 0) && chr[..] == chrBytes;
    }

    method ReadPrg(addr: Word) returns (value: Byte)
      requires Valid()
      modifies this`regs
      ensures value == ReadPrgValue(old(State()), addr)
      ensures State() == ReadPrgStep(old(State()), addr)
    {
      if 0x4800 <= addr < 0x5000 {
        value := sound.internalRam[regs.ramAddr];
        regs := Incremented(regs);
      } else if 0x6000 <= addr < 0x8000 {
        value := prgRam[addr % K8];
      } else if 0x8000 <= addr {
        var slot, count := (addr - 0x8000) / K8, BankCount(|config.rom|, K8);
        value := ReadBank(config.rom, K8, if slot < 3 then regs.prgRegs[slot] % count else count - 1,
                          addr % K8);
      } else if 0x5800 <= addr {
        value := regs.irqCounter / 0x100 + 0x80 * Bit(regs.irqEnabled);
      } else if 0x5000 <= addr {
        value := regs.irqCounter % 0x100;
      } else {
        value := 0;
      }
    }

    /** A data-port write reaches sound RAM and may move the address on. */
    method WritePort(value: Byte)
      requires Valid()
      modifies this`regs, sound.internalRam
      ensures State() == WritePrgStep(old(State()), 0x4800, value)
    {
      sound.internalRam[regs.ramAddr] := value;
      assert sound.internalRam[..] == old(sound.internalRam[..])[old(regs.ramAddr) := value];
      regs := Incremented(regs.(audioWrites := SaturatingIncrement(regs.audioWrites)));
    }

    method WritePrg(addr: Word, value: Byte)
      requires Valid()
      modifies this`regs, sound.internalRam, prgRam
      ensures State() == WritePrgStep(old(State()), addr, value)
    {
      if 0x4800 <= addr < 0x5000 {
        WritePort(value);
      } else if 0x6000 <= addr < 0x8000 {
        if RamWritable(regs.ramPort, addr) {
          prgRam[addr % K8] := value;
        }
      } else {
        WriteRegisters(addr, value);
      }
    }

    method WriteRegisters(addr: Word, value: Byte)
      requires Valid() && !(0x4800 <= addr < 0x5000) && !(0x6000 <= addr < 0x8000)
      modifies this`regs
      ensures State() == WritePrgStep(old(State()), addr, value)
    {
      if 0x5000 <= addr < 0x5800 {
        regs := regs.(irqCounter := regs.irqCounter - regs.irqCounter % 0x100 + value, irqPending := false);
      } else if 0x5800 <= addr < 0x6000 {
        regs := regs.(irqCounter := regs.irqCounter % 0x100 + 0x100 * (value % 0x80),
                      irqEnabled := value >= 0x80, irqPending := false);
      } else if addr >= 0x8000 {
        regs := WriteRegister(regs, addr, value);
      }
    }

    method ReadChr(addr: Word) returns (value: Byte)
      requires Valid()
      ensures value == Seen(State(), Op.ReadChr(addr))
    {
      value := ReadBank(chr[..], 0x400, regs.chrRegs[(addr / 0x400) % 8], addr % 0x400);
    }

    method WriteChr(addr: Word, value: Byte)
      requires Valid()
      modifies chr
      ensures State() == Step(old(State()), Op.WriteChr(addr, value))
    {
      if config.chrWritable && chr.Length > 0 {
        chr[BankIndex(chr.Length, 0x400, regs.chrRegs[(addr / 0x400) % 8], addr % 0x400)] := value;
      }
    }

    /** The counter stops at $7FFF and interrupts there. */
    method ClockCpu(cycles: nat)
      requires Valid()
      modifies this`regs
      ensures State() == Step(old(State()), Op.ClockCpu(cycles))
    {
      if regs.irqEnabled {
        var counter := if regs.irqCounter + cycles < 0x7FFF then regs.irqCounter + cycles else 0x7FFF;
        regs := regs.(irqCounter := counter);
        if counter == 0x7FFF {
          regs := regs.(irqPending := true);
        }
      }
    }

    method ClearIrq()
      requires Valid()
      modifies this`regs
      ensures State() == Step(old(State()), Op.ClearIrq)
    {
      regs := regs.(irqPending := false);
    }

    predicate SoundOn()
      reads this
    {
      !regs.soundDisabled && config.submapper != 1 && config.submapper != 2
    }

    method ClockExpansionAudio(cycles: nat)
      requires Valid()
      modifies sound, sound.internalRam, sound.channelOutputs
      ensures State() == Step(old(State()), ClockAudio(cycles))
    {
      sound.ClockExpansionAudio(SoundOn(), cycles);
    }

    method ExpansionAudioSample() returns (value: int)
      requires Valid()
      modifies sound
      ensures value == Seen(old(State()), TakeSample) && State() == Step(old(State()), TakeSample)
    {
      value := sound.ExpansionAudioSample(SoundOn());
    }

    method SnapshotBytes() returns (bytes: seq<Byte>)
      requires Valid()
      ensures bytes == Snapshot(State())
    {
      var port: seq<Byte> := [regs.ramPort, regs.ramAddr, Bit(regs.irqEnabled), Bit(regs.irqPending)];
      var chrMode: Byte, divider: Byte, channel: Byte :=
        regs.chrMode, sound.soundDivider, sound.soundChannel;
      var modes: seq<Byte> := [chrMode, Bit(regs.soundDisabled), divider, channel];
      var cartridge: seq<Byte> := [config.submapper, Bit(config.battery)];
      var writable: seq<Byte> := if config.chrWritable then chr[..] else [];
      var fields: seq<seq<Byte>> :=
        [MAGIC, port, LittleEndian(regs.irqCounter, 2), LittleEndian(regs.audioWrites, 8),
         regs.prgRegs, regs.chrRegs, regs.ntRegs, modes,
         LittleEndian(Unsigned(sound.dac, 2), 2), LittleEndian(Unsigned(sound.sampleArea, 8), 8),
         LittleEndian(sound.sampleCycles, 8), cartridge, sound.internalRam[..], prgRam[..], writable];
      bytes := Concat(fields);
    }

    /** Put a restored sound state in place. */
    method RestoreSound(voices: Namco163.Voices, divider: Integrator.Divider, area: int, cycles: nat)
      requires Valid() && voices.averaged == sound.averagedOutput
      requires voices.outputs == sound.channelOutputs[..]
      modifies sound, sound.internalRam
      ensures sound.VoicesState() == voices && sound.soundDivider == divider
      ensures sound.sampleArea == area && sound.sampleCycles == cycles
    {
      sound.soundDivider, sound.soundChannel, sound.dac := divider, voices.channel, voices.dac;
      sound.sampleArea, sound.sampleCycles := area, cycles;
      CopyInto(sound.internalRam, voices.ram);
    }

    /** A rejected snapshot changes nothing; an accepted one replaces all it covers. */
    method RestoreSnapshotBytes(bytes: seq<Byte>) returns (ok: bool)
      requires Valid()
      modifies this`regs, sound, sound.internalRam, prgRam, chr
      ensures ok <==> Restore(old(State()), bytes).Some?
      ensures State() == if ok then Restore(old(State()), bytes).value else old(State())
    {
      ghost var before := State();
      var end := HEADER + 128 + 0x2000;
      if |bytes| != end + (if config.chrWritable then chr.Length else 0) || !Acceptable(config, bytes) {
        return false;
      }
      regs := RestoredRegisters(config, bytes);
      RestoreSound(Namco163.Voices(bytes[HEADER..HEADER + 128], bytes[37],
                          SignedFrom(FromLittleEndian(bytes[38..40]), 2), sound.averagedOutput,
                          sound.channelOutputs[..]),
                   bytes[36], SignedFrom(FromLittleEndian(bytes[40..48]), 8),
                   FromLittleEndian(bytes[48..56]));
      CopyInto(prgRam, bytes[HEADER + 128..end]);
      if config.chrWritable {
        CopyInto(chr, bytes[end..]);
      }
      ok := true;
    }
  }
}
