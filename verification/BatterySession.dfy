/**
A battery session and the replacement it runs, in place.  Each method is one of the source's
functions executed by a process alone; its effect is a run of module SaveProtocol.
*/
module BatterySessions {
  import opened MachineWords
  import opened Options
  import opened SaveProtocol

  /** Which file operations fail. */
  datatype WriteFaults = WriteFaults(create: bool, fill: bool, rename: bool, remove: bool)
  datatype Faults = Faults(
    lock: bool, readTarget: bool, backup: WriteFaults, target: WriteFaults, unlock: bool)

  class Files {
    var disk: Disk

    constructor (disk: Disk)
      ensures this.disk == disk
    {
      this.disk := disk;
    }
  }

  /** An atomic write goes through exactly when nothing is in its way and nothing fails. */
  predicate WriteSucceeds(d: Disk, backup: bool, f: WriteFaults) {
    Tmp(d, backup).None? && !f.create && !f.fill && !f.rename
  }

  /** Write `Content(job, backup)` to a new temporary and move it into place, or clean up. */
  method AtomicWrite(files: Files, job: Job, backup: bool, f: WriteFaults, ghost session: Session)
    returns (ok: bool, ghost actions: seq<Action>)
    modifies files
    ensures ok <==> WriteSucceeds(old(files.disk), backup, f)
    ensures ok ==> files.disk == Renamed(WithTmp(old(files.disk), backup, Some(Content(job, backup))), backup)
    ensures !ok ==> files.disk.target == old(files.disk.target) && files.disk.lock == old(files.disk.lock)
    ensures Solo(Process(Creating(job, backup), session), old(files.disk), actions)
         == (Process(if !ok then Unlocking(job, false) else if backup then Creating(job, false)
                     else Unlocking(job, true), session), files.disk)
  {
    ghost var start := Process(Creating(job, backup), session);
    ghost var before := files.disk;
    actions := [];
    if f.create || Tmp(files.disk, backup).Some? {
      SoloNext(start, before, actions, if f.create then Fail else Proceed);
      actions := actions + [if f.create then Fail else Proceed];
      ok := false;
      return;
    }
    SoloNext(start, before, actions, Proceed);
    actions := actions + [Proceed];
    files.disk := WithTmp(files.disk, backup, Some([]));
    if f.fill {
      ok, actions := RemoveTemporary(files, job, backup, f.remove, session, before, actions);
      return;
    }
    var content := Content(job, backup);
    SoloNext(start, before, actions, WriteSome(|content|));
    actions := actions + [WriteSome(|content|)];
    assert content[..|content|] == content;
    files.disk := WithTmp(files.disk, backup, Some(content));
    SoloNext(start, before, actions, Proceed);
    actions := actions + [Proceed];
    if f.rename {
      ok, actions := RemoveTemporary(files, job, backup, f.remove, session, before, actions);
      return;
    }
    SoloNext(start, before, actions, Proceed);
    actions := actions + [Proceed];
    files.disk := Renamed(files.disk, backup);
    ok := true;
  }

  /** An operation failed after the temporary was made: drop it, if that works. */
  method RemoveTemporary(
    files: Files, job: Job, backup: bool, fault: bool, ghost session: Session, ghost before: Disk,
    ghost done: seq<Action>) returns (ok: bool, ghost actions: seq<Action>)
    requires var (p, d) := Solo(Process(Creating(job, backup), session), before, done);
      d == files.disk && p.session == session &&
      (p.phase == Renaming(job, backup) || p.phase == Filling(job, backup, 0))
    modifies files
    ensures !ok && files.disk == if fault then old(files.disk) else WithTmp(old(files.disk), backup, None)
    ensures Solo(Process(Creating(job, backup), session), before, actions)
         == (Process(Unlocking(job, false), session), files.disk)
  {
    ghost var start := Process(Creating(job, backup), session);
    SoloNext(start, before, done, Fail);
    SoloNext(start, before, done + [Fail], if fault then Fail else Proceed);
    actions := done + [Fail] + [if fault then Fail else Proceed];
    if !fault {
      files.disk := WithTmp(files.disk, backup, None);
    }
    ok := false;
  }

  /** Everything a replacement needs to go through. */
  predicate ReplaceSucceeds(d: Disk, job: Job, f: Faults) {
    !d.lock && !f.lock && !f.readTarget && d.target == job.expected &&
    (d.target == Some(job.bytes) ||
     ((d.target.Some? ==> WriteSucceeds(d, true, f.backup)) && WriteSucceeds(d, false, f.target)))
  }

  /** Drop the lock file, if that works. */
  method ReleaseLock(
    files: Files, job: Job, ok: bool, fault: bool, ghost session: Session, ghost before: Disk,
    ghost done: seq<Action>) returns (ghost actions: seq<Action>)
    requires Solo(Process(Starting(job), session), before, done)
          == (Process(Unlocking(job, ok), session), files.disk)
    modifies files
    ensures files.disk == if fault then old(files.disk) else old(files.disk).(lock := false)
    ensures Solo(Process(Starting(job), session), before, actions) == (Finished(session, job, ok), files.disk)
  {
    SoloNext(Process(Starting(job), session), before, done, if fault then Fail else Proceed);
    actions := done + [if fault then Fail else Proceed];
    if !fault {
      files.disk := files.disk.(lock := false);
    }
  }

  /** Back up the old contents, if there are any, and put the new ones in place. */
  method WriteBoth(files: Files, job: Job, f: Faults, ghost session: Session)
    returns (ok: bool, ghost actions: seq<Action>)
    requires files.disk.target == job.expected && files.disk.target != Some(job.bytes)
    modifies files
    ensures ok <==> (old(files.disk).target.Some? ==> WriteSucceeds(old(files.disk), true, f.backup)) &&
                    WriteSucceeds(old(files.disk), false, f.target)
    ensures files.disk.lock == old(files.disk).lock
    ensures files.disk.target == if ok then Some(job.bytes) else old(files.disk).target
    ensures ok && old(files.disk).target.Some? ==> files.disk.bak == old(files.disk).target
    ensures Solo(Process(Creating(job, old(files.disk).target.Some?), session), old(files.disk), actions)
         == (Process(Unlocking(job, ok), session), files.disk)
  {
    ghost var before := files.disk;
    ghost var done: seq<Action> := [];
    if files.disk.target.Some? {
      ok, done := AtomicWrite(files, job, true, f.backup, session);
      if !ok {
        actions := done;
        return;
      }
    }
    ghost var middle := files.disk;
    ok, actions := AtomicWrite(files, job, false, f.target, session);
    SoloAppend(Process(Creating(job, before.target.Some?), session), before, done, actions);
    actions := done + actions;
  }

  /**
  The locked transaction.  It succeeds exactly when nothing is in its way, changes the target only
  then, and every run of it is one that the interleaved protocol allows.
  */
  method ReplaceSave(files: Files, job: Job, f: Faults, ghost session: Session)
    returns (ok: bool, ghost actions: seq<Action>)
    modifies files
    ensures ok <==> ReplaceSucceeds(old(files.disk), job, f)
    ensures files.disk.target == if ok then Some(job.bytes) else old(files.disk).target
    ensures ok && old(files.disk).target.Some? && old(files.disk).target != Some(job.bytes) ==>
              files.disk.bak == old(files.disk).target
    ensures files.disk.lock == (old(files.disk).lock || (f.unlock && !f.lock))
    ensures Solo(Process(Starting(job), session), old(files.disk), actions)
         == (Finished(session, job, ok), files.disk)
  {
    ghost var start := Process(Starting(job), session);
    ghost var before := files.disk;
    ok := false;
    SoloNext(start, before, [], if f.lock then Fail else Proceed);
    actions := [] + [if f.lock then Fail else Proceed];
    if f.lock || files.disk.lock {
      return;
    }
    files.disk := files.disk.(lock := true);
    SoloNext(start, before, actions, if f.readTarget then Fail else Proceed);
    actions := actions + [if f.readTarget then Fail else Proceed];
    var current := files.disk.target;
    if !f.readTarget && current == job.expected {
      if current == Some(job.bytes) {
        ok := true;
      } else {
        ghost var done, locked := actions, files.disk;
        ok, actions := WriteBoth(files, job, f, session);
        SoloAppend(start, before, done, actions);
        actions := done + actions;
      }
    }
    actions := ReleaseLock(files, job, ok, f.unlock, session, before, actions);
  }

  // ----- the cartridge a save belongs to

  const NVRAM_SIZE := 8_192

  datatype HeaderKind = INes | Nes20 | FdsDisk

  /** What the header says; `ramSizes` are its bytes 10 and 11, work RAM and CHR RAM size nibbles. */
  datatype Cartridge = Cartridge(
    sha256: seq<Byte>, battery: bool, mapper: nat, submapper: nat, kind: HeaderKind,
    prgRamSize: Option<nat>, ramSizes: (Byte, Byte))

  datatype Layout = NoBattery | Unsupported | PlainNvram

  function ShiftLeft(n: nat, places: nat): nat {
    if places == 0 then n else 2 * ShiftLeft(n, places - 1)
  }

  /** The size the header gives to battery-backed RAM, if the layout is one that is understood. */
  function HeaderSize(c: Cartridge): Option<nat> {
    match c.kind
    case INes => Some(if c.prgRamSize.Some? then c.prgRamSize.value else NVRAM_SIZE)
    case Nes20 =>
      if c.ramSizes.0 % 16 != 0 || c.ramSizes.1 / 16 != 0 || c.ramSizes.0 / 16 == 0 then None
      else Some(ShiftLeft(64, c.ramSizes.0 / 16))
    case FdsDisk => None
  }

  /** Only an unambiguous 8 KiB of battery-backed RAM is ever saved. */
  function LayoutOf(c: Cartridge, nvram: Option<Bytes>): (layout: Layout)
    ensures layout == PlainNvram ==> c.battery && nvram.Some? && |nvram.value| == NVRAM_SIZE
    ensures layout == NoBattery <==> !c.battery
  {
    if !c.battery then NoBattery
    else if c.mapper !in {0, 1, 4} || c.submapper != 0 then Unsupported
    else if HeaderSize(c) == Some(NVRAM_SIZE) && nvram.Some? && |nvram.value| == NVRAM_SIZE then PlainNvram
    else Unsupported
  }

  /**
  What is saved at all: a battery board of mapper 0, 1 or 4 without a submapper, with 8 KiB of RAM, which an
  iNES header gives or leaves open, and an NES 2.0 header gives as $70 and no CHR NVRAM; a disk never is.
  */
  lemma SavedIff(c: Cartridge, nvram: Option<Bytes>)
    ensures LayoutOf(c, nvram) == PlainNvram <==>
      c.battery && (c.mapper == 0 || c.mapper == 1 || c.mapper == 4) && c.submapper == 0 &&
      nvram.Some? && |nvram.value| == 8_192 &&
      ((c.kind == INes && (c.prgRamSize.None? || c.prgRamSize == Some(8_192))) ||
       (c.kind == Nes20 && c.ramSizes.0 == 0x70 && c.ramSizes.1 < 16))
  {
    if c.kind == Nes20 {
      Nes20SizeIff(c);
    }
  }

  /** An NES 2.0 header means 8 KiB exactly when its first size byte is $70 and no CHR NVRAM is given. */
  lemma Nes20SizeIff(c: Cartridge)
    requires c.kind == Nes20
    ensures HeaderSize(c) == Some(NVRAM_SIZE) <==> c.ramSizes.0 == 0x70 && c.ramSizes.1 < 16
  {
    var places := c.ramSizes.0 / 16;
    assert ShiftLeft(64, 7) == NVRAM_SIZE;
    if places < 7 {
      ShiftLeftGrows(64, places, 7);
    } else if places > 7 {
      ShiftLeftGrows(64, 7, places);
    }
  }

  lemma {:induction false} ShiftLeftGrows(n: nat, k: nat, places: nat)
    requires n > 0 && k < places
    ensures 0 < ShiftLeft(n, k) < ShiftLeft(n, places)
    decreases places
  {
    if k + 1 < places {
      ShiftLeftGrows(n, k, places - 1);
    } else {
      ShiftLeftPositive(n, k);
    }
  }

  lemma {:induction false} ShiftLeftPositive(n: nat, places: nat)
    requires n > 0
    ensures ShiftLeft(n, places) > 0
    decreases places
  {
    if places == 0 {
    } else {
      ShiftLeftPositive(n, places - 1);
    }
  }

  class Emulator {
    const cartridge: Cartridge
    var nvram: Option<Bytes>

    constructor (cartridge: Cartridge, nvram: Option<Bytes>)
      ensures this.cartridge == cartridge && this.nvram == nvram
    {
      this.cartridge, this.nvram := cartridge, nvram;
    }

    function CurrentLayout(): (layout: Layout)
      reads this
      ensures layout == PlainNvram ==> nvram.Some? && |nvram.value| == NVRAM_SIZE
    {
      LayoutOf(cartridge, nvram)
    }

    /** Replace the battery-backed RAM, if there is any and the size is right. */
    method ImportRam(bytes: Bytes) returns (ok: bool)
      modifies this
      ensures ok <==> old(CurrentLayout()) == PlainNvram && |bytes| == NVRAM_SIZE
      ensures nvram == if ok then Some(bytes) else old(nvram)
    {
      ok := CurrentLayout() == PlainNvram && |bytes| == NVRAM_SIZE;
      if ok {
        nvram := Some(bytes);
      }
    }
  }

  // ----- the session

  /** A session is opened, or there is nothing to save, or the save cannot be used. */
  datatype Opening = Opened(session: BatterySession) | NothingToSave | Refused

  /** The session of one process with its save file. */
  class BatterySession {
    const rom: seq<Byte>
    var disk: Option<Bytes>
    var lastRam: Bytes

    ghost function Baseline(): Session
      reads this
    {
      Session(disk, lastRam)
    }

    constructor (rom: seq<Byte>, disk: Option<Bytes>, lastRam: Bytes)
      ensures this.rom == rom && Baseline() == Session(disk, lastRam)
    {
      this.rom, this.disk, this.lastRam := rom, disk, lastRam;
    }

    /** Remember what is on disk; an existing save of the right size also becomes the RAM. */
    static method Open(files: Files, emulator: Emulator, readFault: bool) returns (result: Opening)
      modifies emulator
      ensures result.NothingToSave? <==> old(emulator.CurrentLayout()) == NoBattery
      ensures result.Opened? <==>
        old(emulator.CurrentLayout()) == PlainNvram && !readFault &&
        (files.disk.target.Some? ==> |files.disk.target.value| == NVRAM_SIZE)
      ensures emulator.nvram ==
        if result.Opened? && files.disk.target.Some? then files.disk.target else old(emulator.nvram)
      ensures result.Opened? ==>
        fresh(result.session) && result.session.rom == emulator.cartridge.sha256 &&
        Process(Idle, result.session.Baseline())
          == Act(Process(Idle, Session(None, [])), files.disk,
                 SaveProtocol.Open(old(emulator.nvram).value)).0 &&
        result.session.disk == files.disk.target && emulator.nvram == Some(result.session.lastRam)
    {
      var layout := emulator.CurrentLayout();
      if layout == NoBattery {
        return NothingToSave;
      }
      if layout == Unsupported || readFault {
        return Refused;
      }
      var lastRam, disk := emulator.nvram.value, files.disk.target;
      if disk.Some? {
        var ok := emulator.ImportRam(disk.value);
        if !ok {
          return Refused;
        }
        lastRam := disk.value;
      }
      var session := new BatterySession(emulator.cartridge.sha256, disk, lastRam);
      result := Opened(session);
    }

    /** The emulator still runs the ROM this session was opened for, with RAM that can be saved. */
    ghost predicate Serves(emulator: Emulator)
      reads emulator
    {
      emulator.cartridge.sha256 == rom && emulator.CurrentLayout() == PlainNvram
    }

    /**
    Save changed RAM over exactly the contents this session last saw.  Unchanged RAM touches
    nothing; the baselines move only when the replacement succeeded.  Files and baselines end as they do
    after a run of the protocol that begins with this flush.
    */
    method Flush(files: Files, emulator: Emulator, f: Faults)
      returns (ok: bool, saved: bool, ghost actions: seq<Action>)
      modifies this, files
      ensures !Serves(emulator) ==> !ok && files.disk == old(files.disk)
      ensures Serves(emulator) && emulator.nvram == Some(old(lastRam)) ==>
        ok && !saved && files.disk == old(files.disk)
      ensures Serves(emulator) && emulator.nvram != Some(old(lastRam)) ==>
        ok == saved == ReplaceSucceeds(old(files.disk), Job(emulator.nvram.value, old(disk), true), f)
      ensures saved ==> ok && emulator.nvram.Some? && old(files.disk.target) == old(disk)
      ensures Baseline() ==
        if saved then Session(emulator.nvram, emulator.nvram.value) else old(Baseline())
      ensures files.disk.target == if saved then emulator.nvram else old(files.disk.target)
      ensures saved && old(files.disk.target).Some? && old(files.disk.target) != emulator.nvram ==>
                files.disk.bak == old(files.disk.target)
      ensures Serves(emulator) ==>
        Solo(Process(Idle, old(Baseline())), old(files.disk),
             [SaveProtocol.Flush(emulator.nvram.value)] + actions)
          == (Process(Idle, Baseline()), files.disk)
    {
      actions := [];
      if emulator.cartridge.sha256 != rom || emulator.CurrentLayout() != PlainNvram {
        return false, false, actions;
      }
      var ram := emulator.nvram.value;
      if ram == lastRam {
        SoloOne(Process(Idle, Baseline()), files.disk, SaveProtocol.Flush(ram));
        assert [SaveProtocol.Flush(ram)] + actions == [SaveProtocol.Flush(ram)];
        return true, false, actions;
      }
      ghost var idle, before := Process(Idle, Baseline()), files.disk;
      ok, actions := ReplaceSave(files, Job(ram, disk, true), f, Baseline());
      SoloAppend(idle, before, [SaveProtocol.Flush(ram)], actions);
      SoloOne(idle, before, SaveProtocol.Flush(ram));
      saved := ok;
      if ok {
        lastRam := ram;
        disk := Some(ram);
      }
    }
  }

  /**
  Two sessions that have seen the same save: once the first has saved a change, the second is
  refused, whatever it wants to write, and the first one's bytes stay.
  */
  method SecondWriterIsRefused(
    files: Files, a: BatterySession, first: Emulator, b: BatterySession, second: Emulator, f: Faults)
    returns (ok1: bool, saved1: bool, ok2: bool, saved2: bool)
    requires a != b && a.disk == b.disk == files.disk.target
    requires second.nvram != Some(b.lastRam) && first.nvram != files.disk.target
    modifies files, a, b
    ensures saved1 ==> !ok2 && !saved2 && files.disk.target == first.nvram
  {
    ghost var actions;
    ok1, saved1, actions := a.Flush(files, first, f);
    ok2, saved2, actions := b.Flush(files, second, f);
  }

  /** Nothing is in the way of a save, and no file operation but the last one fails. */
  predicate NothingFails(d: Disk, f: Faults) {
    !d.lock && !f.lock && !f.readTarget && d.targetTmp.None? &&
    !f.target.create && !f.target.fill && !f.target.rename &&
    (d.target.Some? ==> d.bakTmp.None? && !f.backup.create && !f.backup.fill && !f.backup.rename)
  }

  /**
  A session just opened, and RAM that the game has changed to `ram`: the first flush saves it exactly
  when nothing is in the way and nothing fails, and then the old save is the backup.
  */
  method FirstFlush(files: Files, emulator: Emulator, ram: Bytes, f: Faults)
    returns (result: Opening, saved: bool)
    requires emulator.CurrentLayout() == PlainNvram && |ram| == NVRAM_SIZE
    requires files.disk.target.Some? ==> |files.disk.target.value| == NVRAM_SIZE
    requires Some(ram) != if files.disk.target.Some? then files.disk.target else emulator.nvram
    modifies files, emulator
    ensures result.Opened? && (saved <==> NothingFails(old(files.disk), f))
    ensures saved ==> files.disk.target == Some(ram)
    ensures saved && old(files.disk.target).Some? ==> files.disk.bak == old(files.disk.target)
    ensures !saved ==> files.disk.target == old(files.disk.target)
  {
    result := BatterySession.Open(files, emulator, false);
    var imported := emulator.ImportRam(ram);
    var ok;
    ghost var actions;
    ok, saved, actions := result.session.Flush(files, emulator, f);
  }
}
