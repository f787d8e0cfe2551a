/**
The clock of the FDS board: an interval timer and the drive's byte clock, advanced together
in instruction-sized chunks.
*/
module FdsMapper {
  import opened Iteration
  import opened FdsReadChannel

  datatype Timer = Timer(
    irqReload: nat, irqCounter: nat, irqEnabled: bool, irqRepeat: bool, irqPending: bool)

  /** One cycle of a down-counter that expires on the cycle after it reaches zero. */
  function TimerTick(t: Timer): Timer {
    if !t.irqEnabled then t
    else if t.irqCounter == 0
      then t.(irqPending := true, irqCounter := t.irqReload, irqEnabled := t.irqRepeat)
    else t.(irqCounter := t.irqCounter - 1)
  }

  /** The board as the CPU can observe it; the last four fields mirror the drive. */
  datatype Board = Board(
    timer: Timer,
    masterIoEnable: bool,
    drive: Drive,
    diskMotorOn: bool,
    transferBusy: bool,
    diskByteIndex: nat,
    diskIoEvents: nat)

  const U32 := 0x1_0000_0000

  function Mirrored(b: Board, timer: Timer, drive: Drive): Board {
    Board(timer, b.masterIoEnable, drive, drive.control.motor, drive.scanning,
          drive.position % U32, drive.readCount)
  }

  function BoardClocked(b: Board, cycles: nat): Board {
    Mirrored(b, Iterate(TimerTick, b.timer, cycles),
             if b.masterIoEnable then Clocked(b.drive, cycles) else b.drive)
  }

  // ----- the status register

  function BitIf(on: bool, bit: bv8): bv8 {
    if on then bit else 0
  }

  /** Register $4030: the timer's interrupt and the drive's status. */
  function StatusByte(irq: bool, status: Status): bv8 {
    BitIf(irq, 0x01) | BitIf(status.ready, 0x02) | BitIf(status.end, 0x40) | BitIf(status.ready, 0x80) |
    BitIf(status.horizontal, 0x08) | BitIf(status.crcError, 0x10)
  }

  /** The host gets every part of the status back out of the byte. */
  lemma StatusByteDecodes(irq: bool, status: Status)
    ensures var value := StatusByte(irq, status);
      irq == (value & 0x01 != 0) &&
      status == Status(value & 0x02 != 0, value & 0x40 != 0, value & 0x08 != 0, value & 0x10 != 0) &&
      status.ready == (value & 0x80 != 0) && value & 0x24 == 0
  {
  }

  /** Reading it acknowledges both interrupts and the byte, unless disk registers are disabled. */
  function BoardStatusRead(b: Board): Board {
    if b.masterIoEnable then b.(timer := b.timer.(irqPending := false), drive := StatusRead(b.drive))
    else b
  }

  // ----- the timer

  lemma {:induction false} TimerCountsDown(t: Timer, n: nat)
    requires t.irqEnabled && n <= t.irqCounter
    ensures Iterate(TimerTick, t, n) == t.(irqCounter := t.irqCounter - n)
    decreases n
  {
    if n == 0 {
    } else {
      TimerCountsDown(TimerTick(t), n - 1);
    }
  }

  /**
  An enabled timer expires on the cycle after it counted to zero, and not before: its period is
  reload + 1.
  */
  lemma TimerPeriod(t: Timer, n: nat)
    requires t.irqEnabled && n <= t.irqCounter
    ensures Iterate(TimerTick, t, n).irqPending == t.irqPending
    ensures Iterate(TimerTick, t, t.irqCounter + 1)
         == t.(irqPending := true, irqCounter := t.irqReload, irqEnabled := t.irqRepeat)
  {
    TimerCountsDown(t, n);
    TimerCountsDown(t, t.irqCounter);
    IterateLast(TimerTick, t, t.irqCounter);
  }

  /** A repeating timer that has just reloaded expires every reload + 1 cycles, forever. */
  lemma {:induction false} TimerRepeats(t: Timer, expiries: nat)
    requires t.irqEnabled && t.irqRepeat && t.irqCounter == t.irqReload
    ensures Iterate(TimerTick, t, expiries * (t.irqReload + 1))
         == t.(irqPending := t.irqPending || expiries > 0)
    decreases expiries
  {
    if expiries == 0 {
    } else {
      var p := t.irqReload + 1;
      TimerPeriod(t, 0);
      TimerRepeats(t.(irqPending := true), expiries - 1);
      assert expiries * p == p + (expiries - 1) * p;
      IterateAdd(TimerTick, t, p, (expiries - 1) * p);
    }
  }

  class FdsMapper {
    var irqReload: nat
    var irqCounter: nat
    var irqEnabled: bool
    var irqRepeat: bool
    var irqPendingFlag: bool
    var masterIoEnable: bool
    const drive: FdsDrive
    var diskMotorOn: bool
    var transferBusy: bool
    var diskByteIndex: nat
    var diskIoEvents: nat

    constructor (drive: FdsDrive)
      ensures this.drive == drive
      ensures State() == Board(Timer(0, 0, false, false, false), true, drive.State(), false, false, 0, 0)
    {
      this.drive := drive;
      irqReload, irqCounter, irqEnabled, irqRepeat, irqPendingFlag := 0, 0, false, false, false;
      masterIoEnable, diskMotorOn, transferBusy, diskByteIndex, diskIoEvents :=
        true, false, false, 0, 0;
    }

    ghost function TimerState(): Timer
      reads this
    {
      Timer(irqReload, irqCounter, irqEnabled, irqRepeat, irqPendingFlag)
    }

    ghost function State(): Board
      reads this, drive
    {
      Board(TimerState(), masterIoEnable, drive.State(), diskMotorOn, transferBusy,
            diskByteIndex, diskIoEvents)
    }

    method ClockTimer(cycles: nat)
      modifies this`irqCounter, this`irqEnabled, this`irqPendingFlag
      ensures TimerState() == Iterate(TimerTick, old(TimerState()), cycles)
    {
      var remaining := cycles;
      while irqEnabled && remaining > 0
        invariant remaining >= 0
        invariant Iterate(TimerTick, TimerState(), remaining)
               == Iterate(TimerTick, old(TimerState()), cycles)
        decreases remaining
      {
        var until := irqCounter + 1;
        ghost var t := TimerState();
        if remaining < until {
          TimerCountsDown(t, remaining);
          irqCounter := irqCounter - remaining;
          return;
        }
        TimerPeriod(t, 0);
        IterateAdd(TimerTick, t, until, remaining - until);
        remaining := remaining - until;
        irqPendingFlag := true;
        irqCounter := irqReload;
        if !irqRepeat {
          irqEnabled := false;
        }
      }
      if remaining > 0 {
        IterateFixed(TimerTick, TimerState(), remaining);
      }
    }

    method ReadDiskStatus() returns (value: bv8)
      modifies this`irqPendingFlag, drive`irq, drive`ready
      ensures State() == BoardStatusRead(old(State()))
      ensures value == if masterIoEnable
                       then StatusByte(old(irqPendingFlag), StatusOf(old(drive.State()))) else 0
    {
      if !masterIoEnable {
        return 0;
      }
      var status := drive.ReadStatus();
      value := StatusByte(irqPendingFlag, status);
      irqPendingFlag := false;
    }

    method ClockCpu(cycles: nat)
      modifies this, drive
      ensures State() == BoardClocked(old(State()), cycles)
      ensures diskMotorOn == drive.control.motor && transferBusy == drive.scanning &&
        diskByteIndex == drive.position % 0x1_0000_0000 && diskIoEvents == drive.readCount
      ensures drive.State() == if masterIoEnable then Clocked(old(drive.State()), cycles) else old(drive.State())
    {
      ClockTimer(cycles);
      if masterIoEnable {
        drive.Clock(cycles);
      }
      diskMotorOn := drive.control.motor;
      transferBusy := drive.scanning;
      diskByteIndex := drive.position % U32;
      diskIoEvents := drive.readCount;
    }
  }

  /** Two chunks leave the board where one chunk of their sum does. */
  lemma BoardClockSplit(b: Board, m: nat, n: nat)
    ensures var two, one := BoardClocked(BoardClocked(b, m), n), BoardClocked(b, m + n);
      two.(drive := Live(two.drive)) == one.(drive := Live(one.drive))
  {
    IterateAdd(TimerTick, b.timer, m, n);
    ClockSplit(b.drive, m, n);
  }

  // ----- control bits that hold the drive, and the ones the status shows

  /** The status byte gives the orientation bit of the last control byte back, and shows no end without a disk. */
  lemma ControlReadBack(d: Drive, value: bv8, irq: bool)
    ensures var status := StatusByte(irq, StatusOf(Commanded(d, value)));
      (status & 0x08 == value & 0x08) &&
      (d.disk.inserted.None? ==> status & 0x40 == 0) &&
      (d.disk.inserted.Some? && value & 0x01 == 0 ==> status & 0x40 != 0)
  {
    var e := StatusOf(Commanded(d, value));
    assert e.horizontal == (value & 0x08 != 0);
    StatusByteDecodes(irq, e);
    BitKept(value, StatusByte(irq, e));
  }

  lemma BitKept(a: bv8, b: bv8)
    requires (a & 0x08 != 0) == (b & 0x08 != 0)
    ensures b & 0x08 == a & 0x08
  {
  }

  /** Without the motor bit, without a disk, or at the end with the reset bit set, no cycle does anything. */
  lemma HeldDrive(d: Drive, value: bv8, cycles: nat)
    requires value & 0x01 == 0 || d.disk.inserted.None? || (d.end && value & 0x02 != 0)
    ensures Clocked(Commanded(d, value), cycles) == Commanded(d, value)
  {
  }

  /** Otherwise a stopped drive starts over: on the first cycle it is before the lead of the medium. */
  lemma ReleasedDrive(d: Drive, value: bv8)
    requires value & 0x03 == 0x01 && d.disk.inserted.Some? && d.end
    ensures var e := Clocked(Commanded(d, value), 1);
      !e.end && e.position == 0 && e.countdown == 49_999 && !e.scanning && !e.head.inBlock
  {
    MotorBits(value);
  }

  lemma MotorBits(value: bv8)
    requires value & 0x03 == 0x01
    ensures value & 0x01 != 0 && value & 0x02 == 0
  {
  }
}
