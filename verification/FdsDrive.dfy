/**
The timed FDS read channel.  `Drive` is the state of the drive as a value, and the class
`FdsDrive` holds the same fields and updates them in place; each of its methods is proved equal
to its transition function.
*/
module FdsReadChannel {
  import opened Options
  import Crc
  import opened FdsMedia

  const SPIN_UP := 50_000
  const BYTE_CYCLES := 150
  const MAX_READS := 0xFFFF_FFFF_FFFF_FFFF

  /** The control register by its bits 0, 1, 2, 3, 4, 6 and 7; bit 5 has no effect. */
  datatype Control = Control(
    motor: bool, reset: bool, read: bool, horizontal: bool, crcPhase: bool, start: bool, irq: bool)

  function Decode(value: bv8): Control {
    Control(value & 0x01 != 0, value & 0x02 != 0, value & 0x04 != 0, value & 0x08 != 0,
            value & 0x10 != 0, value & 0x40 != 0, value & 0x80 != 0)
  }

  /** The byte decoder behind the read head. */
  datatype Head = Head(
    inBlock: bool,
    crc: bv16,
    previousCrc: bool,
    crcBytesSeen: nat,
    crcError: bool,
    data: Byte,
    ready: bool,
    irq: bool)

  datatype Disk = Disk(sides: seq<seq<Byte>>, inserted: Option<nat>)

  datatype Drive = Drive(
    disk: Disk,
    control: Control,
    position: nat,
    countdown: nat,
    scanning: bool,
    end: bool,
    head: Head,
    readCount: nat)

  function Loaded(sides: seq<seq<Byte>>): Drive {
    Drive(Disk(sides, if sides == [] then None else Some(0)), Decode(0), 0, 0, false, true,
          Head(false, 0, false, 0, false, 0, false, false), 0)
  }

  /** The decoder hunting for the next sync byte. */
  function Rearmed(head: Head): Head {
    head.(inBlock := false, crc := 0, previousCrc := false, crcBytesSeen := 0, crcError := false)
  }

  /** Dropping START re-arms sync detection on the register write itself. */
  function ControlHead(head: Head, c: Control): Head {
    if c.start then head.(irq := false) else Rearmed(head).(irq := false, ready := false)
  }

  /** The motor is off. */
  function Stopped(d: Drive): Drive {
    d.(head := d.head.(ready := false), end := true, scanning := false)
  }

  function ControlSet(d: Drive, c: Control): Drive {
    var e := d.(control := c, head := ControlHead(d.head, c));
    if c.motor then e else Stopped(e)
  }

  /** The control register written as a byte. */
  function Commanded(d: Drive, value: bv8): Drive {
    ControlSet(d, Decode(value))
  }

  function DataRead(d: Drive): Drive {
    d.(head := d.head.(irq := false, ready := false),
       readCount := if d.readCount < MAX_READS then d.readCount + 1 else MAX_READS)
  }

  /** What the host sees of the drive in register $4030. */
  datatype Status = Status(ready: bool, end: bool, horizontal: bool, crcError: bool)

  function StatusOf(d: Drive): Status {
    Status(d.head.ready, d.end && d.disk.inserted.Some?, d.control.horizontal, d.head.crcError)
  }

  /** Reading it acknowledges the byte and its interrupt. */
  function StatusRead(d: Drive): Drive {
    d.(head := d.head.(irq := false, ready := false))
  }

  /** The state in which a stopped drive starts over from the lead of the medium. */
  function SpinUp(d: Drive): Drive {
    d.(end := false, position := 0, scanning := false, countdown := SPIN_UP,
       head := Rearmed(d.head))
  }

  predicate Inserted(disk: Disk) {
    disk.inserted.Some? && disk.inserted.value < |disk.sides|
  }

  function Medium(disk: Disk): seq<Byte>
    requires Inserted(disk)
  {
    disk.sides[disk.inserted.value]
  }

  function Closed(head: Head): Head {
    head.(inBlock := false, crc := 0, crcError := false, crcBytesSeen := 0)
  }

  function DecodeByte(head: Head, start: bool, irqEnable: bool, byte: Byte): Head {
    if !start then Closed(head)
    else if head.inBlock
      then head.(crc := Crc.CrcByte(head.crc, byte), data := byte, ready := true,
                 irq := head.irq || irqEnable)
    else if byte != 0
      then head.(inBlock := true, crc := Crc.CrcByte(head.crc, byte), data := byte, ready := false)
    else head
  }

  /** The second byte of a CRC phase brings the verdict. */
  function CountCrcByte(head: Head, phase: bool): Head {
    head.(previousCrc := phase,
          crcBytesSeen := if !phase then head.crcBytesSeen
                          else if !head.previousCrc then 1
                          else if head.crcBytesSeen < 2 then head.crcBytesSeen + 1
                          else head.crcBytesSeen,
          crcError := if !phase then head.crcError
                      else if !head.previousCrc then false
                      else if head.crcBytesSeen == 1 then head.crc != 0
                      else head.crcError)
  }

  function Received(head: Head, c: Control, byte: Byte): Head {
    if c.read then CountCrcByte(DecodeByte(head, c.start, c.irq, byte), c.crcPhase) else head
  }

  /** The end of the medium has passed the head. */
  function RunOut(d: Drive): Drive {
    d.(end := true, scanning := false, control := d.control.(motor := false))
  }

  function Passed(d: Drive, byte: Byte): Drive {
    d.(position := d.position + 1, head := Received(d.head, d.control, byte))
  }

  function Transferred(d: Drive): Drive {
    if !Inserted(d.disk) then d
    else if d.position >= |Medium(d.disk)| then RunOut(d)
    else Passed(d, Medium(d.disk)[d.position])
  }

  /** One byte clock. */
  function NextByte(d: Drive): Drive {
    Transferred(d.(scanning := true)).(countdown := BYTE_CYCLES)
  }

  function Minus(a: nat, b: nat): nat {
    if a > b then a - b else 0
  }

  function Advance(d: Drive, left: nat): Drive
    decreases left, d.countdown == 0
  {
    if left >= d.countdown && !d.end then Advance(NextByte(d), left - d.countdown)
    else d.(countdown := Minus(d.countdown, left))
  }

  predicate Running(d: Drive) {
    d.disk.inserted.Some? && d.control.motor && !(d.end && d.control.reset)
  }

  function Clocked(d: Drive, cycles: nat): Drive {
    if !Running(d) then d else Advance(if d.end then SpinUp(d) else d, cycles)
  }

  class FdsDrive {
    var sides: seq<seq<Byte>>
    var inserted: Option<nat>
    var control: Control
    var position: nat
    var countdown: nat
    var scanning: bool
    var end: bool
    var data: Byte
    var ready: bool
    var irq: bool
    var crcError: bool
    var readCount: nat
    var inBlock: bool
    var crc: bv16
    var previousCrc: bool
    var crcBytesSeen: nat

    ghost function HeadState(): Head
      reads this
    {
      Head(inBlock, crc, previousCrc, crcBytesSeen, crcError, data, ready, irq)
    }

    ghost function State(): Drive
      reads this
    {
      Drive(Disk(sides, inserted), control, position, countdown, scanning, end,
            HeadState(), readCount)
    }

    constructor (media: seq<seq<Byte>>)
      ensures State() == Loaded(media)
      ensures sides == media && inserted == (if media == [] then None else Some(0))
      ensures end && !control.motor && !scanning && position == 0 && readCount == 0
      ensures !inBlock && !ready && !irq && !crcError
    {
      sides, inserted := media, if media == [] then None else Some(0);
      control, position, countdown, scanning, end := Decode(0), 0, 0, false, true;
      data, ready, irq, crcError, readCount := 0, false, false, false, 0;
      inBlock, crc, previousCrc, crcBytesSeen := false, 0, false, 0;
    }

    static method ExpandAll(chunks: seq<seq<Byte>>) returns (media: seq<seq<Byte>>)
      ensures |media| == |chunks|
      ensures forall i :: 0 <= i < |chunks| ==> media[i] == Stream(Blocks(chunks[i], 0, 0))
    {
      media := [];
      for i := 0 to |chunks|
        invariant |media| == i
        invariant forall k :: 0 <= k < i ==> media[k] == Stream(Blocks(chunks[k], 0, 0))
      {
        var stream := ExpandSide(chunks[i]);
        media := media + [stream];
      }
    }

    static method Load(image: DiskImage) returns (drive: FdsDrive)
      ensures fresh(drive) && drive.State() == Loaded(LoadedSides(image))
      ensures drive.sides == LoadedSides(image) && (drive.sides != [] ==> drive.inserted == Some(0))
    {
      var media := ExpandAll(Taken(Chunks(SideData(image.raw)), image.sideCount));
      drive := new FdsDrive(media);
    }

    method Rearm()
      modifies this`inBlock, this`crc, this`previousCrc, this`crcBytesSeen, this`crcError
      ensures HeadState() == Rearmed(old(HeadState()))
    {
      inBlock := false;
      crc := 0;
      previousCrc := false;
      crcBytesSeen := 0;
      crcError := false;
    }

    method SetHeadControl(value: Control)
      modifies this`irq, this`ready,
        this`inBlock, this`crc, this`previousCrc, this`crcBytesSeen, this`crcError
      ensures HeadState() == ControlHead(old(HeadState()), value)
    {
      irq := false;
      if !value.start {
        Rearm();
        ready := false;
      }
    }

    method StopMotor()
      modifies this`end, this`scanning, this`ready
      ensures State() == Stopped(old(State()))
    {
      end := true;
      scanning := false;
      ready := false;
    }

    method SetControl(value: Control)
      modifies this
      ensures State() == ControlSet(old(State()), value)
    {
      control := value;
      SetHeadControl(value);
      if !value.motor {
        StopMotor();
      }
    }

    /** The control register as the host writes it. */
    method WriteControl(value: bv8)
      modifies this
      ensures State() == Commanded(old(State()), value)
      ensures control.motor == (value & 0x01 != 0) && control.reset == (value & 0x02 != 0)
      ensures control.read == (value & 0x04 != 0) && control.horizontal == (value & 0x08 != 0)
      ensures control.crcPhase == (value & 0x10 != 0) && control.start == (value & 0x40 != 0)
      ensures control.irq == (value & 0x80 != 0) && !irq
      ensures value & 0x40 == 0 ==> HeadState() == Rearmed(old(HeadState())).(irq := false, ready := false)
      ensures value & 0x01 == 0 ==> end && !scanning && !ready
    {
      SetControl(Decode(value));
    }

    method ReadData() returns (value: Byte)
      modifies this
      ensures State() == DataRead(old(State())) && value == old(data)
    {
      irq := false;
      ready := false;
      readCount := if readCount < MAX_READS then readCount + 1 else MAX_READS;
      value := data;
    }

    method ReadStatus() returns (status: Status)
      modifies this`irq, this`ready
      ensures State() == StatusRead(old(State())) && status == StatusOf(old(State()))
    {
      status := Status(ready, end && inserted.Some?, control.horizontal, crcError);
      irq := false;
      ready := false;
    }

    method Restart()
      modifies this
      ensures State() == SpinUp(old(State()))
    {
      Rearm();
      end := false;
      position := 0;
      scanning := false;
      countdown := SPIN_UP;
    }

    method Clock(cycles: nat)
      modifies this
      ensures State() == Clocked(old(State()), cycles)
    {
      if inserted == None || !control.motor {
        return;
      }
      if end {
        if control.reset {
          return;
        }
        Restart();
      }
      var left := cycles;
      ghost var target := Advance(State(), cycles);
      while left >= countdown && !end
        invariant left >= 0 && Advance(State(), left) == target
        decreases left, countdown == 0
      {
        left := left - countdown;
        TransferNext();
      }
      countdown := Minus(countdown, left);
    }

    method TransferNext()
      modifies this
      ensures State() == NextByte(old(State()))
    {
      scanning := true;
      Transfer();
      countdown := BYTE_CYCLES;
    }

    method Transfer()
      modifies this
      ensures State() == Transferred(old(State()))
    {
      if inserted == None || inserted.value >= |sides| {
        return;
      }
      var side := sides[inserted.value];
      if position >= |side| {
        StopAtEnd();
        return;
      }
      PassByte(side[position]);
    }

    method StopAtEnd()
      modifies this`end, this`scanning, this`control
      ensures State() == RunOut(old(State()))
    {
      end := true;
      scanning := false;
      control := control.(motor := false);
    }

    method PassByte(byte: Byte)
      modifies this`position, this`inBlock, this`crc, this`crcError, this`crcBytesSeen, this`data,
        this`ready, this`irq, this`previousCrc
      ensures State() == Passed(old(State()), byte)
    {
      position := position + 1;
      Receive(byte);
    }

    method CloseBlock()
      modifies this`inBlock, this`crc, this`crcError, this`crcBytesSeen
      ensures HeadState() == Closed(old(HeadState()))
    {
      inBlock := false;
      crc := 0;
      crcError := false;
      crcBytesSeen := 0;
    }

    /** Hold the block closed, or look for its sync byte, or take its next byte. */
    method DecodeIncoming(byte: Byte)
      modifies this`inBlock, this`crc, this`crcError, this`crcBytesSeen, this`data, this`ready, this`irq
      ensures HeadState() == DecodeByte(old(HeadState()), control.start, control.irq, byte)
    {
      var sync := false;
      if !control.start {
        CloseBlock();
      } else if !inBlock && byte != 0 {
        inBlock := true;
        sync := true;
      }
      if inBlock {
        crc := Crc.ComputeCrcByte(crc, byte);
        data := byte;
        ready := !sync;
        if !sync && control.irq {
          irq := true;
        }
      }
    }

    method Receive(byte: Byte)
      modifies this`inBlock, this`crc, this`crcError, this`crcBytesSeen, this`data, this`ready,
        this`irq, this`previousCrc
      ensures HeadState() == Received(old(HeadState()), control, byte)
      ensures control.read && !control.start ==>
        !inBlock && crc == 0 && !crcError && data == old(data) && ready == old(ready) && irq == old(irq)
    {
      if !control.read {
        return;
      }
      DecodeIncoming(byte);
      CountCrc(control.crcPhase);
    }

    method CountCrc(crcPhase: bool)
      modifies this`crcBytesSeen, this`crcError, this`previousCrc
      ensures HeadState() == CountCrcByte(old(HeadState()), crcPhase)
    {
      if crcPhase {
        if !previousCrc {
          crcBytesSeen := 0;
          crcError := false;
        }
        if crcBytesSeen < 2 {
          crcBytesSeen := crcBytesSeen + 1;
          if crcBytesSeen == 2 {
            crcError := crc != 0;
          }
        }
      }
      previousCrc := crcPhase;
    }
  }

  // ----- cycle accounting

  /** Once the drive has stopped, the countdown is overwritten before it is read again. */
  function Live(d: Drive): Drive {
    if d.end then d.(countdown := 0) else d
  }

  lemma NextByteIgnoresCountdown(d: Drive, countdown: nat)
    ensures NextByte(d.(countdown := countdown)) == NextByte(d)
    ensures NextByte(d).countdown == BYTE_CYCLES && NextByte(d).disk == d.disk
    ensures NextByte(d).end ==> d.end || !NextByte(d).control.motor
    ensures !NextByte(d).end ==> NextByte(d).control == d.control
  {
  }

  lemma {:induction false} AdvanceSplit(d: Drive, a: nat, b: nat)
    requires d.disk.inserted.Some? && d.control.motor && !d.end
    ensures Live(Clocked(Advance(d, a), b)) == Live(Advance(d, a + b))
    decreases a, d.countdown == 0
  {
    if a >= d.countdown {
      NextByteIgnoresCountdown(d, 0);
      if !NextByte(d).end {
        AdvanceSplit(NextByte(d), a - d.countdown, b);
      }
    } else {
      NextByteIgnoresCountdown(d, d.countdown - a);
    }
  }

  /** Clocking in two chunks is clocking once, whatever state the drive is in. */
  lemma ClockSplit(d: Drive, a: nat, b: nat)
    ensures Live(Clocked(Clocked(d, a), b)) == Live(Clocked(d, a + b))
  {
    if Running(d) {
      AdvanceSplit(if d.end then SpinUp(d) else d, a, b);
    }
  }

  /** How many byte clocks fall into `left` cycles. */
  function ByteClocks(countdown: nat, left: nat): nat {
    if left < countdown then 0 else (left - countdown) / BYTE_CYCLES + 1
  }

  lemma {:induction false} AdvancePosition(d: Drive, left: nat)
    requires Inserted(d.disk) && !d.end && d.countdown > 0 && d.position <= |Medium(d.disk)|
    ensures var e, reached := Advance(d, left), d.position + ByteClocks(d.countdown, left);
      e.end == (reached > |Medium(d.disk)|) &&
      e.position == (if e.end then |Medium(d.disk)| else reached) &&
      e.control == (if e.end then d.control.(motor := false) else d.control) &&
      (e.end ==> !e.scanning)
    decreases left
  {
    if left < d.countdown {
    } else {
      NextByteIgnoresCountdown(d, 0);
      if !NextByte(d).end {
        AdvancePosition(NextByte(d), left - d.countdown);
        assert ByteClocks(d.countdown, left) == 1 + ByteClocks(BYTE_CYCLES, left - d.countdown);
      }
    }
  }

  /**
  Byte k of the medium is transferred exactly 50000 + 150 * k cycles after the motor starts, and
  the drive stops one byte clock after the last one and turns its motor off.
  */
  lemma ByteSchedule(d: Drive, n: nat, k: nat)
    requires Inserted(d.disk) && d.control.motor && !d.control.reset && d.end
    requires k < |Medium(d.disk)|
    ensures var e := Clocked(d, n);
      (e.position > k <==> n >= 50_000 + 150 * k) &&
      (e.end <==> n >= 50_000 + 150 * |Medium(d.disk)|) && e.control.motor == !e.end
  {
    AdvancePosition(SpinUp(d), n);
  }
}
