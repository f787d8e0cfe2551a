/**
Reading a disk back.  A host that only sees the drive's registers recovers from the timed
channel exactly the blocks of the raw side, and notices every short corruption of one.
*/
module FdsRoundTrip {
  import Options
  import Sequences
  import Iteration
  import opened Crc
  import opened FdsMedia
  import opened FdsReadChannel

  // ----- the host

  /** The three bytes a reading host writes to the control register. */
  datatype Host = Host(idle: bv8, reading: bv8, checking: bv8)

  /** Motor and read mode always; START while reading and checking; the CRC phase while checking. */
  predicate IsHost(host: Host) {
    host.idle & 0x57 == 0x05 && host.reading & 0x55 == 0x45 && host.checking & 0x55 == 0x55
  }

  /** What those bytes tell the drive. */
  predicate Commands(idle: Control, reading: Control, checking: Control) {
    idle.motor && idle.read && !idle.reset && !idle.start && !idle.crcPhase &&
    reading.motor && reading.read && reading.start && !reading.crcPhase &&
    checking.motor && checking.read && checking.start && checking.crcPhase
  }

  predicate Obeys(host: Host) {
    Commands(Decode(host.idle), Decode(host.reading), Decode(host.checking))
  }

  /** The register bits are the ones the drive acts on. */
  lemma HostCommands(host: Host)
    ensures IsHost(host) <==> Obeys(host)
  {
    HostBits(host.idle);
    HostBits(host.reading);
    HostBits(host.checking);
  }

  lemma HostBits(value: bv8)
    ensures value & 0x57 == 0x05 <==>
      value & 0x01 != 0 && value & 0x02 == 0 && value & 0x04 != 0 && value & 0x10 == 0 && value & 0x40 == 0
    ensures value & 0x55 == 0x45 <==>
      value & 0x01 != 0 && value & 0x04 != 0 && value & 0x10 == 0 && value & 0x40 != 0
    ensures value & 0x55 == 0x55 <==>
      value & 0x01 != 0 && value & 0x04 != 0 && value & 0x10 != 0 && value & 0x40 != 0
  {
  }

  /** A drive in read mode with the medium under the head, anywhere inside a byte time. */
  predicate Spinning(d: Drive) {
    Inserted(d.disk) && d.control.motor && d.control.read && !d.end &&
    0 < d.countdown <= BYTE_CYCLES && d.position <= |Medium(d.disk)|
  }

  /** What is left to pass under the head. */
  function Rest(d: Drive): seq<Byte>
    requires Spinning(d)
  {
    Medium(d.disk)[d.position..]
  }

  /** The rest of the current byte time. */
  function ByteTime(d: Drive): Drive {
    Clocked(d, d.countdown)
  }

  /** The host acts this many cycles later, at the latest in the last cycle of the byte time. */
  function Late(d: Drive, cycles: nat): Drive {
    Clocked(d, if cycles < d.countdown then cycles else Minus(d.countdown, 1))
  }

  /**
  When the host acts in one round: how long it waits until it drops START, how many cycles later it
  raises START again, at what intervals it polls the status, how late it reads each byte it has
  found ready, and how late it starts the CRC check.
  */
  datatype Round = Round(idle: nat, wait: nat, polls: seq<nat>, takes: seq<nat>, check: nat)

  function First(late: seq<nat>): nat {
    if late == [] then 0 else late[0]
  }

  function Later(late: seq<nat>): seq<nat> {
    if late == [] then [] else late[1..]
  }

  /** From one poll to the next: at least a cycle, and at most a byte time, so as not to miss a byte. */
  function Interval(cycles: nat): (n: nat)
    ensures 1 <= n <= BYTE_CYCLES
  {
    if cycles < BYTE_CYCLES then cycles + 1 else BYTE_CYCLES
  }

  /** What a poll has found, the drive after it, and the intervals that follow. */
  datatype Polled = Polled(status: Status, drive: Drive, polls: seq<nat>)

  /** Read the status over and over until a byte is ready or the medium has ended. */
  function Await(d: Drive, polls: seq<nat>): Polled
    decreases if Spinning(d) then BYTE_CYCLES * (1 + |Rest(d)|) + d.countdown else 0
  {
    if !Spinning(d) then Polled(StatusOf(d), StatusRead(d), polls)
    else
      IntervalStep(d, Interval(First(polls)));
      var e := Clocked(d, Interval(First(polls)));
      if StatusOf(e).ready || StatusOf(e).end then Polled(StatusOf(e), StatusRead(e), Later(polls))
      else Await(StatusRead(e), Later(polls))
  }

  /** Await and read `n` bytes, each at its own lateness. */
  function ReadBytes(d: Drive, n: nat, takes: seq<nat>, polls: seq<nat>): (Drive, seq<Byte>, seq<nat>)
    decreases n
  {
    if n == 0 then (d, [], polls)
    else
      var found := Await(d, polls);
      var e := Late(found.drive, First(takes));
      var (f, bytes, left) := ReadBytes(DataRead(e), n - 1, Later(takes), found.polls);
      (f, [e.head.data] + bytes, left)
  }

  datatype BlockRead = BlockRead(block: seq<Byte>, crcError: bool)

  /** Read the `n` bytes after the first one, then let the drive check the two stored CRC bytes. */
  function ReadRest(d: Drive, host: Host, first: Byte, n: nat, round: Round, polls: seq<nat>)
    : (Drive, BlockRead)
  {
    var (f, bytes, left) := ReadBytes(d, n, Later(round.takes), polls);
    var low := Await(Commanded(Late(f, round.check), host.checking), left);
    var high := Await(low.drive, low.polls);
    (high.drive, BlockRead([first] + bytes, high.status.crcError))
  }

  /** Await a block of `size` bytes and read it. */
  function ReadBlock(d: Drive, host: Host, size: nat, round: Round): (Drive, BlockRead)
    requires size > 0
  {
    var found := Await(d, round.polls);
    var e := Late(found.drive, First(round.takes));
    ReadRest(DataRead(e), host, e.head.data, size - 1, round, found.polls)
  }

  /** Leave the current block, wait in the gap, and raise START again. */
  function NextGap(d: Drive, host: Host, round: Round): Drive {
    Commanded(Clocked(Commanded(Clocked(d, round.idle), host.idle), round.wait), host.reading)
  }

  /** Read the next block, sized from its first byte, if there is one. */
  function ReadRound(d: Drive, host: Host, round: Round, fileSize: nat): Options.Option<(Drive, BlockRead)> {
    var found := Await(NextGap(d, host, round), round.polls);
    if found.status.end then Options.None
    else
      var e := Late(found.drive, First(round.takes));
      var size := BlockSize(e.head.data, fileSize);
      if size == 0 then Options.None
      else Options.Some(ReadRest(DataRead(e), host, e.head.data, size - 1, round, found.polls))
  }

  /** Read a block per round, keeping the size in the last file header read. */
  function ReadDisk(d: Drive, host: Host, rounds: seq<Round>, fileSize: nat): seq<BlockRead>
    decreases |rounds|
  {
    if rounds == [] then []
    else match ReadRound(d, host, rounds[0], fileSize)
      case None => []
      case Some((g, read)) => [read] + ReadDisk(g, host, rounds[1..], NextFileSize(read.block, fileSize))
  }

  // ----- one byte at a time

  lemma SpinStep(d: Drive)
    requires Spinning(d)
    ensures var e := ByteTime(d);
      if Rest(d) == [] then e == NextByte(d) && e.end
      else Spinning(e) && Rest(e) == Rest(d)[1..] &&
           e == d.(position := d.position + 1, scanning := true, countdown := BYTE_CYCLES,
                   head := Received(d.head, d.control, Rest(d)[0]))
  {
    var e := NextByte(d);
    assert Advance(d, d.countdown) == Advance(e, 0) == e.(countdown := BYTE_CYCLES) == e;
  }

  /** Acting late inside a byte time finds the drive as it was at its start. */
  lemma LateKeeps(d: Drive, cycles: nat)
    requires Spinning(d)
    ensures var e := Late(d, cycles);
      Spinning(e) && Rest(e) == Rest(d) && e == d.(countdown := e.countdown)
  {
  }

  /** From one poll to the next at most one byte passes. */
  lemma IntervalStep(d: Drive, cycles: nat)
    requires Spinning(d) && 1 <= cycles <= BYTE_CYCLES
    ensures var e := Clocked(d, cycles);
      if cycles < d.countdown then e == d.(countdown := d.countdown - cycles)
      else if Rest(d) == [] then e.end && e.disk == d.disk
      else Spinning(e) && Rest(e) == Rest(d)[1..] &&
           e == ByteTime(d).(countdown := BYTE_CYCLES + d.countdown - cycles)
  {
    if cycles >= d.countdown {
      SpinStep(d);
      if Rest(d) != [] {
        PastByte(d, cycles);
      } else {
        StaysStopped(d, cycles);
      }
    }
  }

  /** Cycles past the current byte time go on from the next byte. */
  lemma PastByte(d: Drive, cycles: nat)
    requires Spinning(d) && Rest(d) != [] && cycles >= d.countdown
    ensures Clocked(d, cycles) == Clocked(ByteTime(d), cycles - d.countdown)
  {
    SpinStep(d);
  }

  lemma StaysStopped(d: Drive, cycles: nat)
    requires Spinning(d) && Rest(d) == [] && cycles >= d.countdown
    ensures Clocked(d, cycles).end && Clocked(d, cycles).disk == d.disk
  {
    var e := NextByte(d);
    assert e.end && e.disk == d.disk;
    assert Advance(d, cycles) == Advance(e, cycles - d.countdown);
  }

  // ----- polling

  /** The drive took this byte. */
  predicate Took(d: Drive, p: Drive)
    requires Spinning(d) && Rest(d) != []
  {
    var head := Received(d.head, d.control, Rest(d)[0]);
    Spinning(p) && Rest(p) == Rest(d)[1..] && p.control == d.control && p.disk == d.disk &&
    p.head == head.(irq := p.head.irq)
  }

  /** The interrupt flag takes no part in decoding. */
  lemma DecodedIrq(head: Head, irq: bool, start: bool, enable: bool, byte: Byte)
    ensures var one := DecodeByte(head, start, enable, byte);
      var other := DecodeByte(head.(irq := irq), start, enable, byte);
      other == one.(irq := other.irq)
  {
    if !start {
    } else if head.inBlock {
    } else if byte != 0 {
    } else {
    }
  }

  lemma CountedIrq(head: Head, irq: bool, phase: bool)
    ensures CountCrcByte(head.(irq := irq), phase) == CountCrcByte(head, phase).(irq := irq)
  {
  }

  lemma ReceivedIrq(head: Head, irq: bool, c: Control, byte: Byte)
    requires c.read
    ensures var one, other := Received(head, c, byte), Received(head.(irq := irq), c, byte);
      other == one.(irq := other.irq)
  {
    DecodedIrq(head, irq, c.start, c.irq, byte);
    var one := DecodeByte(head, c.start, c.irq, byte);
    CountedIrq(one, DecodeByte(head.(irq := irq), c.start, c.irq, byte).irq, c.crcPhase);
  }

  /** A poll in the same byte time finds nothing, and the byte to come is the same. */
  lemma TookEarlier(d: Drive, q: Drive, p: Drive)
    requires Spinning(d) && Rest(d) != [] && !d.head.ready && Spinning(q)
    requires q == StatusRead(d.(countdown := q.countdown)) && Took(q, p)
    ensures Took(d, p)
  {
    ReceivedIrq(d.head, false, d.control, Rest(d)[0]);
    assert q.head == d.head.(irq := false);
  }

  lemma TookNow(d: Drive, e: Drive)
    requires Spinning(d) && Rest(d) != [] && Spinning(e)
    requires e == ByteTime(d).(countdown := e.countdown)
    ensures Took(d, e)
  {
    SpinStep(d);
  }

  /** However the host polls, it sees the next byte once, and before the one after. */
  lemma {:induction false} ByteArrives(d: Drive, polls: seq<nat>) returns (p: Drive, left: seq<nat>)
    requires Spinning(d) && Rest(d) != [] && !d.head.ready
    ensures Took(d, p)
    ensures Await(d, polls) == if p.head.ready then Polled(StatusOf(p), StatusRead(p), left)
                               else Await(StatusRead(p), left)
    decreases d.countdown
  {
    var cycles := Interval(First(polls));
    var e := Clocked(d, cycles);
    IntervalStep(d, cycles);
    if cycles < d.countdown {
      p, left := ByteArrives(StatusRead(e), Later(polls));
      TookEarlier(d, StatusRead(e), p);
    } else {
      p, left := e, Later(polls);
      TookNow(d, p);
    }
  }

  lemma {:induction false} EndArrives(d: Drive, polls: seq<nat>)
    requires Spinning(d) && Rest(d) == [] && !d.head.ready
    ensures Await(d, polls).status.end
    decreases d.countdown
  {
    var cycles := Interval(First(polls));
    IntervalStep(d, cycles);
    if cycles < d.countdown {
      EndArrives(StatusRead(Clocked(d, cycles)), Later(polls));
    }
  }

  // ----- gaps

  /** The decoder waiting for a sync byte. */
  predicate Hunting(head: Head) {
    !head.inBlock && head.crc == 0 && !head.previousCrc && head.crcBytesSeen == 0 &&
    !head.crcError && !head.ready
  }

  /** A drive that hunts in front of these bytes. */
  predicate HuntsBefore(d: Drive, ahead: seq<Byte>) {
    Spinning(d) && Hunting(d.head) && !d.control.crcPhase && Rest(d) == ahead
  }

  lemma ZerosFront(n: nat, after: seq<Byte>)
    requires n > 0
    ensures (Zeros(n) + after)[0] == 0 && (Zeros(n) + after)[1..] == Zeros(n - 1) + after
  {
  }

  lemma MediumByte(d: Drive)
    requires Spinning(d) && Rest(d) != []
    ensures var e := ByteTime(d);
      Spinning(e) && Rest(e) == Rest(d)[1..] && e.control == d.control && e.disk == d.disk &&
      e.countdown == BYTE_CYCLES && (Rest(d)[0] == 0 && HuntsBefore(d, Rest(d)) ==> e.head == d.head)
  {
    SpinStep(d);
  }

  /** Any number of cycles that end before the gap does leave the drive in what is left of it. */
  lemma {:induction false} GapCycles(d: Drive, cycles: nat, gap: nat, after: seq<Byte>) returns (left: nat)
    requires Spinning(d) && Rest(d) == Zeros(gap) + after
    requires cycles < d.countdown + BYTE_CYCLES * gap
    ensures var e := Clocked(d, cycles);
      left <= gap && Spinning(e) && Rest(e) == Zeros(left) + after && e.control == d.control &&
      e.disk == d.disk && (HuntsBefore(d, Rest(d)) ==> e.head == d.head) &&
      e.countdown + BYTE_CYCLES * left == d.countdown + BYTE_CYCLES * gap - cycles
    decreases gap
  {
    if cycles < d.countdown {
      left := gap;
    } else {
      MediumByte(d);
      PastByte(d, cycles);
      ZerosFront(gap, after);
      left := GapCycles(ByteTime(d), cycles - d.countdown, gap - 1, after);
    }
  }

  /** START is raised again before the gap ends. */
  predicate Fits(d: Drive, round: Round, gap: nat) {
    round.idle + round.wait < d.countdown + BYTE_CYCLES * gap
  }

  /** Dropping and raising START anywhere in a gap leaves the drive hunting in what is left of it. */
  lemma NextGapHunts(d: Drive, host: Host, round: Round, gap: nat, after: seq<Byte>) returns (left: nat)
    requires Obeys(host) && Spinning(d) && Rest(d) == Zeros(gap) + after && Fits(d, round, gap)
    ensures var e := NextGap(d, host, round);
      left <= gap && HuntsBefore(e, Zeros(left) + after) && e.control == Decode(host.reading) && e.disk == d.disk
  {
    var middle := GapCycles(d, round.idle, gap, after);
    var idle := Commanded(Clocked(d, round.idle), host.idle);
    left := GapCycles(idle, round.wait, middle, after);
  }

  /** Polling through a gap changes nothing. */
  lemma {:induction false} AwaitThroughGap(d: Drive, polls: seq<nat>, n: nat, after: seq<Byte>)
    returns (e: Drive, left: seq<nat>)
    requires HuntsBefore(d, Zeros(n) + after)
    ensures HuntsBefore(e, after) && e.control == d.control && e.disk == d.disk
    ensures Await(d, polls) == Await(e, left)
    decreases n
  {
    if n == 0 {
      assert Zeros(0) + after == after;
      e, left := d, polls;
    } else {
      ZerosFront(n, after);
      var p, rest := ByteArrives(d, polls);
      e, left := AwaitThroughGap(StatusRead(p), rest, n - 1, after);
    }
  }

  // ----- one block

  predicate InBody(d: Drive) {
    Spinning(d) && d.control.start && !d.control.crcPhase && d.head.inBlock && !d.head.previousCrc &&
    !d.head.ready
  }

  /** In a block whose first byte is still to come. */
  predicate Synced(d: Drive) {
    InBody(d) && d.head.crc == CrcByte(0, 0x80)
  }

  /** The sync byte is swallowed. */
  lemma AwaitSync(d: Drive, polls: seq<nat>, after: seq<Byte>) returns (s: Drive, left: seq<nat>)
    requires HuntsBefore(d, [0x80] + after) && d.control.start
    ensures Synced(s) && Rest(s) == after && s.control == d.control && s.disk == d.disk
    ensures Await(d, polls) == Await(s, left)
  {
    var p, rest := ByteArrives(d, polls);
    assert ([0x80] + after)[1..] == after;
    s, left := StatusRead(p), rest;
  }

  /** Then the first block byte becomes ready. */
  lemma AwaitAtBlock(d: Drive, polls: seq<nat>, first: Byte, after: seq<Byte>)
    requires HuntsBefore(d, [0x80, first] + after) && d.control.start
    ensures var found := Await(d, polls);
      found.status.ready && !found.status.end && InBody(found.drive) && Rest(found.drive) == after &&
      found.drive.control == d.control && found.drive.disk == d.disk &&
      found.drive.head.data == first && found.drive.head.crc == CrcByte(CrcByte(0, 0x80), first)
  {
    assert [0x80, first] + after == [0x80] + ([first] + after);
    var s, left := AwaitSync(d, polls, [first] + after);
    var e, rest := ByteArrives(s, left);
    assert ([first] + after)[1..] == after;
  }

  lemma AwaitBlock(d: Drive, polls: seq<nat>, gap: nat, first: Byte, after: seq<Byte>)
    requires HuntsBefore(d, Zeros(gap) + ([0x80, first] + after)) && d.control.start
    ensures var found := Await(d, polls);
      found.status.ready && !found.status.end && InBody(found.drive) && Rest(found.drive) == after &&
      found.drive.control == d.control && found.drive.disk == d.disk &&
      found.drive.head.data == first && found.drive.head.crc == CrcByte(CrcByte(0, 0x80), first)
  {
    var e, left := AwaitThroughGap(d, polls, gap, [0x80, first] + after);
    AwaitAtBlock(e, left, first, after);
  }

  /** A byte of an open block is ready, and interrupts if and only if bit 7 of the register asked for it. */
  lemma ByteInterrupts(d: Drive, value: bv8, byte: Byte)
    requires d.control == Decode(value) && value & 0x44 == 0x44 && d.head.inBlock
    ensures var head := Received(d.head, d.control, byte);
      head.ready && head.data == byte && head.irq == (d.head.irq || value & 0x80 != 0)
  {
    assert value & 0x04 != 0 && value & 0x40 != 0;
  }

  lemma BodyByte(d: Drive, polls: seq<nat>, late: nat)
    requires InBody(d) && Rest(d) != []
    ensures var e := Late(Await(d, polls).drive, late);
      var f := DataRead(e);
      e.head.data == Rest(d)[0] && InBody(f) && Rest(f) == Rest(d)[1..] && f.control == d.control &&
      f.disk == d.disk && f.head.crc == CrcByte(d.head.crc, Rest(d)[0])
  {
    var p, left := ByteArrives(d, polls);
    LateKeeps(StatusRead(p), late);
  }

  lemma {:induction false} BodyBytes(
    d: Drive, bytes: seq<Byte>, takes: seq<nat>, polls: seq<nat>, after: seq<Byte>)
    requires InBody(d) && Rest(d) == bytes + after
    ensures var (e, read, left) := ReadBytes(d, |bytes|, takes, polls);
      read == bytes && InBody(e) && Rest(e) == after && e.control == d.control &&
      e.disk == d.disk && e.head.crc == Fold(d.head.crc, bytes)
    decreases |bytes|
  {
    if bytes == [] {
      assert [] + after == after;
    } else {
      var found := Await(d, polls);
      BodyByte(d, polls, First(takes));
      assert Rest(d)[1..] == bytes[1..] + after;
      BodyBytes(DataRead(Late(found.drive, First(takes))), bytes[1..], Later(takes), found.polls, after);
      assert bytes == [bytes[0]] + bytes[1..];
    }
  }

  /** In the CRC phase, with the block still open. */
  predicate Checking(d: Drive) {
    Spinning(d) && d.control.start && d.control.crcPhase && d.head.inBlock && !d.head.ready
  }

  lemma ReceivedChecking(head: Head, c: Control, byte: Byte)
    requires c.read && c.start && c.crcPhase && head.inBlock
    ensures var got := Received(head, c, byte);
      var counted := CountCrcByte(head.(crc := CrcByte(head.crc, byte)), true);
      got.ready && got.inBlock && got.crc == counted.crc && got.previousCrc == counted.previousCrc &&
      got.crcBytesSeen == counted.crcBytesSeen && got.crcError == counted.crcError
  {
    var decoded := DecodeByte(head, true, c.irq, byte);
    assert decoded == head.(crc := CrcByte(head.crc, byte), data := byte, ready := true, irq := decoded.irq);
  }

  lemma CheckedByte(d: Drive, polls: seq<nat>)
    requires Checking(d) && Rest(d) != []
    ensures var found := Await(d, polls);
      var head := CountCrcByte(d.head.(crc := CrcByte(d.head.crc, Rest(d)[0])), true);
      Checking(found.drive) && Rest(found.drive) == Rest(d)[1..] && found.drive.disk == d.disk &&
      found.drive.head.crc == head.crc && found.drive.head.previousCrc == head.previousCrc &&
      found.drive.head.crcBytesSeen == head.crcBytesSeen && found.status.crcError == head.crcError
  {
    ReceivedChecking(d.head, d.control, Rest(d)[0]);
    var p, left := ByteArrives(d, polls);
  }

  /** The CRC verdict appears after exactly two bytes of the CRC phase. */
  lemma CrcVerdict(
    d: Drive, host: Host, late: nat, polls: seq<nat>, low: Byte, high: Byte, after: seq<Byte>)
    requires Obeys(host) && InBody(d) && Rest(d) == [low, high] + after
    ensures var one := Await(Commanded(Late(d, late), host.checking), polls);
      var two := Await(one.drive, one.polls);
      Spinning(two.drive) && Rest(two.drive) == after && two.drive.disk == d.disk &&
      two.status.crcError == (Fold(d.head.crc, [low, high]) != 0)
  {
    LateKeeps(d, late);
    var c := Commanded(Late(d, late), host.checking);
    CheckedByte(c, polls);
    var one := Await(c, polls);
    assert Rest(one.drive) == [high] + after;
    CheckedByte(one.drive, one.polls);
    assert Rest(one.drive)[1..] == after;
    FoldTwo(d.head.crc, low, high);
  }

  lemma BodyAndCrc(
    d: Drive, host: Host, first: Byte, round: Round, polls: seq<nat>, body: seq<Byte>, crc: seq<Byte>,
    after: seq<Byte>)
    requires Obeys(host) && InBody(d) && |crc| == 2 && Rest(d) == body + (crc + after)
    ensures var (g, read) := ReadRest(d, host, first, |body|, round, polls);
      read == BlockRead([first] + body, Fold(Fold(d.head.crc, body), crc) != 0) &&
      Spinning(g) && Rest(g) == after && g.disk == d.disk
  {
    BodyBytes(d, body, Later(round.takes), polls, crc + after);
    assert crc == [crc[0], crc[1]];
    var (f, bytes, left) := ReadBytes(d, |body|, Later(round.takes), polls);
    CrcVerdict(f, host, round.check, left, crc[0], crc[1], after);
  }

  /**
  A host reading a block of known size, at any cycle of each byte time, gets the stored bytes as
  they are, and a CRC error exactly when they do not fold to zero.
  */
  lemma BlockReadBack(
    d: Drive, host: Host, round: Round, gap: nat, stored: seq<Byte>, size: nat, after: seq<Byte>)
    requires Obeys(host) && d.control == Decode(host.reading)
    requires |stored| == size + 2 && size > 0 && HuntsBefore(d, Zeros(gap) + ([0x80] + stored + after))
    ensures var found := Await(d, round.polls);
      var (g, read) := ReadBlock(d, host, size, round);
      !found.status.end && Late(found.drive, First(round.takes)).head.data == stored[0] &&
      read == BlockRead(stored[..size], Fold(CrcByte(0, 0x80), stored) != 0) &&
      Spinning(g) && Rest(g) == after && g.disk == d.disk
  {
    var body, crc := stored[1..size], stored[size..];
    assert [0x80] + stored + after == [0x80, stored[0]] + (body + (crc + after));
    AwaitBlock(d, round.polls, gap, stored[0], body + (crc + after));
    var found := Await(d, round.polls);
    LateKeeps(found.drive, First(round.takes));
    var e := Late(found.drive, First(round.takes));
    BodyAndCrc(DataRead(e), host, stored[0], round, found.polls, body, crc, after);
    FoldInThree(stored, size);
  }

  lemma FoldInThree(stored: seq<Byte>, size: nat)
    requires 0 < size <= |stored|
    ensures Fold(CrcByte(0, 0x80), stored)
         == Fold(Fold(CrcByte(CrcByte(0, 0x80), stored[0]), stored[1..size]), stored[size..])
    ensures stored[..size] == [stored[0]] + stored[1..size]
  {
    assert stored == [stored[0]] + (stored[1..size] + stored[size..]);
    FoldParts(CrcByte(0, 0x80), stored[0], stored[1..size], stored[size..]);
  }

  lemma FoldParts(start: bv16, first: Byte, body: seq<Byte>, crc: seq<Byte>)
    ensures Fold(start, [first] + (body + crc)) == Fold(Fold(CrcByte(start, first), body), crc)
  {
    assert ([first] + (body + crc))[1..] == body + crc;
    Iteration.FoldLeftAppend(CrcByte, CrcByte(start, first), body, crc);
  }

  /** The CRC verdict on a corrupted block depends on the error pattern alone. */
  lemma CorruptionVerdict(
    d: Drive, host: Host, round: Round, gap: nat, block: seq<Byte>, error: seq<Byte>, after: seq<Byte>)
    requires IsHost(host) && d.control == Decode(host.reading)
    requires block != [] && |error| == |Stored(block)|
    requires HuntsBefore(d, Zeros(gap) + ([0x80] + Corrupt(Stored(block), error) + after))
    ensures ReadBlock(d, host, |block|, round).1.crcError == (Fold(0, error) != 0)
  {
    HostCommands(host);
    BlockReadBack(d, host, round, gap, Corrupt(Stored(block), error), |block|, after);
    CorruptedResidue(block, error);
  }

  /** Any error confined to sixteen consecutive stored bits is reported, whatever the block's length. */
  lemma BurstDetected(
    d: Drive, host: Host, round: Round, gap: nat, block: seq<Byte>, error: seq<Byte>, at: nat,
    after: seq<Byte>)
    requires IsHost(host) && d.control == Decode(host.reading)
    requires block != [] && |error| == |Stored(block)| && IsBurst(error, at)
    requires HuntsBefore(d, Zeros(gap) + ([0x80] + Corrupt(Stored(block), error) + after))
    ensures ReadBlock(d, host, |block|, round).1.crcError
  {
    CorruptionVerdict(d, host, round, gap, block, error, after);
    BurstIsSeen(error, at);
  }

  // ----- the whole side

  function Intact(blocks: seq<seq<Byte>>, rounds: nat): seq<BlockRead> {
    if blocks == [] || rounds == 0 then []
    else [BlockRead(blocks[0], false)] + Intact(blocks[1..], rounds - 1)
  }

  lemma SectionsFrontGap(block: seq<Byte>, rest: seq<seq<Byte>>)
    ensures Sections([block] + rest) + Zeros(GAP)
         == [0x80] + Stored(block) + (Zeros(GAP) + (Sections(rest) + Zeros(GAP)))
  {
    SectionsFront(block, rest);
    GapApart([0x80] + Stored(block), Zeros(GAP), Sections(rest));
  }

  lemma GapApart(front: seq<Byte>, gap: seq<Byte>, sections: seq<Byte>)
    ensures front + gap + sections + gap == front + (gap + (sections + gap))
  {
  }

  /** The drive is in a gap of a well-sized medium, with these blocks ahead. */
  predicate InGap(d: Drive, gap: nat, blocks: seq<seq<Byte>>) {
    Spinning(d) && Rest(d) == Zeros(gap) + (Sections(blocks) + Zeros(GAP))
  }

  /** One round on an intact medium reads the next block and stops at the next gap. */
  lemma SectionReadBack(
    d: Drive, host: Host, round: Round, gap: nat, block: seq<Byte>, rest: seq<seq<Byte>>, fileSize: nat)
    returns (g: Drive)
    requires Obeys(host) && InGap(d, gap, [block] + rest) && Fits(d, round, gap)
    requires |block| > 0 && |block| == BlockSize(block[0], fileSize)
    ensures ReadRound(d, host, round, fileSize) == Options.Some((g, BlockRead(block, false)))
    ensures InGap(g, GAP, rest)
  {
    var after := Zeros(GAP) + (Sections(rest) + Zeros(GAP));
    SectionsFrontGap(block, rest);
    var left := NextGapHunts(d, host, round, gap, [0x80] + Stored(block) + after);
    BlockReadBack(NextGap(d, host, round), host, round, left, Stored(block), |block|, after);
    assert Stored(block)[..|block|] == block;
    BlockResidue(block);
    g := ReadBlock(NextGap(d, host, round), host, |block|, round).0;
  }

  /** Behind the last block the host finds the end. */
  lemma EndReached(d: Drive, host: Host, round: Round, gap: nat, fileSize: nat)
    requires Obeys(host) && InGap(d, gap, []) && Fits(d, round, gap)
    ensures ReadRound(d, host, round, fileSize) == Options.None
  {
    var left := NextGapHunts(d, host, round, gap, Sections([]) + Zeros(GAP));
    LastGapEnds(NextGap(d, host, round), round.polls, left + GAP);
  }

  lemma LastGapEnds(d: Drive, polls: seq<nat>, n: nat)
    requires Spinning(d) && Hunting(d.head) && !d.control.crcPhase
    requires |Rest(d)| == n && forall i :: 0 <= i < n ==> Rest(d)[i] == 0
    ensures Await(d, polls).status.end
  {
    assert Rest(d) == Zeros(n) + [];
    var e, left := AwaitThroughGap(d, polls, n, []);
    EndArrives(e, left);
  }

  /** Every round raises START before its gap ends. */
  predicate Timely(d: Drive, host: Host, rounds: seq<Round>, gap: nat, fileSize: nat)
    decreases |rounds|
  {
    rounds == [] ||
    (Fits(d, rounds[0], gap) &&
     match ReadRound(d, host, rounds[0], fileSize)
     case None => true
     case Some((g, read)) => Timely(g, host, rounds[1..], GAP, NextFileSize(read.block, fileSize)))
  }

  /** The host stands in front of these blocks. */
  predicate IsReady(d: Drive, host: Host, gap: nat, blocks: seq<seq<Byte>>, fileSize: nat) {
    Obeys(host) && InGap(d, gap, blocks) && WellSized(blocks, fileSize)
  }

  lemma NextSized(block: seq<Byte>, rest: seq<seq<Byte>>, fileSize: nat)
    requires WellSized([block] + rest, fileSize)
    ensures |block| > 0 && |block| == BlockSize(block[0], fileSize)
    ensures WellSized(rest, NextFileSize(block, fileSize))
  {
    assert ([block] + rest)[1..] == rest;
  }

  lemma FrontRound(
    d: Drive, host: Host, round: Round, gap: nat, block: seq<Byte>, rest: seq<seq<Byte>>, fileSize: nat)
    returns (g: Drive)
    requires IsReady(d, host, gap, [block] + rest, fileSize) && Fits(d, round, gap)
    ensures ReadRound(d, host, round, fileSize) == Options.Some((g, BlockRead(block, false)))
    ensures IsReady(g, host, GAP, rest, NextFileSize(block, fileSize))
  {
    NextSized(block, rest, fileSize);
    g := SectionReadBack(d, host, round, gap, block, rest, fileSize);
  }

  lemma NextRound(
    d: Drive, host: Host, round: Round, gap: nat, blocks: seq<seq<Byte>>, fileSize: nat)
    returns (g: Drive)
    requires IsReady(d, host, gap, blocks, fileSize) && blocks != [] && Fits(d, round, gap)
    ensures ReadRound(d, host, round, fileSize) == Options.Some((g, BlockRead(blocks[0], false)))
    ensures IsReady(g, host, GAP, blocks[1..], NextFileSize(blocks[0], fileSize))
  {
    FirstBlock(blocks);
    g := FrontRound(d, host, round, gap, blocks[0], blocks[1..], fileSize);
  }

  lemma FirstBlock(blocks: seq<seq<Byte>>)
    requires blocks != []
    ensures [blocks[0]] + blocks[1..] == blocks
  {
  }

  /** The host stands in front of these blocks, and its rounds are in time. */
  predicate IsInTime(
    d: Drive, host: Host, rounds: seq<Round>, gap: nat, blocks: seq<seq<Byte>>, fileSize: nat) {
    IsReady(d, host, gap, blocks, fileSize) && Timely(d, host, rounds, gap, fileSize)
  }

  lemma NoMoreBlocks(d: Drive, host: Host, rounds: seq<Round>, gap: nat, fileSize: nat)
    requires IsInTime(d, host, rounds, gap, [], fileSize) && rounds != []
    ensures ReadDisk(d, host, rounds, fileSize) == []
  {
    EndReached(d, host, rounds[0], gap, fileSize);
  }

  lemma NextTimely(
    d: Drive, host: Host, rounds: seq<Round>, gap: nat, blocks: seq<seq<Byte>>, fileSize: nat,
    next: nat) returns (g: Drive)
    requires IsInTime(d, host, rounds, gap, blocks, fileSize)
    requires rounds != [] && blocks != [] && next == NextFileSize(blocks[0], fileSize)
    ensures IsInTime(g, host, rounds[1..], GAP, blocks[1..], next)
    ensures ReadDisk(d, host, rounds, fileSize)
         == [BlockRead(blocks[0], false)] + ReadDisk(g, host, rounds[1..], next)
  {
    g := NextRound(d, host, rounds[0], gap, blocks, fileSize);
  }

  lemma OneReadMore(
    found: seq<BlockRead>, later: seq<BlockRead>, blocks: seq<seq<Byte>>, rounds: nat, rest: nat)
    requires blocks != [] && rounds == rest + 1 && later == Intact(blocks[1..], rest)
    requires found == [BlockRead(blocks[0], false)] + later
    ensures found == Intact(blocks, rounds)
  {
  }

  /** From any gap, every round reads the next block; the one after the last finds the end. */
  lemma {:induction false} SectionsReadBack(
    d: Drive, host: Host, rounds: seq<Round>, gap: nat, blocks: seq<seq<Byte>>, fileSize: nat)
    requires IsInTime(d, host, rounds, gap, blocks, fileSize)
    ensures ReadDisk(d, host, rounds, fileSize) == Intact(blocks, |rounds|)
    decreases |rounds|
  {
    if rounds == [] {
    } else if blocks == [] {
      NoMoreBlocks(d, host, rounds, gap, fileSize);
    } else {
      var next, later := NextFileSize(blocks[0], fileSize), rounds[1..];
      var g := NextTimely(d, host, rounds, gap, blocks, fileSize, next);
      SectionsReadBack(g, host, later, GAP, blocks[1..], next);
      OneReadMore(ReadDisk(d, host, rounds, fileSize), ReadDisk(g, host, later, next), blocks,
                  |rounds|, |later|);
    }
  }

  /** Each round lets fewer bytes pass than its gap has, wherever in a byte time it begins. */
  predicate IsPrompt(rounds: seq<Round>, gap: nat) {
    (rounds != [] ==> rounds[0].idle + rounds[0].wait <= BYTE_CYCLES * gap) &&
    forall i :: 0 < i < |rounds| ==> rounds[i].idle + rounds[i].wait <= BYTE_CYCLES * GAP
  }

  /** Such a host is always in time. */
  lemma {:induction false} PromptIsTimely(
    d: Drive, host: Host, rounds: seq<Round>, gap: nat, blocks: seq<seq<Byte>>, fileSize: nat)
    requires IsReady(d, host, gap, blocks, fileSize) && IsPrompt(rounds, gap)
    ensures Timely(d, host, rounds, gap, fileSize)
    decreases |rounds|
  {
    if rounds == [] {
    } else if blocks == [] {
      EndReached(d, host, rounds[0], gap, fileSize);
    } else {
      var g := NextRound(d, host, rounds[0], gap, blocks, fileSize);
      PromptIsTimely(g, host, rounds[1..], GAP, blocks[1..], NextFileSize(blocks[0], fileSize));
    }
  }

  /** The drive once the motor is on and the first byte of the lead has passed. */
  function Started(d: Drive, host: Host): Drive {
    Clocked(Commanded(d, host.idle), SPIN_UP)
  }

  /** Starting the motor and waiting for the first byte puts the drive inside the lead gap. */
  lemma MotorStart(d: Drive, host: Host, after: seq<Byte>)
    requires Obeys(host) && Inserted(d.disk) && d.end
    requires Medium(d.disk) == Zeros(LEAD_GAP) + after
    ensures Spinning(Started(d, host)) && Rest(Started(d, host)) == Zeros(LEAD_GAP - 1) + after
  {
    var s := SpinUp(Commanded(d, host.idle));
    var e := NextByte(s);
    assert Advance(s, SPIN_UP) == Advance(e, 0) == e;
    assert Medium(d.disk)[1..] == Zeros(LEAD_GAP - 1) + after;
  }

  lemma SideReady(d: Drive, host: Host, raw: seq<Byte>)
    requires Obeys(host) && Inserted(d.disk) && d.end
    requires Medium(d.disk) == Stream(Blocks(raw, 0, 0))
    ensures IsReady(Started(d, host), host, LEAD_GAP - 1, Blocks(raw, 0, 0), 0)
  {
    var blocks := Blocks(raw, 0, 0);
    Sequences.Assoc(Zeros(LEAD_GAP), Sections(blocks), Zeros(GAP));
    MotorStart(d, host, Sections(blocks) + Zeros(GAP));
    BlocksCutTheSide(raw, 0, 0);
  }

  /**
  The round trip: for every raw side, a host that knows nothing of it, dropping and raising START at
  any cycle of each gap, polling at any intervals and reading at any cycle of each byte time, reads
  back exactly the blocks of the side, each with a clear CRC.
  */
  lemma SideReadBack(d: Drive, host: Host, rounds: seq<Round>, raw: seq<Byte>)
    requires IsHost(host) && Inserted(d.disk) && d.end
    requires Medium(d.disk) == Stream(Blocks(raw, 0, 0))
    requires Timely(Started(d, host), host, rounds, LEAD_GAP - 1, 0)
    ensures ReadDisk(Started(d, host), host, rounds, 0) == Intact(Blocks(raw, 0, 0), |rounds|)
  {
    HostCommands(host);
    SideReady(d, host, raw);
    SectionsReadBack(Started(d, host), host, rounds, LEAD_GAP - 1, Blocks(raw, 0, 0), 0);
  }

  /** In particular any host that leaves each gap a byte time early. */
  lemma PromptSideReadBack(d: Drive, host: Host, rounds: seq<Round>, raw: seq<Byte>)
    requires IsHost(host) && Inserted(d.disk) && d.end
    requires Medium(d.disk) == Stream(Blocks(raw, 0, 0)) && IsPrompt(rounds, LEAD_GAP - 1)
    ensures ReadDisk(Started(d, host), host, rounds, 0) == Intact(Blocks(raw, 0, 0), |rounds|)
  {
    HostCommands(host);
    SideReady(d, host, raw);
    PromptIsTimely(Started(d, host), host, rounds, LEAD_GAP - 1, Blocks(raw, 0, 0), 0);
    SideReadBack(d, host, rounds, raw);
  }

  function BlocksRead(found: seq<BlockRead>): seq<seq<Byte>> {
    seq(|found|, i requires 0 <= i < |found| => found[i].block)
  }

  lemma {:induction false} IntactBlocks(blocks: seq<seq<Byte>>, rounds: nat)
    requires rounds >= |blocks|
    ensures BlocksRead(Intact(blocks, rounds)) == blocks
    decreases |blocks|
  {
    if blocks == [] {
    } else {
      IntactBlocks(blocks[1..], rounds - 1);
      var rest := Intact(blocks[1..], rounds - 1);
      assert BlocksRead([BlockRead(blocks[0], false)] + rest) == [blocks[0]] + BlocksRead(rest);
    }
  }

  /** Reading a loaded side back yields the data of every file the parser reports for it, in order. */
  lemma FilesReadBack(
    d: Drive, host: Host, rounds: seq<Round>, image: DiskImage, s: nat)
    requires IsHost(host) && d.end && d.disk == Disk(LoadedSides(image), Options.Some(s))
    requires image.files == ImageFiles(SideData(image.raw), 0, image.sideCount).files
    requires s < image.sideCount && s * SIDE_SIZE < |SideData(image.raw)|
    requires |rounds| >= |Blocks(Side(SideData(image.raw), s), 0, 0)|
    requires Timely(Started(d, host), host, rounds, LEAD_GAP - 1, 0)
    ensures FileData(FilesOfSide(image.files, s))
         <= Payloads(BlocksRead(ReadDisk(Started(d, host), host, rounds, 0)))
  {
    var side := Side(SideData(image.raw), s);
    ImageSidesAgree(image, s);
    SideReadBack(d, host, rounds, side);
    IntactBlocks(Blocks(side, 0, 0), |rounds|);
  }
}
