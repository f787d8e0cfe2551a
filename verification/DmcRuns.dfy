/** What the delta modulation channel does over whole runs of clocks, fetches and register writes. */
module DmcRuns {
  import opened Arithmetic
  import opened Dmc
  import Iteration
  import opened MachineWords

  datatype Op = Clock(cycles: nat) | Fetch(value: Byte) | Write(addr: Register, data: Byte)

  function Step(c: Channel, op: Op): Channel {
    match op
    case Clock(cycles) => Clocked(c, cycles)
    case Fetch(value) => Fetched(c, value)
    case Write(addr, data) => Written(c, addr, data)
  }

  function Run(c: Channel, ops: seq<Op>): Channel {
    Iteration.FoldLeft(Step, c, ops)
  }

  // ----- ranges

  /** The DAC level has seven bits and every fetch address is in $8000-$FFFF. */
  predicate IsSafe(c: Channel) {
    c.output.level <= 127 && c.output.bitsRemaining <= 7 &&
    c.reader.currentAddr >= 0x8000 && c.reader.sampleAddr >= 0xC000 &&
    c.reader.bytesRemaining <= 0xFF1
  }

  lemma BitsKeepLevel(o: Output, n: nat)
    requires o.level <= 127 && o.bitsRemaining <= 7
    ensures var p := Iteration.Iterate(OutputBit, o, n); p.level <= 127 && p.bitsRemaining <= 7
  {
    Iteration.IterateKeeps(OutputBit, (p: Output) => p.level <= 127 && p.bitsRemaining <= 7, o, n);
  }

  lemma ClockKeepsSafe(c: Channel, cycles: nat)
    requires IsSafe(c)
    ensures IsSafe(Clocked(c, cycles))
  {
    if c.enabled {
      BitsKeepLevel(c.output, Quotient(c.timer + cycles, Period(c.rate)));
    }
  }

  lemma WriteKeepsSafe(c: Channel, addr: Register, data: Byte)
    requires IsSafe(c)
    ensures IsSafe(Written(c, addr, data))
  {
  }

  lemma FetchKeepsSafe(c: Channel, value: Byte)
    requires IsSafe(c)
    ensures IsSafe(Fetched(c, value))
  {
  }

  lemma StepKeepsSafe(c: Channel, op: Op)
    requires IsSafe(c)
    ensures IsSafe(Step(c, op))
  {
    match op
    case Clock(cycles) => ClockKeepsSafe(c, cycles);
    case Fetch(value) => FetchKeepsSafe(c, value);
    case Write(addr, data) => WriteKeepsSafe(c, addr, data);
  }

  lemma {:induction false} RunKeepsSafe(c: Channel, ops: seq<Op>)
    requires IsSafe(c)
    ensures IsSafe(Run(c, ops))
    decreases |ops|
  {
    if ops == [] {
    } else {
      StepKeepsSafe(c, ops[0]);
      RunKeepsSafe(Step(c, ops[0]), ops[1..]);
    }
  }

  lemma EveryRunIsSafe(ops: seq<Op>)
    ensures var c := Run(PowerOn(), ops);
      c.output.level <= 127 &&
      (PendingFetch(c).Some? ==> 0x8000 <= PendingFetch(c).value <= 0xFFFF)
  {
    RunKeepsSafe(PowerOn(), ops);
  }

  // ----- which bytes are fetched

  predicate NoWrites(ops: seq<Op>) {
    forall i :: 0 <= i < |ops| ==> !ops[i].Write?
  }

  /** The addresses of the bytes accepted during a run. */
  function ReadAddrs(c: Channel, ops: seq<Op>): seq<Word>
    decreases |ops|
  {
    if ops == [] then []
    else
      var rest := ReadAddrs(Step(c, ops[0]), ops[1..]);
      if ops[0].Fetch? && Accepts(c) then [c.reader.currentAddr] + rest else rest
  }

  /** Where byte `k` of the sample lies; the address wraps from $FFFF to $8000. */
  function SampleAt(r: Reader, k: nat): int {
    if r.sampleAddr + k <= 0xFFFF then r.sampleAddr + k else r.sampleAddr + k - 0x8000
  }

  /** The reader is about to fetch byte `k` of its sample. */
  predicate AtByte(r: Reader, k: nat) {
    r.sampleAddr >= 0xC000 && k < r.sampleLength && r.bytesRemaining == r.sampleLength - k &&
    r.currentAddr == SampleAt(r, k)
  }

  predicate SameSample(r: Reader, s: Reader) {
    r.sampleAddr == s.sampleAddr && r.sampleLength == s.sampleLength && r.loop == s.loop &&
    r.irqEnabled == s.irqEnabled
  }

  lemma AdvancedAt(r: Reader, k: nat)
    requires AtByte(r, k)
    ensures SameSample(Advanced(r), r)
    ensures k + 1 < r.sampleLength ==> AtByte(Advanced(r), k + 1) && Advanced(r).irqFlag == r.irqFlag
    ensures k + 1 == r.sampleLength && r.loop ==> AtByte(Advanced(r), 0)
    ensures k + 1 == r.sampleLength && !r.loop ==>
      Advanced(r).bytesRemaining == 0 && Advanced(r).irqFlag == (r.irqFlag || r.irqEnabled)
  {
  }

  /** Addresses that go through the sample from byte `k` on, wrapping at its length. */
  predicate InOrder(addrs: seq<Word>, r: Reader, k: nat) {
    forall i :: 0 <= i < |addrs| ==> addrs[i] == SampleAt(r, Remainder(k + i, r.sampleLength))
  }

  lemma InOrderCons(rest: seq<Word>, r: Reader, k: nat, k': nat)
    requires AtByte(r, k) && k' == (if k + 1 == r.sampleLength then 0 else k + 1) && InOrder(rest, r, k')
    ensures InOrder([r.currentAddr] + rest, r, k)
  {
    var addrs := [r.currentAddr] + rest;
    forall i | 0 <= i < |addrs|
      ensures addrs[i] == SampleAt(r, Remainder(k + i, r.sampleLength))
    {
      if i > 0 {
        RemainderAfterWrap(k, k', i - 1, r.sampleLength);
      }
    }
  }

  lemma InOrderSame(addrs: seq<Word>, r: Reader, s: Reader, k: nat)
    requires SameSample(r, s) && InOrder(addrs, r, k)
    ensures InOrder(addrs, s, k)
  {
  }

  /** A looping channel reads its sample over and over, in order. */
  lemma {:induction false} LoopReads(c: Channel, ops: seq<Op>, k: nat)
    requires NoWrites(ops) && c.reader.loop && AtByte(c.reader, k)
    ensures InOrder(ReadAddrs(c, ops), c.reader, k)
    decreases |ops|
  {
    if ops == [] {
    } else {
      var next := Step(c, ops[0]);
      if ops[0].Fetch? && Accepts(c) {
        AdvancedAt(c.reader, k);
        var k' := if k + 1 == c.reader.sampleLength then 0 else k + 1;
        LoopReads(next, ops[1..], k');
        InOrderSame(ReadAddrs(next, ops[1..]), next.reader, c.reader, k');
        InOrderCons(ReadAddrs(next, ops[1..]), c.reader, k, k');
      } else {
        LoopReads(next, ops[1..], k);
      }
    }
  }

  lemma RemainderAfterWrap(k: nat, k': nat, i: nat, n: nat)
    requires k < n && k' == if k + 1 == n then 0 else k + 1
    ensures Remainder(k' + i, n) == Remainder(k + (i + 1), n)
  {
  }

  /** A one-shot channel reads each byte once and interrupts with the last. */
  lemma {:induction false} OneShotReads(c: Channel, ops: seq<Op>, k: nat)
    requires NoWrites(ops) && !c.reader.loop && AtByte(c.reader, k)
    ensures var addrs, n, end := ReadAddrs(c, ops), c.reader.sampleLength, Run(c, ops).reader;
      |addrs| <= n - k && (forall i :: 0 <= i < |addrs| ==> addrs[i] == SampleAt(c.reader, k + i)) &&
      end.bytesRemaining == n - k - |addrs| &&
      end.irqFlag == (c.reader.irqFlag || (c.reader.irqEnabled && |addrs| == n - k))
    decreases |ops|
  {
    if ops == [] {
    } else {
      var next := Step(c, ops[0]);
      if ops[0].Fetch? && Accepts(c) {
        AdvancedAt(c.reader, k);
        if k + 1 < c.reader.sampleLength {
          OneShotReads(next, ops[1..], k + 1);
          var addrs, rest := ReadAddrs(c, ops), ReadAddrs(next, ops[1..]);
          forall i | 0 <= i < |addrs|
            ensures addrs[i] == SampleAt(c.reader, k + i)
          {
            if i > 0 {
              assert addrs[i] == rest[i - 1];
            }
          }
        } else {
          FinishedReads(next, ops[1..]);
        }
      } else {
        OneShotReads(next, ops[1..], k);
      }
    }
  }

  lemma {:induction false} FinishedReads(c: Channel, ops: seq<Op>)
    requires NoWrites(ops) && c.reader.bytesRemaining == 0
    ensures ReadAddrs(c, ops) == [] && Run(c, ops).reader == c.reader
    decreases |ops|
  {
    if ops == [] {
    } else {
      FinishedReads(Step(c, ops[0]), ops[1..]);
    }
  }

  /** A status write that starts a sample: the bit is set and nothing was left to read. */
  predicate Starts(c: Channel, data: Byte) {
    (data / 16) % 2 == 1 && c.reader.bytesRemaining == 0 && c.reader.sampleAddr >= 0xC000
  }

  lemma StartedAtByteZero(c: Channel, data: Byte)
    requires Starts(c, data)
    ensures var started := Written(c, 0x4015, data);
      AtByte(started.reader, 0) && SameSample(started.reader, c.reader) && !started.reader.irqFlag
  {
  }

  /** Fetch k of a looping sample reads start + (k mod length). */
  lemma LoopingSample(c: Channel, data: Byte, ops: seq<Op>)
    requires Starts(c, data) && c.reader.loop && NoWrites(ops)
    ensures var addrs := ReadAddrs(Written(c, 0x4015, data), ops);
      forall k :: 0 <= k < |addrs| ==> addrs[k] == SampleAt(c.reader, k % c.reader.sampleLength)
  {
    var started := Written(c, 0x4015, data);
    StartedAtByteZero(c, data);
    LoopReads(started, ops, 0);
    var addrs := ReadAddrs(started, ops);
    forall k | 0 <= k < |addrs|
      ensures addrs[k] == SampleAt(c.reader, k % c.reader.sampleLength)
    {
      RemainderIsMod(k, c.reader.sampleLength);
    }
  }

  /** A one-shot sample never reads more than its length, and interrupts exactly at its last byte. */
  lemma OneShotSample(c: Channel, data: Byte, ops: seq<Op>)
    requires Starts(c, data) && !c.reader.loop && NoWrites(ops)
    ensures var started := Written(c, 0x4015, data);
      var addrs, n := ReadAddrs(started, ops), c.reader.sampleLength;
      |addrs| <= n && (forall k :: 0 <= k < |addrs| ==> addrs[k] == SampleAt(c.reader, k)) &&
      (Run(started, ops).reader.irqFlag <==> c.reader.irqEnabled && |addrs| == n)
  {
    StartedAtByteZero(c, data);
    OneShotReads(Written(c, 0x4015, data), ops, 0);
  }

  // ----- progress

  /** Output takes the buffered byte as soon as the shifter is exhausted. */
  lemma {:induction false} BitsTakeBuffer(o: Output, n: nat)
    requires o.buffer.None? || o.bitsRemaining < n
    ensures Iteration.Iterate(OutputBit, o, n).buffer.None?
    decreases n
  {
    if n == 0 {
    } else {
      BitsTakeBuffer(OutputBit(o), n - 1);
    }
  }

  /** Eight bit times: how long a byte plays. */
  function ByteCycles(rate: Rate): nat {
    8 * Period(rate)
  }

  lemma {:induction false} QuotientAtLeast(total: nat, n: nat, k: nat, product: nat)
    requires n > 0 && product == k * n && total >= product
    ensures Quotient(total, n) >= k
    decreases k
  {
    if k == 0 {
    } else {
      assert (k - 1) * n == product - n;
      QuotientAtLeast(total - n, n, k - 1, product - n);
    }
  }

  /** Within the time of one byte the buffer is free again. */
  lemma BufferDrains(c: Channel, cycles: nat)
    requires IsSafe(c) && c.enabled && cycles >= ByteCycles(c.rate)
    ensures Clocked(c, cycles).output.buffer.None?
  {
    QuotientAtLeast(c.timer + cycles, Period(c.rate), 8, ByteCycles(c.rate));
    BitsTakeBuffer(c.output, Quotient(c.timer + cycles, Period(c.rate)));
  }

  // ----- a host that polls

  /**
  The host offers a byte, which the channel takes if it wants one, and then lets it play.  A host
  that serves the channel before and after each chunk polls once more with an empty chunk.
  */
  datatype Poll = Poll(value: Byte, wait: nat)

  function Rounds(polls: seq<Poll>): seq<Op> {
    if polls == [] then [] else [Fetch(polls[0].value), Clock(polls[0].wait)] + Rounds(polls[1..])
  }

  /** No chunk is longer than `m` cycles. */
  predicate AtMost(polls: seq<Poll>, m: nat) {
    forall i :: 0 <= i < |polls| ==> polls[i].wait <= m
  }

  function Waited(polls: seq<Poll>): nat {
    if polls == [] then 0 else polls[0].wait + Waited(polls[1..])
  }

  /** The buffer is free, or the bits before it are out, within `s` cycles. */
  predicate FreeWithin(c: Channel, s: nat) {
    c.output.buffer.None? || (c.output.bitsRemaining + 1) * Period(c.rate) <= c.timer + s
  }

  /** Playing moves the moment closer at which the buffer is free. */
  lemma {:induction false} PlayingFrees(o: Output, total: nat, period: nat, s: nat)
    requires period > 0 && (o.buffer.None? || (o.bitsRemaining + 1) * period <= total + s)
    ensures var p := Iteration.Iterate(OutputBit, o, Quotient(total, period));
      p.buffer.None? || (p.bitsRemaining + 1) * period <= Remainder(total, period) + s
    decreases total
  {
    if total < period {
    } else {
      OneBitLess(o.bitsRemaining, period);
      PlayingFrees(OutputBit(o), total - period, period, s);
    }
  }

  lemma OneBitLess(bits: nat, period: nat)
    ensures (bits + 1) * period == bits * period + period
  {
  }

  lemma PlayingKeeps(c: Channel, wait: nat)
    requires IsSafe(c) && c.enabled
    ensures var next := Step(c, Clock(wait));
      IsSafe(next) && next.enabled && next.rate == c.rate && next.reader == c.reader
  {
    StepKeepsSafe(c, Clock(wait));
  }

  lemma AfterPlaying(c: Channel, wait: nat, s: nat)
    requires IsSafe(c) && c.enabled && FreeWithin(c, s)
    ensures var next := Step(c, Clock(wait));
      next.output.buffer.None? || (wait < s && FreeWithin(next, s - wait))
  {
    var period := Period(c.rate);
    PlayingFrees(c.output, c.timer + wait, period, if wait < s then s - wait else 0);
    RemainderBelow(c.timer + wait, period);
    AtLeastOnePeriod(Step(c, Clock(wait)).output.bitsRemaining, period);
  }

  lemma AtLeastOnePeriod(bits: nat, period: nat)
    ensures (bits + 1) * period >= period
  {
    OneBitLess(bits, period);
  }

  lemma {:induction false} RemainderBelow(x: nat, n: nat)
    requires n > 0
    ensures Remainder(x, n) < n
    decreases x
  {
    if x < n {
    } else {
      RemainderBelow(x - n, n);
    }
  }

  /** A channel that has just taken a byte, or is in any safe state, frees its buffer in a byte time. */
  lemma FreeInByteTime(c: Channel)
    requires IsSafe(c)
    ensures FreeWithin(c, ByteCycles(c.rate))
  {
    MulMonotone(c.output.bitsRemaining + 1, 8, Period(c.rate));
  }

  lemma PollTaken(c: Channel, poll: Poll, rest: seq<Op>)
    requires Accepts(c)
    ensures ReadAddrs(c, [Fetch(poll.value), Clock(poll.wait)] + rest)
         == [c.reader.currentAddr] + ReadAddrs(Step(Step(c, Fetch(poll.value)), Clock(poll.wait)), rest)
  {
    var ops := [Fetch(poll.value), Clock(poll.wait)] + rest;
    assert ops[1..] == [Clock(poll.wait)] + rest;
    assert ([Clock(poll.wait)] + rest)[1..] == rest;
  }

  lemma PollRefused(c: Channel, poll: Poll, rest: seq<Op>)
    requires !Accepts(c)
    ensures ReadAddrs(c, [Fetch(poll.value), Clock(poll.wait)] + rest)
         == ReadAddrs(Step(c, Clock(poll.wait)), rest)
  {
    var ops := [Fetch(poll.value), Clock(poll.wait)] + rest;
    assert ops[1..] == [Clock(poll.wait)] + rest;
    assert ([Clock(poll.wait)] + rest)[1..] == rest;
  }

  /** There is time for one poll now, or `s` cycles and a chunk from now, and `budget` cycles after. */
  predicate HasTime(c: Channel, polls: seq<Poll>, m: nat, s: nat, budget: nat) {
    FreeWithin(c, s) && AtMost(polls, m) &&
    (if c.output.buffer.None? then Waited(polls) > budget else s > 0 && Waited(polls) >= budget + s + m)
  }

  /** A poll that comes too early costs its chunk, and the buffer is free that much sooner. */
  lemma TimeAfterRefusal(c: Channel, polls: seq<Poll>, m: nat, s: nat, budget: nat) returns (left: nat)
    requires IsSafe(c) && c.enabled && c.output.buffer.Some?
    requires HasTime(c, polls, m, s, budget)
    ensures polls != []
    ensures var next := Step(c, Clock(polls[0].wait));
      HasTime(next, polls[1..], m, left, budget) &&
      IsSafe(next) && next.enabled && next.rate == c.rate && next.reader == c.reader
  {
    var wait := polls[0].wait;
    PlayingKeeps(c, wait);
    AfterPlaying(c, wait, s);
    left := if wait < s then s - wait else 0;
  }

  /** A byte taken leaves time for the next one, a byte time and a chunk later. */
  lemma TimeAfterByte(c: Channel, polls: seq<Poll>, m: nat, budget: nat, rest: nat) returns (left: nat)
    requires IsSafe(c) && c.enabled && polls != [] && AtMost(polls, m)
    requires Waited(polls) > budget == rest + ByteCycles(c.rate) + m
    ensures HasTime(Step(c, Clock(polls[0].wait)), polls[1..], m, left, rest)
  {
    var wait, s := polls[0].wait, ByteCycles(c.rate);
    FreeInByteTime(c);
    PlayingKeeps(c, wait);
    AfterPlaying(c, wait, s);
    left := if wait < s then s - wait else 0;
  }

  /** `n * x`, hidden behind repeated addition. */
  function Copies(n: nat, x: nat): nat {
    if n == 0 then 0 else x + Copies(n - 1, x)
  }

  lemma {:induction false} CopiesIsProduct(n: nat, x: nat)
    ensures Copies(n, x) == n * x
    decreases n
  {
    if n == 0 {
    } else {
      CopiesIsProduct(n - 1, x);
      assert n * x == x + (n - 1) * x;
    }
  }

  /** With time for `q` bytes the channel reads at least as many, if its sample has them. */
  lemma {:induction false} RoundsInTime(
    c: Channel, polls: seq<Poll>, k: nat, m: nat, s: nat, q: nat, budget: nat)
    requires IsSafe(c) && c.enabled && AtByte(c.reader, k) && HasTime(c, polls, m, s, budget)
    requires q >= 1 && (c.reader.loop || k + q <= c.reader.sampleLength)
    requires budget == Copies(q - 1, ByteCycles(c.rate) + m)
    ensures |ReadAddrs(c, Rounds(polls))| >= q
    decreases |polls|
  {
    if c.output.buffer.Some? {
      var left := TimeAfterRefusal(c, polls, m, s, budget);
      PollRefused(c, polls[0], Rounds(polls[1..]));
      RoundsInTime(Step(c, Clock(polls[0].wait)), polls[1..], k, m, left, q, budget);
    } else if q == 1 {
      PollTaken(c, polls[0], Rounds(polls[1..]));
    } else {
      var later := Copies(q - 2, ByteCycles(c.rate) + m);
      var next, k', left := TakeByte(c, polls, k, m, budget, later);
      RoundsInTime(next, polls[1..], k', m, left, q - 1, later);
    }
  }

  /** The byte is taken, and its chunk played. */
  lemma TakeByte(c: Channel, polls: seq<Poll>, k: nat, m: nat, budget: nat, later: nat)
    returns (next: Channel, k': nat, left: nat)
    requires IsSafe(c) && c.enabled && AtByte(c.reader, k) && c.output.buffer.None?
    requires polls != [] && AtMost(polls, m)
    requires k + 1 < c.reader.sampleLength || c.reader.loop
    requires Waited(polls) > budget == later + ByteCycles(c.rate) + m
    ensures IsSafe(next) && next.enabled && next.rate == c.rate && SameSample(next.reader, c.reader)
    ensures k' == (if k + 1 == c.reader.sampleLength then 0 else k + 1) && AtByte(next.reader, k')
    ensures HasTime(next, polls[1..], m, left, later)
    ensures ReadAddrs(c, Rounds(polls)) == [c.reader.currentAddr] + ReadAddrs(next, Rounds(polls[1..]))
  {
    var fetched := Step(c, Fetch(polls[0].value));
    next := Step(fetched, Clock(polls[0].wait));
    k' := if k + 1 == c.reader.sampleLength then 0 else k + 1;
    PollTaken(c, polls[0], Rounds(polls[1..]));
    StepKeepsSafe(c, Fetch(polls[0].value));
    AdvancedAt(c.reader, k);
    left := TimeAfterByte(fetched, polls, m, budget, later);
    PlayingKeeps(fetched, polls[0].wait);
  }

  lemma {:induction false} RoundsWriteNothing(polls: seq<Poll>)
    ensures NoWrites(Rounds(polls))
    decreases |polls|
  {
    if polls == [] {
    } else {
      RoundsWriteNothing(polls[1..]);
    }
  }

  lemma TimeForCopies(c: Channel, polls: seq<Poll>, k: nat, m: nat, q: nat)
    requires IsSafe(c) && c.enabled && AtByte(c.reader, k) && AtMost(polls, m)
    requires c.reader.loop || k + q <= c.reader.sampleLength
    requires Waited(polls) >= Copies(q, ByteCycles(c.rate) + m)
    ensures |ReadAddrs(c, Rounds(polls))| >= q
  {
    if q > 0 {
      FreeInByteTime(c);
      RoundsInTime(c, polls, k, m, ByteCycles(c.rate), q, Copies(q - 1, ByteCycles(c.rate) + m));
    }
  }

  /**
  However often the host polls, in chunks of at most `m` cycles: `q` times the length of a byte and a
  chunk are enough for `q` bytes, from every state at byte `k` of a sample that has as many left.
  */
  lemma RoundsRead(c: Channel, polls: seq<Poll>, k: nat, m: nat, q: nat)
    requires IsSafe(c) && c.enabled && AtByte(c.reader, k) && AtMost(polls, m)
    requires c.reader.loop || k + q <= c.reader.sampleLength
    requires Waited(polls) >= q * (ByteCycles(c.rate) + m)
    ensures |ReadAddrs(c, Rounds(polls))| >= q
  {
    CopiesIsProduct(q, ByteCycles(c.rate) + m);
    TimeForCopies(c, polls, k, m, q);
  }

  /** So a one-shot sample makes exactly `length` fetches and then, if enabled, interrupts. */
  lemma OneShotCompletes(c: Channel, data: Byte, polls: seq<Poll>, m: nat)
    requires Starts(c, data) && !c.reader.loop && IsSafe(c) && AtMost(polls, m)
    requires Waited(polls) >= c.reader.sampleLength * (ByteCycles(c.rate) + m)
    ensures var started := Written(c, 0x4015, data);
      |ReadAddrs(started, Rounds(polls))| == c.reader.sampleLength &&
      (Run(started, Rounds(polls)).reader.irqFlag <==> c.reader.irqEnabled)
  {
    StartedAtByteZero(c, data);
    StepKeepsSafe(c, Write(0x4015, data));
    RoundsWriteNothing(polls);
    RoundsRead(Written(c, 0x4015, data), polls, 0, m, c.reader.sampleLength);
    OneShotSample(c, data, Rounds(polls));
  }
}
