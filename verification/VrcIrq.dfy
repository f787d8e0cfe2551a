/**
The VRC4 and VRC3 interrupt counters.  Both boards are clocked in chunks of CPU cycles; the
reference is a counter that steps once per cycle.
*/
module VrcIrq {
  import opened Arithmetic
  import opened Iteration
  import opened MachineWords

  // ----- the 8-bit counter of VRC4

  /** A counter that reloads from its latch when it passes $FF. */
  datatype Counter = Counter(latch: Byte, value: Byte, pending: bool)

  function Increment(c: Counter): Counter {
    if c.value == 0xFF then c.(value := c.latch, pending := true) else c.(value := c.value + 1)
  }

  /** The whole chunk at once, reloading at most once. */
  function BulkIncrement(c: Counter, increments: nat): Counter {
    var next := c.value + increments;
    if next >= 0x100 then c.(value := (c.latch + (next - 0x100)) % 0x100, pending := true)
    else c.(value := next)
  }

  /** How many increments lie between two reloads. */
  function ReloadPeriod(c: Counter): (p: nat)
    ensures 1 <= p <= 0x100
  {
    0x100 - c.latch
  }

  lemma {:induction false} IncrementsBelowReload(c: Counter, n: nat)
    requires c.value + n < 0x100
    ensures Iterate(Increment, c, n) == c.(value := c.value + n)
    decreases n
  {
    if n == 0 {
    } else {
      IncrementsBelowReload(Increment(c), n - 1);
    }
  }

  lemma IncrementsToReload(c: Counter, n: nat)
    requires c.value + n == 0x100
    ensures Iterate(Increment, c, n) == c.(value := c.latch, pending := true)
  {
    IncrementsBelowReload(c, n - 1);
    IterateLast(Increment, c, n - 1);
  }

  /** From a fresh reload on, only the increments modulo the period count. */
  lemma {:induction false} IncrementsFromLatch(c: Counter, n: nat)
    requires c.value == c.latch && c.pending
    ensures Iterate(Increment, c, n) == c.(value := c.latch + Remainder(n, ReloadPeriod(c)))
    decreases n
  {
    var p := ReloadPeriod(c);
    if n < p {
      IncrementsBelowReload(c, n);
    } else {
      IncrementsToReload(c, p);
      IncrementsFromLatch(c, n - p);
      IterateAdd(Increment, c, p, n - p);
    }
  }

  /** Any number of increments in closed form. */
  lemma IncrementsClosedForm(c: Counter, n: nat)
    ensures Iterate(Increment, c, n)
         == if c.value + n < 0x100 then c.(value := c.value + n)
            else c.(value := c.latch + Remainder(c.value + n - 0x100, ReloadPeriod(c)), pending := true)
  {
    if c.value + n < 0x100 {
      IncrementsBelowReload(c, n);
    } else {
      var first := 0x100 - c.value;
      IncrementsToReload(c, first);
      IncrementsFromLatch(c.(value := c.latch, pending := true), n - first);
      IterateAdd(Increment, c, first, n - first);
    }
  }

  /** The chunk and the single increments always agree on the interrupt. */
  lemma BulkPendingExact(c: Counter, n: nat)
    ensures BulkIncrement(c, n).pending == Iterate(Increment, c, n).pending
  {
    IncrementsClosedForm(c, n);
  }

  /** No second reload falls into the chunk. */
  predicate OneReload(latch: Byte, increments: nat) {
    latch == 0 || increments <= 0x100 - latch
  }

  lemma OneReloadResidue(latch: Byte, residue: nat)
    requires latch == 0 || residue < 0x100 - latch
    ensures latch + Remainder(residue, 0x100 - latch) == (latch + residue) % 0x100
  {
    if latch == 0 {
      RemainderIsMod(residue, 0x100);
    }
  }

  lemma BulkExactForOneReload(c: Counter, n: nat)
    requires OneReload(c.latch, n)
    ensures BulkIncrement(c, n) == Iterate(Increment, c, n)
  {
    IncrementsClosedForm(c, n);
    if c.value + n >= 0x100 {
      OneReloadResidue(c.latch, c.value + n - 0x100);
    }
  }

  /** A chunk that leaves residue `r` is exact only if whole periods and whole bytes of it agree. */
  lemma BulkExactOnlyIf(latch: Byte, r: nat, n: nat)
    requires latch > 0 && r < n <= r + 0x100
    requires var c := Counter(latch, 0x100 + r - n, false);
      BulkIncrement(c, n) == Iterate(Increment, c, n)
    ensures (r / (0x100 - latch)) * (0x100 - latch) == ((latch + r) / 0x100) * 0x100
  {
    IncrementsClosedForm(Counter(latch, 0x100 + r - n, false), n);
    RemainderIsMod(r, 0x100 - latch);
    DivMod(r, 0x100 - latch);
    DivMod(latch + r, 0x100);
  }

  lemma JustBelow(q: nat, p: nat)
    requires q >= 1 && p >= 1
    ensures q * p >= p && (q * p - 1) / p == q - 1 && (q - 1) * p == q * p - p
  {
    MulAtLeast(q, p);
    assert q * p - 1 == (q - 1) * p + (p - 1);
    DivModUnique(q * p - 1, q - 1, p - 1, p);
  }

  /** Of two neighbouring residues around a whole number of periods one is not exact. */
  lemma SomeBulkInexact(latch: Byte, n: nat)
    requires !OneReload(latch, n)
    ensures exists value: Byte ::
      var c := Counter(latch, value, false); BulkIncrement(c, n) != Iterate(Increment, c, n)
  {
    var p := 0x100 - latch;
    var q := (n - 1) / p;
    DivMod(n - 1, p);
    QuotientAtLeastOne(n - 1, p);
    JustBelow(q, p);
    var c := Counter(latch, 0xFF, false);
    if BulkIncrement(c, n) == Iterate(Increment, c, n) {
      BulkExactOnlyIf(latch, n - 1, n);
      InexactBelow(latch, q, (latch + (n - 1)) / 0x100, q * p - 1, n);
    }
  }

  /** If a whole number of periods is a whole number of bytes, one residue less is not exact. */
  lemma InexactBelow(latch: Byte, q: nat, bytes: nat, r: nat, n: nat)
    requires latch > 0 && q >= 1 && q * (0x100 - latch) == bytes * 0x100
    requires r == q * (0x100 - latch) - 1 && r < n <= r + 0x100
    ensures var c := Counter(latch, 0x100 + r - n, false);
      BulkIncrement(c, n) != Iterate(Increment, c, n)
  {
    JustBelow(q, 0x100 - latch);
    BytesJustBelow(bytes, latch);
    InexactIf(latch, r, n);
  }

  lemma BytesJustBelow(j: nat, latch: Byte)
    requires latch > 0
    ensures (latch + j * 0x100 - 1) / 0x100 == j
  {
  }

  lemma InexactIf(latch: Byte, r: nat, n: nat)
    requires latch > 0 && r < n <= r + 0x100
    requires (r / (0x100 - latch)) * (0x100 - latch) != ((latch + r) / 0x100) * 0x100
    ensures var c := Counter(latch, 0x100 + r - n, false);
      BulkIncrement(c, n) != Iterate(Increment, c, n)
  {
    var c := Counter(latch, 0x100 + r - n, false);
    if BulkIncrement(c, n) == Iterate(Increment, c, n) {
      BulkExactOnlyIf(latch, r, n);
    }
  }

  /**
  Clocking in one chunk equals clocking increment by increment, for every counter value, exactly
  when the chunk has no more increments than the latch leaves, or the latch is zero.
  */
  lemma BulkExactIff(latch: Byte, n: nat)
    ensures (forall value: Byte, pending: bool ::
               (BulkIncrement(Counter(latch, value, pending), n)
                == Iterate(Increment, Counter(latch, value, pending), n)))
       <==> OneReload(latch, n)
  {
    if OneReload(latch, n) {
      forall value: Byte, pending: bool
        ensures BulkIncrement(Counter(latch, value, pending), n)
             == Iterate(Increment, Counter(latch, value, pending), n)
      {
        BulkExactForOneReload(Counter(latch, value, pending), n);
      }
    } else {
      SomeBulkInexact(latch, n);
    }
  }

  // ----- VRC4

  type Prescaler = n: int | 0 <= n < 341

  /** The VRC4 interrupt unit; it counts CPU cycles, or scanlines of 341 thirds of a cycle. */
  datatype Vrc4 = Vrc4(
    counter: Counter, control: Byte, prescaler: Prescaler, enabled: bool)

  predicate CountsCycles(s: Vrc4) {
    (s.control / 4) % 2 == 1
  }

  /** One CPU cycle. */
  function Vrc4Tick(s: Vrc4): Vrc4 {
    if !s.enabled then s
    else if CountsCycles(s) then s.(counter := Increment(s.counter))
    else if s.prescaler + 3 >= 341 then
      s.(prescaler := s.prescaler + 3 - 341, counter := Increment(s.counter))
    else s.(prescaler := s.prescaler + 3)
  }

  /** How many increments a chunk of cycles brings. */
  function Increments(s: Vrc4, cycles: nat): nat {
    if CountsCycles(s) then cycles else (s.prescaler + 3 * cycles) / 341
  }

  function PrescalerAfter(s: Vrc4, cycles: nat): Prescaler {
    if CountsCycles(s) then s.prescaler else (s.prescaler + 3 * cycles) % 341
  }

  /** A chunk of CPU cycles, as the source clocks it. */
  function Vrc4Bulk(s: Vrc4, cycles: nat): Vrc4 {
    if !s.enabled then s
    else s.(prescaler := PrescalerAfter(s, cycles),
            counter := BulkIncrement(s.counter, Increments(s, cycles)))
  }

  lemma {:induction false} Vrc4Ticks(s: Vrc4, cycles: nat)
    requires s.enabled
    ensures Iterate(Vrc4Tick, s, cycles)
         == s.(prescaler := PrescalerAfter(s, cycles),
               counter := Iterate(Increment, s.counter, Increments(s, cycles)))
    decreases cycles
  {
    if cycles == 0 {
    } else {
      var t := Vrc4Tick(s);
      Vrc4Ticks(t, cycles - 1);
      if CountsCycles(s) || s.prescaler + 3 >= 341 {
        assert Increments(s, cycles) == 1 + Increments(t, cycles - 1);
      } else {
        assert Increments(s, cycles) == Increments(t, cycles - 1);
      }
    }
  }

  /** Chunks with at most one reload are the single cycles. */
  lemma Vrc4BulkExact(s: Vrc4, cycles: nat)
    requires s.enabled ==> OneReload(s.counter.latch, Increments(s, cycles))
    ensures Vrc4Bulk(s, cycles) == Iterate(Vrc4Tick, s, cycles)
  {
    if s.enabled {
      Vrc4Ticks(s, cycles);
      BulkExactForOneReload(s.counter, Increments(s, cycles));
    } else {
      IterateFixed(Vrc4Tick, s, cycles);
    }
  }

  /** The interrupt line is right after a chunk of any size. */
  lemma Vrc4PendingExact(s: Vrc4, cycles: nat)
    ensures Vrc4Bulk(s, cycles).counter.pending == Iterate(Vrc4Tick, s, cycles).counter.pending
  {
    if s.enabled {
      Vrc4Ticks(s, cycles);
      BulkPendingExact(s.counter, Increments(s, cycles));
    } else {
      IterateFixed(Vrc4Tick, s, cycles);
    }
  }

  /** In scanline mode any split into chunks of at most 113 cycles is exact, for every latch. */
  lemma {:induction false} ScanlineChunksExact(s: Vrc4, chunks: seq<nat>)
    requires !CountsCycles(s) && forall i :: 0 <= i < |chunks| ==> chunks[i] <= 113
    ensures FoldLeft(Vrc4Bulk, s, chunks) == Iterate(Vrc4Tick, s, Total(chunks))
    decreases |chunks|
  {
    if chunks == [] {
    } else {
      Vrc4BulkExact(s, chunks[0]);
      ScanlineChunksExact(Vrc4Bulk(s, chunks[0]), chunks[1..]);
      IterateAdd(Vrc4Tick, s, chunks[0], Total(chunks[1..]));
    }
  }

  /** Which two address lines select a register on this board. */
  function SelectLines(mapper: nat, submapper: nat): (nat, nat) {
    if mapper == 22 || (mapper == 25 && (submapper == 1 || submapper == 3)) then (1, 0)
    else if mapper == 21 && submapper == 1 then (1, 2)
    else if mapper == 21 && submapper == 2 then (6, 7)
    else if mapper == 23 && submapper == 2 then (2, 3)
    else if mapper == 25 && submapper == 2 then (3, 2)
    else if mapper == 21 then (1, 2)
    else if mapper == 25 then (1, 0)
    else (0, 1)
  }

  function AddressLine(addr: nat, line: nat): (bit: nat)
    ensures bit <= 1
  {
    if line == 0 then addr % 2 else AddressLine(addr / 2, line - 1)
  }

  function RegisterSelect(mapper: nat, submapper: nat, addr: Word): (select: nat)
    ensures select < 4
  {
    var lines := SelectLines(mapper, submapper);
    AddressLine(addr, lines.0) + 2 * AddressLine(addr, lines.1)
  }

  const U64 := 0x1_0000_0000_0000_0000

  /** A chunk of CPU cycles with every 64-bit product and sum wrapped around. */
  function Vrc4Chunk(s: Vrc4, cycles: nat): Vrc4 {
    if !s.enabled then s
    else
      var total := (s.prescaler + (3 * cycles) % U64) % U64;
      var increments := if CountsCycles(s) then cycles else total / 341;
      var next := (s.counter.value + increments) % U64;
      s.(prescaler := if CountsCycles(s) then s.prescaler else total % 341,
         counter := if next >= 0x100
                    then s.counter.(value := (s.counter.latch + (next - 0x100)) % 0x100, pending := true)
                    else s.counter.(value := next))
  }

  /** Chunks of less than about 2^64 / 3 cycles wrap nowhere. */
  lemma Vrc4ChunkExact(s: Vrc4, cycles: nat)
    requires 3 * cycles + 0x200 < U64
    ensures Vrc4Chunk(s, cycles) == Vrc4Bulk(s, cycles)
  {
    BelowWidth(3 * cycles, U64);
    BelowWidth(s.prescaler + 3 * cycles, U64);
    BelowWidth(s.counter.value + Increments(s, cycles), U64);
  }

  lemma BelowWidth(x: nat, limit: nat)
    requires x < limit
    ensures x % limit == x
  {
    DivModUnique(x, 0, x, limit);
  }

  /** The unit in place. */
  class Vrc4Irq {
    const mapper: nat
    const submapper: nat
    var irqLatch: Byte
    var irqCounter: Byte
    var irqControl: Byte
    var irqPrescaler: Prescaler
    var irqEnabled: bool
    var irqPending: bool

    constructor (mapper: nat, submapper: nat)
      ensures State() == Vrc4(Counter(0, 0, false), 0, 0, false)
    {
      this.mapper, this.submapper := mapper, submapper;
      irqLatch, irqCounter, irqControl, irqPrescaler, irqEnabled, irqPending := 0, 0, 0, 0, false, false;
    }

    ghost function State(): Vrc4
      reads this
    {
      Vrc4(Counter(irqLatch, irqCounter, irqPending), irqControl, irqPrescaler, irqEnabled)
    }

    /** VRC2 boards have no interrupt unit. */
    predicate IsVrc2() {
      mapper == 22 || submapper == 3 || submapper == 4
    }

    method ClockCpu(cycles: nat)
      modifies this`irqPrescaler, this`irqCounter, this`irqPending
      ensures State() == if IsVrc2() then old(State()) else Vrc4Chunk(old(State()), cycles)
    {
      if !IsVrc2() && irqEnabled {
        var increments := cycles;
        if (irqControl / 4) % 2 == 0 {
          var total := (irqPrescaler + (3 * cycles) % U64) % U64;
          irqPrescaler := total % 341;
          increments := total / 341;
        }
        var next := (irqCounter + increments) % U64;
        if next >= 0x100 {
          irqCounter := (irqLatch + (next - 0x100)) % 0x100;
          irqPending := true;
        } else {
          irqCounter := next;
        }
      }
    }

    method WriteVrc4Irq(addr: Word, value: Byte)
      modifies this
      ensures State() == if IsVrc2() then old(State())
                         else Vrc4Write(old(State()), RegisterSelect(mapper, submapper, addr), value)
    {
      WriteIrq(RegisterSelect(mapper, submapper, addr), value);
    }

    /** Select 0 and 1 set the latch nibbles, 2 control, 3 acknowledges. */
    method WriteIrq(select: nat, value: Byte)
      requires select < 4
      modifies this
      ensures State() == if IsVrc2() then old(State()) else Vrc4Write(old(State()), select, value)
    {
      if IsVrc2() {
        return;
      }
      if select == 0 {
        irqLatch := irqLatch - irqLatch % 16 + value % 16;
      } else if select == 1 {
        irqLatch := irqLatch % 16 + 16 * (value % 16);
      } else if select == 2 {
        irqControl := value % 8;
        irqEnabled := (value / 2) % 2 == 1;
        irqPending := false;
        irqPrescaler := 0;
        if irqEnabled {
          irqCounter := irqLatch;
        }
      } else {
        irqPending := false;
        irqEnabled := irqControl % 2 == 1;
      }
    }
  }

  function Vrc4Write(s: Vrc4, select: nat, value: Byte): Vrc4
    requires select < 4
  {
    var c := s.counter;
    if select == 0 then s.(counter := c.(latch := c.latch - c.latch % 16 + value % 16))
    else if select == 1 then s.(counter := c.(latch := c.latch % 16 + 16 * (value % 16)))
    else if select == 2 then
      var enabled := (value / 2) % 2 == 1;
      Vrc4(Counter(c.latch, if enabled then c.latch else c.value, false), value % 8, 0, enabled)
    else s.(counter := c.(pending := false), enabled := s.control % 2 == 1)
  }

  /** Two latch writes and an enable leave nothing of the old state. */
  lemma ProgrammedState(s: Vrc4, low: Byte, high: Byte, control: Byte)
    requires low < 16 && high < 16 && (control / 2) % 2 == 1
    ensures Vrc4Write(Vrc4Write(Vrc4Write(s, 0, low), 1, high), 2, control)
         == Vrc4(Counter(low + 16 * high, low + 16 * high, false), control % 8, 0, true)
  {
  }

  lemma FirstReload(s: Vrc4, cycles: nat)
    requires s.enabled && CountsCycles(s) && !s.counter.pending
    ensures Iterate(Vrc4Tick, s, cycles).counter.pending <==> s.counter.value + cycles >= 0x100
  {
    Vrc4Ticks(s, cycles);
    IncrementsClosedForm(s.counter, cycles);
  }

  /** In cycle mode they start exactly the period they spell out. */
  lemma ProgrammedPeriod(s: Vrc4, low: Byte, high: Byte, control: Byte, cycles: nat)
    requires low < 16 && high < 16 && (control / 2) % 2 == 1 && (control / 4) % 2 == 1
    ensures var started := Vrc4Write(Vrc4Write(Vrc4Write(s, 0, low), 1, high), 2, control);
      Iterate(Vrc4Tick, started, cycles).counter.pending <==> cycles >= 0x100 - (low + 16 * high)
  {
    ProgrammedState(s, low, high, control);
    FirstReload(Vrc4(Counter(low + 16 * high, low + 16 * high, false), control % 8, 0, true), cycles);
  }

  /**
  A run that shows it, whatever came before: with latch $FF in cycle mode, one chunk of two cycles
  leaves the counter at 0, two cycles leave it at $FF.
  */
  lemma TwoCycleChunkInexact(s: Vrc4)
    ensures var started := Vrc4Write(Vrc4Write(Vrc4Write(s, 0, 0xF), 1, 0xF), 2, 6);
      Vrc4Chunk(started, 2).counter == Counter(0xFF, 0, true) &&
      Iterate(Vrc4Tick, started, 2).counter == Counter(0xFF, 0xFF, true)
  {
    var started := Vrc4(Counter(0xFF, 0xFF, false), 6, 0, true);
    var once := Vrc4(Counter(0xFF, 0xFF, true), 6, 0, true);
    ProgrammedState(s, 0xF, 0xF, 6);
    Vrc4ChunkExact(started, 2);
    assert Vrc4Tick(started) == once && Vrc4Tick(once) == once;
    assert Iterate(Vrc4Tick, started, 2) == Iterate(Vrc4Tick, once, 1);
    IterateFixed(Vrc4Tick, once, 1);
  }

  // ----- VRC3

  /** The VRC3 interrupt unit: a 16-bit counter, or its low byte in 8-bit mode. */
  datatype Vrc3 = Vrc3(latch: Word, value: Word, control: Byte, enabled: bool, pending: bool)

  function Limit(s: Vrc3): (n: nat)
    ensures n == 0x100 || n == 0x1_0000
  {
    if (s.control / 4) % 2 == 1 then 0x100 else 0x1_0000
  }

  const U32 := 0x1_0000_0000

  /** The counter and a chunk of cycles in 32 bits: the chunk is cut to 32 bits, and so is the sum. */
  function Sum32(value: nat, cycles: nat): (sum: nat)
    ensures sum < U32
  {
    (value + cycles % U32) % U32
  }

  function Counted(s: Vrc3, next: nat): Vrc3 {
    if next >= Limit(s) then s.(value := next % Limit(s), pending := true) else s.(value := next)
  }

  /** A chunk of cycles; one cycle is a chunk of one. */
  function Vrc3Bulk(s: Vrc3, cycles: nat): Vrc3 {
    if s.enabled then Counted(s, Sum32(s.value, cycles)) else s
  }

  function Vrc3Tick(s: Vrc3): Vrc3 {
    Vrc3Bulk(s, 1)
  }

  lemma Sum32Is(value: Word, cycles: nat)
    ensures Sum32(value, cycles) == (value + cycles) % U32
    ensures value + cycles < U32 ==> Sum32(value, cycles) == value + cycles
  {
    ModAdd(cycles, value, U32);
    if value + cycles < U32 {
      DivModUnique(value + cycles, 0, value + cycles, U32);
    }
  }

  lemma Vrc3OneMore(s: Vrc3, cycles: nat)
    requires s.enabled && cycles >= 1
    ensures var t := Vrc3Tick(s);
      t.enabled && Counted(t, t.value + cycles) == Counted(s, s.value + 1 + cycles)
  {
    Sum32Is(s.value, 1);
    ModAdd(s.value + 1, cycles, Limit(s));
    DivMod(s.value + 1, Limit(s));
    var wrapped := (s.value + 1) % Limit(s) + cycles;
    if wrapped < Limit(s) {
      DivModUnique(wrapped, 0, wrapped, Limit(s));
    }
  }

  /** Single cycles count without any truncation. */
  lemma {:induction false} Vrc3Ticks(s: Vrc3, cycles: nat)
    requires s.enabled && cycles >= 1
    ensures Iterate(Vrc3Tick, s, cycles) == Counted(s, s.value + cycles)
    decreases cycles
  {
    if cycles == 1 {
      Sum32Is(s.value, 1);
      assert Iterate(Vrc3Tick, s, 1) == Iterate(Vrc3Tick, Vrc3Tick(s), 0);
    } else {
      Vrc3OneMore(s, cycles - 1);
      Vrc3Ticks(Vrc3Tick(s), cycles - 1);
    }
  }

  /** Cutting to 32 bits first does not change the remainder by a width that divides 2^32. */
  lemma WidthDividesU32(sum: nat, limit: nat)
    requires limit == 0x100 || limit == 0x1_0000
    ensures (sum % U32) % limit == sum % limit
  {
    var q, r, k := sum / U32, sum % U32, U32 / limit;
    DivMod(sum, U32);
    DivMod(r, limit);
    assert sum == (q * k + r / limit) * limit + r % limit;
    DivModUnique(sum, q * k + r / limit, r % limit, limit);
  }

  /** The counter is right after every nonempty chunk, whatever its size. */
  lemma Vrc3CounterExact(s: Vrc3, cycles: nat)
    requires cycles >= 1
    ensures Vrc3Bulk(s, cycles).value == Iterate(Vrc3Tick, s, cycles).value
  {
    if s.enabled {
      var sum, limit := s.value + cycles, Limit(s);
      Vrc3Ticks(s, cycles);
      Sum32Is(s.value, cycles);
      WidthDividesU32(sum, limit);
      if sum % U32 < limit {
        BelowWidth(sum % U32, limit);
      }
      if sum < limit {
        BelowWidth(sum, limit);
      }
    } else {
      IterateFixed(Vrc3Tick, s, cycles);
    }
  }

  /** The 32-bit sum still shows that the width was exceeded. */
  predicate ShowsOverflow(s: Vrc3, cycles: nat) {
    s.value + cycles < U32 || (s.value + cycles) % U32 >= Limit(s)
  }

  /**
  A nonempty chunk is exactly its single cycles if and only if the sum fits 32 bits, or still shows
  the overflow once cut, or there is no interrupt left to lose.
  */
  lemma Vrc3BulkExactIff(s: Vrc3, cycles: nat)
    requires cycles >= 1
    ensures Vrc3Bulk(s, cycles) == Iterate(Vrc3Tick, s, cycles) <==>
      !s.enabled || s.pending || ShowsOverflow(s, cycles)
  {
    Vrc3CounterExact(s, cycles);
    if s.enabled {
      Vrc3Ticks(s, cycles);
      Sum32Is(s.value, cycles);
    } else {
      IterateFixed(Vrc3Tick, s, cycles);
    }
  }

  /** An empty chunk changes nothing exactly while the counter is inside its width. */
  lemma Vrc3EmptyChunkIff(s: Vrc3)
    ensures Vrc3Bulk(s, 0) == s <==> !s.enabled || s.value < Limit(s)
  {
    Sum32Is(s.value, 0);
  }

  /** Any split into nonempty chunks that leave room for the counter is the single cycles of their sum. */
  lemma {:induction false} Vrc3ChunksExact(s: Vrc3, chunks: seq<nat>)
    requires forall i :: 0 <= i < |chunks| ==> 1 <= chunks[i] <= U32 - 0x1_0000
    ensures FoldLeft(Vrc3Bulk, s, chunks) == Iterate(Vrc3Tick, s, Total(chunks))
    decreases |chunks|
  {
    if chunks == [] {
    } else {
      Vrc3BulkExactIff(s, chunks[0]);
      Vrc3ChunksExact(Vrc3Bulk(s, chunks[0]), chunks[1..]);
      IterateAdd(Vrc3Tick, s, chunks[0], Total(chunks[1..]));
    }
  }

  /** While the counter is inside its width, chunks may also be empty. */
  lemma {:induction false} Vrc3AnyChunksExact(s: Vrc3, chunks: seq<nat>)
    requires !s.enabled || s.value < Limit(s)
    requires forall i :: 0 <= i < |chunks| ==> chunks[i] <= U32 - 0x1_0000
    ensures FoldLeft(Vrc3Bulk, s, chunks) == Iterate(Vrc3Tick, s, Total(chunks))
    decreases |chunks|
  {
    if chunks == [] {
    } else if chunks[0] == 0 {
      Vrc3EmptyChunkIff(s);
      Vrc3AnyChunksExact(s, chunks[1..]);
    } else {
      Vrc3BulkExactIff(s, chunks[0]);
      Vrc3StaysInside(s, chunks[0]);
      Vrc3AnyChunksExact(Vrc3Bulk(s, chunks[0]), chunks[1..]);
      IterateAdd(Vrc3Tick, s, chunks[0], Total(chunks[1..]));
    }
  }

  lemma Vrc3StaysInside(s: Vrc3, cycles: nat)
    ensures s.enabled ==> Vrc3Bulk(s, cycles).value < Limit(s)
    ensures Vrc3Bulk(s, cycles).enabled == s.enabled && Limit(Vrc3Bulk(s, cycles)) == Limit(s)
  {
  }

  function Vrc3Write(s: Vrc3, region: nat, value: Byte): Vrc3 {
    var nibble: nat, latch: Word := value % 0x10, s.latch;
    if region == 0x8 then s.(latch := latch - latch % 0x10 + nibble)
    else if region == 0x9 then s.(latch := latch - latch % 0x100 + 0x10 * nibble + latch % 0x10)
    else if region == 0xA then s.(latch := latch - latch % 0x1000 + 0x100 * nibble + latch % 0x100)
    else if region == 0xB then s.(latch := 0x1000 * nibble + latch % 0x1000)
    else if region == 0xC then
      var enabled := (value / 2) % 2 == 1;
      s.(control := value, enabled := enabled, pending := false,
         value := if enabled then latch else s.value)
    else if region == 0xD then s.(pending := false, enabled := s.control % 2 == 1)
    else s
  }

  /** The latch writes of a whole counter value, lowest nibble first. */
  function Vrc3Latched(s: Vrc3, n0: Byte, n1: Byte, n2: Byte, n3: Byte): Vrc3 {
    Vrc3Write(Vrc3Write(Vrc3Write(Vrc3Write(s, 0x8, n0), 0x9, n1), 0xA, n2), 0xB, n3)
  }

  /** Replacing the digit above `kept` keeps the digits below and adds this one. */
  lemma DigitReplaced(latch: nat, size: nat, nibble: nat, kept: nat)
    requires size > 0 && nibble < 16 && latch % size == kept
    ensures (latch - latch % (16 * size) + size * nibble + kept) % (16 * size) == size * nibble + kept
  {
    var q := latch / (16 * size);
    DivMod(latch, 16 * size);
    DivMod(latch, size);
    assert latch - latch % (16 * size) == q * (16 * size);
    assert size * nibble + kept < 16 * size by {
      assert size * nibble <= size * 15 by { MulMonotone(nibble, 15, size); }
    }
    DivModUnique(q * (16 * size) + (size * nibble + kept), q, size * nibble + kept, 16 * size);
  }

  /** One latch write sets its digit above the digits already written, and only the latch. */
  lemma Vrc3DigitWritten(s: Vrc3, region: nat, size: nat, nibble: Byte, kept: nat)
    requires (region == 0x8 && size == 1) || (region == 0x9 && size == 0x10) ||
             (region == 0xA && size == 0x100)
    requires nibble < 16 && s.latch % size == kept
    ensures var t := Vrc3Write(s, region, nibble);
      t == s.(latch := t.latch) && t.latch % (16 * size) == size * nibble + kept
  {
    DigitReplaced(s.latch, size, nibble, kept);
    Vrc3LatchWritten(s, region, size, nibble);
  }

  lemma Vrc3LatchWritten(s: Vrc3, region: nat, size: nat, nibble: Byte)
    requires (region == 0x8 && size == 1) || (region == 0x9 && size == 0x10) ||
             (region == 0xA && size == 0x100)
    requires nibble < 16
    ensures var t := Vrc3Write(s, region, nibble);
      t == s.(latch := t.latch) &&
      t.latch == s.latch - s.latch % (16 * size) + size * nibble + s.latch % size
  {
  }

  lemma Vrc3LatchSpelled(s: Vrc3, n0: Byte, n1: Byte, n2: Byte, n3: Byte)
    requires n0 < 16 && n1 < 16 && n2 < 16 && n3 < 16
    ensures Vrc3Latched(s, n0, n1, n2, n3)
         == s.(latch := n0 + 0x10 * n1 + 0x100 * n2 + 0x1000 * n3)
  {
    var s1 := Vrc3Write(s, 0x8, n0);
    Vrc3DigitWritten(s, 0x8, 1, n0, 0);
    var s2 := Vrc3Write(s1, 0x9, n1);
    Vrc3DigitWritten(s1, 0x9, 0x10, n1, n0);
    var s3 := Vrc3Write(s2, 0xA, n2);
    Vrc3DigitWritten(s2, 0xA, 0x100, n2, n0 + 0x10 * n1);
    Vrc3TopDigit(s3, n3, n0 + 0x10 * n1 + 0x100 * n2);
  }

  lemma Vrc3TopDigit(s: Vrc3, nibble: Byte, kept: nat)
    requires nibble < 16 && s.latch % 0x1000 == kept
    ensures Vrc3Write(s, 0xB, nibble) == s.(latch := kept + 0x1000 * nibble)
  {
  }

  /** A programmed counter first interrupts when it reaches its width, whatever the state before. */
  lemma Vrc3ProgrammedPeriod(
    s: Vrc3, n0: Byte, n1: Byte, n2: Byte, n3: Byte, control: Byte, cycles: nat)
    requires n0 < 16 && n1 < 16 && n2 < 16 && n3 < 16 && (control / 2) % 2 == 1 && cycles >= 1
    ensures var started := Vrc3Write(Vrc3Latched(s, n0, n1, n2, n3), 0xC, control);
      Iterate(Vrc3Tick, started, cycles).pending <==>
        n0 + 0x10 * n1 + 0x100 * n2 + 0x1000 * n3 + cycles >= Limit(started)
  {
    Vrc3LatchSpelled(s, n0, n1, n2, n3);
    Vrc3Ticks(Vrc3Write(Vrc3Latched(s, n0, n1, n2, n3), 0xC, control), cycles);
  }

  class Vrc3Irq {
    var irqLatch: Word
    var irqCounter: Word
    var irqControl: Byte
    var irqEnabled: bool
    var irqPending: bool

    ghost function State(): Vrc3
      reads this
    {
      Vrc3(irqLatch, irqCounter, irqControl, irqEnabled, irqPending)
    }

    constructor ()
      ensures State() == Vrc3(0, 0, 0, false, false)
    {
      irqLatch, irqCounter, irqControl, irqEnabled, irqPending := 0, 0, 0, false, false;
    }

    /** Four latch nibbles at $8000-$B000, control at $C000, acknowledge at $D000. */
    method WriteIrqRegister(addr: Word, value: Byte)
      modifies this
      ensures State() == Vrc3Write(old(State()), addr / 0x1000, value)
    {
      var region := addr / 0x1000;
      if region == 0x8 {
        irqLatch := irqLatch - irqLatch % 0x10 + value % 0x10;
      } else if region == 0x9 {
        irqLatch := irqLatch - irqLatch % 0x100 + 0x10 * (value % 0x10) + irqLatch % 0x10;
      } else if region == 0xA {
        irqLatch := irqLatch - irqLatch % 0x1000 + 0x100 * (value % 0x10) + irqLatch % 0x100;
      } else if region == 0xB {
        irqLatch := 0x1000 * (value % 0x10) + irqLatch % 0x1000;
      } else if region == 0xC {
        irqControl := value;
        irqEnabled := (value / 2) % 2 == 1;
        irqPending := false;
        if irqEnabled {
          irqCounter := irqLatch;
        }
      } else if region == 0xD {
        irqPending := false;
        irqEnabled := irqControl % 2 == 1;
      }
    }

    /** The chunk is cut to 32 bits, and the sum wraps in 32 bits. */
    method ClockCpu(cycles: nat)
      modifies this`irqCounter, this`irqPending
      ensures State() == Vrc3Bulk(old(State()), cycles)
    {
      if !irqEnabled {
        return;
      }
      var limit := Limit(Vrc3(irqLatch, irqCounter, irqControl, irqEnabled, irqPending));
      var next := (irqCounter + cycles % U32) % U32;
      if next >= limit {
        irqCounter := next % limit;
        irqPending := true;
      } else {
        irqCounter := next;
      }
    }
  }
}
