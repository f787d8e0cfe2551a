/**
What the round robin does over whole runs: how often each channel's turn comes, where its
phase ends up, which bytes of sound RAM it may touch, and how loud it can get.
*/
module Namco163Turns {
  import opened Iteration
  import opened Arithmetic
  import opened Integrator
  import opened Namco163

  // ----- one update

  /** One of the three bytes that hold a channel's phase. */
  predicate IsPhaseByte(i: nat, channel: Channel) {
    i == Base(channel) + 1 || i == Base(channel) + 3 || i == Base(channel) + 5
  }

  lemma AdvancedTouches(ram: Ram, channel: Channel, i: nat)
    requires i < 128 && !IsPhaseByte(i, channel)
    ensures Advanced(ram, channel)[i] == ram[i]
  {
  }

  lemma SplitPhase(p: nat)
    requires p < 0x100_0000
    ensures Join24(p % 0x100, (p / 0x100) % 0x100, (p / 0x1_0000) % 0x100) == p
  {
    var upper := p / 0x100;
    assert p == 0x100 * upper + p % 0x100;
    assert upper == 0x100 * (upper / 0x100) + upper % 0x100;
    assert p / 0x1_0000 == upper / 0x100 < 0x100;
  }

  lemma AdvancedPhase(ram: Ram, channel: Channel)
    ensures Phase(Advanced(ram, channel), channel)
         == (Phase(ram, channel) + Frequency(ram, channel)) % Period(ram, channel)
  {
    SplitPhase((Phase(ram, channel) + Frequency(ram, channel)) % Period(ram, channel));
  }

  /** An update changes no register of any channel, and no other channel's phase. */
  lemma AdvancedKeeps(ram: Ram, channel: Channel, c: Channel)
    ensures var next := Advanced(ram, channel);
      First(next) == First(ram) && Frequency(next, c) == Frequency(ram, c) &&
      Period(next, c) == Period(ram, c) && (c != channel ==> Phase(next, c) == Phase(ram, c))
  {
    AdvancedTouches(ram, channel, 0x7F);
    AdvancedTouches(ram, channel, Base(c));
    AdvancedTouches(ram, channel, Base(c) + 2);
    AdvancedTouches(ram, channel, Base(c) + 4);
    if c != channel {
      AdvancedTouches(ram, channel, Base(c) + 1);
      AdvancedTouches(ram, channel, Base(c) + 3);
      AdvancedTouches(ram, channel, Base(c) + 5);
    }
  }

  // ----- whose turn it is

  /** How many channels are active. */
  function Active(ram: Ram): (n: nat)
    ensures 1 <= n <= 8
  {
    8 - First(ram)
  }

  /** The channel the next update plays. */
  function Turn(v: Voices): (c: Channel)
    ensures First(v.ram) <= c
  {
    Playing(v.channel, First(v.ram))
  }

  /** How many updates come before the next one of channel `c`. */
  function Distance(channel: Channel, c: Channel, first: Channel): (n: nat)
    requires first <= channel && first <= c
    ensures n < 8 - first
  {
    if c <= channel then channel - c else channel - c + 8 - first
  }

  /** How many of the next `m` updates are a channel's whose turn comes after `distance` others. */
  function Turns(m: nat, distance: nat, active: nat): nat
    requires distance < active
  {
    if m == 0 then 0
    else if distance == 0 then 1 + Turns(m - 1, active - 1, active)
    else Turns(m - 1, distance - 1, active)
  }

  /** ceil((m - distance) / active), the same count in closed form. */
  function TurnCount(m: nat, distance: nat, active: nat): nat
    requires distance < active
  {
    DivNonNegative(m + active - 1 - distance, active);
    (m + active - 1 - distance) / active
  }

  lemma {:induction false} TurnsClosedForm(m: nat, distance: nat, active: nat)
    requires distance < active
    ensures Turns(m, distance, active) == TurnCount(m, distance, active)
    decreases m
  {
    if m == 0 {
      DivModUnique(active - 1 - distance, 0, active - 1 - distance, active);
    } else if distance == 0 {
      TurnsClosedForm(m - 1, active - 1, active);
      var q, r := (m - 1) / active, (m - 1) % active;
      assert m - 1 + active == (q + 1) * active + r;
      DivModUnique(m - 1 + active, q + 1, r, active);
    } else {
      TurnsClosedForm(m - 1, distance - 1, active);
    }
  }

  /** In N * k updates each of N channels has exactly k turns. */
  lemma TurnsInWholeRounds(k: nat, distance: nat, active: nat)
    requires distance < active
    ensures Turns(active * k, distance, active) == k
  {
    TurnsClosedForm(active * k, distance, active);
    DivModUnique(active * k + (active - 1 - distance), k, active - 1 - distance, active);
  }

  // ----- many updates

  /** A phase after `turns` turns. */
  function PhaseAfter(phase: nat, frequency: nat, period: nat, turns: nat): nat
    requires period > 0
  {
    if turns == 0 then phase else (phase + turns * frequency) % period
  }

  lemma PhaseAfterOneMore(phase: nat, frequency: nat, period: nat, turns: nat, next: nat, more: nat)
    requires period > 0 && next == (phase + frequency) % period && more == turns + 1
    ensures PhaseAfter(next, frequency, period, turns) == PhaseAfter(phase, frequency, period, more)
  {
    assert frequency + turns * frequency == more * frequency;
    if turns > 0 {
      ModAdd(phase + frequency, turns * frequency, period);
    }
  }

  /** What an update means to channel `c`: whose turn it is, and its own registers. */
  datatype Wheel = Wheel(
    first: int, c: int, frequency: nat, period: nat, channel: int, phase: nat)

  function WheelOf(v: Voices, c: Channel): Wheel {
    Wheel(First(v.ram), c, Frequency(v.ram, c), Period(v.ram, c), Turn(v), Phase(v.ram, c))
  }

  predicate IsSpinning(w: Wheel) {
    0 <= w.first <= w.channel < 8 && w.first <= w.c < 8 && w.period > 0
  }

  function Spin(w: Wheel): Wheel {
    w.(channel := if w.channel == w.first then 7 else w.channel - 1,
       phase := if w.channel == w.c && w.period > 0 then (w.phase + w.frequency) % w.period else w.phase)
  }

  lemma UpdateSpins(v: Voices, c: Channel)
    ensures WheelOf(Update(v), c) == Spin(WheelOf(v, c))
  {
    AdvancedKeeps(v.ram, Turn(v), c);
    AdvancedPhase(v.ram, Turn(v));
  }

  lemma UpdatesSpin(v: Voices, m: nat, c: Channel)
    ensures WheelOf(Iterate(Update, v, m), c) == Iterate(Spin, WheelOf(v, c), m)
  {
    var view := (x: Voices) => WheelOf(x, c);
    forall x: Voices
      ensures view(Update(x)) == Spin(view(x))
    {
      UpdateSpins(x, c);
    }
    IterateView(Update, view, Spin, (x: Voices) => true, v, m);
  }

  /** A turn brings every other channel one closer to its own. */
  lemma SpinDistance(w: Wheel)
    requires IsSpinning(w)
    ensures IsSpinning(Spin(w))
    ensures var distance := Distance(w.channel, w.c, w.first);
      Distance(Spin(w).channel, w.c, w.first) == if distance == 0 then 7 - w.first else distance - 1
  {
  }

  lemma {:induction false} SpinsAdvance(w: Wheel, m: nat, distance: nat, active: nat)
    requires IsSpinning(w) && distance == Distance(w.channel, w.c, w.first) && active == 8 - w.first
    ensures Iterate(Spin, w, m).phase
         == PhaseAfter(w.phase, w.frequency, w.period, Turns(m, distance, active))
    decreases m
  {
    if m == 0 {
    } else {
      SpinDistance(w);
      if distance == 0 {
        SpinsAdvance(Spin(w), m - 1, active - 1, active);
        PhaseAfterOneMore(w.phase, w.frequency, w.period, Turns(m - 1, active - 1, active),
                          Spin(w).phase, Turns(m, distance, active));
      } else {
        SpinsAdvance(Spin(w), m - 1, distance - 1, active);
      }
    }
  }

  /** The phase of channel `c` if it has `turns` turns from `ram` on. */
  function PhaseIn(ram: Ram, c: Channel, turns: nat): nat {
    PhaseAfter(Phase(ram, c), Frequency(ram, c), Period(ram, c), turns)
  }

  lemma WheelAdvances(v: Voices, m: nat, c: Channel, distance: nat, active: nat)
    requires First(v.ram) <= c && active == Active(v.ram)
    requires distance == Distance(Turn(v), c, First(v.ram))
    ensures Iterate(Spin, WheelOf(v, c), m).phase == PhaseIn(v.ram, c, Turns(m, distance, active))
  {
    SpinsAdvance(WheelOf(v, c), m, distance, active);
  }

  /** After any number of updates each active channel's phase has advanced once per turn. */
  lemma PhaseAfterUpdates(v: Voices, m: nat, c: Channel)
    requires First(v.ram) <= c
    ensures Phase(Iterate(Update, v, m).ram, c)
         == PhaseIn(v.ram, c, Turns(m, Distance(Turn(v), c, First(v.ram)), Active(v.ram)))
  {
    WheelAdvances(v, m, c, Distance(Turn(v), c, First(v.ram)), Active(v.ram));
    UpdatesSpin(v, m, c);
  }

  /** No run of updates touches a byte outside the phases of the active channels. */
  lemma UpdatesTouch(v: Voices, m: nat, i: nat)
    requires i < 128
    requires forall c: Channel :: First(v.ram) <= c ==> !IsPhaseByte(i, c)
    ensures Iterate(Update, v, m).ram[i] == v.ram[i]
  {
    var kept := (x: Voices) => First(x.ram) == First(v.ram) && x.ram[i] == v.ram[i];
    forall x | kept(x)
      ensures kept(Update(x))
    {
      AdvancedTouches(x.ram, Turn(x), i);
      AdvancedKeeps(x.ram, Turn(x), Turn(x));
    }
    IterateKeeps(Update, kept, v, m);
  }

  /** The sound unit of this chip. */
  ghost predicate IsUnit(s: Sound<Voices>) {
    s.update == Update && s.level == Level
  }

  /**
  The closed form over cycles: in `n` cycles an enabled unit performs floor((n + 15 - divider) / 15)
  updates, and a channel at distance d among N active ones advances in ceil((updates - d) / N)
  of them.
  */
  lemma PhaseAfterCycles(s: Sound<Voices>, n: nat, c: Channel)
    requires IsUnit(s) && s.enabled && First(s.voices.ram) <= c
    ensures Phase(Iterate(Tick, s, n).voices.ram, c)
         == PhaseIn(s.voices.ram, c, TurnCount((n + 15 - s.divider) / 15,
                                               Distance(Turn(s.voices), c, First(s.voices.ram)),
                                               Active(s.voices.ram)))
  {
    var v := s.voices;
    UpdatesInCycles(s, n);
    PhaseAfterUpdates(v, UpdateCount(s.divider, n), c);
    TurnsClosedForm(UpdateCount(s.divider, n), Distance(Turn(v), c, First(v.ram)), Active(v.ram));
  }

  /** N * k updates, k >= 1, advance every active channel exactly k times, modulo length * 65536. */
  lemma PhaseAfterRounds(v: Voices, k: nat, updates: nat, c: Channel)
    requires First(v.ram) <= c && k >= 1 && updates == Active(v.ram) * k
    ensures Phase(Iterate(Update, v, updates).ram, c)
         == (Phase(v.ram, c) + k * Frequency(v.ram, c)) % Period(v.ram, c)
  {
    PhaseAfterUpdates(v, updates, c);
    TurnsInWholeRounds(k, Distance(Turn(v), c, First(v.ram)), Active(v.ram));
  }

  // ----- loudness

  predicate InRange(x: int) { -120 <= x <= 105 }

  /** The DAC and every held output are levels a channel can produce. */
  predicate IsLoud(v: Voices) {
    InRange(v.dac) && forall i :: 0 <= i < 8 ==> InRange(v.outputs[i])
  }

  lemma ProductInRange(nibble: int, volume: int)
    requires 0 <= nibble < 16 && 0 <= volume < 16
    ensures InRange((nibble - 8) * volume)
  {
    if nibble >= 8 {
      MulMonotone(nibble - 8, 7, volume);
    } else {
      MulMonotone(8 - nibble, 8, volume);
      assert (nibble - 8) * volume == -((8 - nibble) * volume);
    }
  }

  lemma OutputInRange(ram: Ram, channel: Channel)
    ensures InRange(Output(ram, channel))
  {
    ProductInRange(Sample(ram, channel), Volume(ram, channel));
  }

  lemma {:induction false} SumInRange(s: seq<int>)
    requires forall i :: 0 <= i < |s| ==> InRange(s[i])
    ensures -120 * |s| <= Sum(s) <= 105 * |s|
    decreases |s|
  {
    if s == [] {
    } else {
      SumInRange(s[1..]);
    }
  }

  lemma MeanInRange(sum: int, count: nat)
    requires 1 <= count <= 8 && -120 * count <= sum <= 105 * count
    ensures InRange(TruncDiv(sum, count))
  {
    if sum >= 0 {
      QuotientBound(sum, count, 105, 105 * count);
    } else {
      QuotientBound(-sum, count, 120, 120 * count);
    }
  }

  lemma MixedInRange(averaged: bool, outputs: Outputs, first: Channel, output: int)
    requires InRange(output) && forall i :: 0 <= i < 8 ==> InRange(outputs[i])
    ensures InRange(Mixed(averaged, outputs, first, output))
  {
    SumInRange(outputs[first..]);
    MeanInRange(Sum(outputs[first..]), 8 - first);
  }

  /** In both output modes every update leaves the DAC in -120..105. */
  lemma UpdateStaysLoud(v: Voices)
    requires IsLoud(v)
    ensures IsLoud(Update(v))
  {
    var first := First(v.ram);
    var channel := Playing(v.channel, first);
    var output := Output(Advanced(v.ram, channel), channel);
    OutputInRange(Advanced(v.ram, channel), channel);
    MixedInRange(v.averaged, v.outputs[channel := output], first, output);
  }

  lemma VoicesKeepLevel()
    ensures KeepsLevel(Update, Level, IsLoud)
  {
    forall v | IsLoud(v)
      ensures IsLoud(Update(v)) && -MAX_LEVEL <= Level(v) <= MAX_LEVEL
    {
      UpdateStaysLoud(v);
    }
  }

  /**
  However cycles are split between calls, the integral stays within 120 per cycle and, while
  scaling it fits 64 bits, the sample it yields survives the cast to 16 bits unchanged.
  */
  lemma SamplesAreExact(s: Sound<Voices>, m: nat, n: nat)
    requires IsUnit(s) && IsLoud(s.voices) && IsBounded(s)
    ensures var t := Iterate(Tick, Iterate(Tick, s, m), n);
      t == Iterate(Tick, s, m + n) && IsLoud(t.voices) && IsBounded(t) &&
      (t.sampleCycles <= I64_MAX / 21_600 ==>
        -21_600 <= SampleValue(t) == AsI16(SampleValue(t)) <= 21_600)
  {
    VoicesKeepLevel();
    IterateAdd(Tick, s, m, n);
    TicksKeepBound(s, IsLoud, m + n);
    TicksKeepUnit(s, m + n);
    if Iterate(Tick, s, m + n).sampleCycles <= I64_MAX / 21_600 {
      SampleFits(Iterate(Tick, s, m + n), IsLoud);
    }
  }

  lemma {:induction false} TicksKeepUnit<V>(s: Sound<V>, n: nat)
    ensures var t := Iterate(Tick, s, n);
      t.update == s.update && t.level == s.level && t.enabled == s.enabled
    decreases n
  {
    if n == 0 {
    } else {
      TicksKeepUnit(Tick(s), n - 1);
    }
  }
}
