/**
What an update plays, told from the bytes of sound RAM: the registers of the channel whose turn it is,
its new phase, the base-16 digit of the wave under it, and the output level; and the level that is
held when a given channel's turn comes in a long run.
*/
module Namco163Levels {
  import opened MachineWords
  import opened Iteration
  import opened Arithmetic
  import opened Integrator
  import opened Namco163
  import opened Namco163Turns

  // ----- one update from the bytes of sound RAM

  /** The wave is the base-16 digits of sound RAM, low digit first. */
  lemma WaveDigits(ram: Ram, k: nat)
    requires k < 128
    ensures ram[k] == WaveSample(ram, 2 * k) + 16 * WaveSample(ram, 2 * k + 1)
  {
    assert (2 * k + 1) / 2 == k && (2 * k + 1) % 2 == 1;
  }

  /** The channels play downwards from 7, as many as bits 4 to 6 of the last byte say, and one. */
  lemma TurnSpelled(v: Voices, more: int)
    requires more == (v.ram[0x7F] / 16) % 8
    ensures Turn(v) == if v.channel + more < 7 then 7 else v.channel
    ensures Update(v).channel == if Turn(v) + more == 7 then 7 else Turn(v) - 1
  {
  }

  /** The new phase, stored in three bytes; no other byte changes. */
  lemma PhaseSpelled(v: Voices, b: nat, ram: Ram, phase: int, frequency: int, length: int)
    requires b == 0x40 + 8 * Turn(v) && ram == Update(v).ram
    requires phase == v.ram[b + 1] as int + 0x100 * v.ram[b + 3] as int + 0x1_0000 * v.ram[b + 5] as int
    requires frequency == v.ram[b] as int + 0x100 * v.ram[b + 2] as int + 0x1_0000 * (v.ram[b + 4] as int % 4)
    requires length == 256 - 4 * (v.ram[b + 4] as int / 4)
    ensures length > 0 &&
      ram[b + 1] as int + 0x100 * ram[b + 3] as int + 0x1_0000 * ram[b + 5] as int
        == (phase + frequency) % (length * 0x1_0000)
    ensures forall i :: 0 <= i < 128 && i != b + 1 && i != b + 3 && i != b + 5 ==> ram[i] == v.ram[i]
  {
    AdvancedPhase(v.ram, Turn(v));
  }

  /** The position in the wave is the phase without its fraction, plus the offset register. */
  lemma SampleSpelled(ram: Ram, channel: Channel, b: nat, position: nat, low: int, high: int)
    requires b == 0x40 + 8 * channel
    requires position == (ram[b + 5] as int + ram[b + 6] as int) % 0x100
    requires 0 <= low < 16 && 0 <= high < 16 && ram[position / 2] as int == low + 16 * high
    ensures Sample(ram, channel) == if position % 2 == 0 then low else high
  {
    var lower := ram[b + 1] as int + 0x100 * ram[b + 3] as int;
    assert Phase(ram, channel) == lower + 0x1_0000 * ram[b + 5] as int;
    assert Position(Phase(ram, channel), ram[b + 6]) == position;
  }

  lemma OutputPlayed(v: Voices, ram: Ram)
    requires ram == Update(v).ram
    ensures Update(v).outputs == v.outputs[Turn(v) := Output(ram, Turn(v))]
    ensures !v.averaged ==> Update(v).dac == Output(ram, Turn(v))
    ensures forall i :: 0 <= i < 128 && !IsPhaseByte(i, Turn(v)) ==> ram[i] == v.ram[i]
  {
  }

  /**
  The output of the channel that plays: with the wave byte at its new position read as a low and a high
  digit, the digit that is played less 8, times the low four bits of the volume register.
  */
  lemma LevelSpelled(v: Voices, b: nat, ram: Ram, position: nat, low: int, high: int, volume: int)
    requires b == 0x40 + 8 * Turn(v) && ram == Update(v).ram
    requires position == (ram[b + 5] as int + v.ram[b + 6] as int) % 0x100
    requires 0 <= low < 16 && 0 <= high < 16 && ram[position / 2] as int == low + 16 * high
    requires volume == v.ram[b + 7] as int % 16
    ensures var output := ((if position % 2 == 0 then low else high) - 8) * volume;
      Update(v).outputs == v.outputs[Turn(v) := output] &&
      (!v.averaged ==> Update(v).dac == output)
  {
    OutputPlayed(v, ram);
    assert ram[b + 6] == v.ram[b + 6] && ram[b + 7] == v.ram[b + 7];
    SampleSpelled(ram, Turn(v), b, position, low, high);
  }

  // ----- the mean of the held outputs

  lemma {:induction false} SumAppend(s: seq<int>, x: int)
    ensures Sum(s + [x]) == Sum(s) + x
    decreases |s|
  {
    if s == [] {
    } else {
      assert (s + [x])[1..] == s[1..] + [x];
      SumAppend(s[1..], x);
    }
  }

  /** `mean` is `sum` divided by `count`, rounded towards zero. */
  predicate IsMean(mean: int, sum: int, count: nat) {
    if sum >= 0 then mean * count <= sum < (mean + 1) * count
    else (mean - 1) * count < sum <= mean * count
  }

  lemma QuotientIsMean(sum: int, count: nat)
    requires count > 0
    ensures IsMean(TruncDiv(sum, count), sum, count)
  {
    var a := if sum >= 0 then sum else -sum;
    assert a == (a / count) * count + a % count;
    assert (a / count + 1) * count == (a / count) * count + count;
    if sum < 0 {
      assert (-(a / count)) * count == -((a / count) * count);
      assert (-(a / count) - 1) * count == -((a / count) * count) - count;
    }
  }

  /** In averaging mode the level is the mean of the outputs held by the active channels. */
  lemma AverageSpelled(v: Voices, count: nat)
    requires v.averaged && count == 1 + (v.ram[0x7F] / 16) % 8
    ensures IsMean(Update(v).dac, Sum(Update(v).outputs[8 - count..]), count)
  {
    QuotientIsMean(Sum(Update(v).outputs[8 - count..]), count);
  }

  // ----- samples

  /** A sample is 180 times the mean level over its cycles, rounded towards zero. */
  lemma SampleSpelledOut(area: int, cycles: nat)
    requires 0 < cycles <= I64_MAX / 21_600 && 0 - 120 * cycles <= area <= 120 * cycles
    ensures IsMean(ScaledMean(area, cycles), 180 * area, cycles)
  {
    AsI64Exact(area * PCM_SCALE);
    QuotientIsMean(180 * area, cycles);
  }

  lemma ExactQuotient(value: int, product: int, count: nat)
    requires count > 0 && product == value * count
    ensures TruncDiv(product, count) == value
  {
    if value >= 0 {
      MulMonotone(0, value, count);
      DivModUnique(product, value, 0, count);
    } else {
      assert (-value) * count == -product;
      MulMonotone(1, -value, count);
      DivModUnique(-product, -value, 0, count);
    }
  }

  lemma HeldArea(level: int, cycles: nat, area: int)
    requires -120 <= level <= 120 && area == level * cycles
    ensures 0 - 120 * cycles <= area <= 120 * cycles
  {
    if level >= 0 {
      MulMonotone(level, 120, cycles);
    } else {
      MulMonotone(-level, 120, cycles);
      assert (-level) * cycles == -area;
    }
  }

  /** So a level held for all its cycles gives exactly 180 times that level. */
  lemma SteadySample(level: int, cycles: nat, area: int, product: int)
    requires 0 < cycles <= I64_MAX / 21_600 && -120 <= level <= 120
    requires area == level * cycles && product == 180 * area
    ensures ScaledMean(area, cycles) == 180 * level
  {
    HeldArea(level, cycles, area);
    AsI64Exact(product);
    assert product == (180 * level) * cycles;
    ExactQuotient(180 * level, product, cycles);
  }

  /** A second sample without a cycle in between is the level of the moment, or silence. */
  lemma SecondSample(s: Sound<Voices>)
    ensures SampleValue(Drained(s)) == if s.enabled then 180 * s.level(s.voices) else 0
  {
  }

  // ----- the level in a long run

  /** A channel's turn comes after its distance, and again after every round. */
  lemma {:induction false} TurnComes(w: Wheel, distance: nat, active: nat, k: nat, m: nat)
    requires IsSpinning(w) && distance == Distance(w.channel, w.c, w.first) && active == 8 - w.first
    requires m == distance + active * k
    ensures Iterate(Spin, w, m).channel == w.c
    decreases m
  {
    if distance == 0 && k == 0 {
    } else {
      SpinDistance(w);
      if distance > 0 {
        TurnComes(Spin(w), distance - 1, active, k, m - 1);
      } else {
        assert active * k == active + active * (k - 1);
        TurnComes(Spin(w), active - 1, active, k - 1, m - 1);
      }
    }
  }

  lemma RoundsCounted(distance: nat, active: nat, k: nat, updates: nat)
    requires distance < active && updates == distance + active * k + 1
    ensures TurnCount(updates, distance, active) == k + 1
  {
    assert active * (k + 1) == active * k + active;
    DivModUnique(updates + active - 1 - distance, k + 1, 0, active);
  }

  lemma UpdateOfTurn(v: Voices, c: Channel, distance: nat, active: nat, k: nat, m: nat)
    requires First(v.ram) <= c && active == Active(v.ram)
    requires distance == Distance(Turn(v), c, First(v.ram)) && m == distance + active * k
    ensures Turn(Iterate(Update, v, m)) == c
  {
    TurnComes(WheelOf(v, c), distance, active, k, m);
    UpdatesSpin(v, m, c);
  }

  lemma PhaseOfTurn(v: Voices, c: Channel, distance: nat, active: nat, k: nat, updates: nat)
    requires First(v.ram) <= c && active == Active(v.ram)
    requires distance == Distance(Turn(v), c, First(v.ram)) && updates == distance + active * k + 1
    ensures Phase(Iterate(Update, v, updates).ram, c) == PhaseIn(v.ram, c, k + 1)
  {
    PhaseAfterUpdates(v, updates, c);
    TurnsClosedForm(updates, distance, active);
    RoundsCounted(distance, active, k, updates);
  }

  lemma NoPhaseByte(i: nat, c: Channel, d: Channel)
    requires i == Base(c) + 6 || i == Base(c) + 7
    ensures !IsPhaseByte(i, d)
  {
  }

  lemma RegisterStays(v: Voices, m: nat, c: Channel, i: nat)
    requires i == Base(c) + 6 || i == Base(c) + 7
    ensures i < 128 && Iterate(Update, v, m).ram[i] == v.ram[i]
  {
    forall d: Channel
      ensures !IsPhaseByte(i, d)
    {
      NoPhaseByte(i, c, d);
    }
    UpdatesTouch(v, m, i);
  }

  lemma UpdatesKeepMode(v: Voices, m: nat)
    ensures Iterate(Update, v, m).averaged == v.averaged
  {
    IterateKeeps(Update, (x: Voices) => x.averaged == v.averaged, v, m);
  }

  /**
  The level at a channel's turn in any run: with N active channels and the channel at distance d, its
  turn k (from 0) is update d + N k, and then the level is the wave digit at the phase it has after k + 1
  advances, plus its offset, centred and times its volume.
  */
  lemma LevelAtTurn(v: Voices, c: Channel, distance: nat, active: nat, k: nat, m: nat)
    requires First(v.ram) <= c && active == Active(v.ram) && !v.averaged
    requires distance == Distance(Turn(v), c, First(v.ram)) && m == distance + active * k
    ensures var played := Iterate(Update, v, m + 1);
      played.dac ==
        (WaveSample(played.ram, Position(PhaseIn(v.ram, c, k + 1), v.ram[Base(c) + 6])) - 8)
          * (v.ram[Base(c) + 7] % 16)
  {
    var before := Iterate(Update, v, m);
    IterateLast(Update, v, m);
    UpdateOfTurn(v, c, distance, active, k, m);
    PhaseOfTurn(v, c, distance, active, k, m + 1);
    UpdatesKeepMode(v, m);
    OutputPlayed(before, Update(before).ram);
    RegisterStays(v, m + 1, c, Base(c) + 6);
    RegisterStays(v, m + 1, c, Base(c) + 7);
  }
}
