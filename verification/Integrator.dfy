/**
A sound unit that updates its voices every 15 cycles and integrates the held output level
over the cycles between two samples.
*/
module Integrator {
  import opened Iteration
  import Arithmetic

  const UPDATE_CYCLES := 15
  const PCM_SCALE := 180

  type Divider = d: int | 1 <= d <= 15 witness 15

  /** The unit, with the voices' own step and output level. */
  datatype Sound<!V> = Sound(
    update: V -> V, level: V -> int,
    enabled: bool, voices: V, divider: Divider, sampleArea: int, sampleCycles: nat)

  /** One CPU cycle. */
  function Tick<V>(s: Sound<V>): Sound<V> {
    if !s.enabled then s.(sampleCycles := s.sampleCycles + 1)
    else
      var t := s.(sampleArea := s.sampleArea + s.level(s.voices), sampleCycles := s.sampleCycles + 1);
      if s.divider == 1 then t.(voices := s.update(s.voices), divider := UPDATE_CYCLES)
      else t.(divider := s.divider - 1)
  }

  // ----- cycles between two updates

  /** `n * x`, hidden behind its recursion equation. */
  function Times(n: nat, x: int): int {
    if n == 0 then 0 else x + Times(n - 1, x)
  }

  lemma {:induction false} TimesSucc(n: nat, x: int)
    ensures Times(n + 1, x) == Times(n, x) + x
  {
  }

  lemma {:induction false} TimesIsProduct(n: nat, x: int)
    ensures Times(n, x) == n * x
  {
    if n == 0 {
    } else {
      TimesIsProduct(n - 1, x);
      assert n * x == (n - 1) * x + x;
    }
  }

  /** `s` once its level has been held for `n` cycles. */
  function Integrated<V>(s: Sound<V>, n: nat): Sound<V> {
    s.(sampleArea := s.sampleArea + Times(n, s.level(s.voices)), sampleCycles := s.sampleCycles + n)
  }

  lemma {:induction false} HeldTicks<V>(s: Sound<V>, n: nat)
    requires s.enabled && n < s.divider
    ensures Iterate(Tick, s, n) == Integrated(s, n).(divider := s.divider - n)
    decreases n
  {
    if n == 0 {
    } else {
      HeldTicks(Tick(s), n - 1);
    }
  }

  /** `s` after its next update, `cycles` cycles from now. */
  function Updated<V>(s: Sound<V>, cycles: nat): Sound<V> {
    Integrated(s, cycles).(voices := s.update(s.voices), divider := UPDATE_CYCLES)
  }

  /** The next update comes when the divider runs out. */
  lemma UpdateTick<V>(s: Sound<V>, cycles: nat)
    requires s.enabled && s.divider == cycles
    ensures Iterate(Tick, s, cycles) == Updated(s, cycles)
  {
    var held := cycles - 1;
    HeldTicks(s, held);
    LastTick(s, held, cycles);
  }

  lemma LastTick<V>(s: Sound<V>, held: nat, cycles: nat)
    requires s.enabled && s.divider == cycles == held + 1
    requires Iterate(Tick, s, held) == Integrated(s, held).(divider := 1)
    ensures Iterate(Tick, s, cycles) == Updated(s, cycles)
  {
    IterateLast(Tick, s, held);
    TimesSucc(held, s.level(s.voices));
  }

  lemma {:induction false} SilentTicks<V>(s: Sound<V>, n: nat)
    requires !s.enabled
    ensures Iterate(Tick, s, n) == s.(sampleCycles := s.sampleCycles + n)
    decreases n
  {
    if n == 0 {
    } else {
      SilentTicks(Tick(s), n - 1);
    }
  }

  /** How many updates fall into `n` cycles. */
  function UpdateCount(divider: Divider, n: nat): nat {
    (n + UPDATE_CYCLES - divider) / UPDATE_CYCLES
  }

  /** In `n` cycles an enabled unit performs floor((n + 15 - divider) / 15) updates. */
  lemma {:induction false} UpdatesInCycles<V>(s: Sound<V>, n: nat)
    requires s.enabled
    ensures var t := Iterate(Tick, s, n);
      t.voices == Iterate(s.update, s.voices, UpdateCount(s.divider, n)) &&
      t.divider == UPDATE_CYCLES - (n + UPDATE_CYCLES - s.divider) % UPDATE_CYCLES &&
      t.update == s.update && t.enabled && t.sampleCycles == s.sampleCycles + n
    decreases n
  {
    if n < s.divider {
      HeldTicks(s, n);
    } else {
      var cycles := s.divider;
      var rest := n - cycles;
      UpdateTick(s, cycles);
      UpdatesInCycles(Updated(s, cycles), rest);
      IterateCut(Tick, s, n, cycles, rest);
      OneUpdateMore(s.divider, n, rest);
    }
  }

  lemma OneUpdateMore(divider: Divider, n: nat, rest: nat)
    requires n == divider + rest
    ensures UpdateCount(divider, n) == 1 + UpdateCount(UPDATE_CYCLES, rest)
    ensures (n + UPDATE_CYCLES - divider) % UPDATE_CYCLES == rest % UPDATE_CYCLES
  {
  }

  // ----- the 64-bit accumulator

  const MAX_LEVEL := 120
  const I64_MAX := 0x7FFF_FFFF_FFFF_FFFF

  predicate FitsI64(x: int) { -I64_MAX - 1 <= x <= I64_MAX }

  /** A product as 64 bits keep it: wrapped around. */
  function AsI64(x: int): (low: int)
    ensures FitsI64(low)
  {
    var low := x % (2 * I64_MAX + 2);
    if low <= I64_MAX then low else low - (2 * I64_MAX + 2)
  }

  lemma AsI64Below(x: nat)
    requires x > I64_MAX
    ensures AsI64(x) < x
  {
  }

  lemma AsI64Exact(x: int)
    requires FitsI64(x)
    ensures AsI64(x) == x
  {
  }

  /**
  Scaling the integral before dividing stays within 64 bits for every integral that `cycles`
  allows exactly when cycles <= I64_MAX / 21600.
  */
  lemma ScalingFitsIff(cycles: nat)
    ensures (forall area: int :: 0 - MAX_LEVEL * cycles <= area <= MAX_LEVEL * cycles ==>
              FitsI64(area * PCM_SCALE))
       <==> cycles <= I64_MAX / 21_600
  {
    var extreme := MAX_LEVEL * cycles;
    assert 0 - MAX_LEVEL * cycles <= extreme <= MAX_LEVEL * cycles;
    if cycles > I64_MAX / 21_600 {
      assert !FitsI64(extreme * PCM_SCALE);
    }
  }

  // ----- samples

  /** The mean level, scaled in 64 bits before it is divided. */
  function ScaledMean(area: int, cycles: nat): int
    requires cycles > 0
  {
    Arithmetic.TruncDiv(AsI64(area * PCM_SCALE), cycles)
  }

  /** The scaled mean of the level since the last sample. */
  function SampleValue<V>(s: Sound<V>): int {
    if s.sampleCycles > 0 then ScaledMean(s.sampleArea, s.sampleCycles)
    else if s.enabled then s.level(s.voices) * PCM_SCALE
    else 0
  }

  function Drained<V>(s: Sound<V>): Sound<V> {
    s.(sampleArea := 0, sampleCycles := 0)
  }

  /** The integral never exceeds the loudest level held for all its cycles. */
  predicate IsBounded<V>(s: Sound<V>) {
    0 - MAX_LEVEL * s.sampleCycles <= s.sampleArea <= MAX_LEVEL * s.sampleCycles
  }

  /** `loud` voices stay loud under updates and keep their level in range. */
  ghost predicate KeepsLevel<V(!new)>(update: V -> V, level: V -> int, loud: V -> bool) {
    forall v :: loud(v) ==> loud(update(v)) && -MAX_LEVEL <= level(v) <= MAX_LEVEL
  }

  lemma {:induction false} TicksKeepBound<V(!new)>(s: Sound<V>, loud: V -> bool, n: nat)
    requires KeepsLevel(s.update, s.level, loud) && loud(s.voices) && IsBounded(s)
    ensures var t := Iterate(Tick, s, n); loud(t.voices) && IsBounded(t)
    decreases n
  {
    if n == 0 {
    } else {
      TicksKeepBound(Tick(s), loud, n - 1);
    }
  }

  /** While scaling fits, the sample stays far inside 16 bits, so the cast loses nothing. */
  lemma SampleFits<V(!new)>(s: Sound<V>, loud: V -> bool)
    requires KeepsLevel(s.update, s.level, loud) && loud(s.voices) && IsBounded(s)
    requires s.sampleCycles <= I64_MAX / 21_600
    ensures -21_600 <= SampleValue(s) <= 21_600
    ensures Arithmetic.AsI16(SampleValue(s)) == SampleValue(s)
    ensures IsBounded(Drained(s))
  {
    if s.sampleCycles > 0 {
      AsI64Exact(s.sampleArea * PCM_SCALE);
      Arithmetic.TruncDivBound(s.sampleArea * PCM_SCALE, s.sampleCycles, MAX_LEVEL * PCM_SCALE,
                    MAX_LEVEL * PCM_SCALE * s.sampleCycles);
    }
  }

  /** The mean as it should be. */
  function ExactMean(area: int, cycles: nat): int
    requires cycles > 0
  {
    Arithmetic.TruncDiv(area * PCM_SCALE, cycles)
  }

  /** A full-scale integral that does not fit wraps to a smaller product, and so to a smaller mean. */
  lemma WrappedMeanDiffers(cycles: nat, product: int)
    requires cycles > I64_MAX / 21_600 && product == 21_600 * cycles
    ensures Arithmetic.TruncDiv(AsI64(product), cycles) < 21_600
  {
    AsI64Below(product);
    SmallerQuotient(AsI64(product), product, 21_600, cycles);
  }

  lemma SmallerQuotient(x: int, product: nat, q: nat, n: nat)
    requires n > 0 && q > 0 && product == q * n && x < product
    ensures Arithmetic.TruncDiv(x, n) < q
  {
    if x >= 0 && x / n >= q {
      Arithmetic.MulMonotone(q, x / n, n);
    } else if x < 0 {
      Arithmetic.DivNonNegative(-x, n);
    }
  }

  /** Samples are the exact scaled mean of every integral that `cycles` allows if and only if scaling fits. */
  lemma MeanExactIff(cycles: nat)
    requires cycles > 0
    ensures (forall area: int :: 0 - MAX_LEVEL * cycles <= area <= MAX_LEVEL * cycles ==>
              ScaledMean(area, cycles) == ExactMean(area, cycles))
       <==> cycles <= I64_MAX / 21_600
  {
    if cycles <= I64_MAX / 21_600 {
      forall area: int | 0 - MAX_LEVEL * cycles <= area <= MAX_LEVEL * cycles
        ensures ScaledMean(area, cycles) == ExactMean(area, cycles)
      {
        AsI64Exact(area * PCM_SCALE);
      }
    } else {
      var extreme := MAX_LEVEL * cycles;
      WrappedMeanDiffers(cycles, extreme * PCM_SCALE);
      Arithmetic.DivModUnique(extreme * PCM_SCALE, 21_600, 0, cycles);
      assert 0 - MAX_LEVEL * cycles <= extreme <= MAX_LEVEL * cycles;
      assert ScaledMean(extreme, cycles) != ExactMean(extreme, cycles);
    }
  }
}
