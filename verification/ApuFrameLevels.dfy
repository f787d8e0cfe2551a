/**
What the units of the frame sequencer do over whole runs, in closed form: the decay of a restarted
envelope, the linear counter, and the periods that a sweep sets, from the registers and the number of
quarter or half frames passed.
*/
module ApuFrameLevels {
  import Arithmetic
  import opened ApuFrame
  import opened ApuFrameRuns
  import opened Iteration
  import opened MachineWords
  import opened Schedule

  function Period(fiveStep: bool): nat {
    if fiveStep then 37_282 else 29_830
  }

  /** The quarter frames of `n` cycles: the four points, once a period each. */
  function QuarterFrames(fiveStep: bool, start: nat, n: nat): nat
    requires start < Period(fiveStep)
  {
    Passes(7_457, Period(fiveStep), start, n) + Passes(14_913, Period(fiveStep), start, n)
    + Passes(22_371, Period(fiveStep), start, n) + Passes(Period(fiveStep) - 1, Period(fiveStep), start, n)
  }

  /** Something that changes by `f` in every quarter frame. */
  lemma EveryQuarter<V>(fiveStep: bool, start: nat, u: Units, n: nat, view: Units -> V, f: V -> V)
    requires start < Period(fiveStep)
    requires forall k: nat, w: Units :: k < 4 ==> view(Event(fiveStep, k, w)) == f(view(w))
    ensures view(Iterate(Tick, Running(fiveStep, start, u), n).units)
         == Iterate(f, view(u), QuarterFrames(fiveStep, start, n))
  {
    var plan, always := PlanOf(fiveStep), (k: nat) => true;
    forall k: nat, w: Units | k < 4
      ensures view(plan.act(k, w)) == if always(k) then f(view(w)) else view(w)
    {
      assert view(Event(fiveStep, k, w)) == f(view(w));
    }
    RunFollows(Running(fiveStep, start, u), always, view, f, n);
    PassesOfFour(plan, always, start, n);
  }

  /** The half frames of `n` cycles: the second and the last point. */
  lemma HalfFramesSpelled(fiveStep: bool, start: nat, n: nat)
    requires start < Period(fiveStep)
    ensures PlanOf(fiveStep).period == Period(fiveStep)
    ensures HalfFrames(fiveStep, start, n)
         == Passes(14_913, Period(fiveStep), start, n)
          + Passes(Period(fiveStep) - 1, Period(fiveStep), start, n)
  {
  }

  /** Something that changes by `f` in every half frame, and not in a quarter frame. */
  lemma EveryHalf<V>(fiveStep: bool, start: nat, u: Units, n: nat, view: Units -> V, f: V -> V)
    requires start < PlanOf(fiveStep).period
    requires forall k: nat, w: Units :: k < 4 ==>
      view(Event(fiveStep, k, w)) == if k % 2 == 1 then f(view(w)) else view(w)
    ensures view(Iterate(Tick, Running(fiveStep, start, u), n).units)
         == Iterate(f, view(u), HalfFrames(fiveStep, start, n))
  {
    var plan, odd := PlanOf(fiveStep), (k: nat) => k % 2 == 1;
    forall k: nat, w: Units | k < 4
      ensures view(plan.act(k, w)) == if odd(k) then f(view(w)) else view(w)
    {
      assert view(Event(fiveStep, k, w)) == if k % 2 == 1 then f(view(w)) else view(w);
    }
    RunFollows(Running(fiveStep, start, u), odd, view, f, n);
    PassesOfFour(plan, odd, start, n);
    assert PassesOf(plan, odd, start, n, 4) == HalfFrames(fiveStep, start, n);
  }

  // ----- envelopes

  datatype EnvelopeView = EnvelopeView(envelope: Envelope, control: Byte)

  function EnvelopeOf(u: Units, i: nat): EnvelopeView
    requires i < 3
  {
    EnvelopeView(u.envelopes[i], u.regs[if i == 2 then 12 else 4 * i])
  }

  function Decayed(v: EnvelopeView): EnvelopeView {
    v.(envelope := EnvelopeClocked(v.envelope, v.control))
  }

  lemma SweepKeepsOthers(u: Units, channel: nat)
    requires channel < 2
    ensures var v := SweepClocked(u, channel);
      v.envelopes == u.envelopes && v.linear == u.linear && v.linearReload == u.linearReload &&
      v.regs[0] == u.regs[0] && v.regs[4] == u.regs[4] && v.regs[8] == u.regs[8] &&
      v.regs[12] == u.regs[12]
  {
  }

  lemma HalfKeepsOthers(u: Units)
    ensures var v := Half(u);
      v.envelopes == u.envelopes && v.linear == u.linear && v.linearReload == u.linearReload &&
      v.regs[0] == u.regs[0] && v.regs[4] == u.regs[4] && v.regs[8] == u.regs[8] &&
      v.regs[12] == u.regs[12]
  {
    var clocked := u.(lengths := LengthsClocked(u));
    SweepKeepsOthers(clocked, 0);
    SweepKeepsOthers(SweepClocked(clocked, 0), 1);
  }

  lemma QuarterEnvelope(u: Units, i: nat)
    requires i < 3
    ensures EnvelopeOf(Quarter(u), i) == Decayed(EnvelopeOf(u, i))
  {
  }

  lemma HalfKeepsEnvelope(u: Units, i: nat)
    requires i < 3
    ensures EnvelopeOf(Half(u), i) == EnvelopeOf(u, i)
  {
    HalfKeepsOthers(u);
  }

  lemma InterruptKeepsEnvelope(u: Units, i: nat)
    requires i < 3
    ensures EnvelopeOf(Interrupted(u), i) == EnvelopeOf(u, i)
  {
  }

  lemma EventEnvelope(fiveStep: bool, k: nat, u: Units, i: nat)
    requires i < 3
    ensures EnvelopeOf(Event(fiveStep, k, u), i) == Decayed(EnvelopeOf(u, i))
  {
    QuarterEnvelope(u, i);
    HalfKeepsEnvelope(Quarter(u), i);
    var halves := if k % 2 == 1 then Half(Quarter(u)) else Quarter(u);
    InterruptKeepsEnvelope(halves, i);
  }

  /** The level after `decays` steps: down to zero, and from the top again if bit 5 is set. */
  function DecayAfter(control: Byte, decays: nat): nat {
    if control % 0x40 >= 0x20 then 15 - decays % 16 else if decays <= 15 then 15 - decays else 0
  }

  lemma LoopBit(control: Byte)
    ensures control % 0x40 >= 0x20 <==> (control / 32) % 2 == 1
  {
    assert control == 0x40 * (control / 0x40) + control % 0x40;
  }

  lemma DecayNext(control: Byte, decays: nat, more: nat)
    requires more == decays + 1
    ensures DecayAfter(control, more)
         == if DecayAfter(control, decays) > 0 then DecayAfter(control, decays) - 1
            else if (control / 32) % 2 == 1 then 15 else 0
  {
    LoopBit(control);
  }

  /** A restarted envelope, by whole divider periods and the rest. */
  lemma {:induction false} EnvelopeClocks(
    v: EnvelopeView, period: nat, clocks: nat, decays: nat, rest: nat, total: nat)
    requires v.envelope.start && period == v.control % 16
    requires clocks == decays * (period + 1) + rest && rest <= period && total == clocks + 1
    ensures Iterate(Decayed, v, total)
         == v.(envelope := Envelope(period - rest, DecayAfter(v.control, decays), false))
    decreases clocks
  {
    IterateLast(Decayed, v, clocks);
    if clocks == 0 {
      assert decays == 0 by {
        if decays > 0 {
          Arithmetic.MulMonotone(1, decays, period + 1);
        }
      }
      assert Iterate(Decayed, v, 0) == v;
    } else if rest > 0 {
      EnvelopeClocks(v, period, clocks - 1, decays, rest - 1, clocks);
    } else {
      assert decays * (period + 1) == (decays - 1) * (period + 1) + (period + 1);
      EnvelopeClocks(v, period, clocks - 1, decays - 1, period, clocks);
      DecayNext(v.control, decays - 1, decays);
    }
  }

  lemma EnvelopeAfter(v: EnvelopeView, period: nat, quarters: nat)
    requires v.envelope.start && period == v.control % 16 && quarters > 0
    ensures var e := Iterate(Decayed, v, quarters).envelope;
      e.decay == DecayAfter(v.control, (quarters - 1) / (period + 1)) && !e.start
  {
    var clocks := quarters - 1;
    EnvelopeClocks(v, period, clocks, clocks / (period + 1), clocks % (period + 1), quarters);
  }

  /**
  A restarted envelope after any run: with P the low four bits of its control register and q quarter
  frames passed, its level has gone down from 15 once per P + 1 quarter frames after the first; with bit
  5 set it starts again from 15, and without it it stays at zero.
  */
  lemma EnvelopeInCycles(fiveStep: bool, start: nat, u: Units, n: nat, i: nat, control: Byte, quarters: nat)
    requires start < Period(fiveStep) && i < 3 && control == u.regs[if i == 2 then 12 else 4 * i]
    requires u.envelopes[i].start && quarters == QuarterFrames(fiveStep, start, n)
    ensures var e := Iterate(Tick, Running(fiveStep, start, u), n).units.envelopes[i];
      if quarters == 0 then e == u.envelopes[i]
      else e.decay == DecayAfter(control, (quarters - 1) / (control % 16 + 1)) && !e.start
  {
    var view := (w: Units) => EnvelopeOf(w, i);
    forall k: nat, w: Units | k < 4
      ensures view(Event(fiveStep, k, w)) == Decayed(view(w))
    {
      EventEnvelope(fiveStep, k, w, i);
    }
    EveryQuarter(fiveStep, start, u, n, view, Decayed);
    if quarters > 0 {
      EnvelopeAfter(EnvelopeOf(u, i), control % 16, quarters);
    }
  }

  // ----- length counters

  /**
  A length counter after any run, by the registers: bit 7 of $4008 halts the triangle's, bit 5 of $4000,
  $4004 and $400C the others; one that is not halted loses one per half frame down to zero.
  */
  lemma LengthInCycles(fiveStep: bool, start: nat, u: Units, n: nat, c: Channel, halves: nat, control: Byte)
    requires start < PlanOf(fiveStep).period && halves == HalfFrames(fiveStep, start, n)
    requires control == u.regs[4 * c]
    ensures Iterate(Tick, Running(fiveStep, start, u), n).units.lengths[c]
         == if (if c == 2 then control >= 0x80 else control % 0x40 >= 0x20) then u.lengths[c]
            else Minus(u.lengths[c], halves)
  {
    LengthsInCycles(fiveStep, start, u, n, c);
    LoopBit(control);
  }

  // ----- the linear counter

  datatype LinearView = LinearView(linear: Byte, reload: bool, control: Byte)

  function LinearOf(u: Units): LinearView {
    LinearView(u.linear, u.linearReload, u.regs[8])
  }

  function LinearCounted(v: LinearView): LinearView {
    LinearView(if v.reload then v.control % 0x80 else if v.linear > 0 then v.linear - 1 else 0,
               v.reload && v.control >= 0x80, v.control)
  }

  lemma EventLinear(fiveStep: bool, k: nat, u: Units)
    ensures LinearOf(Event(fiveStep, k, u)) == LinearCounted(LinearOf(u))
  {
    HalfKeepsOthers(Quarter(u));
  }

  /** `a` less `b`, not below zero. */
  function Minus(a: nat, b: nat): nat {
    if a > b then a - b else 0
  }

  lemma {:induction false} LinearCounts(v: LinearView, n: nat)
    ensures Iterate(LinearCounted, v, n)
         == if n == 0 then v
            else if !v.reload then v.(linear := Minus(v.linear, n))
            else if v.control >= 0x80 then v.(linear := v.control - 0x80)
            else v.(linear := Minus(v.control, n - 1), reload := false)
    decreases n
  {
    if n == 0 {
    } else {
      LinearCounts(LinearCounted(v), n - 1);
    }
  }

  /**
  The linear counter after any run: loaded with the low seven bits of $4008 in the first quarter frame
  after a reload request, held there while bit 7 is set, and otherwise counting down once per quarter
  frame to zero.
  */
  lemma LinearInCycles(fiveStep: bool, start: nat, u: Units, n: nat, quarters: nat)
    requires start < Period(fiveStep) && quarters == QuarterFrames(fiveStep, start, n)
    ensures var t := Iterate(Tick, Running(fiveStep, start, u), n).units;
      t.linear ==
        (if !u.linearReload || quarters == 0 then Minus(u.linear, quarters)
         else if u.regs[8] >= 0x80 then u.regs[8] - 0x80 else Minus(u.regs[8], quarters - 1)) &&
      (t.linearReload <==> u.linearReload && (quarters == 0 || u.regs[8] >= 0x80))
  {
    forall k: nat, w: Units | k < 4
      ensures LinearOf(Event(fiveStep, k, w)) == LinearCounted(LinearOf(w))
    {
      EventLinear(fiveStep, k, w);
    }
    EveryQuarter(fiveStep, start, u, n, LinearOf, LinearCounted);
    LinearCounts(LinearOf(u), quarters);
    var t := Iterate(Tick, Running(fiveStep, start, u), n).units;
    assert LinearOf(t).linear == t.linear && LinearOf(t).reload == t.linearReload;
  }

  // ----- sweeps

  /** What a sweep unit is made of: its control register, its divider and the timer of its pulse. */
  datatype SweepView = SweepView(control: Byte, divider: Byte, reload: bool, timer: nat)

  function SweepOf(u: Units, channel: nat): SweepView
    requires channel < 2
  {
    SweepView(u.regs[channel * 4 + 1], u.sweepDividers[channel], u.sweepReloads[channel],
              PulseTimer(u.regs, channel))
  }

  function PowerOfTwo(n: nat): (p: nat)
    ensures p > 0
  {
    if n == 0 then 1 else 2 * PowerOfTwo(n - 1)
  }

  lemma {:induction false} ShiftedIsQuotient(timer: nat, shift: nat)
    ensures Shifted(timer, shift) == timer / PowerOfTwo(shift)
    decreases shift
  {
    if shift == 0 {
    } else {
      ShiftedIsQuotient(timer / 2, shift - 1);
      var p := PowerOfTwo(shift - 1);
      var half, q, r := timer / 2, timer / 2 / p, timer / 2 % p;
      assert half == q * p + r;
      assert timer == q * (2 * p) + (2 * r + timer % 2) by {
        assert q * (2 * p) == 2 * (q * p);
      }
      Arithmetic.DivModUnique(timer, q, 2 * r + timer % 2, 2 * p);
    }
  }

  /**
  One sweep of a timer by a change: bit 3 subtracts it, one more on the first pulse, and the result is
  taken if the sweep is on, shifts at all, and both timers are in range, 8 to $7FF.
  */
  function SweptBy(control: Byte, timer: nat, first: bool, change: nat): nat {
    var target := if control % 0x10 >= 8 then timer - change - (if first then 1 else 0) else timer + change;
    if control >= 0x80 && control % 8 > 0 && timer >= 8 && 8 <= target <= 0x7FF then target else timer
  }

  /** The timer divided by two `shift` times. */
  function Change(timer: nat, shift: nat): nat {
    Arithmetic.DivNonNegative(timer, PowerOfTwo(shift));
    timer / PowerOfTwo(shift)
  }

  /** The change is given by bits 0 to 2. */
  function SweptTimer(control: Byte, timer: nat, first: bool): nat {
    SweptBy(control, timer, first, Change(timer, control % 8))
  }

  function SweepCounted(v: SweepView, first: bool): SweepView {
    var period := (v.control / 0x10) % 8 + 1;
    if v.reload then v.(divider := period, reload := false)
    else if v.divider > 0 then v.(divider := v.divider - 1)
    else v.(divider := period, timer := SweptTimer(v.control, v.timer, first))
  }

  lemma TimerWritten(regs: Regs, channel: nat, timer: nat)
    requires channel < 2 && timer < 0x800
    ensures PulseTimer(WithTimer(regs, channel, timer), channel) == timer
    ensures WithTimer(regs, channel, timer)[channel * 4 + 1] == regs[channel * 4 + 1]
  {
    var hi := regs[channel * 4 + 3];
    assert (hi - hi % 8 + timer / 0x100) % 8 == timer / 0x100 by {
      assert hi - hi % 8 == 8 * (hi / 8);
    }
  }

  lemma TargetSpelled(control: Byte, timer: nat, channel: nat, change: nat)
    requires channel < 2 && change == Change(timer, control % 8)
    ensures SweepTarget(control, timer, channel)
         == if control % 0x10 >= 8 then timer - change - (if channel == 0 then 1 else 0) else timer + change
  {
    ShiftedIsQuotient(timer, control % 8);
    assert control % 0x10 >= 8 <==> (control / 8) % 2 == 1;
  }

  lemma SweptIs(regs: Regs, channel: nat, control: Byte, timer: nat, target: int)
    requires channel < 2 && control == regs[channel * 4 + 1] && timer == PulseTimer(regs, channel)
    requires target == SweepTarget(control, timer, channel)
    ensures PulseTimer(Swept(regs, channel), channel)
         == if control >= 0x80 && control % 8 > 0 && timer >= 8 && 8 <= target <= 0x7FF then target else timer
    ensures Swept(regs, channel)[channel * 4 + 1] == control
  {
    if 8 <= target <= 0x7FF {
      TimerWritten(regs, channel, target);
    }
  }

  lemma SweptSpelled(regs: Regs, channel: nat, control: Byte, timer: nat, change: nat)
    requires channel < 2 && control == regs[channel * 4 + 1] && timer == PulseTimer(regs, channel)
    requires change == Change(timer, control % 8)
    ensures PulseTimer(Swept(regs, channel), channel) == SweptBy(control, timer, channel == 0, change)
    ensures Swept(regs, channel)[channel * 4 + 1] == control
  {
    TargetSpelled(control, timer, channel, change);
    SweptIs(regs, channel, control, timer, SweepTarget(control, timer, channel));
  }

  lemma OwnSweep(u: Units, channel: nat)
    requires channel < 2
    ensures SweepOf(SweepClocked(u, channel), channel) == SweepCounted(SweepOf(u, channel), channel == 0)
  {
    var control, timer := u.regs[channel * 4 + 1], PulseTimer(u.regs, channel);
    SweptSpelled(u.regs, channel, control, timer, Change(timer, control % 8));
  }

  lemma OtherSweep(u: Units, channel: nat, other: nat)
    requires channel < 2 && other < 2 && channel != other
    ensures SweepOf(SweepClocked(u, other), channel) == SweepOf(u, channel)
  {
  }

  lemma HalfSweeps(u: Units, channel: nat)
    requires channel < 2
    ensures SweepOf(Half(u), channel) == SweepCounted(SweepOf(u, channel), channel == 0)
  {
    var clocked := u.(lengths := LengthsClocked(u));
    assert SweepOf(clocked, channel) == SweepOf(u, channel);
    var first := SweepClocked(clocked, 0);
    if channel == 0 {
      OwnSweep(clocked, 0);
      OtherSweep(first, 0, 1);
    } else {
      OtherSweep(clocked, 1, 0);
      OwnSweep(first, 1);
    }
  }

  lemma QuarterKeepsSweep(u: Units, channel: nat)
    requires channel < 2
    ensures SweepOf(Quarter(u), channel) == SweepOf(u, channel)
  {
  }

  lemma EventSweep(fiveStep: bool, k: nat, u: Units, channel: nat)
    requires channel < 2
    ensures SweepOf(Event(fiveStep, k, u), channel)
         == if k % 2 == 1 then SweepCounted(SweepOf(u, channel), channel == 0) else SweepOf(u, channel)
  {
    QuarterKeepsSweep(u, channel);
    HalfSweeps(Quarter(u), channel);
    if k == 3 && !fiveStep {
      InterruptKeepsSweep(Half(Quarter(u)), channel);
    }
  }

  lemma InterruptKeepsSweep(u: Units, channel: nat)
    requires channel < 2
    ensures SweepOf(Interrupted(u), channel) == SweepOf(u, channel)
  {
  }

  /** A timer after several sweeps. */
  function SweptTimes(control: Byte, timer: nat, first: bool, sweeps: nat): nat {
    if sweeps == 0 then timer else SweptTimer(control, SweptTimes(control, timer, first, sweeps - 1), first)
  }

  /** A divider loaded with its period, by whole periods and the rest. */
  lemma {:induction false} SweepCounts(
    v: SweepView, first: bool, period: nat, clocks: nat, sweeps: nat, rest: nat)
    requires !v.reload && period == (v.control / 0x10) % 8 + 1 && v.divider == period
    requires clocks == sweeps * (period + 1) + rest && rest <= period
    ensures Iterate((x: SweepView) => SweepCounted(x, first), v, clocks)
         == v.(divider := period - rest, timer := SweptTimes(v.control, v.timer, first, sweeps))
    decreases clocks
  {
    var f := (x: SweepView) => SweepCounted(x, first);
    if clocks == 0 {
      assert sweeps == 0 by {
        if sweeps > 0 {
          Arithmetic.MulMonotone(1, sweeps, period + 1);
        }
      }
    } else {
      IterateLast(f, v, clocks - 1);
      if rest > 0 {
        SweepCounts(v, first, period, clocks - 1, sweeps, rest - 1);
      } else {
        assert sweeps * (period + 1) == (sweeps - 1) * (period + 1) + (period + 1);
        SweepCounts(v, first, period, clocks - 1, sweeps - 1, period);
      }
    }
  }

  lemma SweepAfter(v: SweepView, first: bool, period: nat, halves: nat)
    requires v.reload && period == (v.control / 0x10) % 8 + 1 && halves > 0
    ensures Iterate((x: SweepView) => SweepCounted(x, first), v, halves).timer
         == SweptTimes(v.control, v.timer, first, (halves - 1) / (period + 1))
  {
    var clocks := halves - 1;
    SweepCounts(SweepCounted(v, first), first, period, clocks, clocks / (period + 1), clocks % (period + 1));
  }

  /**
  A sweep unit whose reload has been requested, after any run: with P the number in bits 4 to 6 of its
  register and h half frames passed, the first one loads the divider with P + 1, and after it the timer is
  swept once in every P + 2 half frames.
  */
  lemma SweepInCycles(
    fiveStep: bool, start: nat, u: Units, n: nat, channel: nat, control: Byte, halves: nat, sweeps: nat)
    requires start < PlanOf(fiveStep).period && channel < 2 && u.sweepReloads[channel]
    requires control == u.regs[channel * 4 + 1] && halves == HalfFrames(fiveStep, start, n)
    requires sweeps == if halves == 0 then 0 else (halves - 1) / ((control / 0x10) % 8 + 2)
    ensures PulseTimer(Iterate(Tick, Running(fiveStep, start, u), n).units.regs, channel)
         == SweptTimes(control, PulseTimer(u.regs, channel), channel == 0, sweeps)
  {
    var first := channel == 0;
    var view, f := (w: Units) => SweepOf(w, channel), (x: SweepView) => SweepCounted(x, first);
    forall k: nat, w: Units | k < 4
      ensures view(Event(fiveStep, k, w)) == if k % 2 == 1 then f(view(w)) else view(w)
    {
      EventSweep(fiveStep, k, w, channel);
    }
    EveryHalf(fiveStep, start, u, n, view, f);
    if halves > 0 {
      SweepAfter(view(u), first, (control / 0x10) % 8 + 1, halves);
    }
    var t := Iterate(Tick, Running(fiveStep, start, u), n).units;
    assert view(t).timer == PulseTimer(t.regs, channel);
  }

  // ----- a write of $4017

  /**
  A write of $4017 starts the period over; bit 6 clears and inhibits the interrupt; bit 7 selects the five
  step mode and clocks every unit at once, as a quarter and a half frame do.
  */
  lemma RestartSpelled(u: Units, value: Byte, c: Channel, i: nat, channel: nat)
    requires i < 3 && channel < 2
    ensures var s := Restarted(u, value);
      s.position == 0 && s.plan.period == (if value >= 0x80 then 37_282 else 29_830) &&
      s.units.frameIrq == (u.frameIrq && value % 0x80 < 0x40) &&
      s.units.frameIrqEvents == u.frameIrqEvents &&
      IrqEnabled(s.units.frameCounter) == (value % 0x80 < 0x40)
    ensures var t := Restarted(u, value).units;
      LengthOf(t, c) == (if value >= 0x80 then CountedDown(LengthOf(u, c)) else LengthOf(u, c)) &&
      EnvelopeOf(t, i) == (if value >= 0x80 then Decayed(EnvelopeOf(u, i)) else EnvelopeOf(u, i)) &&
      LinearOf(t) == (if value >= 0x80 then LinearCounted(LinearOf(u)) else LinearOf(u)) &&
      SweepOf(t, channel) ==
        (if value >= 0x80 then SweepCounted(SweepOf(u, channel), channel == 0) else SweepOf(u, channel))
  {
    InhibitBit(value);
    var v := u.(regs := u.regs[0x17 := value], frameCounter := value,
                frameIrq := u.frameIrq && IrqEnabled(value));
    ControlWriteKeeps(u, v, value, c, i, channel);
    if value >= 0x80 {
      FirstHalf(v, c, i, channel);
    }
  }

  lemma InhibitBit(value: Byte)
    ensures IrqEnabled(value) <==> value % 0x80 < 0x40
  {
    assert value == 0x80 * (value / 0x80) + value % 0x80;
  }

  lemma ControlWriteKeeps(u: Units, v: Units, value: Byte, c: Channel, i: nat, channel: nat)
    requires i < 3 && channel < 2
    requires v == u.(regs := u.regs[0x17 := value], frameCounter := value, frameIrq := v.frameIrq)
    ensures LengthOf(v, c) == LengthOf(u, c) && EnvelopeOf(v, i) == EnvelopeOf(u, i)
    ensures LinearOf(v) == LinearOf(u) && SweepOf(v, channel) == SweepOf(u, channel)
  {
  }

  /** A quarter and a half frame at once. */
  lemma FirstHalf(u: Units, c: Channel, i: nat, channel: nat)
    requires i < 3 && channel < 2
    ensures var t := Half(Quarter(u));
      LengthOf(t, c) == CountedDown(LengthOf(u, c)) && EnvelopeOf(t, i) == Decayed(EnvelopeOf(u, i)) &&
      LinearOf(t) == LinearCounted(LinearOf(u)) &&
      SweepOf(t, channel) == SweepCounted(SweepOf(u, channel), channel == 0) &&
      t.frameIrq == u.frameIrq && t.frameIrqEvents == u.frameIrqEvents && t.frameCounter == u.frameCounter
  {
    EventLength(true, 1, u, c);
    EventEnvelope(true, 1, u, i);
    EventLinear(true, 1, u);
    EventSweep(true, 1, u, channel);
    EventIrq(true, 1, u);
    QuarterKeeps(u);
    HalfKeeps(Quarter(u), c);
    assert Event(true, 1, u) == Half(Quarter(u));
  }
}
