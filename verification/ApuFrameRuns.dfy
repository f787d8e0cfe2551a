/** What the frame sequencer does over whole runs: interrupts counted, lengths counted down. */
module ApuFrameRuns {
  import opened ApuFrame
  import opened Iteration
  import MachineWords
  import opened Schedule

  function Running(fiveStep: bool, start: nat, u: Units): Sequencer<Units> {
    Sequencer(PlanOf(fiveStep), start, u)
  }

  lemma QuarterKeeps(u: Units)
    ensures var v := Quarter(u);
      v.regs == u.regs && v.frameCounter == u.frameCounter && v.lengths == u.lengths &&
      v.frameIrq == u.frameIrq && v.frameIrqEvents == u.frameIrqEvents
  {
  }

  lemma SweepKeeps(u: Units, channel: nat, c: Channel)
    requires channel < 2
    ensures var v := SweepClocked(u, channel);
      v.frameCounter == u.frameCounter && v.lengths == u.lengths &&
      v.frameIrq == u.frameIrq && v.frameIrqEvents == u.frameIrqEvents &&
      IsHalted(v.regs, c) == IsHalted(u.regs, c)
  {
  }

  lemma HalfKeeps(u: Units, c: Channel)
    ensures var v := Half(u);
      v.frameCounter == u.frameCounter && v.lengths == LengthsClocked(u) &&
      v.frameIrq == u.frameIrq && v.frameIrqEvents == u.frameIrqEvents &&
      IsHalted(v.regs, c) == IsHalted(u.regs, c)
  {
    var clocked := u.(lengths := LengthsClocked(u));
    SweepKeeps(clocked, 0, c);
    SweepKeeps(SweepClocked(clocked, 0), 1, c);
  }

  // ----- frame interrupts

  datatype IrqView = IrqView(enabled: bool, flag: bool, events: Count)

  function IrqOf(u: Units): IrqView {
    IrqView(IrqEnabled(u.frameCounter), u.frameIrq, u.frameIrqEvents)
  }

  function Raised(v: IrqView): IrqView {
    if v.enabled then v.(flag := true, events := Counted(v.events)) else v
  }

  lemma EventIrq(fiveStep: bool, k: nat, u: Units)
    ensures IrqOf(Event(fiveStep, k, u)) == if k == 3 && !fiveStep then Raised(IrqOf(u)) else IrqOf(u)
  {
    QuarterKeeps(u);
    HalfKeeps(Quarter(u), 0);
  }

  lemma {:induction false} RaisedTimes(v: IrqView, n: nat)
    ensures Iterate(Raised, v, n)
         == if v.enabled && n > 0
            then v.(flag := true, events := if v.events + n < U64_MAX then v.events + n else U64_MAX)
            else v
    decreases n
  {
    if n == 0 {
    } else {
      RaisedTimes(Raised(v), n - 1);
    }
  }

  lemma {:induction false} IrqsInCycles(start: nat, u: Units, n: nat)
    requires start < 29_830
    ensures IrqOf(Iterate(Tick, Running(false, start, u), n).units)
         == Iterate(Raised, IrqOf(u), Passes(29_829, 29_830, start, n))
  {
    var plan, last := PlanOf(false), (k: nat) => k == 3;
    forall k: nat, w: Units | k < 4
      ensures IrqOf(plan.act(k, w)) == if last(k) then Raised(IrqOf(w)) else IrqOf(w)
    {
      EventIrq(false, k, w);
    }
    RunFollows(Running(false, start, u), last, IrqOf, Raised, n);
    PassesOfFour(plan, last, start, n);
  }

  /**
  In four-step mode the frame interrupts of `n` cycles are the j with 29829 + 29830 * j in
  (start, start + n], each counted once while enabled, and none while inhibited.
  */
  lemma FourStepIrqs(start: nat, u: Units, n: nat)
    requires start < 29_830
    ensures var count := (start + n + 1) / 29_830 - (start + 1) / 29_830;
      var t := Iterate(Tick, Running(false, start, u), n).units;
      if IrqEnabled(u.frameCounter) then
        t.frameIrq == (u.frameIrq || count > 0) &&
        t.frameIrqEvents == (if u.frameIrqEvents + count < U64_MAX then u.frameIrqEvents + count else U64_MAX)
      else t.frameIrq == u.frameIrq && t.frameIrqEvents == u.frameIrqEvents
  {
    IrqsInCycles(start, u, n);
    RaisedTimes(IrqOf(u), Passes(29_829, 29_830, start, n));
    PassesClosedForm(29_829, 29_830, start, n);
    var t := Iterate(Tick, Running(false, start, u), n).units;
    assert IrqOf(t).flag == t.frameIrq && IrqOf(t).events == t.frameIrqEvents;
  }

  /** Five-step mode never interrupts. */
  lemma FiveStepIrqs(start: nat, u: Units, n: nat)
    requires start < 37_282
    ensures IrqOf(Iterate(Tick, Running(true, start, u), n).units) == IrqOf(u)
  {
    var plan, never := PlanOf(true), (k: nat) => false;
    var same := (v: IrqView) => v;
    forall k: nat, w: Units | k < 4
      ensures IrqOf(plan.act(k, w)) == IrqOf(w)
    {
      EventIrq(true, k, w);
    }
    RunFollows(Running(true, start, u), never, IrqOf, same, n);
    PassesOfFour(plan, never, start, n);
  }

  // ----- length counters

  datatype LengthView = LengthView(length: MachineWords.Byte, halted: bool)

  function LengthOf(u: Units, c: Channel): LengthView {
    LengthView(u.lengths[c], IsHalted(u.regs, c))
  }

  function CountedDown(v: LengthView): LengthView {
    v.(length := LengthClocked(v.length, v.halted))
  }

  lemma EventLength(fiveStep: bool, k: nat, u: Units, c: Channel)
    ensures LengthOf(Event(fiveStep, k, u), c)
         == if k % 2 == 1 then CountedDown(LengthOf(u, c)) else LengthOf(u, c)
  {
    QuarterKeeps(u);
    HalfKeeps(Quarter(u), c);
  }

  lemma {:induction false} CountedDownTimes(v: LengthView, n: nat)
    ensures Iterate(CountedDown, v, n)
         == v.(length := if v.halted then v.length else if v.length > n then v.length - n else 0)
    decreases n
  {
    if n == 0 {
    } else {
      CountedDownTimes(CountedDown(v), n - 1);
    }
  }

  /** The half-frame points a run passes. */
  function HalfFrames(fiveStep: bool, start: nat, n: nat): nat
    requires start < PlanOf(fiveStep).period
  {
    Passes(14_913, PlanOf(fiveStep).period, start, n)
    + Passes(PlanOf(fiveStep).p3, PlanOf(fiveStep).period, start, n)
  }

  lemma LengthFollows(fiveStep: bool, start: nat, u: Units, n: nat, c: Channel)
    requires start < PlanOf(fiveStep).period
    ensures LengthOf(Iterate(Tick, Running(fiveStep, start, u), n).units, c)
         == Iterate(CountedDown, LengthOf(u, c), HalfFrames(fiveStep, start, n))
  {
    var plan, odd := PlanOf(fiveStep), (k: nat) => k % 2 == 1;
    var view := (w: Units) => LengthOf(w, c);
    forall k: nat, w: Units | k < 4
      ensures view(plan.act(k, w)) == if odd(k) then CountedDown(view(w)) else view(w)
    {
      EventLength(fiveStep, k, w, c);
    }
    RunFollows(Running(fiveStep, start, u), odd, view, CountedDown, n);
    PassesOfFour(plan, odd, start, n);
    assert PassesOf(plan, odd, start, n, 4) == HalfFrames(fiveStep, start, n);
  }

  /** A length counter that is not halted loses one per half frame until it is zero. */
  lemma LengthsInCycles(fiveStep: bool, start: nat, u: Units, n: nat, c: Channel)
    requires start < PlanOf(fiveStep).period
    ensures var halves := HalfFrames(fiveStep, start, n);
      Iterate(Tick, Running(fiveStep, start, u), n).units.lengths[c]
        == if IsHalted(u.regs, c) then u.lengths[c]
           else if u.lengths[c] > halves then u.lengths[c] - halves else 0
  {
    var halves := HalfFrames(fiveStep, start, n);
    LengthFollows(fiveStep, start, u, n, c);
    CountedDownTimes(LengthOf(u, c), halves);
    var t := Iterate(Tick, Running(fiveStep, start, u), n).units;
    assert LengthOf(t, c).length == t.lengths[c];
  }

  /** Any way of cutting cycles into chunks leaves every unit as single cycles do. */
  lemma ChunksDoNotMatter(fiveStep: bool, start: nat, u: Units, chunks: seq<nat>)
    requires start < PlanOf(fiveStep).period
    ensures FoldLeft(ChunkClocked, Running(fiveStep, start, u), chunks)
         == Iterate(Tick, Running(fiveStep, start, u), Total(chunks))
  {
    ChunksCompose(Running(fiveStep, start, u), chunks);
    ChunkIsTicks(Running(fiveStep, start, u), Total(chunks));
  }

  /** One four-step period from its start: four quarter frames, two half frames, then the IRQ. */
  lemma PeriodInOrder(u: Units)
    ensures Iterate(Tick, Running(false, 0, u), 29_830)
         == Running(false, 0, Event(false, 3, Event(false, 2, Event(false, 1, Event(false, 0, u)))))
  {
    FullPeriod(Running(false, 0, u));
    FullPeriodFromStart(Running(false, 0, u));
  }
}
