/**
A repeating schedule of four points.  The source clocks it in chunks, period by period; the
reference passes one cycle at a time.
*/
module Schedule {
  import Arithmetic
  import opened Iteration

  /** Four points inside a period, and what happens at each. */
  datatype Plan<!U> = Plan(p0: nat, p1: nat, p2: nat, p3: nat, period: nat, act: (nat, U) -> U)

  predicate IsPlan<U>(plan: Plan<U>) {
    0 < plan.p0 < plan.p1 < plan.p2 < plan.p3 < plan.period
  }

  datatype Sequencer<!U> = Sequencer(plan: Plan<U>, position: nat, units: U)

  predicate IsRunning<U>(s: Sequencer<U>) {
    IsPlan(s.plan) && s.position < s.plan.period
  }

  /** What happens when the position reaches `x`. */
  function At<U>(plan: Plan<U>, x: nat, u: U): U {
    if x == plan.p0 then plan.act(0, u)
    else if x == plan.p1 then plan.act(1, u)
    else if x == plan.p2 then plan.act(2, u)
    else if x == plan.p3 then plan.act(3, u)
    else u
  }

  /** One cycle. */
  function Tick<U>(s: Sequencer<U>): Sequencer<U> {
    var x := s.position + 1;
    s.(position := if x == s.plan.period then 0 else x, units := At(s.plan, x, s.units))
  }

  function When<U>(plan: Plan<U>, k: nat, fires: bool, u: U): U {
    if fires then plan.act(k, u) else u
  }

  /** The points in (start, end], in order, each at most once. */
  function Between<U>(plan: Plan<U>, start: nat, end: nat, u: U): U {
    When(plan, 3, start < plan.p3 <= end,
      When(plan, 2, start < plan.p2 <= end,
        When(plan, 1, start < plan.p1 <= end,
          When(plan, 0, start < plan.p0 <= end, u))))
  }

  /** The first `k` of those points, as a loop over the schedule meets them. */
  function BetweenFirst<U>(plan: Plan<U>, start: nat, end: nat, u: U, k: nat): U
    requires IsPlan(plan) && k <= 4
  {
    if k == 0 then u
    else When(plan, k - 1, start < Point(plan, k - 1) <= end, BetweenFirst(plan, start, end, u, k - 1))
  }

  lemma BetweenFirstNext<U>(plan: Plan<U>, start: nat, end: nat, u: U, k: nat, point: nat)
    requires IsPlan(plan) && k < 4 && point == Point(plan, k)
    ensures BetweenFirst(plan, start, end, u, k + 1)
         == When(plan, k, start < point <= end, BetweenFirst(plan, start, end, u, k))
  {
  }

  lemma BetweenFirstFour<U>(plan: Plan<U>, start: nat, end: nat, u: U)
    requires IsPlan(plan)
    ensures BetweenFirst(plan, start, end, u, 4) == Between(plan, start, end, u)
  {
    assert BetweenFirst(plan, start, end, u, 1) == When(plan, 0, start < plan.p0 <= end, u);
    assert BetweenFirst(plan, start, end, u, 2)
        == When(plan, 1, start < plan.p1 <= end, BetweenFirst(plan, start, end, u, 1));
  }

  lemma BetweenExtends<U>(plan: Plan<U>, start: nat, end: nat, u: U)
    requires IsPlan(plan) && start <= end
    ensures Between(plan, start, end + 1, u) == At(plan, end + 1, Between(plan, start, end, u))
  {
  }

  /** Inside a period, cycles fire exactly the points they pass. */
  lemma {:induction false} TicksWithinPeriod<U>(s: Sequencer<U>, n: nat, end: nat)
    requires IsRunning(s) && s.position + n == end < s.plan.period
    ensures Iterate(Tick, s, n)
         == s.(position := end, units := Between(s.plan, s.position, end, s.units))
    decreases n
  {
    if n == 0 {
    } else {
      TicksWithinPeriod(s, n - 1, end - 1);
      IterateLast(Tick, s, n - 1);
      BetweenExtends(s.plan, s.position, end - 1, s.units);
    }
  }

  lemma TicksToPeriod<U>(s: Sequencer<U>, n: nat)
    requires IsRunning(s) && s.position + n + 1 == s.plan.period
    ensures Iterate(Tick, s, n + 1)
         == s.(position := 0, units := Between(s.plan, s.position, s.plan.period, s.units))
  {
    TicksWithinPeriod(s, n, s.position + n);
    IterateLast(Tick, s, n);
    BetweenExtends(s.plan, s.position, s.position + n, s.units);
  }

  /** Cycles past the end of the period continue from zero. */
  lemma TicksPastPeriod<U>(plan: Plan<U>, start: nat, u: U, n: nat, rest: nat)
    requires IsPlan(plan) && start < plan.period && start + n == plan.period + rest
    ensures Iterate(Tick, Sequencer(plan, start, u), n)
         == Iterate(Tick, Sequencer(plan, 0, Between(plan, start, plan.period, u)), rest)
  {
    var s := Sequencer(plan, start, u);
    var m := plan.period - start - 1;
    TicksToPeriod(s, m);
    IterateCut(Tick, s, n, m + 1, rest);
  }

  // ----- chunks

  /** The points from `start` up to `end` cycles after its period began, period by period. */
  function Span<U>(plan: Plan<U>, start: nat, end: nat, u: U): Sequencer<U>
    requires IsPlan(plan)
    decreases end
  {
    if end < plan.period then Sequencer(plan, end, Between(plan, start, end, u))
    else Span(plan, 0, end - plan.period, Between(plan, start, plan.period, u))
  }

  /** A chunk as it is clocked at once: whole periods, then the rest. */
  function ChunkClocked<U>(s: Sequencer<U>, cycles: nat): Sequencer<U> {
    if IsRunning(s) then Span(s.plan, s.position, s.position + cycles, s.units) else s
  }

  lemma {:induction false} SpanIsTicks<U>(plan: Plan<U>, start: nat, end: nat, u: U, n: nat)
    requires IsPlan(plan) && start < plan.period && start + n == end
    ensures Span(plan, start, end, u) == Iterate(Tick, Sequencer(plan, start, u), n)
    decreases end
  {
    if end < plan.period {
      TicksWithinPeriod(Sequencer(plan, start, u), n, end);
    } else {
      var rest := end - plan.period;
      TicksPastPeriod(plan, start, u, n, rest);
      SpanIsTicks(plan, 0, rest, Between(plan, start, plan.period, u), rest);
    }
  }

  /** A chunk is that many single cycles. */
  lemma ChunkIsTicks<U>(s: Sequencer<U>, cycles: nat)
    requires IsRunning(s)
    ensures ChunkClocked(s, cycles) == Iterate(Tick, s, cycles)
  {
    SpanIsTicks(s.plan, s.position, s.position + cycles, s.units, cycles);
  }

  /** However cycles are cut into chunks, the chunks together are one chunk of their sum. */
  lemma {:induction false} ChunksCompose<U>(s: Sequencer<U>, chunks: seq<nat>)
    requires IsRunning(s)
    ensures FoldLeft(ChunkClocked, s, chunks) == ChunkClocked(s, Total(chunks))
    decreases |chunks|
  {
    ChunkIsTicks(s, Total(chunks));
    if chunks == [] {
      assert Iterate(Tick, s, 0) == s;
    } else {
      var t := ChunkClocked(s, chunks[0]);
      ChunkIsTicks(s, chunks[0]);
      TicksKeepPlan(s, chunks[0]);
      ChunksCompose(t, chunks[1..]);
      ChunkIsTicks(t, Total(chunks[1..]));
      IterateAdd(Tick, s, chunks[0], Total(chunks[1..]));
    }
  }

  /** In one period from any position every point fires exactly once, in cyclic order. */
  lemma FullPeriod<U>(s: Sequencer<U>)
    requires IsRunning(s)
    ensures Iterate(Tick, s, s.plan.period)
         == s.(units := Between(s.plan, 0, s.position,
                                Between(s.plan, s.position, s.plan.period, s.units)))
  {
    var n := s.plan.period - s.position - 1;
    TicksToPeriod(s, n);
    var t := s.(position := 0, units := Between(s.plan, s.position, s.plan.period, s.units));
    TicksWithinPeriod(t, s.position, s.position);
    IterateCut(Tick, s, s.plan.period, n + 1, s.position);
  }

  lemma FullPeriodFromStart<U>(s: Sequencer<U>)
    requires IsRunning(s) && s.position == 0
    ensures Iterate(Tick, s, s.plan.period).units
         == s.plan.act(3, s.plan.act(2, s.plan.act(1, s.plan.act(0, s.units))))
  {
    FullPeriod(s);
  }

  lemma {:induction false} TicksKeepPlan<U>(s: Sequencer<U>, n: nat)
    requires IsRunning(s)
    ensures var t := Iterate(Tick, s, n); t.plan == s.plan && IsRunning(t)
    decreases n
  {
    if n == 0 {
    } else {
      TicksKeepPlan(Tick(s), n - 1);
    }
  }

  // ----- how often each point is passed

  /** How often a point is passed in `n` cycles: the j with point + j * period in (start, start + n]. */
  function Passes(point: nat, period: nat, start: nat, n: nat): nat
    requires 0 < point < period && start < period
  {
    if start < point then Arithmetic.Quotient(start + n + period - point, period)
    else Arithmetic.Quotient(start + n - point, period)
  }

  /** Cycle numbers count the passes: those up to start + n less those up to start. */
  lemma PassesClosedForm(point: nat, period: nat, start: nat, n: nat)
    requires 0 < point < period && start < period
    ensures Passes(point, period, start, n)
         == (start + n + period - point) / period - (start + period - point) / period
  {
    Arithmetic.QuotientIsDiv(start + n + period - point, period);
    Arithmetic.QuotientIsDiv(start + period - point, period);
  }

  lemma PassesNext(point: nat, period: nat, start: nat, n: nat)
    requires 0 < point < period && start < period
    ensures Passes(point, period, start, n + 1)
         == (if start + 1 == point then 1 else 0)
            + Passes(point, period, if start + 1 == period then 0 else start + 1, n)
  {
  }

  lemma PassesNone(point: nat, period: nat, start: nat)
    requires 0 < point < period && start < period
    ensures Passes(point, period, start, 0) == 0
  {
  }

  function Point<U>(plan: Plan<U>, k: nat): (p: nat)
    requires IsPlan(plan) && k < 4
    ensures 0 < p < plan.period
  {
    if k == 0 then plan.p0 else if k == 1 then plan.p1 else if k == 2 then plan.p2 else plan.p3
  }

  /** Passes of the points that `hits` picks out. */
  function PassesOf<U>(plan: Plan<U>, hits: nat -> bool, start: nat, n: nat, k: nat): nat
    requires IsPlan(plan) && start < plan.period && k <= 4
  {
    if k == 0 then 0
    else PassesOf(plan, hits, start, n, k - 1)
         + if hits(k - 1) then Passes(Point(plan, k - 1), plan.period, start, n) else 0
  }

  /** Something that changes by `f` at the points `hits` picks out, and nowhere else. */
  ghost predicate Follows<U(!new), V>(plan: Plan<U>, hits: nat -> bool, view: U -> V, f: V -> V) {
    forall k: nat, u: U :: k < 4 ==>
      view(plan.act(k, u)) == if hits(k) then f(view(u)) else view(u)
  }

  function Hit(hit: bool): nat {
    if hit then 1 else 0
  }

  /** Does the next cycle reach one of these points? */
  function HitsNext<U>(plan: Plan<U>, hits: nat -> bool, x: nat): bool {
    (x == plan.p0 && hits(0)) || (x == plan.p1 && hits(1)) ||
    (x == plan.p2 && hits(2)) || (x == plan.p3 && hits(3))
  }

  lemma PassesOfNext<U>(plan: Plan<U>, hits: nat -> bool, start: nat, n: nat)
    requires IsPlan(plan) && start < plan.period
    ensures PassesOf(plan, hits, start, n + 1, 4)
         == Hit(HitsNext(plan, hits, start + 1))
            + PassesOf(plan, hits, if start + 1 == plan.period then 0 else start + 1, n, 4)
  {
    PassesNext(plan.p0, plan.period, start, n);
    PassesNext(plan.p1, plan.period, start, n);
    PassesNext(plan.p2, plan.period, start, n);
    PassesNext(plan.p3, plan.period, start, n);
    var next := if start + 1 == plan.period then 0 else start + 1;
    PassesOfFour(plan, hits, start, n + 1);
    PassesOfFour(plan, hits, next, n);
  }

  lemma PassesOfFour<U>(plan: Plan<U>, hits: nat -> bool, start: nat, n: nat)
    requires IsPlan(plan) && start < plan.period
    ensures PassesOf(plan, hits, start, n, 4)
         == (if hits(0) then Passes(plan.p0, plan.period, start, n) else 0)
          + (if hits(1) then Passes(plan.p1, plan.period, start, n) else 0)
          + (if hits(2) then Passes(plan.p2, plan.period, start, n) else 0)
          + (if hits(3) then Passes(plan.p3, plan.period, start, n) else 0)
  {
    assert PassesOf(plan, hits, start, n, 0) == 0;
    assert PassesOf(plan, hits, start, n, 1)
        == if hits(0) then Passes(plan.p0, plan.period, start, n) else 0;
    assert PassesOf(plan, hits, start, n, 2) == PassesOf(plan, hits, start, n, 1)
         + if hits(1) then Passes(plan.p1, plan.period, start, n) else 0;
  }

  /** It changes once per pass, over any run. */
  lemma {:induction false} RunFollows<U(!new), V>(
    s: Sequencer<U>, hits: nat -> bool, view: U -> V, f: V -> V, n: nat)
    requires IsRunning(s) && Follows(s.plan, hits, view, f)
    ensures view(Iterate(Tick, s, n).units)
         == Iterate(f, view(s.units), PassesOf(s.plan, hits, s.position, n, 4))
    decreases n
  {
    if n == 0 {
      PassesOfFour(s.plan, hits, s.position, 0);
      PassesNone(s.plan.p0, s.plan.period, s.position);
      PassesNone(s.plan.p1, s.plan.period, s.position);
      PassesNone(s.plan.p2, s.plan.period, s.position);
      PassesNone(s.plan.p3, s.plan.period, s.position);
    } else {
      PassesOfNext(s.plan, hits, s.position, n - 1);
      RunFollows(Tick(s), hits, view, f, n - 1);
    }
  }
}
