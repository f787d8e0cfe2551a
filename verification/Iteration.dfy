/**
Repeated application of one step.  A clock that a machine advances in bulk is specified
here as its single-cycle step iterated.
*/
module Iteration {

  function Iterate<S>(step: S -> S, s: S, n: nat): S
    decreases n
  {
    if n == 0 then s else Iterate(step, step(s), n - 1)
  }

  lemma {:induction false} IterateAdd<S>(step: S -> S, s: S, m: nat, n: nat)
    ensures Iterate(step, Iterate(step, s, m), n) == Iterate(step, s, m + n)
    decreases m
  {
    if m == 0 {
    } else {
      IterateAdd(step, step(s), m - 1, n);
    }
  }

  /** A run cut in two at any point. */
  lemma IterateCut<S>(step: S -> S, s: S, total: nat, m: nat, n: nat)
    requires total == m + n
    ensures Iterate(step, s, total) == Iterate(step, Iterate(step, s, m), n)
  {
    IterateAdd(step, s, m, n);
  }

  /** The last step of an iteration, peeled off at the end instead of the front. */
  lemma IterateLast<S>(step: S -> S, s: S, n: nat)
    ensures Iterate(step, s, n + 1) == step(Iterate(step, s, n))
  {
    IterateAdd(step, s, n, 1);
    assert Iterate(step, Iterate(step, s, n), 1) == step(Iterate(step, s, n));
  }

  /** A step that fixes a state fixes it forever. */
  lemma {:induction false} IterateFixed<S>(step: S -> S, s: S, n: nat)
    requires step(s) == s
    ensures Iterate(step, s, n) == s
    decreases n
  {
    if n == 0 {
    } else {
      IterateFixed(step, s, n - 1);
    }
  }

  lemma {:induction false} IterateKeeps<S(!new)>(step: S -> S, invariance: S -> bool, s: S, n: nat)
    requires forall x :: invariance(x) ==> invariance(step(x))
    requires invariance(s)
    ensures invariance(Iterate(step, s, n))
    decreases n
  {
    if n == 0 {
    } else {
      IterateKeeps(step, invariance, step(s), n - 1);
    }
  }

  /** Related states stay related. */
  lemma {:induction false} IterateRelated<S(!new)>(
    step: S -> S, related: (S, S) -> bool, a: S, b: S, n: nat)
    requires forall x, y :: related(x, y) ==> related(step(x), step(y))
    requires related(a, b)
    ensures related(Iterate(step, a, n), Iterate(step, b, n))
    decreases n
  {
    if n == 0 {
    } else {
      IterateRelated(step, related, step(a), step(b), n - 1);
    }
  }

  /** A view that follows each step follows whole runs. */
  lemma {:induction false} IterateView<S(!new), T>(
    step: S -> S, view: S -> T, stepView: T -> T, invariance: S -> bool, s: S, n: nat)
    requires forall x :: invariance(x) ==> invariance(step(x)) && view(step(x)) == stepView(view(x))
    requires invariance(s)
    ensures view(Iterate(step, s, n)) == Iterate(stepView, view(s), n)
    decreases n
  {
    if n == 0 {
    } else {
      IterateView(step, view, stepView, invariance, step(s), n - 1);
    }
  }

  lemma {:induction false} IterateInjective<S(!new)>(step: S -> S, a: S, b: S, n: nat)
    requires forall x, y :: step(x) == step(y) ==> x == y
    requires Iterate(step, a, n) == Iterate(step, b, n)
    ensures a == b
    decreases n
  {
    if n == 0 {
    } else {
      IterateInjective(step, step(a), step(b), n - 1);
    }
  }

  lemma {:induction false} IterateHomomorphic<S(!new)>(
    step: S -> S, plus: (S, S) -> S, a: S, b: S, n: nat)
    requires forall x, y :: step(plus(x, y)) == plus(step(x), step(y))
    ensures Iterate(step, plus(a, b), n) == plus(Iterate(step, a, n), Iterate(step, b, n))
    decreases n
  {
    if n == 0 {
    } else {
      IterateHomomorphic(step, plus, step(a), step(b), n - 1);
    }
  }

  function FoldLeft<S, B>(f: (S, B) -> S, s: S, bytes: seq<B>): S
    decreases |bytes|
  {
    if bytes == [] then s else FoldLeft(f, f(s, bytes[0]), bytes[1..])
  }

  lemma {:induction false} FoldLeftAppend<S, B>(f: (S, B) -> S, s: S, a: seq<B>, b: seq<B>)
    ensures FoldLeft(f, s, a + b) == FoldLeft(f, FoldLeft(f, s, a), b)
    decreases |a|
  {
    if a == [] {
      assert a + b == b;
    } else {
      assert (a + b)[1..] == a[1..] + b;
      FoldLeftAppend(f, f(s, a[0]), a[1..], b);
    }
  }

  lemma FoldLeftFront<S, B>(f: (S, B) -> S, s: S, first: B, rest: seq<B>)
    ensures FoldLeft(f, s, [first] + rest) == FoldLeft(f, f(s, first), rest)
  {
    assert ([first] + rest)[1..] == rest;
  }

  function Total(chunks: seq<nat>): nat {
    if chunks == [] then 0 else chunks[0] + Total(chunks[1..])
  }

  lemma FoldLeftFive<S, B>(f: (S, B) -> S, s: S, w: seq<B>)
    requires |w| == 5
    ensures FoldLeft(f, s, w) == f(f(f(f(f(s, w[0]), w[1]), w[2]), w[3]), w[4])
  {
    FoldLeftTail(f, s, w, 0);
    var s1 := f(s, w[0]);
    FoldLeftTail(f, s1, w, 1);
    var s2 := f(s1, w[1]);
    FoldLeftTail(f, s2, w, 2);
    var s3 := f(s2, w[2]);
    FoldLeftTail(f, s3, w, 3);
    var s4 := f(s3, w[3]);
    FoldLeftTail(f, s4, w, 4);
  }

  lemma FoldLeftTail<S, B>(f: (S, B) -> S, s: S, w: seq<B>, k: nat)
    requires k < |w|
    ensures FoldLeft(f, s, w[k..]) == FoldLeft(f, f(s, w[k]), w[k + 1..])
    ensures w[0..] == w
  {
    assert w[k..][1..] == w[k + 1..];
  }

  /** A fold whose step respects a sum respects the sum of whole inputs. */
  lemma {:induction false} FoldLeftHomomorphic<S(!new), B(!new)>(
    f: (S, B) -> S, plus: (S, S) -> S, plusB: (B, B) -> B,
    s: S, t: S, a: seq<B>, b: seq<B>, sum: seq<B>)
    requires |a| == |b| == |sum|
    requires forall i :: 0 <= i < |a| ==> sum[i] == plusB(a[i], b[i])
    requires forall x, y, c, d :: f(plus(x, y), plusB(c, d)) == plus(f(x, c), f(y, d))
    ensures FoldLeft(f, plus(s, t), sum) == plus(FoldLeft(f, s, a), FoldLeft(f, t, b))
    decreases |a|
  {
    if a == [] {
    } else {
      FoldLeftHomomorphic(f, plus, plusB, f(s, a[0]), f(t, b[0]), a[1..], b[1..], sum[1..]);
      assert f(plus(s, t), sum[0]) == plus(f(s, a[0]), f(t, b[0]));
    }
  }

  /** What a machine shows over a sequence of operations. */
  function Observed<S, O, V>(step: (S, O) -> S, seen: (S, O) -> V, s: S, ops: seq<O>): seq<V>
    decreases |ops|
  {
    if ops == [] then [] else [seen(s, ops[0])] + Observed(step, seen, step(s, ops[0]), ops[1..])
  }

  /** Related states that no operation tells apart are never told apart. */
  lemma {:induction false} ObservedRelated<S(!new), O(!new), V>(
    step: (S, O) -> S, seen: (S, O) -> V, related: (S, S) -> bool, a: S, b: S, ops: seq<O>)
    requires forall x, y, op :: related(x, y) ==>
      related(step(x, op), step(y, op)) && seen(x, op) == seen(y, op)
    requires related(a, b)
    ensures Observed(step, seen, a, ops) == Observed(step, seen, b, ops)
    decreases |ops|
  {
    if ops == [] {
    } else {
      ObservedRelated(step, seen, related, step(a, ops[0]), step(b, ops[0]), ops[1..]);
    }
  }

  /** `n` steps of a relation, each under some label, lead from `a` to `b`. */
  ghost predicate Leads<S(!new), E(!new)>(step: (S, E, S) -> bool, a: S, b: S, n: nat)
    decreases n
  {
    if n == 0 then a == b
    else exists c, e :: Leads(step, a, c, n - 1) && step(c, e, b)
  }

  /** What every step keeps, every run keeps. */
  lemma {:induction false} LeadsKeeps<S(!new), E(!new)>(
    step: (S, E, S) -> bool, invariance: S -> bool, a: S, b: S, n: nat)
    requires forall x, e, y :: invariance(x) && step(x, e, y) ==> invariance(y)
    requires invariance(a) && Leads(step, a, b, n)
    ensures invariance(b)
    decreases n
  {
    if n == 0 {
    } else {
      var c, e :| Leads(step, a, c, n - 1) && step(c, e, b);
      LeadsKeeps(step, invariance, a, c, n - 1);
    }
  }
}
