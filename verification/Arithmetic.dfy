/** Division facts the solver does not find by itself, and the truncating operators. */
module Arithmetic {

  /** Signed division that rounds toward zero. */
  function TruncDiv(a: int, b: nat): int
    requires b > 0
  {
    if a >= 0 then a / b else -((-a) / b)
  }

  /** Truncating cast to a signed 16-bit word. */
  function AsI16(x: int): int {
    var low := x % 0x1_0000;
    if low < 0x8000 then low else low - 0x1_0000
  }

  lemma {:induction false} MulMonotone(a: nat, b: nat, c: nat)
    requires a <= b
    ensures a * c <= b * c && c * a <= c * b
  {
    assert (b - a) * c >= 0;
  }

  /** A quotient and remainder in range are the quotient and remainder. */
  lemma DivModUnique(x: int, q: int, r: int, n: nat)
    requires n > 0 && x == q * n + r && 0 <= r < n
    ensures x / n == q && x % n == r
  {
    var q', r' := x / n, x % n;
    assert x == q' * n + r' && 0 <= r' < n;
    assert (q' - q) * n == r - r';
    if q' > q {
      MulAtLeast(q' - q, n);
    } else if q' < q {
      MulAtLeast(q - q', n);
    }
  }

  lemma MulAtLeast(k: int, n: nat)
    requires k >= 1
    ensures k * n >= n
  {
    assert (k - 1) * n >= 0;
  }

  /** Reducing early does not change a later reduction. */
  lemma ModAdd(x: int, y: int, n: nat)
    requires n > 0
    ensures (x % n + y) % n == (x + y) % n
  {
    var q, s := x / n, x % n + y;
    assert x + y == q * n + s;
    var q2 := s / n;
    assert x + y == (q + q2) * n + s % n by {
      assert s == q2 * n + s % n;
    }
    DivModUnique(x + y, q + q2, s % n, n);
  }

  lemma ModSubtract(x: nat, n: nat)
    requires x >= n > 0
    ensures (x - n) % n == x % n
  {
    var q, r := (x - n) / n, (x - n) % n;
    assert x == (q + 1) * n + r;
    DivModUnique(x, q + 1, r, n);
  }

  lemma DivMod(x: int, n: nat)
    requires n > 0
    ensures x == (x / n) * n + x % n && 0 <= x % n < n
  {
  }

  /** `x % n`, hidden behind repeated subtraction. */
  function Remainder(x: nat, n: nat): (r: nat)
    requires n > 0
    ensures r < n
  {
    if x < n then x else Remainder(x - n, n)
  }

  lemma {:induction false} RemainderIsMod(x: nat, n: nat)
    requires n > 0
    ensures Remainder(x, n) == x % n
    decreases x
  {
    if x < n {
      DivModUnique(x, 0, x, n);
    } else {
      RemainderIsMod(x - n, n);
      ModSubtract(x, n);
    }
  }

  /** `x / n`, hidden behind repeated subtraction. */
  function Quotient(x: nat, n: nat): nat
    requires n > 0
  {
    if x < n then 0 else 1 + Quotient(x - n, n)
  }

  lemma {:induction false} QuotientIsDiv(x: nat, n: nat)
    requires n > 0
    ensures Quotient(x, n) == x / n
    decreases x
  {
    if x < n {
      DivModUnique(x, 0, x, n);
    } else {
      QuotientIsDiv(x - n, n);
      DivMod(x - n, n);
      assert (Quotient(x - n, n) + 1) * n == Quotient(x - n, n) * n + n;
      DivModUnique(x, Quotient(x - n, n) + 1, (x - n) % n, n);
    }
  }

  lemma QuotientAtLeastOne(x: nat, n: nat)
    requires x >= n > 0
    ensures x / n >= 1
  {
    var q := x / n;
    assert (1 - q) * n == n - q * n;
  }

  lemma DivNonNegative(x: nat, n: nat)
    requires n > 0
    ensures x / n >= 0
  {
  }

  /** A product no larger than `bound` copies has its quotient within `bound`. */
  lemma QuotientBound(m: nat, b: nat, bound: nat, product: nat)
    requires b > 0 && product == bound * b && m <= product
    ensures 0 <= m / b <= bound
  {
    var q := m / b;
    assert q * b <= m;
    assert (q - bound) * b == q * b - product <= 0;
  }

  /** A truncated quotient stays within a bound the dividend keeps per unit. */
  lemma TruncDivBound(a: int, b: nat, bound: nat, product: nat)
    requires b > 0 && product == bound * b && 0 - product <= a <= product
    ensures 0 - bound <= TruncDiv(a, b) <= bound
  {
    QuotientBound(if a >= 0 then a else -a, b, bound, product);
  }
}
