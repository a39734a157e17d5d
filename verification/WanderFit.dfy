/** The ridge problem the wander fit sets up: Legendre rows, and no prior on the constant. */
module WanderFit {
  import opened Numbers
  import opened LinearAlgebra
  import opened RidgeSolve
  import Legendre

  const MAX_ORDER: nat := 5

  function Power3(n: nat): (p: real)
    ensures p >= 1.0
  {
    if n == 0 then 1.0 else 3.0 * Power3(n - 1)
  }

  /** A bound on the Legendre values over the symbol that holds at any order. */
  lemma {:induction false} ValueBound(n: nat, x: real)
    requires -1.0 <= x <= 1.0
    ensures -Power3(n) <= Legendre.P(n, x) <= Power3(n)
  {
    if n >= 2 {
      ValueBound(n - 1, x);
      ValueBound(n - 2, x);
      var p1, p0, m, r := Legendre.P(n - 1, x), Legendre.P(n - 2, x), Power3(n - 2), n as real;
      assert Power3(n - 1) == 3.0 * m && Power3(n) == 9.0 * m;
      hide Power3, Legendre.P;
      assert Legendre.P(n, x) == Legendre.NextValue(r, x, p1, p0) by { UnfoldP(n, x); }
      NextBound(r, x, p1, p0, m);
    }
  }

  lemma UnfoldP(n: nat, x: real)
    requires n >= 2
    ensures Legendre.P(n, x) == Legendre.NextValue(n as real, x, Legendre.P(n - 1, x), Legendre.P(n - 2, x))
  {
    hide Legendre.NextValue;
  }

  lemma NextBound(n: real, x: real, p1: real, p0: real, m: real)
    requires n >= 2.0 && -1.0 <= x <= 1.0 && m >= 1.0 && -3.0 * m <= p1 <= 3.0 * m && -m <= p0 <= m
    ensures -9.0 * m <= Legendre.NextValue(n, x, p1, p0) <= 9.0 * m
  {
    var k, t := 2.0 * n - 1.0, Mul(x, p1);
    var top := Mul(k, t) - Mul(n - 1.0, p0);
    assert (2.0 * n - 1.0) * x * p1 == Mul(k, t);
    assert Legendre.NextValue(n, x, p1, p0) == top / n;
    hide Mul, Legendre.NextValue;
    Damped(x, p1, 3.0 * m);
    Scaled(k, t, 3.0 * m);
    Scaled(n - 1.0, p0, m);
    TopBound(n, k, m);
    Quotient(top, n, 9.0 * m);
  }

  lemma TopBound(n: real, k: real, m: real)
    requires n >= 2.0 && m >= 1.0 && k == 2.0 * n - 1.0
    ensures Mul(k, 3.0 * m) + Mul(n - 1.0, m) <= Mul(n, 9.0 * m)
  {
    var nm := n * m;
    ProductNonnegative(n, m);
    assert k * (3.0 * m) == 6.0 * nm - 3.0 * m;
    assert (n - 1.0) * m == nm - m;
    assert n * (9.0 * m) == 9.0 * nm;
  }

  lemma Damped(x: real, p: real, b: real)
    requires -1.0 <= x <= 1.0 && -b <= p <= b
    ensures -b <= Mul(x, p) <= b
  {
    ProductNonnegative(1.0 - x, b - p);
    ProductNonnegative(1.0 + x, b + p);
    ProductNonnegative(1.0 - x, b + p);
    ProductNonnegative(1.0 + x, b - p);
    var t, u := x * p, x * b;
    assert (1.0 - x) * (b - p) == b - p - u + t;
    assert (1.0 + x) * (b + p) == b + p + u + t;
    assert (1.0 - x) * (b + p) == b + p - u - t;
    assert (1.0 + x) * (b - p) == b - p + u - t;
  }

  lemma Scaled(k: real, p: real, b: real)
    requires k >= 0.0 && -b <= p <= b
    ensures -Mul(k, b) <= Mul(k, p) <= Mul(k, b)
  {
    ProductNonnegative(k, b - p);
    ProductNonnegative(k, b + p);
  }

  lemma Quotient(top: real, n: real, b: real)
    requires n > 0.0 && -Mul(n, b) <= top <= Mul(n, b)
    ensures -b <= top / n <= b
  {
    assert n * (top / n) == top;
  }

  lemma {:induction false} Power3Monotone(m: nat, n: nat)
    requires m <= n
    ensures Power3(m) <= Power3(n)
  {
    if m < n { Power3Monotone(m, n - 1); }
  }

  /** Expected size of coefficient i, never below 0.02. */
  function Sigma(sigmaW: real, i: nat): (s: real)
    ensures s >= 0.02
  {
    var s := sigmaW / (1.0 + i as real);
    if s > 0.02 then s else 0.02
  }

  /** No prior on the constant, one over sigma squared on the others; the order is clamped. */
  method Configure(sigmaW: real, order: int) returns (priorInv: Vector)
    ensures |priorInv| == (if order < 1 then 1 else if order > 5 then 5 else order) + 1
    ensures IsPrior(priorInv, sigmaW)
  {
    priorInv := [0.0];
    var most := if order < 1 then 1 else if order > MAX_ORDER then MAX_ORDER else order;
    for i := 1 to most + 1
      invariant |priorInv| == i && IsPrior(priorInv, sigmaW)
    {
      var sigma := Sigma(sigmaW, i);
      priorInv := priorInv + [1.0 / (sigma * sigma)];
    }
  }

  ghost predicate IsPrior(priorInv: Vector, sigmaW: real) {
    && |priorInv| > 0 && priorInv[0] == 0.0
    && forall i: nat | 0 < i < |priorInv| :: priorInv[i] * (Sigma(sigmaW, i) * Sigma(sigmaW, i)) == 1.0
  }

  /** A coefficient of order i is expected to be sigma / (1 + i), or two hundredths of a chip if that is more. */
  lemma PriorSizes(priorInv: Vector, sigmaW: real, i: nat)
    requires IsPrior(priorInv, sigmaW) && 0 < i < |priorInv|
    ensures sigmaW <= 0.02 * (1.0 + i as real) ==> priorInv[i] == 2500.0
    ensures sigmaW > 0.02 * (1.0 + i as real) ==> Mul(priorInv[i], Mul(sigmaW, sigmaW)) == Mul(1.0 + i as real, 1.0 + i as real)
  {
    SizeOf(priorInv[i], sigmaW, 1.0 + i as real, sigmaW / (1.0 + i as real), Sigma(sigmaW, i));
  }

  lemma SizeOf(p: real, sigma: real, d: real, s: real, t: real)
    requires d > 0.0 && s == sigma / d && t == (if s > 0.02 then s else 0.02) && p * (t * t) == 1.0
    ensures sigma <= 0.02 * d ==> p == 2500.0
    ensures sigma > 0.02 * d ==> Mul(p, Mul(sigma, sigma)) == Mul(d, d)
  {
    assert s * d == sigma;
    if sigma <= 0.02 * d {
      NotAbove(s, 0.02, d);
    } else {
      Above(s, 0.02, d);
      assert sigma * sigma == (s * s) * (d * d);
      assert p * ((s * s) * (d * d)) == (p * (s * s)) * (d * d);
    }
  }

  lemma NotAbove(a: real, b: real, d: real)
    requires d > 0.0 && a * d <= b * d
    ensures a <= b
  {
    assert (b - a) * d >= 0.0;
  }

  lemma Above(a: real, b: real, d: real)
    requires d > 0.0 && a * d > b * d
    ensures a > b
  {
    assert (a - b) * d > 0.0;
  }

  /** Row r holds the Legendre values at xs[r]. */
  ghost predicate LegendreRows(a: Matrix, xs: seq<real>, np: nat) {
    && |a| == |xs| && (forall r: nat | r < |a| :: -1.0 <= xs[r] <= 1.0)
    && forall r: nat | r < |a| :: |a[r]| == np && forall i: nat | i < np :: a[r][i] == Legendre.P(i, xs[r])
  }

  const LEAST_WEIGHT: real := 1e-290

  /** The fit's problem is anchored: any observation with a weight worth the name
      stands in for the missing prior on the constant, so the solver succeeds. */
  lemma FitIsAnchored(a: Matrix, xs: seq<real>, w: Vector, priorInv: Vector, np: nat, sigmaW: real, r: nat)
    requires 2 <= np <= MAX_ORDER + 1 && LegendreRows(a, xs, np) && |w| == |a|
    requires |priorInv| == np && IsPrior(priorInv, sigmaW) && 0.0 <= sigmaW <= 1e100
    requires (forall i: nat | i < |w| :: w[i] >= 0.0) && r < |a| && w[r] >= LEAST_WEIGHT
    ensures Anchors(a, w, priorInv, np, r, 243.0)
  {
    hide Legendre.P;
    assert Floor(243.0) <= LEAST_WEIGHT;
    assert a[r][0] == 1.0 by { FirstIsOne(xs[r]); }
    forall i: nat | i < np ensures -243.0 <= a[r][i] <= 243.0 {
      ValueBound(i, xs[r]);
      Power3Monotone(i, 5);
      assert Power3(5) == 243.0;
    }
    forall i: nat | 0 < i < np ensures priorInv[i] >= Floor(243.0) {
      PriorAbove(priorInv[i], Sigma(sigmaW, i));
      assert Sigma(sigmaW, i) <= 1e100;
    }
  }

  lemma FirstIsOne(x: real)
    ensures Legendre.P(0, x) == 1.0
  {
  }

  lemma PriorAbove(p: real, s: real)
    requires 0.02 <= s <= 1e100 && p * (s * s) == 1.0
    ensures p >= 1e-200
  {
    var t := s * s;
    SquareBelow(s, 1e100);
    assert 1e100 * 1e100 == 1e200;
    if p < 1e-200 {
      if p >= 0.0 { ProductNonnegative(p, 1e200 - t); }
    }
  }

  lemma SquareBelow(s: real, top: real)
    requires 0.0 < s <= top
    ensures 0.0 < s * s <= top * top
  {
    ProductNonnegative(s, top - s);
    ProductNonnegative(top, top - s);
  }
}
