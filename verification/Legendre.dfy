/** Legendre polynomials and their derivatives by recurrence, at any order. */
module Legendre {
  // The derivative is defined by differentiating the value recurrence; the
  // program uses a shorter recurrence for it.

  /** P_n from the two before it: n P_n = (2n - 1) x P_(n-1) - (n - 1) P_(n-2). */
  function NextValue(n: real, x: real, p1: real, p0: real): real
    requires n > 0.0
  {
    ((2.0 * n - 1.0) * x * p1 - (n - 1.0) * p0) / n
  }

  function P(n: nat, x: real): real {
    if n == 0 then 1.0 else if n == 1 then x else NextValue(n as real, x, P(n - 1, x), P(n - 2, x))
  }

  /** The same recurrence differentiated by the product rule. */
  function NextDerivative(n: real, x: real, p1: real, d1: real, d0: real): real
    requires n > 0.0
  {
    ((2.0 * n - 1.0) * (p1 + x * d1) - (n - 1.0) * d0) / n
  }

  function Derivative(n: nat, x: real): real {
    if n == 0 then 0.0
    else if n == 1 then 1.0
    else NextDerivative(n as real, x, P(n - 1, x), Derivative(n - 1, x), Derivative(n - 2, x))
  }

  /** The program's derivative from its own recurrence. */
  function ShortDerivative(n: real, p1: real, d0: real): real {
    d0 + (2.0 * n - 1.0) * p1
  }

  /** Both recurrences with the division cleared. */
  ghost predicate Steps(n: real, x: real, p0: real, p1: real, d0: real, d1: real, p2: real, d2: real) {
    n * p2 == (2.0 * n - 1.0) * (x * p1) - (n - 1.0) * p0 &&
    n * d2 == (2.0 * n - 1.0) * (p1 + x * d1) - (n - 1.0) * d0
  }

  lemma Cleared(n: real, x: real, p0: real, p1: real, d0: real, d1: real)
    requires n > 0.0
    ensures Steps(n, x, p0, p1, d0, d1, NextValue(n, x, p1, p0), NextDerivative(n, x, p1, d1, d0))
  {
    assert (2.0 * n - 1.0) * x * p1 == (2.0 * n - 1.0) * (x * p1);
    Divided((2.0 * n - 1.0) * x * p1 - (n - 1.0) * p0, n);
    Divided((2.0 * n - 1.0) * (p1 + x * d1) - (n - 1.0) * d0, n);
  }

  lemma Divided(a: real, n: real)
    requires n > 0.0
    ensures n * (a / n) == a
  {
  }

  /** D_n - x D_(n-1) = n P_(n-1) and x D_n - D_(n-1) = n P_n. */
  ghost predicate Linked(n: real, x: real, p0: real, p1: real, d0: real, d1: real) {
    d1 - x * d0 == n * p0 && x * d1 - d0 == n * p1
  }

  /** The two identities carry over a step of the recurrences, and give the short form of the derivative. */
  lemma StepIdentity(n: real, x: real, p0: real, p1: real, d0: real, d1: real, p2: real, d2: real)
    requires n > 0.0 && Linked(n - 1.0, x, p0, p1, d0, d1)
    requires p2 == NextValue(n, x, p1, p0) && d2 == NextDerivative(n, x, p1, d1, d0)
    ensures d2 == ShortDerivative(n, p1, d0) && Linked(n, x, p1, p2, d1, d2)
  {
    hide *;
    Cleared(n, x, p0, p1, d0, d1);
    ClearedStep(n, x, p0, p1, d0, d1, p2, d2);
  }

  /** The same on the equations with the division cleared. */
  lemma ClearedStep(n: real, x: real, p0: real, p1: real, d0: real, d1: real, p2: real, d2: real)
    requires n > 0.0 && Linked(n - 1.0, x, p0, p1, d0, d1) && Steps(n, x, p0, p1, d0, d1, p2, d2)
    ensures d2 == ShortDerivative(n, p1, d0) && Linked(n, x, p1, p2, d1, d2)
  {
    var t := x * d1;
    assert d0 == t - (n - 1.0) * p1;
    FirstIdentity(n, p1, t, d0, d2);
    SecondIdentity(n, x, p0, p1, d0, d1);
    ThirdIdentity(n, x, p0, p1, d1, p2, d2);
  }

  lemma ThirdIdentity(n: real, x: real, p0: real, p1: real, d1: real, p2: real, d2: real)
    requires d2 == n * p1 + x * d1
    requires n * p2 == (2.0 * n - 1.0) * (x * p1) - (n - 1.0) * p0
    requires x * (x * d1) - d1 == (n - 1.0) * (x * p1) - (n - 1.0) * p0
    ensures x * d2 - d1 == n * p2
  {
    var t, u := x * d1, x * p1;
    assert x * d2 == x * (n * p1) + x * t;
    assert x * (n * p1) == n * u;
    assert (2.0 * n - 1.0) * u == n * u + (n - 1.0) * u;
  }

  lemma FirstIdentity(n: real, p1: real, t: real, d0: real, d2: real)
    requires n > 0.0 && d0 == t - (n - 1.0) * p1
    requires n * d2 == (2.0 * n - 1.0) * (p1 + t) - (n - 1.0) * d0
    ensures d2 == n * p1 + t && d2 == d0 + (2.0 * n - 1.0) * p1
  {
    var m := n - 1.0;
    assert m * d0 == m * t - m * (m * p1);
    assert (2.0 * n - 1.0) * (p1 + t) == (2.0 * n - 1.0) * p1 + (2.0 * n - 1.0) * t;
    assert (2.0 * n - 1.0) * t - m * t == n * t;
    assert (2.0 * n - 1.0) * p1 + m * (m * p1) == n * (n * p1);
    assert n * d2 == n * (n * p1 + t);
    SameFactor(n, d2, n * p1 + t);
  }

  lemma SameFactor(n: real, a: real, b: real)
    requires n > 0.0 && n * a == n * b
    ensures a == b
  {
    assert n * (a - b) == 0.0;
  }

  /** (x^2 - 1) D = (n - 1) (x P - P'), from the two identities. */
  lemma SecondIdentity(n: real, x: real, p0: real, p1: real, d0: real, d1: real)
    requires d1 - x * d0 == (n - 1.0) * p0 && x * d1 - d0 == (n - 1.0) * p1
    ensures x * (x * d1) - d1 == (n - 1.0) * (x * p1) - (n - 1.0) * p0
  {
    assert x * (x * d1 - d0) == x * ((n - 1.0) * p1);
    assert x * (x * d1 - d0) == x * (x * d1) - x * d0;
    assert x * ((n - 1.0) * p1) == (n - 1.0) * (x * p1);
  }

  lemma {:induction false} IdentitiesHold(n: nat, x: real, r: real)
    requires n >= 1 && r == n as real
    ensures Linked(r, x, P(n - 1, x), P(n, x), Derivative(n - 1, x), Derivative(n, x))
    ensures n >= 2 ==> Derivative(n, x) == ShortDerivative(r, P(n - 1, x), Derivative(n - 2, x))
  {
    if n == 1 {
      assert P(0, x) == 1.0 && P(1, x) == x && Derivative(0, x) == 0.0 && Derivative(1, x) == 1.0;
    } else {
      var p0, p1, d0, d1 := P(n - 2, x), P(n - 1, x), Derivative(n - 2, x), Derivative(n - 1, x);
      assert P(n, x) == NextValue(r, x, p1, p0) && Derivative(n, x) == NextDerivative(r, x, p1, d1, d0) by {
        hide NextValue, NextDerivative;
      }
      IdentitiesHold(n - 1, x, r - 1.0);
      hide *;
      StepIdentity(r, x, p0, p1, d0, d1, P(n, x), Derivative(n, x));
    }
  }

  /** The program's derivative recurrence is the derivative, at every order and point. */
  lemma DerivativeRecurrence(n: nat, x: real)
    requires n >= 2
    ensures Derivative(n, x) == Derivative(n - 2, x) + (2.0 * n as real - 1.0) * P(n - 1, x)
  {
    hide P, Derivative;
    IdentitiesHold(n, x, n as real);
  }

  /** Both steps of the program's loop, in the terms the loop stores. */
  lemma LoopStep(n: nat, x: real, r: real)
    requires n >= 2 && r == n as real
    ensures P(n, x) == NextValue(r, x, P(n - 1, x), P(n - 2, x))
    ensures Derivative(n, x) == ShortDerivative(r, P(n - 1, x), Derivative(n - 2, x))
  {
    IdentitiesHold(n, x, r);
    hide NextValue, ShortDerivative;
  }

  /** Values and derivatives of all orders up to `order`. */
  method LegendreAt(x: real, order: nat, p: array<real>, dp: array<real>)
    requires p.Length > order && dp.Length > order && p != dp
    modifies p, dp
    ensures forall i: nat | i <= order :: p[i] == P(i, x) && dp[i] == Derivative(i, x)
  {
    p[0] := 1.0;
    dp[0] := 0.0;
    if order >= 1 {
      p[1] := x;
      dp[1] := 1.0;
    }
    var i: nat := 2;
    while i <= order
      invariant forall k: nat | k < i && k <= order :: p[k] == P(k, x) && dp[k] == Derivative(k, x)
    {
      hide *;
      var r := i as real;
      LoopStep(i, x, r);
      p[i] := NextValue(r, x, p[i - 1], p[i - 2]);
      dp[i] := ShortDerivative(r, p[i - 1], dp[i - 2]);
      i := i + 1;
    }
  }
}
