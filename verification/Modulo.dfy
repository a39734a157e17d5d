/** Remainders by a symbolic modulus. */
module Modulo {

  lemma Quotient(a: int, n: nat) returns (q: int)
    requires n > 0
    ensures a == q * n + a % n
  {
    q := a / n;
  }

  lemma MulAtLeast(d: int, n: nat)
    requires d >= 1
    ensures d * n >= n
  {
  }

  lemma ModUnique(a: int, q: int, n: nat, r: nat)
    requires r < n && a == q * n + r
    ensures a % n == r
  {
    var q' := Quotient(a, n);
    SubMul(q, q', n);
    if q - q' >= 1 { MulAtLeast(q - q', n); }
    if q' - q >= 1 { MulAtLeast(q' - q, n); SubMul(q', q, n); }
  }

  lemma SubMul(a: int, b: int, n: int)
    ensures (a - b) * n == a * n - b * n
    ensures (a + b) * n == a * n + b * n
  {
  }

  lemma ModSmall(a: nat, n: nat)
    requires a < n
    ensures a % n == a
  {
    ModUnique(a, 0, n, a);
  }

  lemma ModMultiple(a: int, q: int, n: nat)
    requires n > 0
    ensures (a + q * n) % n == a % n
  {
    var q0 := Quotient(a, n);
    SubMul(q0, q, n);
    ModUnique(a + q * n, q0 + q, n, a % n);
  }

  lemma ModDifference(a: int, b: int, n: nat)
    requires n > 0
    ensures (a % n == b % n) <==> ((a - b) % n == 0)
  {
    var qa := Quotient(a, n);
    var qb := Quotient(b, n);
    if a % n == b % n {
      SubMul(qa, qb, n);
      ModUnique(a - b, qa - qb, n, 0);
    }
    if (a - b) % n == 0 {
      var q := Quotient(a - b, n);
      SubMul(q, qb, n);
      ModUnique(a, q + qb, n, b % n);
    }
  }

  /** Adding a constant on both sides of a congruence. */
  lemma ModShift(a: int, b: int, c: int, n: nat)
    requires n > 0
    ensures (a % n == b % n) <==> ((a + c) % n == (b + c) % n)
    ensures a % n == b % n ==> (a + c) % n == (b + c) % n
  {
    ModDifference(a, b, n);
    ModDifference(a + c, b + c, n);
    assert a + c - (b + c) == a - b;
  }

  lemma DivUnique(a: int, q: int, n: nat, r: nat)
    requires r < n && a == q * n + r
    ensures a / n == q
  {
    ModUnique(a, q, n, r);
    var q' := a / n;
    assert a == q' * n + a % n;
    SubMul(q, q', n);
    if q - q' >= 1 { MulAtLeast(q - q', n); }
    if q' - q >= 1 { MulAtLeast(q' - q, n); SubMul(q', q, n); }
  }

  lemma DivShift(a: int, n: nat)
    requires n > 0
    ensures (a + n) / n == a / n + 1
  {
    var q := a / n;
    assert a == q * n + a % n;
    SubMul(q, 1, n);
    DivUnique(a + n, q + 1, n, a % n);
  }

  /** Dividing twice is dividing by the product. */
  lemma DivTwice(v: nat, m: nat, n: nat)
    requires m > 0 && n > 0
    ensures m * n > 0 && v / m / n == v / (m * n)
  {
    var q := v / m / n;
    var r, s := v / m % n, v % m;
    assert v / m == q * n + r && v == (v / m) * m + s;
    SubMul(q * n, r, m);
    assert (q * n) * m == q * (m * n);
    assert r * m + m <= m * n by { MulAtMost(r + 1, n, m); SubMul(r, 1, m); }
    DivUnique(v, q, m * n, r * m + s);
  }

  lemma MulAtMost(a: nat, b: nat, m: nat)
    requires a <= b
    ensures a * m <= b * m
  {
  }
}
