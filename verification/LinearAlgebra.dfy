/** Finite sums of products over vectors and matrices of reals. */
module LinearAlgebra {
  import opened Numbers

  type Vector = seq<real>
  type Matrix = seq<seq<real>>

  /** The first n products. */
  function Dot(u: Vector, v: Vector, n: nat): real
    requires n <= |u| && n <= |v|
  {
    if n == 0 then 0.0 else Dot(u, v, n - 1) + u[n - 1] * v[n - 1]
  }

  ghost predicate IsSquare(h: Matrix, n: nat) {
    |h| == n && forall i: nat | i < n :: |h[i]| == n
  }

  function Column(h: Matrix, n: nat, j: nat): (c: Vector)
    requires n <= |h| && forall i: nat | i < n :: j < |h[i]|
    ensures |c| == n && forall i: nat | i < n :: c[i] == h[i][j]
  {
    seq(n, i requires 0 <= i < n => h[i][j])
  }

  /** h v. */
  function Times(h: Matrix, v: Vector): (r: Vector)
    requires IsSquare(h, |v|)
    ensures |r| == |v| && forall i: nat | i < |v| :: r[i] == Dot(h[i], v, |v|)
  {
    seq(|v|, i requires 0 <= i < |v| => Dot(h[i], v, |v|))
  }

  /** u h, the first n rows of it. */
  function LeftTimes(u: Vector, h: Matrix, n: nat): (r: Vector)
    requires IsSquare(h, |u|) && n <= |u|
    ensures |r| == |u| && forall j: nat | j < |u| :: r[j] == Dot(u, Column(h, |u|, j), n)
  {
    seq(|u|, j requires 0 <= j < |u| => Dot(u, Column(h, |u|, j), n))
  }

  function Delta(i: nat, j: nat): real {
    if i == j then 1.0 else 0.0
  }

  lemma {:induction false} DotSymmetric(u: Vector, v: Vector, n: nat)
    requires n <= |u| && n <= |v|
    ensures Dot(u, v, n) == Dot(v, u, n)
  {
    if n > 0 { DotSymmetric(u, v, n - 1); }
  }

  lemma {:induction false} DotSum(row: Vector, x: Vector, d: Vector, z: Vector, n: nat)
    requires n <= |row| && n <= |x| && n <= |d| && n <= |z| && forall i: nat | i < n :: z[i] == x[i] + d[i]
    ensures Dot(row, z, n) == Dot(row, x, n) + Dot(row, d, n)
  {
    if n > 0 { DotSum(row, x, d, z, n - 1); }
  }

  /** The first n entries of c are those of a + s b. */
  ghost predicate Combines(c: Vector, a: Vector, s: real, b: Vector, n: nat) {
    n <= |a| && n <= |b| && n <= |c| && forall i: nat | i < n :: c[i] == a[i] + s * b[i]
  }

  /** The sum is linear in its first vector. */
  lemma {:induction false} DotLinear(c: Vector, a: Vector, s: real, b: Vector, v: Vector, n: nat)
    requires Combines(c, a, s, b, n) && n <= |v|
    ensures Dot(c, v, n) == Dot(a, v, n) + Mul(s, Dot(b, v, n))
  {
    if n > 0 {
      DotLinear(c, a, s, b, v, n - 1);
      LinearStep(a[n - 1], b[n - 1], s, v[n - 1], Dot(b, v, n - 1));
    }
  }

  lemma LinearStep(a: real, b: real, s: real, v: real, d: real)
    ensures (a + s * b) * v + s * d == a * v + s * (d + b * v)
  {
    assert s * (d + b * v) == s * d + s * (b * v);
    assert (a + s * b) * v == a * v + (s * b) * v;
    assert (s * b) * v == s * (b * v);
  }

  lemma {:induction false} DotZero(u: Vector, v: Vector, n: nat)
    requires n <= |u| && n <= |v|
    requires forall i: nat | i < n :: u[i] == 0.0
    ensures Dot(u, v, n) == 0.0
  {
    if n > 0 { DotZero(u, v, n - 1); }
  }

  lemma DotStep(u: Vector, v: Vector, n: nat)
    requires 0 < n <= |u| && n <= |v|
    ensures Dot(u, v, n) == Dot(u, v, n - 1) + Mul(u[n - 1], v[n - 1])
  {
  }

  /** A unit vector picks one entry. */
  lemma {:induction false} DotUnit(e: Vector, v: Vector, n: nat, k: nat)
    requires n <= |e| && n <= |v|
    requires forall i: nat | i < n :: e[i] == Delta(i, k)
    ensures Dot(e, v, n) == if k < n then v[k] else 0.0
  {
    if n > 0 { DotUnit(e, v, n - 1, k); }
  }

  lemma LeftTimesStep(u: Vector, h: Matrix, v: Vector, n: nat)
    requires |u| == |v| && IsSquare(h, |v|) && 0 < n <= |u|
    ensures Dot(LeftTimes(u, h, n), v, |v|) == Dot(LeftTimes(u, h, n - 1), v, |v|) + Mul(u[n - 1], Dot(h[n - 1], v, |v|))
  {
    var now, before := LeftTimes(u, h, n), LeftTimes(u, h, n - 1);
    forall j: nat | j < |v| ensures now[j] == before[j] + u[n - 1] * h[n - 1][j] {
      assert Column(h, |v|, j)[n - 1] == h[n - 1][j];
    }
    assert Combines(now, before, u[n - 1], h[n - 1], |v|);
    hide *;
    DotLinear(now, before, u[n - 1], h[n - 1], v, |v|);
  }

  lemma {:induction false} DotUpdate(u: Vector, v: Vector, i: nat, x: real, n: nat)
    requires n <= |u| && n <= |v| && i < |v| && i < |u| && v[i] == 0.0
    ensures Dot(u, v[i := x], n) == Dot(u, v, n) + if i < n then u[i] * x else 0.0
  {
    if n > 0 { DotUpdate(u, v, i, x, n - 1); }
  }

  /** u (h v) = (u h) v: the two sums can be taken in either order. */
  lemma {:induction false} Exchange(u: Vector, h: Matrix, v: Vector, n: nat)
    requires |u| == |v| && IsSquare(h, |v|) && n <= |u|
    ensures Dot(u, Times(h, v), n) == Dot(LeftTimes(u, h, n), v, |v|)
  {
    if n == 0 {
      DotZero(LeftTimes(u, h, 0), v, |v|);
    } else {
      hide LeftTimes;
      Exchange(u, h, v, n - 1);
      LeftTimesStep(u, h, v, n);
    }
  }

  ghost predicate Symmetric(h: Matrix, n: nat)
    requires IsSquare(h, n)
  {
    forall i: nat, j: nat | i < n && j < n :: h[i][j] == h[j][i]
  }

  /** r h is the identity. */
  ghost predicate LeftInverse(r: Matrix, h: Matrix, n: nat)
    requires IsSquare(r, n) && IsSquare(h, n)
  {
    forall i: nat, j: nat | i < n && j < n :: Dot(r[i], Column(h, n, j), n) == Delta(i, j)
  }

  lemma RowsAreColumns(h: Matrix, n: nat, j: nat)
    requires IsSquare(h, n) && Symmetric(h, n) && j < n
    ensures Column(h, n, j) == h[j]
  {
    assert forall i: nat | i < n :: h[i][j] == h[j][i];
  }

  /** The left inverse of a symmetric matrix is symmetric. */
  lemma InverseSymmetric(r: Matrix, h: Matrix, n: nat)
    requires IsSquare(r, n) && IsSquare(h, n) && Symmetric(h, n) && LeftInverse(r, h, n)
    ensures Symmetric(r, n)
  {
    forall i: nat, j: nat | i < n && j < n ensures r[i][j] == r[j][i] {
      // r[i] (h r[j]) = (r[i] h) r[j]; h r[j] and r[i] h are unit vectors.
      Exchange(r[i], h, r[j], n);
      var right, left := Times(h, r[j]), LeftTimes(r[i], h, n);
      forall k: nat | k < n ensures right[k] == Delta(k, j) && left[k] == Delta(k, i) {
        RowsAreColumns(h, n, k);
        DotSymmetric(h[k], r[j], n);
      }
      DotSymmetric(r[i], right, n);
      DotUnit(right, r[i], n, j);
      DotUnit(left, r[j], n, i);
    }
  }

  /** For symmetric h a left inverse is an inverse on both sides. */
  lemma InverseBothSides(r: Matrix, h: Matrix, n: nat)
    requires IsSquare(r, n) && IsSquare(h, n) && Symmetric(h, n) && LeftInverse(r, h, n)
    ensures Symmetric(r, n) && LeftInverse(h, r, n)
  {
    InverseSymmetric(r, h, n);
    forall i: nat, j: nat | i < n && j < n ensures Dot(h[i], Column(r, n, j), n) == Delta(i, j) {
      RowsAreColumns(r, n, j);
      RowsAreColumns(h, n, i);
      DotSymmetric(h[i], r[j], n);
      assert Dot(r[j], Column(h, n, i), n) == Delta(j, i);
    }
  }

  /** Applying the inverse and then the matrix returns the vector. */
  lemma InverseSolves(r: Matrix, h: Matrix, g: Vector, i: nat)
    requires IsSquare(r, |g|) && IsSquare(h, |g|) && LeftInverse(h, r, |g|) && i < |g|
    ensures Times(h, Times(r, g))[i] == g[i]
  {
    var n := |g|;
    Exchange(h[i], r, g, n);
    var left := LeftTimes(h[i], r, n);
    forall k: nat | k < n ensures left[k] == Delta(k, i) {
      assert Dot(h[i], Column(r, n, k), n) == Delta(i, k);
    }
    DotUnit(left, g, n, i);
  }
}
