/** Weighted ridge least squares by Gauss-Jordan elimination with pivoting, over exact reals. */
module RidgeSolve {
  import opened Elimination
  import opened Numbers
  import opened LinearAlgebra

  const MAX_PARAMETERS := 8
  const SMALLEST_PIVOT: real := 1e-300

  /** One row of `a`, one value and one weight for each observation. */
  predicate Shapes(a: Matrix, y: Vector, w: Vector, prior: Vector, np: nat) {
    |y| == |w| == |a| && |prior| == np && forall r: nat | r < |a| :: |a[r]| == np
  }

  // The normal equations.

  function NormalEntry(a: Matrix, w: Vector, prior: Vector, i: nat, j: nat, n: nat): real
    requires n <= |a| && n <= |w| && i < |prior| && forall r: nat | r < n :: i < |a[r]| && j < |a[r]|
  {
    if n == 0 then (if i == j then prior[i] else 0.0)
    else NormalEntry(a, w, prior, i, j, n - 1) + w[n - 1] * a[n - 1][i] * a[n - 1][j]
  }

  function RhsEntry(a: Matrix, y: Vector, w: Vector, i: nat, n: nat): real
    requires n <= |a| && n <= |w| && n <= |y| && forall r: nat | r < n :: i < |a[r]|
  {
    if n == 0 then 0.0 else RhsEntry(a, y, w, i, n - 1) + w[n - 1] * a[n - 1][i] * y[n - 1]
  }

  /** diag(prior) + A' W A over the first n observations. */
  ghost function NormalMatrix(a: Matrix, y: Vector, w: Vector, prior: Vector, np: nat, n: nat): (h: Matrix)
    requires Shapes(a, y, w, prior, np) && n <= |a|
    ensures IsSquare(h, np) && forall i: nat, j: nat | i < np && j < np :: h[i][j] == NormalEntry(a, w, prior, i, j, n)
  {
    seq(np, i requires 0 <= i < np => seq(np, j requires 0 <= j < np => NormalEntry(a, w, prior, i, j, n)))
  }

  /** A' W y over the first n observations. */
  ghost function Rhs(a: Matrix, y: Vector, w: Vector, prior: Vector, np: nat, n: nat): (g: Vector)
    requires Shapes(a, y, w, prior, np) && n <= |a|
    ensures |g| == np && forall i: nat | i < np :: g[i] == RhsEntry(a, y, w, i, n)
  {
    seq(np, i requires 0 <= i < np => RhsEntry(a, y, w, i, n))
  }

  lemma {:induction false} NormalSymmetric(a: Matrix, w: Vector, prior: Vector, i: nat, j: nat, n: nat)
    requires n <= |a| && n <= |w| && i < |prior| && j < |prior| && forall r: nat | r < n :: i < |a[r]| && j < |a[r]|
    ensures NormalEntry(a, w, prior, i, j, n) == NormalEntry(a, w, prior, j, i, n)
  {
    if n > 0 {
      NormalSymmetric(a, w, prior, i, j, n - 1);
      MulCommute(w[n - 1], a[n - 1][i], a[n - 1][j]);
    }
  }

  lemma MulCommute(w: real, x: real, y: real)
    ensures w * x * y == w * y * x
  {
  }

  method DiagonalMatrix(prior: Vector, np: nat) returns (h: array2<real>)
    requires |prior| == np
    ensures fresh(h) && h.Length0 == h.Length1 == np
    ensures forall i: nat, j: nat | i < np && j < np :: h[i, j] == if i == j then prior[i] else 0.0
  {
    h := new real[np, np]((i, j) => 0.0);
    for i := 0 to np
      invariant forall k: nat, j: nat | k < np && j < np :: h[k, j] == if k == j && k < i then prior[k] else 0.0
    {
      h[i, i] := prior[i];
    }
  }

  /** Add observation r to the normal equations. */
  method AddObservation(a: Matrix, y: Vector, w: Vector, prior: Vector, np: nat, r: nat, h: array2<real>, g: array<real>)
    requires Shapes(a, y, w, prior, np) && r < |a| && h.Length0 == h.Length1 == g.Length == np
    requires forall i: nat, j: nat | i < np && j < np :: h[i, j] == NormalEntry(a, w, prior, i, j, r)
    requires forall i: nat | i < np :: g[i] == RhsEntry(a, y, w, i, r)
    modifies h, g
    ensures forall i: nat, j: nat | i < np && j < np :: h[i, j] == NormalEntry(a, w, prior, i, j, r + 1)
    ensures forall i: nat | i < np :: g[i] == RhsEntry(a, y, w, i, r + 1)
  {
    for i := 0 to np
      invariant forall k: nat, j: nat | k < np && j < np :: h[k, j] == NormalEntry(a, w, prior, k, j, if k < i then r + 1 else r)
      invariant forall k: nat | k < np :: g[k] == RhsEntry(a, y, w, k, if k < i then r + 1 else r)
    {
      g[i] := g[i] + w[r] * a[r][i] * y[r];
      for j := 0 to np
        invariant g[i] == RhsEntry(a, y, w, i, r + 1)
        invariant forall k: nat | k < np && k != i :: g[k] == RhsEntry(a, y, w, k, if k < i then r + 1 else r)
        invariant forall k: nat, l: nat | k < np && l < np ::
          h[k, l] == NormalEntry(a, w, prior, k, l, if k < i || (k == i && l < j) then r + 1 else r)
      {
        h[i, j] := h[i, j] + w[r] * a[r][i] * a[r][j];
      }
    }
  }

  method BuildNormal(a: Matrix, y: Vector, w: Vector, prior: Vector, np: nat) returns (h: array2<real>, g: array<real>)
    requires Shapes(a, y, w, prior, np)
    ensures fresh(h) && fresh(g) && h.Length0 == h.Length1 == g.Length == np
    ensures forall i: nat, j: nat | i < np && j < np :: h[i, j] == NormalEntry(a, w, prior, i, j, |a|)
    ensures forall i: nat | i < np :: g[i] == RhsEntry(a, y, w, i, |a|)
  {
    h := DiagonalMatrix(prior, np);
    g := new real[np](i => 0.0);
    for r := 0 to |a|
      invariant forall i: nat, j: nat | i < np && j < np :: h[i, j] == NormalEntry(a, w, prior, i, j, r)
      invariant forall i: nat | i < np :: g[i] == RhsEntry(a, y, w, i, r)
    {
      AddObservation(a, y, w, prior, np, r, h, g);
    }
  }

  // Elimination on [H | I], held in the left and right halves of one array.

  ghost function Lefts(m: array2<real>, np: nat): (l: Matrix)
    requires m.Length0 == np && m.Length1 == 2 * np
    reads m
    ensures IsSquare(l, np) && forall k: nat, j: nat | k < np && j < np :: l[k][j] == m[k, j]
  {
    seq(np, k requires 0 <= k < np reads m => seq(np, j requires 0 <= j < np reads m => m[k, j]))
  }

  ghost function Rights(m: array2<real>, np: nat): (r: Matrix)
    requires m.Length0 == np && m.Length1 == 2 * np
    reads m
    ensures IsSquare(r, np) && forall k: nat, j: nat | k < np && j < np :: r[k][j] == m[k, np + j]
  {
    seq(np, k requires 0 <= k < np reads m => seq(np, j requires 0 <= j < np reads m => m[k, np + j]))
  }

  ghost predicate Working(m: array2<real>, np: nat, h: Matrix, cols: nat, open: nat, orig: seq<nat>)
    reads m
  {
    m.Length0 == np && m.Length1 == 2 * np && InProgress(Lefts(m, np), Rights(m, np), h, np, cols, open, orig)
  }

  method Augment(hm: array2<real>, np: nat, ghost h: Matrix) returns (m: array2<real>, ghost orig: seq<nat>)
    requires np == hm.Length0 == hm.Length1 && IsSquare(h, np)
    requires forall i: nat, j: nat | i < np && j < np :: hm[i, j] == h[i][j]
    ensures fresh(m) && Working(m, np, h, 0, 0, orig)
  {
    m := new real[np, 2 * np]((i, j) => 0.0);
    for i := 0 to np
      invariant forall r: nat, j: nat | r < i && j < np :: m[r, j] == hm[r, j] && m[r, np + j] == Delta(j, r)
      invariant forall r: nat, j: nat | i <= r < np && j < 2 * np :: m[r, j] == 0.0
    {
      for j := 0 to np
        invariant forall r: nat, k: nat | r < i && k < np :: m[r, k] == hm[r, k] && m[r, np + k] == Delta(k, r)
        invariant forall r: nat, k: nat | i < r < np && k < 2 * np :: m[r, k] == 0.0
        invariant forall k: nat | k < j :: m[i, k] == hm[i, k]
        invariant forall k: nat | j <= k < 2 * np :: m[i, k] == 0.0
      {
        m[i, j] := hm[i, j];
      }
      m[i, np + i] := 1.0;
    }
    orig := seq(np, i => i);
    Started(Lefts(m, np), Rights(m, np), h, np, orig);
  }

  lemma Started(l: Matrix, r: Matrix, h: Matrix, np: nat, orig: seq<nat>)
    requires IsSquare(l, np) && IsSquare(r, np) && IsSquare(h, np) && orig == seq(np, i => i)
    requires forall i: nat, j: nat | i < np && j < np :: l[i][j] == h[i][j] && r[i][j] == Delta(j, i)
    ensures InProgress(l, r, h, np, 0, 0, orig)
  {
    forall i: nat | i < np ensures l[i] == h[i] {
    }
    assert l == h;
    StartEquivalent(r, h, np);
  }

  method FindPivot(m: array2<real>, np: nat, col: nat) returns (piv: nat)
    requires col < np <= m.Length0 && np <= m.Length1
    ensures col <= piv < np && forall r: nat | col <= r < np :: Abs(m[r, col]) <= Abs(m[piv, col])
  {
    piv := col;
    for r := col + 1 to np
      invariant col <= piv < r && forall k: nat | col <= k < r :: Abs(m[k, col]) <= Abs(m[piv, col])
    {
      if Abs(m[r, col]) > Abs(m[piv, col]) {
        piv := r;
      }
    }
  }

  method SwapRows(m: array2<real>, p: nat, c: nat, width: nat)
    requires p < m.Length0 && c < m.Length0 && width == m.Length1
    modifies m
    ensures forall r: nat, j: nat | r < m.Length0 && j < width :: m[r, j] == old(m[Exchanged(p, c, r), j])
  {
    for j := 0 to width
      invariant forall r: nat, k: nat | r < m.Length0 && k < width ::
        m[r, k] == if k < j then old(m[Exchanged(p, c, r), k]) else old(m[r, k])
    {
      m[p, j], m[c, j] := m[c, j], m[p, j];
    }
  }

  method ScaleRow(m: array2<real>, r: nat, s: real, width: nat)
    requires r < m.Length0 && width == m.Length1
    modifies m
    ensures forall k: nat, j: nat | k < m.Length0 && j < width :: m[k, j] == if k == r then Mul(old(m[r, j]), s) else old(m[k, j])
  {
    for j := 0 to width
      invariant forall k: nat, l: nat | k < m.Length0 && l < width ::
        m[k, l] == if k == r && l < j then Mul(old(m[r, l]), s) else old(m[k, l])
    {
      m[r, j] := m[r, j] * s;
    }
  }

  method SubtractRow(m: array2<real>, r: nat, f: real, c: nat, width: nat)
    requires r < m.Length0 && c < m.Length0 && r != c && width == m.Length1
    modifies m
    ensures forall k: nat, j: nat | k < m.Length0 && j < width ::
      m[k, j] == if k == r then old(m[r, j]) - Mul(f, old(m[c, j])) else old(m[k, j])
  {
    for j := 0 to width
      invariant forall k: nat, l: nat | k < m.Length0 && l < width ::
        m[k, l] == if k == r && l < j then old(m[r, l]) - Mul(f, old(m[c, l])) else old(m[k, l])
    {
      m[r, j] := m[r, j] - f * m[c, j];
    }
  }

  /** Bring the pivot row up. */
  method BringUp(m: array2<real>, np: nat, piv: nat, col: nat, ghost h: Matrix, ghost orig: seq<nat>)
    requires Working(m, np, h, col, col, orig) && col <= piv < np
    modifies m
    ensures Working(m, np, h, col, col, SwappedOrder(orig, piv, col)) && m[col, col] == old(m[piv, col])
  {
    hide Equivalent, Reduced, Tracked;
    ghost var l, r := Lefts(m, np), Rights(m, np);
    SwapRows(m, piv, col, 2 * np);
    SwapKeeps(Lefts(m, np), Rights(m, np), l, r, h, np, piv, col, orig);
  }

  lemma Reciprocal(p: real, q: real)
    requires p != 0.0 && q == 1.0 / p
    ensures Mul(p, q) == 1.0 && Mul(q, p) == 1.0
  {
  }

  /** Scale the pivot row to a unit pivot. */
  method Normalise(m: array2<real>, np: nat, col: nat, ghost h: Matrix, ghost orig: seq<nat>)
    requires col < np && Working(m, np, h, col, col, orig) && m[col, col] != 0.0
    modifies m
    ensures Working(m, np, h, col, col + 1, orig) && m[col, col] == 1.0
  {
    ghost var l, r, p := Lefts(m, np), Rights(m, np), m[col, col];
    var inv := 1.0 / m[col, col];
    Reciprocal(p, inv);
    hide Mul, Equivalent, Reduced, Tracked;
    ScaleRow(m, col, inv, 2 * np);
    ScaleKeeps(Lefts(m, np), Rights(m, np), l, r, h, np, col, inv, p, orig);
  }

  /** Clear the pivot's column in row r. */
  method ClearRow(m: array2<real>, np: nat, col: nat, r: nat, ghost h: Matrix, ghost orig: seq<nat>)
    requires col < np && Working(m, np, h, col, col + 1, orig) && m[col, col] == 1.0 && r < np && r != col
    modifies m
    ensures Working(m, np, h, col, col + 1, orig)
    ensures forall k: nat | k < np :: m[k, col] == if k == r then 0.0 else old(m[k, col])
  {
    ghost var ls, rs := Lefts(m, np), Rights(m, np);
    var f := m[r, col];
    assert Mul(f, 1.0) == f;
    hide Mul, Equivalent, Reduced, Tracked;
    SubtractRow(m, r, f, col, 2 * np);
    SubtractKeeps(Lefts(m, np), Rights(m, np), ls, rs, h, np, r, f, col, orig);
  }

  lemma ColumnCleared(l: Matrix, r: Matrix, h: Matrix, np: nat, col: nat, orig: seq<nat>)
    requires col < np && InProgress(l, r, h, np, col, col + 1, orig) && forall k: nat | k < np :: l[k][col] == Delta(k, col)
    ensures InProgress(l, r, h, np, col + 1, col + 1, orig)
  {
    hide Equivalent, Tracked;
  }

  method Eliminate(m: array2<real>, np: nat, col: nat, ghost h: Matrix, ghost orig: seq<nat>)
    requires col < np && Working(m, np, h, col, col + 1, orig) && m[col, col] == 1.0
    modifies m
    ensures Working(m, np, h, col + 1, col + 1, orig)
  {
    hide Equivalent, Reduced, Tracked;
    for r := 0 to np
      invariant Working(m, np, h, col, col + 1, orig) && m[col, col] == 1.0
      invariant forall k: nat | k < r && k != col :: m[k, col] == 0.0
    {
      if r == col || m[r, col] == 0.0 {
        continue;
      }
      ClearRow(m, np, col, r, h, orig);
    }
    ColumnCleared(Lefts(m, np), Rights(m, np), h, np, col, orig);
  }

  ghost predicate Below(u: Vector, bound: real) {
    forall i: nat | i < |u| :: -bound < u[i] < bound
  }

  /** H sends some vector with a unit entry to one with every entry below the bound. */
  ghost predicate NearlySingular(h: Matrix, np: nat, bound: real)
    requires IsSquare(h, np)
  {
    exists v: Vector, k: nat :: |v| == np && k < np && v[k] == 1.0 && Below(Times(h, v), bound)
  }

  method GaussJordan(m: array2<real>, np: nat, ghost h: Matrix, ghost orig: seq<nat>) returns (ok: bool)
    requires Working(m, np, h, 0, 0, orig)
    modifies m
    ensures ok ==> LeftInverse(Rights(m, np), h, np)
    ensures !ok ==> NearlySingular(h, np, 1e-300)
  {
    ghost var track := orig;
    for col := 0 to np
      invariant Working(m, np, h, col, col, track)
    {
      var piv := FindPivot(m, np, col);
      if Abs(m[piv, col]) < SMALLEST_PIVOT {
        ghost var v := StuckMeansNearlySingular(Lefts(m, np), Rights(m, np), h, np, col, track, SMALLEST_PIVOT);
        return false;
      }
      if piv != col {
        BringUp(m, np, piv, col, h, track);
        track := SwappedOrder(track, piv, col);
      }
      Normalise(m, np, col, h, track);
      Eliminate(m, np, col, h, track);
    }
    ReducedIsInverse(Lefts(m, np), Rights(m, np), h, np);
    return true;
  }

  method ReadOut(m: array2<real>, np: nat, g: array<real>) returns (x: Vector, cov: Matrix)
    requires m.Length0 == np && m.Length1 == 2 * np && g.Length == np
    ensures |x| == np && IsSquare(cov, np)
    ensures forall i: nat | i < np :: cov[i] == Rights(m, np)[i] && x[i] == Dot(cov[i], g[..], np)
  {
    x, cov := [], [];
    for i := 0 to np
      invariant |x| == |cov| == i
      invariant forall k: nat | k < i :: |cov[k]| == np && cov[k] == Rights(m, np)[k] && x[k] == Dot(cov[k], g[..], np)
    {
      var xi, row: Vector := 0.0, [];
      for j := 0 to np
        invariant |row| == j && forall k: nat | k < j :: row[k] == m[i, np + k]
        invariant xi == Dot(Rights(m, np)[i], g[..], j)
      {
        row := row + [m[i, np + j]];
        xi := xi + m[i, np + j] * g[j];
      }
      assert row == Rights(m, np)[i];
      x, cov := x + [xi], cov + [row];
    }
  }

  /** Everything success promises: the covariance is symmetric and the inverse
      of the normal matrix on both sides, and x solves the normal equations. */
  ghost predicate Solves(a: Matrix, y: Vector, w: Vector, prior: Vector, np: nat, x: Vector, cov: Matrix)
    requires Shapes(a, y, w, prior, np)
  {
    var h, g := NormalMatrix(a, y, w, prior, np, |a|), Rhs(a, y, w, prior, np, |a|);
    && |x| == np && IsSquare(cov, np) && Symmetric(cov, np)
    && LeftInverse(cov, h, np) && LeftInverse(h, cov, np)
    && forall i: nat | i < np :: Times(h, x)[i] == g[i]
  }

  method Solve(a: Matrix, y: Vector, w: Vector, prior: Vector, np: int) returns (ok: bool, x: Vector, cov: Matrix)
    requires 1 <= np <= MAX_PARAMETERS ==> Shapes(a, y, w, prior, np)
    ensures !(1 <= np <= 8) ==> !ok
    ensures ok ==> Solves(a, y, w, prior, np, x, cov)
    ensures 1 <= np <= 8 && Regularised(w, prior) ==> ok
    ensures 1 <= np <= 8 && (exists r: nat, most: real :: Anchors(a, w, prior, np, r, most)) ==> ok
  {
    if np < 1 || np > MAX_PARAMETERS {
      return false, [], [];
    }
    var hm, gm := BuildNormal(a, y, w, prior, np);
    ghost var h, g := NormalMatrix(a, y, w, prior, np, |a|), Rhs(a, y, w, prior, np, |a|);
    assert gm[..] == g;
    var m, orig := Augment(hm, np, h);
    ok := GaussJordan(m, np, h, orig);
    if !ok {
      if Regularised(w, prior) {
        RegularisedIsRegular(a, y, w, prior, np);
      }
      if r: nat, most: real :| Anchors(a, w, prior, np, r, most) {
        AnchoredIsRegular(a, y, w, prior, np, r, most);
      }
      return false, [], [];
    }
    x, cov := ReadOut(m, np, gm);
    assert cov == Rights(m, np);
    SolvedBothSides(a, y, w, prior, np, x, cov);
  }

  lemma SolvedBothSides(a: Matrix, y: Vector, w: Vector, prior: Vector, np: nat, x: Vector, cov: Matrix)
    requires Shapes(a, y, w, prior, np) && |x| == np && IsSquare(cov, np)
    requires LeftInverse(cov, NormalMatrix(a, y, w, prior, np, |a|), np)
    requires forall i: nat | i < np :: x[i] == Dot(cov[i], Rhs(a, y, w, prior, np, |a|), np)
    ensures Solves(a, y, w, prior, np, x, cov)
  {
    var h, g := NormalMatrix(a, y, w, prior, np, |a|), Rhs(a, y, w, prior, np, |a|);
    forall i: nat, j: nat | i < np && j < np ensures h[i][j] == h[j][i] {
      NormalSymmetric(a, w, prior, i, j, |a|);
    }
    InverseBothSides(cov, h, np);
    assert x == Times(cov, g);
    forall i: nat | i < np ensures Times(h, x)[i] == g[i] {
      InverseSolves(cov, h, g, i);
    }
  }

  // The minimiser.

  function PriorCost(x: Vector, prior: Vector, n: nat): real
    requires n <= |x| && n <= |prior|
  {
    if n == 0 then 0.0 else PriorCost(x, prior, n - 1) + WeightedSquare(prior[n - 1], x[n - 1])
  }

  function WeightedSquare(w: real, e: real): real {
    w * e * e
  }

  /** The weighted ridge cost of x against the first n observations. */
  function Cost(a: Matrix, y: Vector, w: Vector, prior: Vector, x: Vector, n: nat): real
    requires Shapes(a, y, w, prior, |x|) && n <= |a|
  {
    if n == 0 then PriorCost(x, prior, |x|)
    else
      var e := Dot(a[n - 1], x, |x|) - y[n - 1];
      Cost(a, y, w, prior, x, n - 1) + WeightedSquare(w[n - 1], e)
  }

  /** The cost of a displacement when nothing was observed but zeros. */
  function Curvature(a: Matrix, w: Vector, prior: Vector, d: Vector, n: nat): real
    requires Shapes(a, w, w, prior, |d|) && n <= |a|
  {
    if n == 0 then PriorCost(d, prior, |d|)
    else
      var e := Dot(a[n - 1], d, |d|);
      Curvature(a, w, prior, d, n - 1) + WeightedSquare(w[n - 1], e)
  }

  /** Half the gradient of the cost at x. */
  function Gradient(a: Matrix, y: Vector, w: Vector, prior: Vector, x: Vector, n: nat): (g: Vector)
    requires Shapes(a, y, w, prior, |x|) && n <= |a|
    ensures |g| == |x|
  {
    if n == 0 then seq(|x|, i requires 0 <= i < |x| => prior[i] * x[i])
    else
      var e := Dot(a[n - 1], x, |x|) - y[n - 1];
      var before := Gradient(a, y, w, prior, x, n - 1);
      seq(|x|, i requires 0 <= i < |x| => before[i] + Mul(w[n - 1], e) * a[n - 1][i])
  }

  lemma NormalRowStep(a: Matrix, y: Vector, w: Vector, prior: Vector, x: Vector, n: nat, i: nat, s: real)
    requires Shapes(a, y, w, prior, |x|) && 0 < n <= |a| && i < |x| && s == Mul(w[n - 1], a[n - 1][i])
    ensures Dot(NormalMatrix(a, y, w, prior, |x|, n)[i], x, |x|)
         == Dot(NormalMatrix(a, y, w, prior, |x|, n - 1)[i], x, |x|) + Mul(s, Dot(a[n - 1], x, |x|))
  {
    var row, before := NormalMatrix(a, y, w, prior, |x|, n)[i], NormalMatrix(a, y, w, prior, |x|, n - 1)[i];
    assert Combines(row, before, s, a[n - 1], |x|);
    hide *;
    DotLinear(row, before, s, a[n - 1], x, |x|);
  }

  lemma EntriesStep(a: Matrix, y: Vector, w: Vector, prior: Vector, x: Vector, n: nat, i: nat)
    requires Shapes(a, y, w, prior, |x|) && 0 < n <= |a| && i < |x|
    ensures Gradient(a, y, w, prior, x, n)[i]
         == Gradient(a, y, w, prior, x, n - 1)[i] + Mul(Mul(w[n - 1], Dot(a[n - 1], x, |x|) - y[n - 1]), a[n - 1][i])
    ensures Rhs(a, y, w, prior, |x|, n)[i]
         == Rhs(a, y, w, prior, |x|, n - 1)[i] + Mul(Mul(w[n - 1], a[n - 1][i]), y[n - 1])
  {
    hide Dot;
  }

  lemma {:induction false} GradientIsResidual(a: Matrix, y: Vector, w: Vector, prior: Vector, x: Vector, n: nat, i: nat)
    requires Shapes(a, y, w, prior, |x|) && n <= |a| && i < |x|
    ensures Gradient(a, y, w, prior, x, n)[i]
         == Dot(NormalMatrix(a, y, w, prior, |x|, n)[i], x, |x|) - Rhs(a, y, w, prior, |x|, n)[i]
  {
    hide Dot, NormalMatrix, Rhs;
    if n == 0 {
      DiagonalDot(NormalMatrix(a, y, w, prior, |x|, n)[i], prior[i], x, |x|, i);
    } else {
      GradientIsResidual(a, y, w, prior, x, n - 1, i);
      EntriesStep(a, y, w, prior, x, n, i);
      hide *;
      NormalRowStep(a, y, w, prior, x, n, i, Mul(w[n - 1], a[n - 1][i]));
      ResidualStep(w[n - 1], a[n - 1][i], Dot(a[n - 1], x, |x|), y[n - 1]);
    }
  }

  lemma ResidualStep(w: real, ai: real, p: real, y: real)
    ensures Mul(Mul(w, ai), p) - Mul(Mul(w, ai), y) == Mul(Mul(w, p - y), ai)
  {
    assert (w * ai) * p - (w * ai) * y == (w * ai) * (p - y);
    assert (w * ai) * (p - y) == w * (ai * (p - y)) == (w * (p - y)) * ai;
  }

  lemma {:induction false} DiagonalDot(row: Vector, p: real, x: Vector, n: nat, i: nat)
    requires n <= |row| && n <= |x| && i < |x| && forall j: nat | j < n :: row[j] == if i == j then p else 0.0
    ensures Dot(row, x, n) == if i < n then p * x[i] else 0.0
  {
    if n > 0 { DiagonalDot(row, p, x, n - 1, i); }
  }

  lemma GradientStep(a: Matrix, y: Vector, w: Vector, prior: Vector, x: Vector, d: Vector, n: nat, e: real)
    requires Shapes(a, y, w, prior, |x|) && |x| == |d| && 0 < n <= |a| && e == Dot(a[n - 1], x, |x|) - y[n - 1]
    ensures Dot(Gradient(a, y, w, prior, x, n), d, |x|)
         == Dot(Gradient(a, y, w, prior, x, n - 1), d, |x|) + Mul(Mul(w[n - 1], e), Dot(a[n - 1], d, |x|))
  {
    var now, before := Gradient(a, y, w, prior, x, n), Gradient(a, y, w, prior, x, n - 1);
    assert Combines(now, before, Mul(w[n - 1], e), a[n - 1], |x|);
    hide *;
    DotLinear(now, before, Mul(w[n - 1], e), a[n - 1], d, |x|);
  }

  lemma CostStep(a: Matrix, y: Vector, w: Vector, prior: Vector, x: Vector, n: nat, e: real)
    requires Shapes(a, y, w, prior, |x|) && 0 < n <= |a| && e == Dot(a[n - 1], x, |x|) - y[n - 1]
    ensures Cost(a, y, w, prior, x, n) == Cost(a, y, w, prior, x, n - 1) + WeightedSquare(w[n - 1], e)
  {
  }

  lemma CurvatureStep(a: Matrix, w: Vector, prior: Vector, d: Vector, n: nat, p: real)
    requires Shapes(a, w, w, prior, |d|) && 0 < n <= |a| && p == Dot(a[n - 1], d, |d|)
    ensures Curvature(a, w, prior, d, n) == Curvature(a, w, prior, d, n - 1) + WeightedSquare(w[n - 1], p)
  {
  }

  /** Moving from x by d changes the cost by the gradient term and the curvature. */
  lemma {:induction false} CostExpands(a: Matrix, y: Vector, w: Vector, prior: Vector, x: Vector, d: Vector, z: Vector, n: nat)
    requires Shapes(a, y, w, prior, |x|) && |x| == |d| == |z| && n <= |a|
    requires forall i: nat | i < |x| :: z[i] == x[i] + d[i]
    ensures Cost(a, y, w, prior, z, n)
         == Cost(a, y, w, prior, x, n) + 2.0 * Dot(Gradient(a, y, w, prior, x, n), d, |x|) + Curvature(a, w, prior, d, n)
  {
    var np := |x|;
    if n == 0 {
      PriorExpands(prior, x, d, z, Gradient(a, y, w, prior, x, 0), np);
    } else {
      hide *;
      var row, e := a[n - 1], Dot(a[n - 1], x, np) - y[n - 1];
      var p, f := Dot(row, d, np), Dot(row, z, np) - y[n - 1];
      CostExpands(a, y, w, prior, x, d, z, n - 1);
      DotSum(row, x, d, z, np);
      GradientStep(a, y, w, prior, x, d, n, e);
      CostStep(a, y, w, prior, x, n, e);
      CostStep(a, y, w, prior, z, n, f);
      CurvatureStep(a, w, prior, d, n, p);
      SquareExpands(w[n - 1], e, p, f);
    }
  }

  lemma SquareExpands(w: real, e: real, p: real, f: real)
    requires f == e + p
    ensures WeightedSquare(w, f) == WeightedSquare(w, e) + 2.0 * Mul(Mul(w, e), p) + WeightedSquare(w, p)
  {
    assert w * (e + p) * (e + p) == (w * e + w * p) * (e + p);
    assert (w * e + w * p) * (e + p) == (w * e) * e + (w * e) * p + ((w * p) * e + (w * p) * p);
    assert (w * p) * e == (w * e) * p;
  }

  lemma {:induction false} PriorExpands(prior: Vector, x: Vector, d: Vector, z: Vector, g: Vector, n: nat)
    requires n <= |prior| && n <= |x| && n <= |d| && n <= |z| && n <= |g|
    requires forall i: nat | i < n :: z[i] == x[i] + d[i] && g[i] == prior[i] * x[i]
    ensures PriorCost(z, prior, n) == PriorCost(x, prior, n) + 2.0 * Dot(g, d, n) + PriorCost(d, prior, n)
  {
    if n > 0 {
      PriorExpands(prior, x, d, z, g, n - 1);
      SquareExpands(prior[n - 1], x[n - 1], d[n - 1], z[n - 1]);
    }
  }

  lemma SquareNonnegative(w: real, e: real)
    requires w >= 0.0
    ensures WeightedSquare(w, e) >= 0.0
  {
    assert e * e >= 0.0;
    assert w * e * e == w * (e * e);
  }

  lemma {:induction false} PriorNonnegative(d: Vector, prior: Vector, n: nat)
    requires n <= |d| && n <= |prior| && forall i: nat | i < n :: prior[i] >= 0.0
    ensures PriorCost(d, prior, n) >= 0.0
  {
    if n > 0 {
      PriorNonnegative(d, prior, n - 1);
      SquareNonnegative(prior[n - 1], d[n - 1]);
    }
  }

  lemma {:induction false} CurvatureNonnegative(a: Matrix, w: Vector, prior: Vector, d: Vector, n: nat)
    requires Shapes(a, w, w, prior, |d|) && n <= |a|
    requires forall i: nat | i < |w| :: w[i] >= 0.0
    requires forall i: nat | i < |prior| :: prior[i] >= 0.0
    ensures Curvature(a, w, prior, d, n) >= 0.0
  {
    if n == 0 {
      PriorNonnegative(d, prior, |d|);
    } else {
      CurvatureNonnegative(a, w, prior, d, n - 1);
      SquareNonnegative(w[n - 1], Dot(a[n - 1], d, |d|));
    }
  }

  /** Any other vector z costs more than the solution by exactly the curvature of
      z - x, which no nonnegative weights and priors can make negative. */
  lemma SolutionIsOptimal(a: Matrix, y: Vector, w: Vector, prior: Vector, np: nat, x: Vector, cov: Matrix, z: Vector)
    requires Shapes(a, y, w, prior, np) && Solves(a, y, w, prior, np, x, cov) && |z| == np
    ensures var d := seq(np, i requires 0 <= i < np => z[i] - x[i]);
            Cost(a, y, w, prior, z, |a|) == Cost(a, y, w, prior, x, |a|) + Curvature(a, w, prior, d, |a|)
    ensures (forall i: nat | i < |w| :: w[i] >= 0.0) && (forall i: nat | i < np :: prior[i] >= 0.0)
        ==> Cost(a, y, w, prior, x, |a|) <= Cost(a, y, w, prior, z, |a|)
  {
    var d := seq(np, i requires 0 <= i < np => z[i] - x[i]);
    var g := Gradient(a, y, w, prior, x, |a|);
    forall i: nat | i < np ensures g[i] == 0.0 {
      GradientIsResidual(a, y, w, prior, x, |a|, i);
    }
    CostExpands(a, y, w, prior, x, d, z, |a|);
    DotZero(g, d, np);
    if (forall i: nat | i < |w| :: w[i] >= 0.0) && forall i: nat | i < np :: prior[i] >= 0.0 {
      CurvatureNonnegative(a, w, prior, d, |a|);
    }
  }

  // Success is guaranteed for a regularised problem.

  /** Nonnegative weights, and priors above five times the smallest pivot. */
  predicate Regularised(w: Vector, prior: Vector) {
    && (forall i: nat | i < |w| :: w[i] >= 0.0)
    && (forall i: nat | i < |prior| :: prior[i] >= 5.0 * SMALLEST_PIVOT)
  }

  lemma {:induction false} PriorIsQuadratic(prior: Vector, d: Vector, g: Vector, n: nat)
    requires n <= |prior| && n <= |d| && n <= |g| && forall i: nat | i < n :: g[i] == prior[i] * d[i]
    ensures PriorCost(d, prior, n) == Dot(g, d, n)
  {
    if n > 0 { PriorIsQuadratic(prior, d, g, n - 1); }
  }

  /** The curvature is the quadratic form of the normal matrix. */
  lemma {:induction false} CurvatureIsQuadratic(a: Matrix, zero: Vector, w: Vector, prior: Vector, d: Vector, n: nat)
    requires Shapes(a, zero, w, prior, |d|) && n <= |a| && forall i: nat | i < |zero| :: zero[i] == 0.0
    ensures Curvature(a, w, prior, d, n) == Dot(Gradient(a, zero, w, prior, d, n), d, |d|)
  {
    if n == 0 {
      PriorIsQuadratic(prior, d, Gradient(a, zero, w, prior, d, 0), |d|);
    } else {
      CurvatureIsQuadratic(a, zero, w, prior, d, n - 1);
      var p := Dot(a[n - 1], d, |d|);
      MulRegroup(w[n - 1], p);
      GradientStep(a, zero, w, prior, d, d, n, p);
      CurvatureStep(a, w, prior, d, n, p);
    }
  }

  lemma MulRegroup(w: real, p: real)
    ensures WeightedSquare(w, p) == Mul(Mul(w, p), p)
  {
  }

  lemma {:induction false} RhsOfZero(a: Matrix, zero: Vector, w: Vector, i: nat, n: nat)
    requires n <= |a| && n <= |w| && n <= |zero| && forall r: nat | r < n :: i < |a[r]|
    requires forall i: nat | i < |zero| :: zero[i] == 0.0
    ensures RhsEntry(a, zero, w, i, n) == 0.0
  {
    if n > 0 { RhsOfZero(a, zero, w, i, n - 1); }
  }

  /** The curvature is at least the least prior times the squared length. */
  lemma {:induction false} PriorFloor(prior: Vector, d: Vector, floor: real, n: nat)
    requires n <= |prior| && n <= |d| && floor >= 0.0 && forall i: nat | i < n :: prior[i] >= floor
    ensures PriorCost(d, prior, n) >= Mul(floor, Dot(d, d, n))
  {
    if n > 0 {
      PriorFloor(prior, d, floor, n - 1);
      FloorStep(prior[n - 1], floor, d[n - 1], Dot(d, d, n - 1));
    }
  }

  lemma FloorStep(p: real, floor: real, x: real, sum: real)
    requires p >= floor
    ensures Mul(floor, sum) + WeightedSquare(p, x) >= Mul(floor, sum + x * x)
  {
    var q := x * x;
    assert q >= 0.0;
    assert (p - floor) * q >= 0.0;
    assert p * x * x == p * q;
  }

  lemma {:induction false} CurvatureFloor(a: Matrix, w: Vector, prior: Vector, d: Vector, n: nat)
    requires Shapes(a, w, w, prior, |d|) && n <= |a| && forall i: nat | i < |w| :: w[i] >= 0.0
    ensures Curvature(a, w, prior, d, n) >= PriorCost(d, prior, |d|)
  {
    if n > 0 {
      CurvatureFloor(a, w, prior, d, n - 1);
      SquareNonnegative(w[n - 1], Dot(a[n - 1], d, |d|));
    }
  }

  /** A vector below the bound in every entry has a small product with d. */
  lemma {:induction false} SmallProduct(s: Vector, d: Vector, bound: real, n: nat)
    requires n <= |s| && n <= |d| && bound > 0.0 && Below(s, bound)
    ensures 2.0 * Dot(s, d, n) <= Mul(bound, n as real + Dot(d, d, n))
  {
    if n == 0 {
      assert Mul(bound, 0.0) == 0.0;
    } else {
      SmallProduct(s, d, bound, n - 1);
      DotStep(s, d, n);
      DotStep(d, d, n);
      hide *;
      SmallTerm(s[n - 1], d[n - 1], bound, (n - 1) as real + Dot(d, d, n - 1));
    }
  }

  lemma SmallTerm(s: real, x: real, bound: real, sum: real)
    requires -bound < s < bound
    ensures 2.0 * Mul(s, x) + Mul(bound, sum) <= Mul(bound, sum + 1.0 + Mul(x, x))
  {
    assert (x - 1.0) * (x - 1.0) >= 0.0 && (x + 1.0) * (x + 1.0) >= 0.0;
    var q := 1.0 + x * x;
    assert 2.0 * x <= q && -2.0 * x <= q;
    if x >= 0.0 {
      assert (bound - s) * x >= 0.0;
      assert bound * (q - 2.0 * x) >= 0.0;
    } else {
      assert (bound + s) * (-x) >= 0.0;
      assert bound * (q + 2.0 * x) >= 0.0;
    }
  }

  lemma {:induction false} LengthFloor(d: Vector, k: nat, n: nat)
    requires n <= |d| && k < |d|
    ensures Dot(d, d, n) >= if k < n then d[k] * d[k] else 0.0
  {
    if n > 0 {
      LengthFloor(d, k, n - 1);
      assert d[n - 1] * d[n - 1] >= 0.0;
    }
  }

  lemma RegularisedIsRegular(a: Matrix, y: Vector, w: Vector, prior: Vector, np: nat)
    requires Shapes(a, y, w, prior, np) && 1 <= np <= MAX_PARAMETERS && Regularised(w, prior)
    ensures !NearlySingular(NormalMatrix(a, y, w, prior, np, |a|), np, SMALLEST_PIVOT)
  {
    var h := NormalMatrix(a, y, w, prior, np, |a|);
    forall v: Vector, k: nat | |v| == np && k < np && v[k] == 1.0 ensures !Below(Times(h, v), SMALLEST_PIVOT) {
      if Below(Times(h, v), SMALLEST_PIVOT) {
        QuadraticFloor(a, y, w, prior, v);
        SmallProduct(Times(h, v), v, SMALLEST_PIVOT, np);
        LengthFloor(v, k, np);
        assert false;
      }
    }
  }

  lemma GradientIsTimes(a: Matrix, y: Vector, zero: Vector, w: Vector, prior: Vector, d: Vector)
    requires Shapes(a, y, w, prior, |d|) && Shapes(a, zero, w, prior, |d|) && forall i: nat | i < |zero| :: zero[i] == 0.0
    ensures Gradient(a, zero, w, prior, d, |a|) == Times(NormalMatrix(a, y, w, prior, |d|, |a|), d)
  {
    var h, g := NormalMatrix(a, y, w, prior, |d|, |a|), Gradient(a, zero, w, prior, d, |a|);
    hide Dot, Gradient, NormalEntry;
    forall i: nat | i < |d| ensures g[i] == Times(h, d)[i] {
      GradientIsResidual(a, zero, w, prior, d, |a|, i);
      RhsOfZero(a, zero, w, i, |a|);
      assert NormalMatrix(a, zero, w, prior, |d|, |a|)[i] == h[i];
    }
  }

  lemma QuadraticFloor(a: Matrix, y: Vector, w: Vector, prior: Vector, d: Vector)
    requires Shapes(a, y, w, prior, |d|) && Regularised(w, prior)
    ensures Dot(Times(NormalMatrix(a, y, w, prior, |d|, |a|), d), d, |d|) >= Mul(5.0 * SMALLEST_PIVOT, Dot(d, d, |d|))
  {
    var zero: Vector := seq(|a|, i => 0.0);
    hide Dot, Mul, Curvature, PriorCost, Gradient, NormalMatrix;
    GradientIsTimes(a, y, zero, w, prior, d);
    CurvatureIsQuadratic(a, zero, w, prior, d, |a|);
    CurvatureFloor(a, w, prior, d, |a|);
    PriorFloor(prior, d, 5.0 * SMALLEST_PIVOT, |d|);
  }

  // A first parameter without a prior, held by one observation.

  /** Nonnegative weights; no prior on the first parameter is needed, as long as
      the others have one and row r, with a first entry of 1 and no entry above
      `most`, is weighted: both well above the smallest pivot. */
  ghost predicate Anchors(a: Matrix, w: Vector, prior: Vector, np: nat, r: nat, most: real) {
    && r < |a| && r < |w| && |prior| == np && |a[r]| == np > 0 && most >= 1.0
    && (forall i: nat | i < |w| :: w[i] >= 0.0) && prior[0] >= 0.0
    && a[r][0] == 1.0 && (forall i: nat | i < np :: -most <= a[r][i] <= most)
    && w[r] >= Floor(most) && forall i: nat | 0 < i < np :: prior[i] >= Floor(most)
  }

  function Floor(most: real): real {
    1200.0 * Mul(most, most) * SMALLEST_PIVOT
  }

  /** The priors hold the parameters after the first. */
  lemma {:induction false} LaterPriors(prior: Vector, d: Vector, floor: real, n: nat)
    requires 0 < n <= |prior| && n <= |d| && floor >= 0.0 && prior[0] >= 0.0
    requires forall i: nat | 0 < i < n :: prior[i] >= floor
    ensures PriorCost(d, prior, n) >= Mul(floor, Dot(d, d, n) - Mul(d[0], d[0]))
  {
    if n == 1 {
      SquareNonnegative(prior[0], d[0]);
      assert Dot(d, d, 1) == d[0] * d[0] && PriorCost(d, prior, 1) == WeightedSquare(prior[0], d[0]);
    } else {
      LaterPriors(prior, d, floor, n - 1);
      FloorStep(prior[n - 1], floor, d[n - 1], Dot(d, d, n - 1) - Mul(d[0], d[0]));
    }
  }

  /** One weighted row adds to what the priors hold. */
  lemma {:induction false} RowHolds(a: Matrix, w: Vector, prior: Vector, d: Vector, n: nat, r: nat)
    requires Shapes(a, w, w, prior, |d|) && r < n <= |a| && forall i: nat | i < |w| :: w[i] >= 0.0
    ensures Curvature(a, w, prior, d, n) >= PriorCost(d, prior, |d|) + WeightedSquare(w[r], Dot(a[r], d, |d|))
  {
    hide WeightedSquare, Dot, PriorCost;
    if r == n - 1 {
      CurvatureFloor(a, w, prior, d, n - 1);
    } else {
      RowHolds(a, w, prior, d, n - 1, r);
      SquareNonnegative(w[n - 1], Dot(a[n - 1], d, |d|));
    }
  }

  function Doubled(n: nat): (p: real)
    ensures p >= 1.0
  {
    if n == 0 then 1.0 else 2.0 * Doubled(n - 1)
  }

  /** What a vector carries besides its first entry. */
  function Rest(v: Vector, n: nat): real
    requires 0 < n <= |v|
  {
    Dot(v, v, n) - Mul(v[0], v[0])
  }

  function Gap(row: Vector, v: Vector, n: nat): real
    requires 0 < n <= |v| && n <= |row|
  {
    Dot(row, v, n) - v[0]
  }

  /** How far the row's product can be from the first parameter: the others, squared, times a constant. */
  lemma {:induction false} RowGap(row: Vector, v: Vector, most: real, n: nat)
    requires 0 < n <= |row| && n <= |v| && row[0] == 1.0 && most >= 1.0 && forall i: nat | i < n :: -most <= row[i] <= most
    ensures Mul(Gap(row, v, n), Gap(row, v, n)) <= Mul(Mul(Doubled(n - 1), Mul(most, most)), Rest(v, n))
  {
    if n == 1 {
      GapStart(row, v);
    } else {
      RowGap(row, v, most, n - 1);
      GapSteps(row, v, n);
      var p, m := Doubled(n - 2), Mul(most, most);
      assert Doubled(n - 1) == 2.0 * p;
      MostSquared(most, p);
      Doubling(p, m);
      ProductSquare(row[n - 1], v[n - 1], most);
      hide *;
      GapStep(Gap(row, v, n - 1), Rest(v, n - 1), m, Mul(p, m), row[n - 1], v[n - 1]);
    }
  }

  lemma GapStart(row: Vector, v: Vector)
    requires |row| > 0 && |v| > 0 && row[0] == 1.0
    ensures Gap(row, v, 1) == 0.0 && Rest(v, 1) == 0.0
    ensures forall x: real :: Mul(x, 0.0) == 0.0
  {
    DotStep(row, v, 1);
    DotStep(v, v, 1);
  }

  lemma GapSteps(row: Vector, v: Vector, n: nat)
    requires 1 < n <= |row| && n <= |v|
    ensures Gap(row, v, n) == Gap(row, v, n - 1) + Mul(row[n - 1], v[n - 1]) && Rest(v, n) == Rest(v, n - 1) + Mul(v[n - 1], v[n - 1])
  {
    DotStep(row, v, n);
    DotStep(v, v, n);
    hide Mul, Dot;
  }

  lemma Doubling(p: real, m: real)
    ensures Mul(2.0 * p, m) == 2.0 * Mul(p, m)
  {
  }

  lemma MostSquared(most: real, p: real)
    requires most >= 1.0 && p >= 1.0
    ensures 1.0 <= Mul(most, most) <= Mul(p, Mul(most, most))
  {
    assert (most - 1.0) * (most + 1.0) >= 0.0;
    assert (p - 1.0) * (most * most) >= 0.0;
  }

  lemma ProductSquare(b: real, x: real, most: real)
    requires -most <= b <= most
    ensures Mul(Mul(b, x), Mul(b, x)) <= Mul(Mul(most, most), Mul(x, x))
  {
    var u, s := b * b, x * x;
    assert (most - b) * (most + b) >= 0.0;
    assert most * most - u >= 0.0 && s >= 0.0;
    assert (most * most - u) * s >= 0.0;
    assert (b * x) * (b * x) == u * s;
  }

  lemma SumSquare(g: real, t: real)
    ensures Mul(g + t, g + t) <= 2.0 * Mul(g, g) + 2.0 * Mul(t, t)
    ensures Mul(g, g) >= 0.0
  {
    assert (g - t) * (g - t) >= 0.0;
  }

  lemma GapStep(gap: real, sum: real, m: real, pm: real, b: real, x: real)
    requires Mul(gap, gap) <= Mul(pm, sum) && 0.0 <= m <= pm && Mul(Mul(b, x), Mul(b, x)) <= Mul(m, Mul(x, x))
    ensures Mul(gap + Mul(b, x), gap + Mul(b, x)) <= Mul(2.0 * pm, sum + Mul(x, x))
  {
    SumSquare(gap, Mul(b, x));
    SumSquare(x, x);
    Spread(m, pm, sum, Mul(x, x));
    hide Mul;
  }

  lemma Spread(m: real, pm: real, sum: real, s: real)
    requires m <= pm && s >= 0.0
    ensures Mul(2.0 * pm, sum + s) == 2.0 * Mul(pm, sum) + 2.0 * Mul(pm, s) && Mul(m, s) <= Mul(pm, s)
  {
    assert (pm - m) * s >= 0.0;
  }

  /** Everything that v carries is held by the row and the later priors. */
  lemma AnchorBound(s: real, v0: real, rest: real, m: real, pm: real)
    requires 1.0 <= m <= pm <= 128.0 * m && rest >= 0.0 && Mul(s - v0, s - v0) <= Mul(pm, rest)
    ensures Mul(v0, v0) + rest <= 257.0 * Mul(m, Mul(s, s) + rest)
  {
    SumSquare(s, v0 - s);
    Opposite(s - v0);
    MulBounds(m, pm, Mul(s, s), rest);
    assert s + (v0 - s) == v0 && v0 - s == -(s - v0);
    hide Mul;
  }

  lemma Opposite(x: real)
    ensures Mul(-x, -x) == Mul(x, x)
  {
  }

  lemma MulBounds(m: real, pm: real, t: real, rest: real)
    requires 1.0 <= m && pm <= 128.0 * m && t >= 0.0 && rest >= 0.0
    ensures Mul(pm, rest) <= 128.0 * Mul(m, rest) && t <= Mul(m, t) && rest <= Mul(m, rest)
    ensures Mul(m, t + rest) == Mul(m, t) + Mul(m, rest)
  {
    assert (128.0 * m - pm) * rest >= 0.0;
    assert (m - 1.0) * t >= 0.0 && (m - 1.0) * rest >= 0.0;
  }

  /** The held part outweighs anything a vector below the pivot bound can bring. */
  lemma AnchorWins(floor: real, m: real, held: real, all: real, c: real, np: real)
    requires floor == 1200.0 * m * SMALLEST_PIVOT && np <= 8.0 && 1.0 <= all <= 257.0 * Mul(m, held)
    requires c >= Mul(floor, held)
    ensures 2.0 * c > Mul(SMALLEST_PIVOT, np + all)
  {
    var mh := m * held;
    assert floor * held == 1200.0 * SMALLEST_PIVOT * mh;
  }

  lemma HeldProduct(floor: real, w: real, s: real, rest: real, prior: real, c: real)
    requires 0.0 <= floor <= w && prior >= Mul(floor, rest) && c >= prior + WeightedSquare(w, s)
    ensures c >= Mul(floor, Mul(s, s) + rest)
  {
    var t := s * s;
    assert t >= 0.0;
    assert (w - floor) * t >= 0.0;
    assert w * s * s == w * t;
  }

  lemma {:induction false} DoubledMonotone(m: nat, n: nat)
    requires m <= n
    ensures Doubled(m) <= Doubled(n)
  {
    if m < n { DoubledMonotone(m, n - 1); }
  }

  lemma AnchoredIsRegular(a: Matrix, y: Vector, w: Vector, prior: Vector, np: nat, r: nat, most: real)
    requires Shapes(a, y, w, prior, np) && 1 <= np <= MAX_PARAMETERS && Anchors(a, w, prior, np, r, most)
    ensures !NearlySingular(NormalMatrix(a, y, w, prior, np, |a|), np, SMALLEST_PIVOT)
  {
    hide NormalMatrix;
    var h := NormalMatrix(a, y, w, prior, np, |a|);
    forall v: Vector, k: nat | |v| == np && k < np && v[k] == 1.0 ensures !Below(Times(h, v), SMALLEST_PIVOT) {
      if Below(Times(h, v), SMALLEST_PIVOT) {
        AnchoredVector(a, y, w, prior, np, r, most, v, k);
      }
    }
  }

  lemma AnchoredVector(a: Matrix, y: Vector, w: Vector, prior: Vector, np: nat, r: nat, most: real, v: Vector, k: nat)
    requires Shapes(a, y, w, prior, np) && 1 <= np <= MAX_PARAMETERS && Anchors(a, w, prior, np, r, most)
    requires |v| == np && k < np && v[k] == 1.0
    ensures !Below(Times(NormalMatrix(a, y, w, prior, np, |a|), v), SMALLEST_PIVOT)
  {
    var s, m, floor := Dot(a[r], v, np), Mul(most, most), Floor(most);
    var hv, c := Times(NormalMatrix(a, y, w, prior, np, |a|), v), Curvature(a, w, prior, v, |a|);
    FloorPositive(most);
    hide Dot, Mul, Curvature, PriorCost, NormalMatrix, WeightedSquare, Times, Doubled, Floor;
    CurvatureIsProduct(a, y, w, prior, v);
    RowHolds(a, w, prior, v, |a|, r);
    LaterPriors(prior, v, floor, np);
    RestLength(v, k);
    RowGap(a[r], v, most, np);
    DoubledBound(np, most);
    assert Gap(a[r], v, np) == s - v[0] && Rest(v, np) == Dot(v, v, np) - Mul(v[0], v[0]);
    if Below(hv, SMALLEST_PIVOT) {
      SmallProduct(hv, v, SMALLEST_PIVOT, np);
    }
    hide *;
    var rest := Rest(v, np);
    AnchorBound(s, v[0], rest, m, Mul(Doubled(np - 1), m));
    HeldProduct(floor, w[r], s, rest, PriorCost(v, prior, np), c);
    AnchorWins(floor, m, Mul(s, s) + rest, Mul(v[0], v[0]) + rest, c, np as real);
  }

  lemma FloorPositive(most: real)
    ensures Floor(most) == 1200.0 * Mul(most, most) * SMALLEST_PIVOT >= 0.0
  {
    assert most * most >= 0.0;
  }

  lemma RestLength(v: Vector, k: nat)
    requires k < |v| && v[k] == 1.0
    ensures Rest(v, |v|) >= 0.0 && Dot(v, v, |v|) >= 1.0
  {
    LengthFloor(v, k, |v|);
    LengthFloor(v, 0, |v|);
  }

  /** The curvature is v (H v). */
  lemma CurvatureIsProduct(a: Matrix, y: Vector, w: Vector, prior: Vector, v: Vector)
    requires Shapes(a, y, w, prior, |v|)
    ensures Curvature(a, w, prior, v, |a|) == Dot(Times(NormalMatrix(a, y, w, prior, |v|, |a|), v), v, |v|)
  {
    var zero: Vector := seq(|a|, i => 0.0);
    hide Dot, Curvature, Gradient, NormalMatrix, Times;
    GradientIsTimes(a, y, zero, w, prior, v);
    CurvatureIsQuadratic(a, zero, w, prior, v, |a|);
  }

  lemma DoubledBound(np: nat, most: real)
    requires 1 <= np <= MAX_PARAMETERS && most >= 1.0
    ensures var m := Mul(most, most); 1.0 <= m <= Mul(Doubled(np - 1), m) <= 128.0 * m
  {
    DoubledMonotone(np - 1, 7);
    assert Doubled(7) == 128.0;
    MostSquared(most, Doubled(np - 1));
    assert (128.0 - Doubled(np - 1)) * (most * most) >= 0.0;
  }
}
