/** Row operations on an augmented matrix [L | R] that starts as [H | I].

    What exchanging, scaling and subtracting rows keeps, and what a finished or
    a stuck elimination shows about H: its inverse, or a vector that H nearly
    annihilates. */
module Elimination {
  import opened Numbers
  import opened LinearAlgebra

  /** Row r of (l, r) is row i of (l', r') plus f times row j. */
  ghost predicate RowFrom(l: Matrix, r: Matrix, k: nat, l': Matrix, r': Matrix, i: nat, f: real, j: nat, np: nat) {
    && k < |l| && k < |r| && i < |l'| && i < |r'| && j < |l'| && j < |r'|
    && Combines(l[k], l'[i], f, l'[j], np) && Combines(r[k], r'[i], f, r'[j], np)
  }

  ghost predicate HasSource(l: Matrix, r: Matrix, k: nat, l': Matrix, r': Matrix, np: nat) {
    exists i: nat, f: real, j: nat :: i < np && j < np && RowFrom(l, r, k, l', r', i, f, j, np)
  }

  ghost predicate RowsFrom(l: Matrix, r: Matrix, l': Matrix, r': Matrix, np: nat) {
    forall k: nat | k < np :: HasSource(l, r, k, l', r', np)
  }

  /** The left half of a row is its right half times H. */
  ghost predicate RowSolves(left: Vector, right: Vector, h: Matrix)
    requires IsSquare(h, |right|) && |left| == |right|
  {
    forall j: nat | j < |left| :: Dot(right, Column(h, |right|, j), |right|) == left[j]
  }

  /** v and s satisfy every row, read as the equation left . v = right . s. */
  ghost predicate Agrees(l: Matrix, r: Matrix, v: Vector, s: Vector)
    requires IsSquare(l, |v|) && IsSquare(r, |v|) && |v| == |s|
  {
    forall k: nat | k < |v| :: Dot(l[k], v, |v|) == Dot(r[k], s, |v|)
  }

  /** The rows say s = H v, no less and no more. */
  ghost predicate Equivalent(l: Matrix, r: Matrix, h: Matrix, np: nat)
    requires IsSquare(l, np) && IsSquare(r, np) && IsSquare(h, np)
  {
    && (forall k: nat | k < np :: RowSolves(l[k], r[k], h))
    && (forall v: Vector, s: Vector | |v| == np && |s| == np && Agrees(l, r, v, s) :: s == Times(h, v))
  }

  lemma CombinedRowSolves(left: Vector, right: Vector, l0: Vector, r0: Vector, s: real, l1: Vector, r1: Vector, h: Matrix)
    requires |left| == |right| == |l0| == |r0| == |l1| == |r1| && IsSquare(h, |right|)
    requires RowSolves(l0, r0, h) && RowSolves(l1, r1, h)
    requires Combines(left, l0, s, l1, |left|) && Combines(right, r0, s, r1, |left|)
    ensures RowSolves(left, right, h)
  {
    forall j: nat | j < |left| ensures Dot(right, Column(h, |right|, j), |right|) == left[j] {
      var c := Column(h, |right|, j);
      assert Dot(r0, c, |right|) == l0[j] && Dot(r1, c, |right|) == l1[j];
      assert left[j] == l0[j] + Mul(s, l1[j]);
      hide *;
      DotLinear(right, r0, s, r1, c, |right|);
    }
  }

  lemma CombinedRowAgrees(l: Matrix, r: Matrix, k: nat, l': Matrix, r': Matrix, i: nat, f: real, j: nat, v: Vector, s: Vector)
    requires IsSquare(l, |v|) && IsSquare(r, |v|) && IsSquare(l', |v|) && IsSquare(r', |v|) && |v| == |s|
    requires k < |v| && i < |v| && j < |v| && RowFrom(l, r, k, l', r', i, f, j, |v|) && Agrees(l', r', v, s)
    ensures Dot(l[k], v, |v|) == Dot(r[k], s, |v|)
  {
    assert Dot(l'[i], v, |v|) == Dot(r'[i], s, |v|) && Dot(l'[j], v, |v|) == Dot(r'[j], s, |v|);
    hide Dot, Mul, Combines;
    DotLinear(l[k], l'[i], f, l'[j], v, |v|);
    DotLinear(r[k], r'[i], f, r'[j], s, |v|);
  }

  lemma SourcedRowSolves(l: Matrix, r: Matrix, k: nat, l': Matrix, r': Matrix, h: Matrix, np: nat)
    requires IsSquare(l, np) && IsSquare(r, np) && IsSquare(l', np) && IsSquare(r', np) && IsSquare(h, np)
    requires k < np && HasSource(l, r, k, l', r', np) && forall i: nat | i < np :: RowSolves(l'[i], r'[i], h)
    ensures RowSolves(l[k], r[k], h)
  {
    var i: nat, f: real, j: nat :| i < np && j < np && RowFrom(l, r, k, l', r', i, f, j, np);
    hide RowSolves, Combines;
    CombinedRowSolves(l[k], r[k], l'[i], r'[i], f, l'[j], r'[j], h);
  }

  lemma SourcedRowAgrees(l: Matrix, r: Matrix, k: nat, l': Matrix, r': Matrix, v: Vector, s: Vector)
    requires IsSquare(l, |v|) && IsSquare(r, |v|) && IsSquare(l', |v|) && IsSquare(r', |v|) && |v| == |s|
    requires k < |v| && HasSource(l, r, k, l', r', |v|) && Agrees(l', r', v, s)
    ensures Dot(l[k], v, |v|) == Dot(r[k], s, |v|)
  {
    var i: nat, f: real, j: nat :| i < |v| && j < |v| && RowFrom(l, r, k, l', r', i, f, j, |v|);
    CombinedRowAgrees(l, r, k, l', r', i, f, j, v, s);
  }

  /** Two augmented matrices whose rows come from each other are equivalent to the same H. */
  lemma EquivalentKept(l: Matrix, r: Matrix, l': Matrix, r': Matrix, h: Matrix, np: nat)
    requires IsSquare(l, np) && IsSquare(r, np) && IsSquare(l', np) && IsSquare(r', np) && IsSquare(h, np)
    requires Equivalent(l', r', h, np) && RowsFrom(l, r, l', r', np) && RowsFrom(l', r', l, r, np)
    ensures Equivalent(l, r, h, np)
  {
    hide Dot, HasSource, RowSolves;
    forall k: nat | k < np ensures RowSolves(l[k], r[k], h) {
      SourcedRowSolves(l, r, k, l', r', h, np);
    }
    forall v: Vector, s: Vector | |v| == np && |s| == np && Agrees(l, r, v, s) ensures s == Times(h, v) {
      forall k: nat | k < np ensures Dot(l'[k], v, np) == Dot(r'[k], s, np) {
        SourcedRowAgrees(l', r', k, l, r, v, s);
      }
      assert Agrees(l', r', v, s);
    }
  }

  // The three row operations give each row of the old matrix from rows of the new one, and back.

  function Exchanged(p: nat, c: nat, k: nat): nat {
    if k == p then c else if k == c then p else k
  }

  lemma SameRow(l: Matrix, r: Matrix, k: nat, l': Matrix, r': Matrix, i: nat, np: nat)
    requires IsSquare(l, np) && IsSquare(r, np) && IsSquare(l', np) && IsSquare(r', np) && k < np && i < np
    requires l[k] == l'[i] && r[k] == r'[i]
    ensures HasSource(l, r, k, l', r', np)
  {
    assert RowFrom(l, r, k, l', r', i, 0.0, i, np);
  }

  /** Rows p and c in each other's place. */
  ghost predicate Swapped(now: Matrix, was: Matrix, p: nat, c: nat, np: nat)
    requires IsSquare(now, np) && IsSquare(was, np) && p < np && c < np
  {
    forall k: nat | k < np :: now[k] == was[Exchanged(p, c, k)]
  }

  lemma SwapSources(l: Matrix, r: Matrix, l': Matrix, r': Matrix, p: nat, c: nat, np: nat)
    requires IsSquare(l, np) && IsSquare(r, np) && IsSquare(l', np) && IsSquare(r', np) && p < np && c < np
    requires Swapped(l, l', p, c, np) && Swapped(r, r', p, c, np)
    ensures RowsFrom(l, r, l', r', np) && RowsFrom(l', r', l, r, np)
  {
    forall k: nat | k < np ensures HasSource(l, r, k, l', r', np) && HasSource(l', r', k, l, r, np) {
      var i := Exchanged(p, c, k);
      assert Exchanged(p, c, i) == k;
      SameRow(l, r, k, l', r', i, np);
      SameRow(l', r', k, l, r, i, np);
    }
  }

  /** Row c multiplied by s. */
  ghost predicate Scaled(now: Matrix, was: Matrix, c: nat, s: real, np: nat)
    requires IsSquare(now, np) && IsSquare(was, np) && c < np
  {
    && (forall k: nat | k < np && k != c :: now[k] == was[k])
    && forall j: nat | j < np :: now[c][j] == Mul(was[c][j], s)
  }

  lemma ScaledRow(now: Vector, was: Vector, s: real, t: real)
    requires |now| == |was| && Mul(s, t) == 1.0 && forall j: nat | j < |now| :: now[j] == Mul(was[j], s)
    ensures Combines(now, was, s - 1.0, was, |now|) && Combines(was, now, t - 1.0, now, |now|)
  {
    forall j: nat | j < |now| ensures now[j] == was[j] + (s - 1.0) * was[j] && was[j] == now[j] + (t - 1.0) * now[j] {
      assert (was[j] * s) * t == was[j] * (s * t);
    }
  }

  lemma ScaleSources(l: Matrix, r: Matrix, l': Matrix, r': Matrix, c: nat, s: real, t: real, np: nat)
    requires IsSquare(l, np) && IsSquare(r, np) && IsSquare(l', np) && IsSquare(r', np) && c < np && Mul(s, t) == 1.0
    requires Scaled(l, l', c, s, np) && Scaled(r, r', c, s, np)
    ensures RowsFrom(l, r, l', r', np) && RowsFrom(l', r', l, r, np)
  {
    forall k: nat | k < np ensures HasSource(l, r, k, l', r', np) && HasSource(l', r', k, l, r, np) {
      if k == c {
        ScaledRow(l[c], l'[c], s, t);
        ScaledRow(r[c], r'[c], s, t);
        assert RowFrom(l, r, c, l', r', c, s - 1.0, c, np);
        assert RowFrom(l', r', c, l, r, c, t - 1.0, c, np);
      } else {
        SameRow(l, r, k, l', r', k, np);
        SameRow(l', r', k, l, r, k, np);
      }
    }
  }

  /** f times row c taken from row i. */
  ghost predicate Subtracted(now: Matrix, was: Matrix, i: nat, f: real, c: nat, np: nat)
    requires IsSquare(now, np) && IsSquare(was, np) && c < np && i < np
  {
    && (forall k: nat | k < np && k != i :: now[k] == was[k])
    && forall j: nat | j < np :: now[i][j] == was[i][j] - Mul(f, was[c][j])
  }

  lemma SubtractedRow(now: Vector, was: Vector, f: real, other: Vector)
    requires |now| == |was| == |other| && forall j: nat | j < |now| :: now[j] == was[j] - Mul(f, other[j])
    ensures Combines(now, was, -f, other, |now|) && Combines(was, now, f, other, |now|)
  {
  }

  lemma SubtractSources(l: Matrix, r: Matrix, l': Matrix, r': Matrix, i: nat, f: real, c: nat, np: nat)
    requires IsSquare(l, np) && IsSquare(r, np) && IsSquare(l', np) && IsSquare(r', np) && c < np && i < np && i != c
    requires Subtracted(l, l', i, f, c, np) && Subtracted(r, r', i, f, c, np)
    ensures RowsFrom(l, r, l', r', np) && RowsFrom(l', r', l, r, np)
  {
    forall k: nat | k < np ensures HasSource(l, r, k, l', r', np) && HasSource(l', r', k, l, r, np) {
      if k == i {
        SubtractedRow(l[i], l'[i], f, l'[c]);
        SubtractedRow(r[i], r'[i], f, r'[c]);
        assert RowFrom(l, r, i, l', r', i, -f, c, np);
        assert RowFrom(l', r', i, l, r, i, f, c, np);
      } else {
        SameRow(l, r, k, l', r', k, np);
        SameRow(l', r', k, l, r, k, np);
      }
    }
  }

  /** The starting point [H | I]. */
  lemma StartEquivalent(id: Matrix, h: Matrix, np: nat)
    requires IsSquare(id, np) && IsSquare(h, np) && forall i: nat, j: nat | i < np && j < np :: id[i][j] == Delta(j, i)
    ensures Equivalent(h, id, h, np)
  {
    forall k: nat | k < np ensures RowSolves(h[k], id[k], h) {
      forall j: nat | j < np ensures Dot(id[k], Column(h, np, j), np) == h[k][j] {
        DotUnit(id[k], Column(h, np, j), np, k);
      }
    }
    forall v: Vector, s: Vector | |v| == np && |s| == np && Agrees(h, id, v, s) ensures s == Times(h, v) {
      forall k: nat | k < np ensures s[k] == Dot(h[k], v, np) {
        DotUnit(id[k], s, np, k);
      }
    }
  }

  /** The first `cols` columns are unit columns. */
  ghost predicate Reduced(l: Matrix, np: nat, cols: nat)
    requires IsSquare(l, np) && cols <= np
  {
    forall k: nat, c: nat | k < np && c < cols :: l[k][c] == Delta(k, c)
  }

  /** Once the left half is the identity, the right half is the inverse. */
  lemma ReducedIsInverse(l: Matrix, r: Matrix, h: Matrix, np: nat)
    requires IsSquare(l, np) && IsSquare(r, np) && IsSquare(h, np) && Equivalent(l, r, h, np) && Reduced(l, np, np)
    ensures LeftInverse(r, h, np)
  {
    forall i: nat, j: nat | i < np && j < np ensures Dot(r[i], Column(h, np, j), np) == Delta(i, j) {
      assert RowSolves(l[i], r[i], h);
    }
  }

  /** orig lists which row of H stands in each row; rows not yet used as pivots
      have met no other such row, so their columns on the right are still unit columns. */
  ghost predicate Tracked(r: Matrix, np: nat, cols: nat, orig: seq<nat>)
    requires IsSquare(r, np)
  {
    && |orig| == np
    && (forall i: nat | i < np :: orig[i] < np)
    && (forall i: nat, j: nat | i < np && j < np && i != j :: orig[i] != orig[j])
    && (forall k: nat, i: nat | k < np && cols <= i < np :: r[k][orig[i]] == Delta(k, i))
  }

  /** The rows still say s = H v, the first `cols` columns are unit columns, and
      rows from `open` on have not been mixed on the right. */
  ghost predicate InProgress(l: Matrix, r: Matrix, h: Matrix, np: nat, cols: nat, open: nat, orig: seq<nat>) {
    && IsSquare(l, np) && IsSquare(r, np) && IsSquare(h, np) && cols <= np
    && Equivalent(l, r, h, np) && Reduced(l, np, cols) && Tracked(r, np, open, orig)
  }

  ghost function SwappedOrder(orig: seq<nat>, p: nat, c: nat): (o: seq<nat>)
    requires p < |orig| && c < |orig|
    ensures |o| == |orig| && forall i: nat | i < |orig| :: o[i] == orig[Exchanged(p, c, i)]
  {
    seq(|orig|, i requires 0 <= i < |orig| => orig[Exchanged(p, c, i)])
  }

  lemma SwapKeeps(l: Matrix, r: Matrix, l': Matrix, r': Matrix, h: Matrix, np: nat, p: nat, c: nat, orig: seq<nat>)
    requires IsSquare(l, np) && IsSquare(r, np) && InProgress(l', r', h, np, c, c, orig) && c <= p < np
    requires Swapped(l, l', p, c, np) && Swapped(r, r', p, c, np)
    ensures InProgress(l, r, h, np, c, c, SwappedOrder(orig, p, c))
  {
    hide Equivalent, RowsFrom;
    assert Reduced(l, np, c) && Tracked(r, np, c, SwappedOrder(orig, p, c));
    SwapSources(l, r, l', r', p, c, np);
    EquivalentKept(l, r, l', r', h, np);
  }

  lemma ScaleKeeps(l: Matrix, r: Matrix, l': Matrix, r': Matrix, h: Matrix, np: nat, c: nat, s: real, t: real, orig: seq<nat>)
    requires IsSquare(l, np) && IsSquare(r, np) && c < np && InProgress(l', r', h, np, c, c, orig) && Mul(s, t) == 1.0
    requires Scaled(l, l', c, s, np) && Scaled(r, r', c, s, np)
    ensures InProgress(l, r, h, np, c, c + 1, orig)
  {
    assert Mul(0.0, s) == 0.0;
    hide Mul, Equivalent, RowsFrom;
    assert Reduced(l, np, c) && Tracked(r, np, c + 1, orig);
    ScaleSources(l, r, l', r', c, s, t, np);
    EquivalentKept(l, r, l', r', h, np);
  }

  lemma SubtractKeeps(l: Matrix, r: Matrix, l': Matrix, r': Matrix, h: Matrix, np: nat, i: nat, f: real, c: nat, orig: seq<nat>)
    requires IsSquare(l, np) && IsSquare(r, np) && c < np && i < np && i != c && InProgress(l', r', h, np, c, c + 1, orig)
    requires Subtracted(l, l', i, f, c, np) && Subtracted(r, r', i, f, c, np)
    ensures InProgress(l, r, h, np, c, c + 1, orig)
  {
    assert Mul(f, 0.0) == 0.0;
    hide Mul, Equivalent, RowsFrom;
    assert Reduced(l, np, c) && Tracked(r, np, c + 1, orig);
    SubtractSources(l, r, l', r', i, f, c, np);
    EquivalentKept(l, r, l', r', h, np);
  }

  /** The sides of the equations a stuck elimination leaves: the entries of
      column `cols` below the finished rows, put back in the order of H. */
  ghost function StuckSide(l: Matrix, np: nat, cols: nat, orig: seq<nat>, n: nat): (s: Vector)
    requires IsSquare(l, np) && cols < np && |orig| == np && n <= np && forall i: nat | i < np :: orig[i] < np
    ensures |s| == np
  {
    if n == 0 then seq(np, i => 0.0)
    else
      var s := StuckSide(l, np, cols, orig, n - 1);
      if n - 1 < cols then s else s[orig[n - 1] := l[n - 1][cols]]
  }

  lemma {:induction false} StuckSideAt(l: Matrix, np: nat, cols: nat, orig: seq<nat>, n: nat, i: nat)
    requires IsSquare(l, np) && cols < np && |orig| == np && n <= np && i < np
    requires forall i: nat | i < np :: orig[i] < np
    requires forall i: nat, j: nat | i < np && j < np && i != j :: orig[i] != orig[j]
    ensures StuckSide(l, np, cols, orig, n)[orig[i]] == if cols <= i < n then l[i][cols] else 0.0
  {
    if n > 0 { StuckSideAt(l, np, cols, orig, n - 1, i); }
  }

  lemma {:induction false} StuckSideSmall(l: Matrix, np: nat, cols: nat, orig: seq<nat>, n: nat, bound: real)
    requires IsSquare(l, np) && cols < np && |orig| == np && n <= np && forall i: nat | i < np :: orig[i] < np
    requires bound > 0.0 && forall i: nat | cols <= i < np :: -bound < l[i][cols] < bound
    ensures forall i: nat | i < np :: -bound < StuckSide(l, np, cols, orig, n)[i] < bound
  {
    if n > 0 { StuckSideSmall(l, np, cols, orig, n - 1, bound); }
  }

  /** Row k of the right half against the stuck side. */
  lemma {:induction false} StuckRight(l: Matrix, r: Matrix, np: nat, cols: nat, orig: seq<nat>, n: nat, k: nat)
    requires IsSquare(l, np) && IsSquare(r, np) && cols < np && Tracked(r, np, cols, orig) && n <= np && k < np
    ensures Dot(r[k], StuckSide(l, np, cols, orig, n), np) == if cols <= k < n then l[k][cols] else 0.0
  {
    var s := StuckSide(l, np, cols, orig, n);
    if n == 0 {
      DotSymmetric(r[k], s, np);
      DotZero(s, r[k], np);
    } else {
      StuckRight(l, r, np, cols, orig, n - 1, k);
      if cols <= n - 1 {
        StuckSideAt(l, np, cols, orig, n - 1, n - 1);
        DotUpdate(r[k], StuckSide(l, np, cols, orig, n - 1), orig[n - 1], l[n - 1][cols], np);
        assert r[k][orig[n - 1]] == Delta(k, n - 1);
      }
    }
  }

  /** The vector a stuck elimination nearly annihilates. */
  ghost function StuckVector(l: Matrix, np: nat, cols: nat): (v: Vector)
    requires IsSquare(l, np) && cols < np
    ensures |v| == np && v[cols] == 1.0
  {
    seq(np, j requires 0 <= j < np => if j < cols then -l[j][cols] else if j == cols then 1.0 else 0.0)
  }

  /** With cols unit columns, row k meets that vector in its own entry of column `cols` or nowhere. */
  lemma {:induction false} StuckLeft(l: Matrix, np: nat, cols: nat, n: nat, k: nat)
    requires IsSquare(l, np) && cols < np && Reduced(l, np, cols) && n <= np && k < np
    ensures Dot(l[k], StuckVector(l, np, cols), n)
         == (if k < n && k < cols then -l[k][cols] else 0.0) + (if cols < n then l[k][cols] else 0.0)
  {
    if n > 0 {
      StuckLeft(l, np, cols, n - 1, k);
      if n - 1 < cols {
        assert l[k][n - 1] == Delta(k, n - 1);
      }
    }
  }

  /** When every candidate pivot is below the bound, H sends a vector with a unit
      entry to one whose entries are all below the bound. */
  lemma StuckMeansNearlySingular(l: Matrix, r: Matrix, h: Matrix, np: nat, cols: nat, orig: seq<nat>, bound: real)
    returns (v: Vector)
    requires cols < np && InProgress(l, r, h, np, cols, cols, orig)
    requires bound > 0.0 && forall i: nat | cols <= i < np :: -bound < l[i][cols] < bound
    ensures |v| == np && v[cols] == 1.0
    ensures forall i: nat | i < np :: -bound < Times(h, v)[i] < bound
  {
    v := StuckVector(l, np, cols);
    var s := StuckSide(l, np, cols, orig, np);
    forall k: nat | k < np ensures Dot(l[k], v, np) == Dot(r[k], s, np) {
      StuckLeft(l, np, cols, np, k);
      StuckRight(l, r, np, cols, orig, np, k);
    }
    assert Agrees(l, r, v, s);
    StuckSideSmall(l, np, cols, orig, np, bound);
  }
}
