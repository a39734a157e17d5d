/** The receive down-converter: any chunking equals one convolution of the mixed stream. */
module Ddc {
  import opened Numbers
  import Modulo
  import opened Fir

  // The cascade of two filters.

  /** The response of the cascade at delay n: h1 against h2 spread out by m1. */
  function CascadeTap(h1: seq<real>, h2: seq<real>, m1: nat, n: int, rows: nat): real
    requires rows <= |h2|
  {
    if rows == 0 then 0.0 else CascadeTap(h1, h2, m1, n, rows - 1) + Mul(h2[rows - 1], Tap(h1, n - (rows - 1) * m1))
  }

  function Tap(h: seq<real>, i: int): real {
    if 0 <= i < |h| then h[i] else 0.0
  }

  function CascadeLength(h1: seq<real>, h2: seq<real>, m1: nat): nat
    requires |h2| > 0
  {
    |h1| + (|h2| - 1) * m1
  }

  ghost function CascadeRows(h1: seq<real>, h2: seq<real>, m1: nat, rows: nat): (h: seq<real>)
    requires |h2| > 0 && rows <= |h2|
    ensures |h| == CascadeLength(h1, h2, m1) && forall n: nat | n < |h| :: h[n] == CascadeTap(h1, h2, m1, n, rows)
  {
    seq(CascadeLength(h1, h2, m1), n requires 0 <= n => CascadeTap(h1, h2, m1, n, rows))
  }

  ghost function Cascade(h1: seq<real>, h2: seq<real>, m1: nat): seq<real>
    requires |h2| > 0
  {
    CascadeRows(h1, h2, m1, |h2|)
  }

  ghost function ShiftedTaps(h: seq<real>, shift: nat, n: nat): (r: seq<real>)
    ensures |r| == n && forall k: nat | k < n :: r[k] == Tap(h, k - shift)
  {
    seq(n, k requires 0 <= k => Tap(h, k - shift))
  }

  ghost predicate Combines(c: seq<real>, a: seq<real>, s: real, b: seq<real>) {
    |c| == |a| == |b| && forall k: nat | k < |c| :: c[k] == a[k] + Mul(s, b[k])
  }

  lemma {:induction false} SumLinear(c: seq<real>, a: seq<real>, s: real, b: seq<real>, x: seq<Sample>, imag: bool, pos: int, n: nat)
    requires Combines(c, a, s, b) && n <= |c|
    ensures WindowSum(c, x, imag, pos, n) == WindowSum(a, x, imag, pos, n) + Mul(s, WindowSum(b, x, imag, pos, n))
  {
    if n > 0 {
      SumLinear(c, a, s, b, x, imag, pos, n - 1);
      LinearTerm(c[n - 1], a[n - 1], s, b[n - 1], At(x, pos + n - 1, imag), WindowSum(b, x, imag, pos, n - 1));
    }
  }

  lemma LinearTerm(c: real, a: real, s: real, b: real, v: real, sum: real)
    requires c == a + Mul(s, b)
    ensures Mul(c, v) + Mul(s, sum) == Mul(a, v) + Mul(s, sum + Mul(b, v))
  {
    assert (a + s * b) * v == a * v + s * (b * v);
  }

  /** Shifting the taps shifts the window. */
  lemma {:induction false} ShiftedSum(h: seq<real>, shift: nat, len: nat, x: seq<Sample>, imag: bool, pos: int, n: nat)
    requires n <= len
    ensures WindowSum(ShiftedTaps(h, shift, len), x, imag, pos, n)
         == WindowSum(h, x, imag, pos + shift, if n <= shift then 0 else Min(n - shift, |h|))
  {
    if n > 0 {
      ShiftedSum(h, shift, len, x, imag, pos, n - 1);
      var v := At(x, pos + n - 1, imag);
      assert Mul(0.0, v) == 0.0;
    }
  }

  /** Sum over the second filter's taps of windows of the first filter. */
  function NestedSum(h1: seq<real>, h2: seq<real>, m1: nat, x: seq<Sample>, imag: bool, pos: int, rows: nat): real
    requires rows <= |h2|
  {
    if rows == 0 then 0.0
    else
      var window := WindowSum(h1, x, imag, pos + (rows - 1) * m1, |h1|);
      NestedSum(h1, h2, m1, x, imag, pos, rows - 1) + Mul(h2[rows - 1], window)
  }

  lemma {:induction false} CascadeIsNested(h1: seq<real>, h2: seq<real>, m1: nat, x: seq<Sample>, imag: bool, pos: int, rows: nat)
    requires |h2| > 0 && rows <= |h2|
    ensures WindowSum(CascadeRows(h1, h2, m1, rows), x, imag, pos, CascadeLength(h1, h2, m1))
         == NestedSum(h1, h2, m1, x, imag, pos, rows)
  {
    var len := CascadeLength(h1, h2, m1);
    if rows == 0 {
      ZeroTaps(CascadeRows(h1, h2, m1, 0), x, imag, pos, len);
    } else {
      var j := rows - 1;
      CascadeIsNested(h1, h2, m1, x, imag, pos, j);
      RowCombines(h1, h2, m1, rows);
      hide WindowSum, CascadeRows, Mul;
      SumLinear(CascadeRows(h1, h2, m1, rows), CascadeRows(h1, h2, m1, j), h2[j], ShiftedTaps(h1, j * m1, len), x, imag, pos, len);
      RowFits(|h2|, j, m1);
      ShiftedSum(h1, j * m1, len, x, imag, pos, len);
    }
  }

  lemma RowFits(rows: nat, j: nat, m1: nat)
    requires j < rows
    ensures j * m1 <= (rows - 1) * m1
  {
    if j < rows - 1 { MulBelow(j, rows - 1, m1); }
  }

  lemma RowCombines(h1: seq<real>, h2: seq<real>, m1: nat, rows: nat)
    requires 0 < rows <= |h2|
    ensures Combines(CascadeRows(h1, h2, m1, rows), CascadeRows(h1, h2, m1, rows - 1), h2[rows - 1],
                     ShiftedTaps(h1, (rows - 1) * m1, CascadeLength(h1, h2, m1)))
  {
  }

  lemma {:induction false} ZeroTaps(h: seq<real>, x: seq<Sample>, imag: bool, pos: int, n: nat)
    requires n <= |h| && forall k: nat | k < n :: h[k] == 0.0
    ensures WindowSum(h, x, imag, pos, n) == 0.0
  {
    if n > 0 {
      ZeroTaps(h, x, imag, pos, n - 1);
      assert Mul(0.0, At(x, pos + n - 1, imag)) == 0.0;
    }
  }

  lemma {:induction false} BeforeStart(h: seq<real>, x: seq<Sample>, imag: bool, pos: int, n: nat)
    requires n <= |h| && pos + n <= 0
    ensures WindowSum(h, x, imag, pos, n) == 0.0
  {
    if n > 0 {
      BeforeStart(h, x, imag, pos, n - 1);
      assert Mul(h[n - 1], 0.0) == 0.0;
    }
  }

  /** The first stage's output at any position up to its end, before the start included. */
  lemma StageValue(h1: seq<real>, m1: nat, x: seq<Sample>, imag: bool, i: int)
    requires m1 > 0 && |h1| > 0 && i < |Filtered(h1, m1, x)|
    ensures At(Filtered(h1, m1, x), i, imag) == WindowSum(h1, x, imag, i * m1 - (|h1| - 1), |h1|)
  {
    if i < 0 {
      Modulo.MulAtLeast(-i, m1);
      Modulo.SubMul(0, i, m1);
      BeforeStart(h1, x, imag, i * m1 - (|h1| - 1), |h1|);
    }
  }

  lemma {:induction false} SecondStage(h1: seq<real>, h2: seq<real>, m1: nat, x: seq<Sample>, imag: bool, pos: int, rows: nat)
    requires m1 > 0 && |h1| > 0 && rows <= |h2| && pos + rows <= |Filtered(h1, m1, x)|
    ensures WindowSum(h2, Filtered(h1, m1, x), imag, pos, rows)
         == NestedSum(h1, h2, m1, x, imag, pos * m1 - (|h1| - 1), rows)
  {
    hide Mul, Filtered;
    if rows > 0 {
      SecondStage(h1, h2, m1, x, imag, pos, rows - 1);
      StageValue(h1, m1, x, imag, pos + rows - 1);
      Modulo.SubMul(pos, rows - 1, m1);
    }
  }

  /** Two stages one after the other are one filter. */
  lemma TwoStagesAreOne(h1: seq<real>, h2: seq<real>, m1: nat, x: seq<Sample>)
    requires m1 > 0 && |h1| > 0 && |h2| > 0
    ensures Filtered(h2, 2, Filtered(h1, m1, x)) == Filtered(Cascade(h1, h2, m1), 2 * m1, x)
  {
    var mid := Filtered(h1, m1, x);
    var y, z := Filtered(h2, 2, mid), Filtered(Cascade(h1, h2, m1), 2 * m1, x);
    CountsAgree(|x|, m1);
    forall m: nat | m < |y| ensures y[m] == z[m] {
      OutputInside(m, |mid|, 2);
      SameOutput(h1, h2, m1, x, false, m);
      SameOutput(h1, h2, m1, x, true, m);
    }
  }

  lemma CountsAgree(n: nat, m1: nat)
    requires m1 > 0
    ensures CeilDiv(CeilDiv(n, m1), 2) == CeilDiv(n, 2 * m1)
  {
    var a := CeilDiv(n, m1);
    var b := CeilDiv(a, 2);
    CeilDivBounds(n, m1);
    CeilDivBounds(a, 2);
    assert b * 2 == a || b * 2 == a + 1;
    assert b * (2 * m1) == (b * 2) * m1;
    Modulo.SubMul(a, 1, m1);
    CeilDivUnique(n, 2 * m1, b);
  }

  lemma SameOutput(h1: seq<real>, h2: seq<real>, m1: nat, x: seq<Sample>, imag: bool, m: nat)
    requires m1 > 0 && |h1| > 0 && |h2| > 0 && m * 2 < |Filtered(h1, m1, x)|
    ensures var h := Cascade(h1, h2, m1);
            WindowSum(h2, Filtered(h1, m1, x), imag, Start(h2, 2, m), |h2|) == WindowSum(h, x, imag, Start(h, 2 * m1, m), |h|)
  {
    hide WindowSum, Filtered;
    SecondStage(h1, h2, m1, x, imag, Start(h2, 2, m), |h2|);
    CascadeIsNested(h1, h2, m1, x, imag, Start(h2, 2, m) * m1 - (|h1| - 1), |h2|);
    Modulo.SubMul(m * 2, |h2| - 1, m1);
    assert m * (2 * m1) == (m * 2) * m1;
  }

  /** The response table the constructor sums for the noise bandwidth. */
  method CascadeResponse(h1: seq<real>, h2: seq<real>, m1: nat) returns (h: array<real>)
    requires |h2| > 0
    ensures h[..] == Cascade(h1, h2, m1)
  {
    h := new real[CascadeLength(h1, h2, m1)](i => 0.0);
    for j := 0 to |h2|
      invariant forall n: nat | n < h.Length :: h[n] == CascadeTap(h1, h2, m1, n, j)
    {
      RowFits(|h2|, j, m1);
      for i := 0 to |h1|
        invariant forall n: nat | n < h.Length ::
          h[n] == if j * m1 <= n < i + j * m1 then CascadeTap(h1, h2, m1, n, j + 1) else CascadeTap(h1, h2, m1, n, j)
      {
        h[i + j * m1] := h[i + j * m1] + h1[i] * h2[j];
      }
      forall n: nat | n < h.Length && !(j * m1 <= n < |h1| + j * m1)
        ensures CascadeTap(h1, h2, m1, n, j + 1) == CascadeTap(h1, h2, m1, n, j)
      {
        assert Mul(h2[j], 0.0) == 0.0;
      }
    }
  }

  // Mixing.

  function Times(a: Sample, b: Sample): Sample {
    Sample(a.re * b.re - a.im * b.im, a.re * b.im + a.im * b.re)
  }

  /** The product of complex numbers: one is neutral, i squared is minus one, and it associates and distributes. */
  lemma TimesAlgebra(a: Sample, b: Sample, c: Sample)
    ensures Times(Sample(1.0, 0.0), b) == b && Times(Sample(0.0, 1.0), Sample(0.0, 1.0)) == Sample(-1.0, 0.0)
    ensures Times(Times(a, b), c) == Times(a, Times(b, c))
    ensures Times(Sample(a.re + b.re, a.im + b.im), c) == Sample(Times(a, c).re + Times(b, c).re, Times(a, c).im + Times(b, c).im)
    ensures Times(a, b) == Times(b, a)
  {
    FourTerms(a.re, a.im, b.re, b.im, c.re, c.im);
  }

  lemma FourTerms(p: real, q: real, r: real, s: real, t: real, u: real)
    ensures (p * r - q * s) * t - (p * s + q * r) * u == p * (r * t - s * u) - q * (r * u + s * t)
    ensures (p * r - q * s) * u + (p * s + q * r) * t == p * (r * u + s * t) + q * (r * t - s * u)
  {
  }

  /** One sample of the mixed stream: the oscillator's period repeats for ever; without one the input passes. */
  function MixedAt(osc: seq<Sample>, v: Sample, n: nat): Sample {
    if |osc| == 0 then v else Times(v, osc[n % |osc|])
  }

  function MixedFrom(osc: seq<Sample>, x: seq<Sample>, from: nat): (y: seq<Sample>)
    ensures |y| == |x| && forall k: nat | k < |x| :: y[k] == MixedAt(osc, x[k], from + k)
  {
    seq(|x|, k requires 0 <= k < |x| => MixedAt(osc, x[k], from + k))
  }

  function Mixed(osc: seq<Sample>, x: seq<Sample>): seq<Sample> {
    MixedFrom(osc, x, 0)
  }

  lemma MixedSplit(osc: seq<Sample>, x: seq<Sample>, more: seq<Sample>)
    ensures Mixed(osc, x + more) == Mixed(osc, x) + MixedFrom(osc, more, |x|)
  {
  }

  lemma Unmixed(x: seq<Sample>, n: nat)
    ensures MixedFrom([], x, n) == x
  {
  }

  const LEAST_TABLE: nat := 1024

  /** How often the period is written out so that the table has at least 1024 entries. */
  function Repeats(period: nat): (r: nat)
    requires period > 0
    ensures r > 0
  {
    CeilDivBounds(LEAST_TABLE, period);
    CeilDiv(LEAST_TABLE, period)
  }

  function TableOf(osc: seq<Sample>): (t: seq<Sample>)
    requires |osc| > 0
    ensures |t| == |osc| * Repeats(|osc|) && |t| >= |osc| && 1024 <= |t| < 1024 + |osc|
  {
    CeilDivBounds(LEAST_TABLE, |osc|);
    Modulo.MulAtLeast(Repeats(|osc|), |osc|);
    seq(|osc| * Repeats(|osc|), k requires 0 <= k => osc[k % |osc|])
  }

  /** Walking the long table is walking the short period. */
  lemma TableWalk(osc: seq<Sample>, n: nat)
    requires |osc| > 0
    ensures var t := TableOf(osc); t[n % |t|] == osc[n % |osc|]
  {
    var p, r := |osc|, Repeats(|osc|);
    var q := Modulo.Quotient(n, p * r);
    var m := n % (p * r);
    assert q * (p * r) == (q * r) * p;
    Modulo.ModMultiple(m, q * r, p);
  }

  lemma StepPosition(pos: nat, n: nat, k: nat, size: nat)
    requires size > 0 && pos == n % size && pos + k <= size
    ensures (n + k) % size == if pos + k == size then 0 else pos + k
  {
    var q := Modulo.Quotient(n, size);
    Modulo.SubMul(q, 1, size);
    if pos + k == size {
      Modulo.ModUnique(n + k, q + 1, size, 0);
    } else {
      Modulo.ModUnique(n + k, q, size, pos + k);
    }
  }

  lemma NothingFed(osc: seq<Sample>)
    ensures Mixed(osc, []) == [] && (|osc| > 0 ==> |TableOf(osc)| > 0 && 0 % |TableOf(osc)| == 0)
  {
    if |osc| > 0 { Modulo.ModSmall(0, |TableOf(osc)|); }
  }

  lemma NothingFiltered(taps: seq<real>, decim: nat)
    requires decim > 0
    ensures Filtered(taps, decim, []) == []
  {
    CeilDivUnique(0, decim, 0);
  }

  lemma MixedIs(osc: seq<Sample>, v: Sample, n: nat)
    requires |osc| > 0
    ensures MixedAt(osc, v, n) == Times(v, TableOf(osc)[n % |TableOf(osc)|])
  {
    hide TableOf;
    TableWalk(osc, n);
  }

  class Ddc {
    const passthrough: bool
    const useSt1: bool
    const m1: nat
    const osc: seq<Sample>
    const nco: seq<Sample>
    const st1: DecimatingFir?
    const st2: DecimatingFir?
    var ncoPos: nat
    ghost var fed: seq<Sample>

    /** ratio = fs_in / fs_out; the filter designs and one oscillator period come from outside. */
    constructor (ratio: nat, h1: seq<real>, h2: seq<real>, osc: seq<Sample>)
      requires ratio == 1 ==> osc == []
      requires ratio > 1 ==> ratio % 2 == 0 && |h1| > 0 && |h2| > 0
      requires ratio > 0
      ensures Valid() && fed == [] && this.osc == osc && fresh(Parts())
      ensures passthrough == (ratio == 1) && (!passthrough ==> useSt1 == (ratio > 2) && m1 == ratio / 2)
      ensures st2 != null ==> st2.taps == Padded(h2)
      ensures st1 != null ==> st1.taps == Padded(h1)
    {
      hide Filtered, Mixed, MixedFrom, TableOf, Pending, DecimatingFir.Valid, CeilDiv, Repeats;
      passthrough := ratio == 1;
      useSt1 := ratio > 2;
      m1 := ratio / 2;
      this.osc := osc;
      nco := if |osc| > 0 then TableOf(osc) else [];
      ncoPos := 0;
      fed := [];
      if ratio > 2 {
        var f1 := new DecimatingFir(h1, ratio / 2);
        st1 := f1;
      } else {
        st1 := null;
      }
      if ratio > 1 {
        var f2 := new DecimatingFir(h2, 2);
        st2 := f2;
      } else {
        st2 := null;
      }
      new;
      NothingFed(osc);
      if st1 != null { NothingFiltered(st1.taps, m1); }
    }

    ghost function Parts(): set<object> {
      (if st1 != null then {st1} else {}) + (if st2 != null then {st2} else {})
    }

    ghost predicate Valid()
      reads this, Parts()
    {
      && (|osc| > 0 ==> nco == TableOf(osc) && ncoPos == |fed| % |nco|)
      && (passthrough ==> osc == [])
      && (!passthrough ==> st2 != null && st2.Valid() && st2.decim == 2 && st1 != st2)
      && (!passthrough && useSt1 ==> st1 != null && st1.Valid() && st1.decim == m1 && st1.fed == Mixed(osc, fed))
      && (!passthrough && useSt1 ==> st2.fed == Filtered(st1.taps, m1, Mixed(osc, fed)))
      && (!passthrough && !useSt1 ==> st2.fed == Mixed(osc, fed))
    }

    /** One convolution of the whole mixed stream. */
    ghost function Converted(x: seq<Sample>): seq<Sample>
      requires !passthrough ==> st2 != null && |st2.taps| > 0
      requires !passthrough && useSt1 ==> st1 != null && m1 > 0
    {
      if passthrough then x
      else if useSt1 then Filtered(Cascade(st1.taps, st2.taps, m1), 2 * m1, Mixed(osc, x))
      else Filtered(st2.taps, 2, Mixed(osc, x))
    }

    method Mix(input: seq<Sample>) returns (mixed: array<Sample>)
      requires |osc| > 0 && nco == TableOf(osc) && ncoPos == |fed| % |nco|
      modifies `ncoPos
      ensures fresh(mixed) && mixed[..] == MixedFrom(osc, input, |fed|)
      ensures ncoPos == (|fed| + |input|) % |nco|
    {
      mixed := new Sample[|input|](i => ZERO);
      hide MixedAt, MixedFrom, TableOf;
      var i: nat := 0;
      while i < |input|
        invariant i <= |input| && ncoPos < |nco| && ncoPos == (|fed| + i) % |nco|
        invariant forall k: nat | k < i :: mixed[k] == MixedAt(osc, input[k], |fed| + k)
      {
        ghost var pos := ncoPos;
        var span: nat := if |input| - i < |nco| - ncoPos then |input| - i else |nco| - ncoPos;
        for k := 0 to span
          invariant ncoPos == pos
          invariant forall l: nat | l < i + k :: mixed[l] == MixedAt(osc, input[l], |fed| + l)
        {
          StepPosition(ncoPos, |fed| + i, k, |nco|);
          MixedIs(osc, input[i + k], |fed| + i + k);
          mixed[i + k] := Times(input[i + k], nco[ncoPos + k]);
        }
        StepPosition(ncoPos, |fed| + i, span, |nco|);
        i := i + span;
        ncoPos := ncoPos + span;
        if ncoPos == |nco| {
          ncoPos := 0;
        }
      }
    }

    /** Any chunk size: the outputs of all calls together are one convolution of everything fed. */
    method Process(input: seq<Sample>) returns (out: seq<Sample>)
      requires Valid()
      modifies this, Parts()
      ensures Valid() && fed == old(fed) + input
      ensures Converted(fed) == Converted(old(fed)) + out
    {
      MixedSplit(osc, fed, input);
      hide Filtered, Mixed, MixedFrom, TableOf, Cascade, Pending, CeilDiv, MixedAt;
      if passthrough {
        fed := fed + input;
        return input;
      }
      var src := input;
      if |osc| > 0 {
        var mixed := Mix(input);
        src := mixed[..];
      }
      Unmixed(input, |fed|);
      assert src == MixedFrom(osc, input, |fed|);
      if useSt1 {
        var mid := st1.Process(src);
        out := st2.Process(mid);
        TwoStagesAreOne(st1.taps, st2.taps, m1, Mixed(osc, fed));
        TwoStagesAreOne(st1.taps, st2.taps, m1, Mixed(osc, fed + input));
      } else {
        out := st2.Process(src);
      }
      fed := fed + input;
    }
  }
}
