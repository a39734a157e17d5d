/** A decimating filter fed in chunks equals one convolution of the whole
    stream with zero history. */
module Fir {
  import opened Numbers
  import Modulo

  /** A complex baseband sample. */
  datatype Sample = Sample(re: real, im: real)

  const ZERO := Sample(0.0, 0.0)

  /** One component of a sample of a stream that is zero before its start. */
  function At(x: seq<Sample>, i: int, imag: bool): real {
    if 0 <= i < |x| then (if imag then x[i].im else x[i].re) else 0.0
  }

  /** The first n products of a window that starts at position pos. */
  function WindowSum(taps: seq<real>, x: seq<Sample>, imag: bool, pos: int, n: nat): real
    requires n <= |taps|
  {
    if n == 0 then 0.0 else WindowSum(taps, x, imag, pos, n - 1) + Mul(taps[n - 1], At(x, pos + n - 1, imag))
  }

  function Windowed(taps: seq<real>, x: seq<Sample>, pos: int): Sample {
    Sample(WindowSum(taps, x, false, pos, |taps|), WindowSum(taps, x, true, pos, |taps|))
  }

  /** Where the window of output m starts: its last tap meets sample m * decim. */
  function Start(taps: seq<real>, decim: nat, m: nat): int {
    m * decim - (|taps| - 1)
  }

  /** Filter the whole stream at once and keep every decim-th output. */
  function Filtered(taps: seq<real>, decim: nat, x: seq<Sample>): (y: seq<Sample>)
    requires decim > 0
    ensures |y| == CeilDiv(|x|, decim)
  {
    seq(CeilDiv(|x|, decim), m requires 0 <= m => Windowed(taps, x, Start(taps, decim, m)))
  }

  ghost predicate SameAt(x: seq<Sample>, p: int, y: seq<Sample>, q: int, imag: bool, k: nat) {
    At(x, p + k, imag) == At(y, q + k, imag)
  }

  lemma {:induction false} SameWindow(taps: seq<real>, x: seq<Sample>, y: seq<Sample>, imag: bool, p: int, q: int, n: nat)
    requires n <= |taps| && forall k: nat | k < n :: SameAt(x, p, y, q, imag, k)
    ensures WindowSum(taps, x, imag, p, n) == WindowSum(taps, y, imag, q, n)
  {
    if n > 0 {
      SameWindow(taps, x, y, imag, p, q, n - 1);
      assert SameAt(x, p, y, q, imag, n - 1);
    }
  }

  /** A window inside the first part of a stream does not see the rest. */
  lemma WindowKept(taps: seq<real>, x: seq<Sample>, more: seq<Sample>, pos: int)
    requires pos + |taps| <= |x|
    ensures Windowed(taps, x + more, pos) == Windowed(taps, x, pos)
  {
    SameWindow(taps, x + more, x, false, pos, pos, |taps|);
    SameWindow(taps, x + more, x, true, pos, pos, |taps|);
  }

  /** A window cut out of the stream after its leading zeros. */
  lemma WindowCut(taps: seq<real>, x: seq<Sample>, window: seq<Sample>, pos: int)
    requires |taps| > 0 && 0 <= pos + |taps| - 1 && pos + |taps| <= |x|
    requires window == (Zeros(|taps| - 1) + x)[pos + |taps| - 1..pos + |taps| - 1 + |taps|]
    ensures Windowed(taps, window, 0) == Windowed(taps, x, pos)
  {
    forall k: nat, imag: bool | k < |taps| ensures SameAt(window, 0, x, pos, imag, k) {
      assert window[k] == (Zeros(|taps| - 1) + x)[pos + |taps| - 1 + k];
    }
    SameWindow(taps, window, x, false, 0, pos, |taps|);
    SameWindow(taps, window, x, true, 0, pos, |taps|);
  }

  function CeilDiv(n: nat, d: nat): (r: nat)
    requires d > 0
  {
    (n + d - 1) / d
  }

  lemma CeilDivBounds(n: nat, d: nat)
    requires d > 0
    ensures n <= CeilDiv(n, d) * d < n + d
  {
    var q := Modulo.Quotient(n + d - 1, d);
  }

  lemma CeilDivUnique(n: nat, d: nat, r: nat)
    requires d > 0 && n <= r * d < n + d
    ensures r == CeilDiv(n, d)
  {
    CeilDivBounds(n, d);
    var c := CeilDiv(n, d);
    if r < c { MulBelow(r, c, d); }
    if c < r { MulBelow(c, r, d); }
  }

  lemma MulBelow(a: nat, b: nat, d: nat)
    requires a < b
    ensures a * d + d <= b * d
  {
    Modulo.SubMul(b, a, d);
    Modulo.MulAtLeast(b - a, d);
  }

  lemma OutputInside(m: nat, n: nat, d: nat)
    requires d > 0 && m < CeilDiv(n, d)
    ensures m * d < n
  {
    CeilDivBounds(n, d);
    MulBelow(m, CeilDiv(n, d), d);
  }

  lemma OutputOutside(m: nat, n: nat, d: nat)
    requires d > 0 && m >= CeilDiv(n, d)
    ensures m * d >= n
  {
    CeilDivBounds(n, d);
    if m > CeilDiv(n, d) { MulBelow(CeilDiv(n, d), m, d); }
  }

  lemma OutputMonotone(n: nat, n': nat, d: nat)
    requires d > 0 && n <= n'
    ensures CeilDiv(n, d) <= CeilDiv(n', d)
  {
    var c, c' := CeilDiv(n, d), CeilDiv(n', d);
    CeilDivBounds(n, d);
    CeilDivBounds(n', d);
    if c' < c { MulBelow(c', c, d); }
  }

  /** What has been emitted stays right however the stream goes on. */
  lemma FilteredPrefix(taps: seq<real>, decim: nat, x: seq<Sample>, more: seq<Sample>)
    requires decim > 0 && |taps| > 0
    ensures Filtered(taps, decim, x) <= Filtered(taps, decim, x + more)
  {
    var y, z := Filtered(taps, decim, x), Filtered(taps, decim, x + more);
    OutputMonotone(|x|, |x + more|, decim);
    forall m: nat | m < |y| ensures z[m] == y[m] {
      OutputInside(m, |x|, decim);
      WindowKept(taps, x, more, Start(taps, decim, m));
    }
    assert z[..|y|] == y;
  }

  function Zeros(n: nat): (z: seq<Sample>)
    ensures |z| == n && forall i: nat | i < n :: z[i] == ZERO
  {
    seq(n, i => ZERO)
  }

  /** The buffer holds the end of the zero-history stream, and output m's window starts at the phase. */
  ghost predicate Pending(taps: seq<real>, decim: nat, fed: seq<Sample>, buf: seq<Sample>, phase: nat, m: nat) {
    && |taps| > 0 && decim > 0
    && |buf| <= |taps| - 1 + |fed|
    && buf == (Zeros(|taps| - 1) + fed)[|taps| - 1 + |fed| - |buf|..]
    && |fed| - |buf| + phase == Start(taps, decim, m)
  }

  lemma NextOutput(taps: seq<real>, decim: nat, fed: seq<Sample>, buf: seq<Sample>, phase: nat, m: nat)
    requires Pending(taps, decim, fed, buf, phase, m) && phase + |taps| <= |buf|
    ensures m < CeilDiv(|fed|, decim)
    ensures Windowed(taps, buf[phase..phase + |taps|], 0) == Filtered(taps, decim, fed)[m]
    ensures Pending(taps, decim, fed, buf, phase + decim, m + 1)
  {
    if m >= CeilDiv(|fed|, decim) { OutputOutside(m, |fed|, decim); }
    Modulo.SubMul(m, 1, decim);
    WindowCut(taps, fed, buf[phase..phase + |taps|], Start(taps, decim, m));
  }

  lemma NoOutput(taps: seq<real>, decim: nat, fed: seq<Sample>, buf: seq<Sample>, phase: nat, m: nat)
    requires Pending(taps, decim, fed, buf, phase, m) && phase + |taps| > |buf| && m <= CeilDiv(|fed|, decim)
    ensures m == CeilDiv(|fed|, decim)
  {
    if m < CeilDiv(|fed|, decim) { OutputInside(m, |fed|, decim); }
  }

  lemma Fed(taps: seq<real>, decim: nat, fed: seq<Sample>, buf: seq<Sample>, phase: nat, m: nat, input: seq<Sample>)
    requires Pending(taps, decim, fed, buf, phase, m)
    ensures Pending(taps, decim, fed + input, buf + input, phase, m)
  {
    var z := Zeros(|taps| - 1);
    assert z + (fed + input) == (z + fed) + input;
  }

  lemma Dropped(taps: seq<real>, decim: nat, fed: seq<Sample>, buf: seq<Sample>, phase: nat, m: nat, drop: nat)
    requires Pending(taps, decim, fed, buf, phase, m) && drop <= phase && drop <= |buf|
    ensures Pending(taps, decim, fed, buf[drop..], phase - drop, m)
  {
  }

  lemma OneMore(before: seq<Sample>, out: seq<Sample>, y: Sample, want: seq<Sample>, m: nat)
    requires m < |want| && before + out == want[..m] && y == want[m]
    ensures before + (out + [y]) == want[..m + 1]
  {
  }

  /** Zeros up to a multiple of four taps. */
  function Padded(h: seq<real>): (r: seq<real>)
    ensures |r| % 4 == 0 && |h| <= |r| < |h| + 4 && h <= r
    ensures forall k: nat | |h| <= k < |r| :: r[k] == 0.0
  {
    h + seq((4 - |h| % 4) % 4, i => 0.0)
  }

  /** A filter with history carried across calls. */
  class DecimatingFir {
    const taps: seq<real>
    const decim: nat
    var buf: seq<Sample>
    var phase: nat
    /** Everything fed since the last reset. */
    ghost var fed: seq<Sample>

    /** The taps padded with zeros to a multiple of four. */
    constructor (prototype: seq<real>, decim: nat)
      requires |prototype| > 0 && decim > 0
      ensures Valid() && fed == [] && this.decim == decim
      ensures taps == Padded(prototype)
    {
      this.taps := Padded(prototype);
      this.decim := decim;
      new;
      Reset();
    }

    ghost predicate Valid()
      reads this
    {
      |taps| > 0 && decim > 0 && Pending(taps, decim, fed, buf, phase, CeilDiv(|fed|, decim))
    }

    method Reset()
      requires |taps| > 0 && decim > 0
      modifies this
      ensures Valid() && fed == []
    {
      buf, phase, fed := Zeros(|taps| - 1), 0, [];
      CeilDivUnique(0, decim, 0);
    }

    /** The outputs of all calls together are the filtered stream. */
    method Process(input: seq<Sample>) returns (out: seq<Sample>)
      requires Valid()
      modifies this
      ensures Valid() && fed == old(fed) + input
      ensures Filtered(taps, decim, fed) == Filtered(taps, decim, old(fed)) + out
    {
      ghost var before, want := Filtered(taps, decim, fed), Filtered(taps, decim, fed + input);
      ghost var m: nat := |before|;
      assert decim > 0 && |taps| > 0;
      FilteredPrefix(taps, decim, fed, input);
      Fed(taps, decim, fed, buf, phase, m, input);
      hide Filtered, Windowed, Start, Pending, CeilDiv;
      buf := buf + input;
      fed := fed + input;
      ghost var all := fed;
      out := [];
      while phase + |taps| <= |buf|
        invariant fed == all && Pending(taps, decim, all, buf, phase, m)
        invariant m <= |want| && before + out == want[..m]
        decreases |buf| - phase + |taps|
      {
        NextOutput(taps, decim, all, buf, phase, m);
        var window := buf[phase..phase + |taps|];
        var y := DotReal(window);
        OneMore(before, out, y, want, m);
        out := out + [y];
        phase := phase + decim;
        m := m + 1;
      }
      NoOutput(taps, decim, all, buf, phase, m);
      assert want[..m] == want;
      DropUsed(m);
    }

    /** Forget the samples no later window reaches. */
    method DropUsed(ghost m: nat)
      requires Pending(taps, decim, fed, buf, phase, m)
      modifies `buf, `phase
      ensures Pending(taps, decim, fed, buf, phase, m)
    {
      hide Pending;
      var drop := if phase < |buf| then phase else |buf|;
      Dropped(taps, decim, fed, buf, phase, m, drop);
      buf := buf[drop..];
      phase := phase - drop;
    }

    method DotReal(window: seq<Sample>) returns (y: Sample)
      requires |window| == |taps|
      ensures y == Windowed(taps, window, 0)
    {
      var re, im := 0.0, 0.0;
      for k := 0 to |taps|
        invariant re == WindowSum(taps, window, false, 0, k) && im == WindowSum(taps, window, true, 0, k)
      {
        re := re + taps[k] * window[k].re;
        im := im + taps[k] * window[k].im;
      }
      y := Sample(re, im);
    }
  }
}
