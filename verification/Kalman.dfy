/** The carrier filter over exact reals, and why its covariance stays a covariance. */
module Kalman {
  import opened Numbers

  /** The symmetric covariance [p00 p01; p01 p11]. */
  datatype Cov = Cov(p00: real, p01: real, p11: real)

  /** Time in symbols, carrier in chips, weight. */
  datatype Obs = Obs(t: real, y: real, w: real)

  datatype Clock = Clock(cov: Cov, t: real)

  datatype Filter = Filter(clock: Clock, f: real, fd: real, cost: real)

  datatype Gain = Gain(dt: real, k0: real, k1: real, sv: real)

  /** Model error between a point and a block average, chips squared: 0.03 * 0.03. */
  const OBS_FLOOR: real := 0.0009
  const LEAST_WEIGHT: real := 0.000000001

  function Square(x: real): (r: real)
    ensures r >= 0.0
  {
    x * x
  }

  ghost predicate Psd(c: Cov) {
    c.p00 >= 0.0 && c.p11 >= 0.0 && Square(c.p01) <= c.p00 * c.p11
  }

  /** F P F' for a step of dt. */
  function Propagate(c: Cov, dt: real): Cov {
    Cov(c.p00 + 2.0 * dt * c.p01 + dt * dt * c.p11, c.p01 + dt * c.p11, c.p11)
  }

  /** What white acceleration of intensity q adds over dt. */
  function Diffusion(dt: real, q: real): Cov {
    Cov(q * dt * dt * dt / 3.0, q * dt * dt / 2.0, q * dt)
  }

  function Add(a: Cov, b: Cov): Cov {
    Cov(a.p00 + b.p00, a.p01 + b.p01, a.p11 + b.p11)
  }

  function Predict(c: Cov, dt: real, q: real): Cov {
    Add(Propagate(c, dt), Diffusion(dt, q))
  }

  /** Variance of one observation. */
  function Noise(w: real): (r: real)
    ensures r > OBS_FLOOR
  {
    1.0 / (if w < LEAST_WEIGHT then LEAST_WEIGHT else w) + OBS_FLOOR
  }

  /** a / b; no run of the filter over ordered observations divides by zero (`RunGains`). */
  function Ratio(a: real, b: real): real {
    if b == 0.0 then 0.0 else a / b
  }

  function GainAt(clock: Clock, z: Obs, q: real): Gain {
    var dt := z.t - clock.t;
    var a := Predict(clock.cov, dt, q);
    var sv := a.p00 + Noise(z.w);
    Gain(dt, Ratio(a.p00, sv), Ratio(a.p01, sv), sv)
  }

  function Update(a: Cov, k0: real, k1: real): Cov {
    Cov(a.p00 - k0 * a.p00, a.p01 - k0 * a.p01, a.p11 - k1 * a.p01)
  }

  function Tick(clock: Clock, z: Obs, q: real): Clock {
    var g := GainAt(clock, z, q);
    Clock(Update(Predict(clock.cov, g.dt, q), g.k0, g.k1), z.t)
  }

  function Ahead(f: real, fd: real, dt: real): real {
    f + fd * dt
  }

  function Corrected(x: real, k: real, nu: real): real {
    x + k * nu
  }

  /** One observation folded into the state; the cost grows by the normalised squared innovation. */
  function Step(s: Filter, z: Obs, q: real): Filter {
    var g := GainAt(s.clock, z, q);
    var f := Ahead(s.f, s.fd, g.dt);
    var nu := z.y - f;
    Filter(Tick(s.clock, z, q), Corrected(f, g.k0, nu), Corrected(s.fd, g.k1, nu), s.cost + Ratio(Square(nu), g.sv))
  }

  function Run(s: Filter, zs: seq<Obs>, q: real): Filter {
    if |zs| == 0 then s else Step(Run(s, zs[..|zs| - 1], q), zs[|zs| - 1], q)
  }

  /** Observation times do not go back, starting from t. */
  ghost predicate Ordered(zs: seq<Obs>, t: real) {
    && (forall i: nat | i < |zs| :: t <= zs[i].t)
    && (forall i: nat, j: nat | i < j < |zs| :: zs[i].t <= zs[j].t)
  }

  /** A covariance, and gains that can be used. */
  ghost predicate GainValid(g: Gain) {
    g.dt >= 0.0 && g.sv > 0.0 && 0.0 <= g.k0 < 1.0
  }

  lemma SquareBound(x: real, y: real)
    requires x >= 0.0 && Square(y) <= Square(x)
    ensures y <= x && -y <= x
  {
    if y > x {
      StrictSquare(x, y);
    } else if -y > x {
      StrictSquare(x, -y);
    }
  }

  lemma StrictSquare(x: real, y: real)
    requires 0.0 <= x < y
    ensures x * x < y * y
  {
    assert (y - x) * y > 0.0;
    assert (y - x) * x >= 0.0;
  }

  lemma NonnegativeFactor(x: real, y: real)
    requires y > 0.0 && x * y >= 0.0
    ensures x >= 0.0
  {
  }

  lemma ProductMonotone(a: real, b: real, c: real, d: real)
    requires 0.0 <= a <= b && 0.0 <= c <= d
    ensures a * c <= b * d
  {
    assert a * c <= b * c;
    assert b * c <= b * d;
  }

  /** The cross term of a sum: a01 b01 is at most the mean of a00 b11 and a11 b00. */
  lemma CrossTerm(a: Cov, b: Cov)
    requires Psd(a) && Psd(b)
    ensures 2.0 * (a.p01 * b.p01) <= a.p00 * b.p11 + a.p11 * b.p00
  {
    var u, v, y := a.p00 * b.p11, a.p11 * b.p00, a.p01 * b.p01;
    ProductNonnegative(a.p00, b.p11);
    ProductNonnegative(a.p11, b.p00);
    assert Square(y) <= u * v by {
      ProductMonotone(Square(a.p01), a.p00 * a.p11, Square(b.p01), b.p00 * b.p11);
      SquareOfProduct(a.p01, b.p01);
      Shuffle(a.p00, a.p11, b.p00, b.p11);
    }
    MeanBound(u, v, y);
  }

  lemma SquareOfProduct(x: real, y: real)
    ensures Square(x * y) == Square(x) * Square(y)
  {
    assert (x * y) * (x * y) == (x * x) * (y * y);
  }

  lemma Shuffle(a: real, b: real, c: real, d: real)
    ensures (a * b) * (c * d) == (a * d) * (b * c)
  {
  }

  lemma MeanBound(u: real, v: real, y: real)
    requires u >= 0.0 && v >= 0.0 && Square(y) <= u * v
    ensures 2.0 * y <= u + v
  {
    assert 4.0 * (u * v) <= Square(u + v) by {
      assert Square(u - v) >= 0.0;
      assert Square(u + v) - Square(u - v) == 4.0 * (u * v);
    }
    assert Square(2.0 * y) == 4.0 * Square(y);
    SquareBound(u + v, 2.0 * y);
  }

  lemma AddPsd(a: Cov, b: Cov)
    requires Psd(a) && Psd(b)
    ensures Psd(Add(a, b))
  {
    CrossTerm(a, b);
    SumOfSquares(a.p01, b.p01);
    assert (a.p00 + b.p00) * (a.p11 + b.p11) == a.p00 * a.p11 + a.p00 * b.p11 + (b.p00 * a.p11 + b.p00 * b.p11);
  }

  lemma SumOfSquares(x: real, y: real)
    ensures Square(x + y) == Square(x) + 2.0 * (x * y) + Square(y)
  {
  }

  lemma DiffusionPsd(dt: real, q: real)
    requires dt >= 0.0 && q >= 0.0
    ensures Psd(Diffusion(dt, q))
  {
    var e := q * dt;
    var d := e * dt;
    var c := d * dt;
    ProductNonnegative(q, dt);
    ProductNonnegative(e, dt);
    ProductNonnegative(d, dt);
    assert Diffusion(dt, q) == Cov(c / 3.0, d / 2.0, e);
    assert c * e == d * d by {
      assert (d * dt) * e == d * (e * dt);
    }
    assert (c / 3.0) * e == (c * e) / 3.0;
    assert Square(d / 2.0) == (d * d) / 4.0;
  }

  /** The determinant does not change under the propagation. */
  lemma PropagatePsd(c: Cov, dt: real)
    requires Psd(c)
    ensures Psd(Propagate(c, dt))
  {
    var m := c.p01 + dt * c.p11;
    var a := c.p00 + 2.0 * dt * c.p01 + dt * dt * c.p11;
    Determinant(c, dt);
    if c.p11 == 0.0 {
      SquareBound(0.0, c.p01);
    } else {
      NonnegativeFactor(a, c.p11);
    }
  }

  lemma Determinant(c: Cov, dt: real)
    ensures (c.p00 + 2.0 * dt * c.p01 + dt * dt * c.p11) * c.p11 == Square(c.p01 + dt * c.p11) + (c.p00 * c.p11 - Square(c.p01))
  {
    var x, y, z := c.p00, c.p01, c.p11;
    Distribute(x, 2.0 * dt * y, dt * dt * z, z);
    SumOfSquares(y, dt * z);
    assert (dt * dt * z) * z == (dt * z) * (dt * z);
    assert (2.0 * dt * y) * z == 2.0 * (y * (dt * z));
  }

  lemma Distribute(x: real, y: real, z: real, w: real)
    ensures (x + y + z) * w == x * w + y * w + z * w
  {
  }

  lemma PredictPsd(c: Cov, dt: real, q: real)
    requires Psd(c) && dt >= 0.0 && q >= 0.0
    ensures Psd(Predict(c, dt, q))
  {
    PropagatePsd(c, dt);
    DiffusionPsd(dt, q);
    AddPsd(Propagate(c, dt), Diffusion(dt, q));
  }

  lemma RatioOf(a: real, b: real)
    requires b > 0.0
    ensures Ratio(a, b) * b == a
  {
  }

  /** Conditioning on an observation keeps a covariance: the determinant shrinks
      by the factor 1 - k0 and the variances do not grow. */
  lemma UpdatePsd(a: Cov, noise: real, sv: real, k0: real, k1: real)
    requires Psd(a) && noise > 0.0 && sv == a.p00 + noise && k0 * sv == a.p00 && k1 * sv == a.p01
    ensures 0.0 <= k0 < 1.0 && Psd(Update(a, k0, k1))
    ensures Update(a, k0, k1).p00 <= a.p00 && Update(a, k0, k1).p11 <= a.p11
  {
    var c := Update(a, k0, k1);
    GainInRange(a.p00, noise, sv, k0);
    var u := 1.0 - k0;
    assert c.p00 == u * a.p00 && c.p01 == u * a.p01;
    ProductNonnegative(u, a.p00);
    DriftUpdate(a, noise, sv, k1);
    UpdatedDeterminant(a, sv, k0, k1);
    var det := a.p00 * a.p11 - Square(a.p01);
    ProductNonnegative(u, det);
    assert Square(c.p01) == u * (u * Square(a.p01)) by { SquareOfProduct(u, a.p01); }
    assert c.p00 * c.p11 == u * (a.p00 * c.p11);
    assert u * (a.p00 * c.p11) - u * (u * Square(a.p01)) == u * det;
    ProductNonnegative(k0, a.p00);
  }

  lemma GainInRange(p: real, noise: real, sv: real, k: real)
    requires p >= 0.0 && noise > 0.0 && sv == p + noise && k * sv == p
    ensures 0.0 <= k < 1.0
  {
    NonnegativeFactor(k, sv);
    assert (1.0 - k) * sv == noise;
    NonnegativeFactor(1.0 - k, sv);
  }

  lemma DriftUpdate(a: Cov, noise: real, sv: real, k1: real)
    requires Psd(a) && noise > 0.0 && sv == a.p00 + noise && k1 * sv == a.p01
    ensures 0.0 <= a.p11 - k1 * a.p01 <= a.p11
  {
    var c := a.p11 - k1 * a.p01;
    assert k1 * a.p01 >= 0.0 by {
      assert (k1 * a.p01) * sv == Square(a.p01);
      NonnegativeFactor(k1 * a.p01, sv);
    }
    assert c * sv == a.p11 * sv - (k1 * a.p01) * sv;
    assert (k1 * a.p01) * sv == Square(a.p01);
    assert a.p11 * sv == a.p00 * a.p11 + a.p11 * noise;
    ProductNonnegative(a.p11, noise);
    NonnegativeFactor(c, sv);
  }

  lemma UpdatedDeterminant(a: Cov, sv: real, k0: real, k1: real)
    requires sv > 0.0 && k0 * sv == a.p00 && k1 * sv == a.p01
    ensures a.p00 * (a.p11 - k1 * a.p01) - (1.0 - k0) * Square(a.p01) == a.p00 * a.p11 - Square(a.p01)
  {
    assert a.p00 * (k1 * a.p01) == k0 * Square(a.p01) by {
      assert a.p00 * (k1 * a.p01) == (k0 * sv) * (k1 * a.p01) == k0 * ((k1 * sv) * a.p01);
    }
  }

  lemma GainParts(clock: Clock, z: Obs, q: real, g: Gain, a: Cov)
    requires g == GainAt(clock, z, q) && a == Predict(clock.cov, g.dt, q)
    ensures g.dt == z.t - clock.t && g.sv == a.p00 + Noise(z.w) && g.k0 == Ratio(a.p00, g.sv) && g.k1 == Ratio(a.p01, g.sv)
    ensures Tick(clock, z, q) == Clock(Update(a, g.k0, g.k1), z.t)
  {
    hide Predict, Ratio, Noise, Update;
  }

  /** One observation: a usable gain, and a covariance again. */
  lemma StepValid(clock: Clock, z: Obs, q: real)
    requires Psd(clock.cov) && clock.t <= z.t && q >= 0.0
    ensures GainValid(GainAt(clock, z, q)) && Psd(Tick(clock, z, q).cov)
  {
    var g := GainAt(clock, z, q);
    var a := Predict(clock.cov, g.dt, q);
    GainParts(clock, z, q, g, a);
    PredictPsd(clock.cov, g.dt, q);
    PsdDiagonal(a);
    hide Psd, Predict, Update, GainAt, Tick, Ratio, Noise;
    RatioOf(a.p00, g.sv);
    RatioOf(a.p01, g.sv);
    UpdatePsd(a, Noise(z.w), g.sv, g.k0, g.k1);
  }

  lemma PsdDiagonal(a: Cov)
    requires Psd(a)
    ensures a.p00 >= 0.0
  {
  }

  lemma StepClock(b: Filter, z: Obs, q: real)
    ensures Step(b, z, q).clock == Tick(b.clock, z, q) && Tick(b.clock, z, q).t == z.t
  {
    hide GainAt, Predict, Update, Ratio;
  }

  /** Over any run of time-ordered observations the covariance stays valid and the cost never falls. */
  lemma {:induction false} RunValid(s: Filter, zs: seq<Obs>, q: real)
    requires Psd(s.clock.cov) && Ordered(zs, s.clock.t) && q >= 0.0
    ensures var r := Run(s, zs, q);
            Psd(r.clock.cov) && r.cost >= s.cost && r.clock.t == if |zs| == 0 then s.clock.t else zs[|zs| - 1].t
  {
    hide Step, Tick, GainAt, Psd, GainValid;
    if |zs| > 0 {
      var last := |zs| - 1;
      var b := Run(s, zs[..last], q);
      RunValid(s, zs[..last], q);
      StepValid(b.clock, zs[last], q);
      CostGrows(b, zs[last], q);
      StepClock(b, zs[last], q);
    }
  }

  /** Every gain on the way is usable: a positive innovation variance and a position gain in [0, 1). */
  lemma RunGains(s: Filter, zs: seq<Obs>, q: real)
    requires Psd(s.clock.cov) && Ordered(zs, s.clock.t) && q >= 0.0
    ensures forall i: nat | i < |zs| :: GainValid(GainAt(Run(s, zs[..i], q).clock, zs[i], q))
  {
    hide Step, Tick, GainAt, Psd, GainValid;
    forall i: nat | i < |zs| ensures GainValid(GainAt(Run(s, zs[..i], q).clock, zs[i], q)) {
      RunValid(s, zs[..i], q);
      StepValid(Run(s, zs[..i], q).clock, zs[i], q);
    }
  }

  lemma CostGrows(b: Filter, z: Obs, q: real)
    requires GainValid(GainAt(b.clock, z, q))
    ensures Step(b, z, q).cost >= b.cost
  {
    var g := GainAt(b.clock, z, q);
    assert g.sv > 0.0;
    hide GainAt, Tick, Ratio, Ahead, Corrected, Square;
    RatioNonnegative(z.y - Ahead(b.f, b.fd, g.dt), g.sv);
  }

  lemma RatioNonnegative(x: real, sv: real)
    requires sv > 0.0
    ensures Ratio(Square(x), sv) >= 0.0
  {
    RatioOf(Square(x), sv);
    NonnegativeFactor(Ratio(Square(x), sv), sv);
  }

  // The covariance and the gains do not depend on the data.

  ghost predicate SameTimes(zs: seq<Obs>, zs': seq<Obs>) {
    |zs| == |zs'| && forall i: nat | i < |zs| :: zs[i].t == zs'[i].t && zs[i].w == zs'[i].w
  }

  lemma {:induction false} SharedClock(s: Filter, s': Filter, zs: seq<Obs>, zs': seq<Obs>, q: real)
    requires s.clock == s'.clock && SameTimes(zs, zs')
    ensures Run(s, zs, q).clock == Run(s', zs', q).clock
  {
    if |zs| > 0 {
      SharedClock(s, s', zs[..|zs| - 1], zs'[..|zs| - 1], q);
    }
  }

  lemma {:induction false} RunConcat(s: Filter, a: seq<Obs>, b: seq<Obs>, q: real)
    ensures Run(s, a + b, q) == Run(Run(s, a, q), b, q)
  {
    if |b| == 0 {
      assert a + b == a;
    } else {
      var n := |b| - 1;
      assert (a + b)[..|a + b| - 1] == a + b[..n];
      RunConcat(s, a, b[..n], q);
    }
  }

  /** The process intensity, capped so that one symbol's diffusion adds at most the squared expected wander. */
  function WanderProcessQ(symbolS: real, irwHz: real, sigma: real): (q: real)
    ensures 0.0 <= q && Diffusion(1.0, q).p00 <= Square(sigma)
  {
    if irwHz <= 0.0 || symbolS <= 0.0 then 0.0
    else
      var t2 := Square(symbolS);
      var q := irwHz * t2 * t2 * symbolS;
      var cap := 3.0 * Square(sigma);
      PositiveIntensity(irwHz, t2, symbolS);
      if q < cap then q else cap
  }

  /** The intensity is q T^5 unless one symbol of it would add more than the squared expected wander; then
      one symbol adds exactly that. */
  lemma ProcessQIs(symbolS: real, irwHz: real, sigma: real)
    requires irwHz > 0.0 && symbolS > 0.0
    ensures var q, t2 := WanderProcessQ(symbolS, irwHz, sigma), Mul(symbolS, symbolS);
            var full := Mul(Mul(Mul(irwHz, t2), t2), symbolS);
            if full / 3.0 < Mul(sigma, sigma) then q == full else Diffusion(1.0, q).p00 == Mul(sigma, sigma)
  {
  }

  lemma PositiveIntensity(irw: real, t2: real, s: real)
    requires irw > 0.0 && t2 >= 0.0 && s > 0.0
    ensures irw * t2 * t2 * s >= 0.0
  {
    ProductNonnegative(irw, t2);
    ProductNonnegative(irw * t2, t2);
    ProductNonnegative(irw * t2 * t2, s);
  }

  // One symbol's short-block observations, with outliers left out.

  /** An observation more than four standard deviations off is skipped, unless it is the first. */
  predicate Outlier(s: Filter, z: Obs, q: real, k: nat) {
    var g := GainAt(s.clock, z, q);
    var nu := z.y - Ahead(s.f, s.fd, g.dt);
    k > 0 && Square(nu) > 16.0 * g.sv
  }

  /** The observations a gated pass keeps. */
  function Kept(s: Filter, zs: seq<Obs>, q: real): (kept: seq<Obs>)
    ensures |kept| <= |zs|
  {
    if |zs| == 0 then []
    else
      var n := |zs| - 1;
      var before := Kept(s, zs[..n], q);
      if Outlier(Run(s, before, q), zs[n], q, n) then before else before + [zs[n]]
  }

  lemma {:induction false} KeptOrdered(s: Filter, zs: seq<Obs>, q: real)
    requires Ordered(zs, s.clock.t)
    ensures var kept := Kept(s, zs, q);
            Ordered(kept, s.clock.t) && forall i: nat | i < |kept| :: kept[i].t <= zs[|zs| - 1].t
  {
    hide Outlier, Run;
    if |zs| > 0 {
      KeptOrdered(s, zs[..|zs| - 1], q);
    }
  }

  /** Every observation of a gated pass, the skipped ones included, meets a usable gain. */
  lemma GatedGains(s: Filter, zs: seq<Obs>, q: real)
    requires Psd(s.clock.cov) && Ordered(zs, s.clock.t) && q >= 0.0
    ensures forall k: nat | k < |zs| :: GainValid(GainAt(Run(s, Kept(s, zs[..k], q), q).clock, zs[k], q))
  {
    hide Psd, GainValid, GainAt, Run, Kept;
    forall k: nat | k < |zs| ensures GainValid(GainAt(Run(s, Kept(s, zs[..k], q), q).clock, zs[k], q)) {
      KeptOrdered(s, zs[..k], q);
      RunValid(s, Kept(s, zs[..k], q), q);
      StepValid(Run(s, Kept(s, zs[..k], q), q).clock, zs[k], q);
    }
  }

  // The pass back over a symbol's observations.

  /** A carrier and its drift at some time. */
  datatype Point = Point(f: real, fd: real)

  /** What the forward pass keeps of an observation: its time, the state after it, and the prediction before it. */
  datatype Record = Record(t: real, x: Point, cov: Cov, ahead: Point, pcov: Cov)

  ghost function RecordOf(b: Filter, z: Obs, q: real): Record {
    var r, dt := Step(b, z, q), z.t - b.clock.t;
    Record(z.t, Point(r.f, r.fd), r.clock.cov, Point(Ahead(b.f, b.fd, dt), b.fd), Predict(b.clock.cov, dt, q))
  }

  /** The records of a run, one for each observation. */
  ghost predicate Recorded(s: Filter, zs: seq<Obs>, q: real, recs: seq<Record>) {
    |recs| == |zs| && forall k: nat | k < |zs| :: recs[k] == RecordOf(Run(s, zs[..k], q), zs[k], q)
  }

  const LEAST_DET: real := 1e-18

  datatype BackGain = BackGain(c00: real, c01: real, c10: real, c11: real)

  function Det(c: Cov): real {
    Mul(c.p00, c.p11) - Mul(c.p01, c.p01)
  }

  /** P F' times the inverse of the predicted covariance. */
  function GainBack(p: Cov, dt: real, pp: Cov): BackGain
    requires Det(pp) != 0.0
  {
    var det := Det(pp);
    var b00, b01, b10, b11 := p.p00 + dt * p.p01, p.p01, p.p01 + dt * p.p11, p.p11;
    var i00, i01, i11 := pp.p11 / det, -pp.p01 / det, pp.p00 / det;
    BackGain(b00 * i00 + b01 * i01, b00 * i01 + b01 * i11, b10 * i00 + b11 * i01, b10 * i01 + b11 * i11)
  }

  /** The Rauch-Tung-Striebel step: the state corrected by what is known of the next one. */
  function Smoothed(p: Cov, x: Point, dt: real, ahead: Point, pp: Cov, next: Point): Point {
    if -LEAST_DET < Det(pp) < LEAST_DET then x
    else
      var c := GainBack(p, dt, pp);
      var r0, r1 := next.f - ahead.f, next.fd - ahead.fd;
      Point(x.f + (Mul(c.c00, r0) + Mul(c.c01, r1)), x.fd + (Mul(c.c10, r0) + Mul(c.c11, r1)))
  }

  /** The points from observation k on. */
  function SmoothFrom(recs: seq<Record>, k: nat): (xs: seq<Point>)
    requires k < |recs|
    ensures |xs| == |recs| - k
    decreases |recs| - k
  {
    if k == |recs| - 1 then [recs[k].x]
    else
      var later := SmoothFrom(recs, k + 1);
      [Smoothed(recs[k].cov, recs[k].x, recs[k + 1].t - recs[k].t, recs[k + 1].ahead, recs[k + 1].pcov, later[0])] + later
  }

  method SmoothBack(recs: seq<Record>) returns (xs: seq<Point>)
    requires |recs| > 0
    ensures xs == SmoothFrom(recs, 0)
  {
    hide Smoothed;
    var k := |recs| - 1;
    xs := [recs[k].x];
    while k > 0
      invariant k < |recs| && xs == SmoothFrom(recs, k)
    {
      k := k - 1;
      var x := Smoothed(recs[k].cov, recs[k].x, recs[k + 1].t - recs[k].t, recs[k + 1].ahead, recs[k + 1].pcov, xs[0]);
      xs := [x] + xs;
    }
  }

  lemma NothingKept(s: Filter, q: real)
    ensures Kept(s, [], q) == [] && Run(s, [], q) == s && Recorded(s, [], q, [])
  {
  }

  lemma RecordedStep(s: Filter, zs: seq<Obs>, q: real, recs: seq<Record>, z: Obs, rec: Record)
    requires Recorded(s, zs, q, recs) && rec == RecordOf(Run(s, zs, q), z, q)
    ensures Recorded(s, zs + [z], q, recs + [rec])
  {
    hide RecordOf, Run;
    var all := zs + [z];
    forall k: nat | k < |all| ensures (recs + [rec])[k] == RecordOf(Run(s, all[..k], q), all[k], q) {
      assert all[..k] == if k < |zs| then zs[..k] else zs;
    }
  }

  class CarrierFilter {
    var x0: real
    var x1: real
    var p00: real
    var p01: real
    var p11: real
    var tLast: real

    constructor (ref: real, slope: real, variance: real, sigma: real)
      requires variance >= 0.0
      ensures State() == Filter(Clock(Cov(variance, 0.0, Square(sigma) + 1.0), 0.0), ref, slope, 0.0) && Valid()
    {
      x0, x1, p00, p01, p11, tLast := ref, slope, variance, 0.0, sigma * sigma + 1.0, 0.0;
      new;
      ProductNonnegative(variance, Square(sigma) + 1.0);
    }

    ghost function State(): Filter
      reads this
    {
      Filter(Clock(Cov(p00, p01, p11), tLast), x0, x1, 0.0)
    }

    ghost predicate Valid()
      reads this
    {
      Psd(Cov(p00, p01, p11))
    }

    /** Fold a symbol's observations in: the state becomes that of an ordinary
        filter run over those not skipped. Then the pass back over them, if there are two. */
    method SmoothSymbol(zs: seq<Obs>, q: real) returns (used: nat, track: seq<Point>, ghost recs: seq<Record>)
      requires Valid() && q >= 0.0 && Ordered(zs, tLast)
      modifies this
      ensures Valid()
      ensures var kept := Kept(old(State()), zs, q);
              State() == Run(old(State()), kept, q).(cost := 0.0) && used == |kept| && Recorded(old(State()), kept, q, recs)
      ensures track == if used < 2 then [] else SmoothFrom(recs, 0)
      ensures forall k: nat | k < |zs| ::
                GainValid(GainAt(Run(old(State()), Kept(old(State()), zs[..k], q), q).clock, zs[k], q))
    {
      ghost var start := State();
      hide Psd, GainValid, GainAt, Run, Kept, Recorded, RecordOf, SmoothFrom, Outlier, Step;
      GatedGains(start, zs, q);
      NothingKept(start, q);
      used := 0;
      var kept: seq<Record> := [];
      assert zs[..0] == [];
      for k := 0 to |zs|
        invariant used == |kept| == |Kept(start, zs[..k], q)| && Recorded(start, Kept(start, zs[..k], q), q, kept)
        invariant State() == Run(start, Kept(start, zs[..k], q), q).(cost := 0.0)
        invariant Valid()
        invariant k == 0 ==> tLast == old(tLast)
        invariant k > 0 ==> tLast <= zs[k - 1].t
      {
        ghost var before := Kept(start, zs[..k], q);
        ghost var b := Run(start, before, q);
        KeptStep(start, zs, k, q);
        RunStep(start, before, zs[k], q);
        var skip, rec := Observe(zs[k], q, k, b);
        if skip {
          continue;
        }
        RecordedStep(start, before, q, kept, zs[k], rec);
        used := used + 1;
        kept := kept + [rec];
      }
      assert zs[..|zs|] == zs;
      recs := kept;
      if used < 2 {
        track := [];
      } else {
        track := SmoothBack(kept);
      }
    }

    /** One observation: skip it as an outlier, or take the filter's step. */
    method Observe(z: Obs, q: real, k: nat, ghost b: Filter) returns (skip: bool, rec: Record)
      requires Valid() && q >= 0.0 && tLast <= z.t && State() == b.(cost := 0.0)
      modifies this
      ensures Valid() && skip == Outlier(b, z, q, k)
      ensures State() == (if skip then old(State()) else Step(b, z, q).(cost := 0.0))
      ensures tLast == if skip then old(tLast) else z.t
      ensures !skip ==> rec == RecordOf(b, z, q)
    {
      StepValid(b.clock, z, q);
      ghost var g := GainAt(b.clock, z, q);
      var dt := z.t - tLast;
      var a0, a1 := Ahead(x0, x1, dt), x1;
      var a := Predict(Cov(p00, p01, p11), dt, q);
      var nu := z.y - a0;
      var sv := a.p00 + Noise(z.w);
      StepParts(b, z, q, a, dt, nu, sv);
      assert sv > 0.0;
      hide Predict, Noise, Psd, GainAt, Step, Tick, Outlier, Ratio, GainValid, Square, Ahead, Corrected, Update;
      rec := Record(z.t, Point(a0, a1), a, Point(a0, a1), a);
      if Square(nu) > 16.0 * sv && k > 0 {
        return true, rec;
      }
      var k0, k1 := a.p00 / sv, a.p01 / sv;
      StepTaken(b, z, q, a, dt, nu, sv, k0, k1);
      x0, x1 := Corrected(a0, k0, nu), Corrected(a1, k1, nu);
      var p := Update(a, k0, k1);
      p00, p01, p11 := p.p00, p.p01, p.p11;
      assert Cov(p00, p01, p11) == p;
      tLast := z.t;
      rec := rec.(x := Point(x0, x1), cov := p);
      return false, rec;
    }
  }

  lemma StepParts(b: Filter, z: Obs, q: real, a: Cov, dt: real, nu: real, sv: real)
    requires dt == z.t - b.clock.t && a == Predict(b.clock.cov, dt, q) && nu == z.y - Ahead(b.f, b.fd, dt)
    requires sv == a.p00 + Noise(z.w)
    ensures GainAt(b.clock, z, q) == Gain(dt, Ratio(a.p00, sv), Ratio(a.p01, sv), sv)
    ensures forall k: nat :: Outlier(b, z, q, k) == (k > 0 && Square(nu) > 16.0 * sv)
  {
    hide Predict, Ratio, Noise, Square, Ahead;
  }

  lemma StepTaken(b: Filter, z: Obs, q: real, a: Cov, dt: real, nu: real, sv: real, k0: real, k1: real)
    requires dt == z.t - b.clock.t && a == Predict(b.clock.cov, dt, q) && nu == z.y - Ahead(b.f, b.fd, dt)
    requires sv > 0.0 && k0 == a.p00 / sv && k1 == a.p01 / sv
    requires GainAt(b.clock, z, q) == Gain(dt, Ratio(a.p00, sv), Ratio(a.p01, sv), sv)
    ensures Step(b, z, q).(cost := 0.0) == Filter(Clock(Update(a, k0, k1), z.t), Corrected(Ahead(b.f, b.fd, dt), k0, nu), Corrected(b.fd, k1, nu), 0.0)
    ensures Tick(b.clock, z, q).cov == Update(a, k0, k1)
  {
    hide Predict, GainAt, Update, Ahead, Corrected, Square;
  }

  lemma KeptStep(s: Filter, zs: seq<Obs>, k: nat, q: real)
    requires k < |zs|
    ensures var before := Kept(s, zs[..k], q);
            Kept(s, zs[..k + 1], q) == if Outlier(Run(s, before, q), zs[k], q, k) then before else before + [zs[k]]
  {
    hide Outlier, Run;
    assert zs[..k + 1][..k] == zs[..k];
  }

  lemma RunStep(s: Filter, before: seq<Obs>, z: Obs, q: real)
    ensures Run(s, before + [z], q) == Step(Run(s, before, q), z, q)
  {
    hide Step;
    assert (before + [z])[..|before|] == before;
  }
}
