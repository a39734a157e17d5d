/** The carrier filter is the least-squares track: its state and its cost are those of the cheapest course. */
module OptimalTrack {
  import opened Numbers
  import opened Kalman
  import SlipSearch

  ghost predicate Definite(c: Cov) {
    c.p00 > 0.0 && Det(c) > 0.0
  }

  /** The squared deviation (u, v) under a covariance: its quadratic form by the inverse matrix. */
  ghost function Deviation(c: Cov, u: real, v: real): real {
    (Mul(c.p11, Mul(u, u)) - 2.0 * Mul(c.p01, Mul(u, v)) + Mul(c.p00, Mul(v, v))) / (if Det(c) == 0.0 then 1.0 else Det(c))
  }

  function Dot(a0: real, a1: real, b0: real, b1: real): real {
    Mul(a0, b0) + Mul(a1, b1)
  }

  /** The matrix takes y to x. */
  ghost predicate Takes(c: Cov, y: Point, x: Point) {
    Dot(c.p00, c.p01, y.f, y.fd) == x.f && Dot(c.p01, c.p11, y.f, y.fd) == x.fd
  }

  lemma TakesOpened(c: Cov, y: Point, x: Point)
    ensures Takes(c, y, x) <==> c.p00 * y.f + c.p01 * y.fd == x.f && c.p01 * y.f + c.p11 * y.fd == x.fd
  {
  }

  lemma DefiniteOpened(c: Cov)
    ensures Det(c) == c.p00 * c.p11 - c.p01 * c.p01
    ensures Definite(c) <==> c.p00 > 0.0 && Det(c) > 0.0
  {
  }

  lemma DotOpened(x: Point, y: Point)
    ensures Dot(x.f, x.fd, y.f, y.fd) == x.f * y.f + x.fd * y.fd
  {
  }

  /** What y has to be. */
  ghost function Dual(c: Cov, x: Point): Point
    requires Definite(c)
  {
    Point((c.p11 * x.f - c.p01 * x.fd) / Det(c), (c.p00 * x.fd - c.p01 * x.f) / Det(c))
  }

  lemma DualTaken(c: Cov, x: Point)
    requires Definite(c)
    ensures Takes(c, Dual(c, x), x)
  {
    var d, y := Det(c), Dual(c, x);
    Solved(c.p00, c.p01, c.p11, x.f, x.fd, d, y.f, y.fd);
  }

  lemma Solved(p: real, m: real, r: real, u: real, v: real, d: real, y: real, z: real)
    requires d > 0.0 && d == p * r - m * m && y == (r * u - m * v) / d && z == (p * v - m * u) / d
    ensures p * y + m * z == u && m * y + r * z == v
  {
    assert y * d == r * u - m * v && z * d == p * v - m * u;
    assert (p * y + m * z) * d == p * (y * d) + m * (z * d) == u * d;
    assert (m * y + r * z) * d == m * (y * d) + r * (z * d) == v * d;
    Cancel(p * y + m * z, u, d);
    Cancel(m * y + r * z, v, d);
  }

  lemma Cancel(a: real, b: real, d: real)
    requires d > 0.0 && a * d == b * d
    ensures a == b
  {
  }

  /** The squared deviation of c y is y c y. */
  lemma DeviationOf(c: Cov, y: Point, x: Point)
    requires Definite(c) && Takes(c, y, x)
    ensures Deviation(c, x.f, x.fd) == Dot(x.f, x.fd, y.f, y.fd)
  {
    FormOf(c.p00, c.p01, c.p11, x.f, x.fd, Det(c), y.f, y.fd);
  }

  lemma FormOf(p: real, m: real, r: real, u: real, v: real, d: real, y: real, z: real)
    requires d > 0.0 && d == p * r - m * m && p * y + m * z == u && m * y + r * z == v
    ensures (r * (u * u) - 2.0 * (m * (u * v)) + p * (v * v)) / d == u * y + v * z
  {
    assert d * y == r * u - m * v by {
      assert r * (p * y + m * z) - m * (m * y + r * z) == (p * r - m * m) * y;
    }
    assert d * z == p * v - m * u by {
      assert p * (m * y + r * z) - m * (p * y + m * z) == (p * r - m * m) * z;
    }
    assert (u * y + v * z) * d == u * (d * y) + v * (d * z);
    assert u * (r * u - m * v) + v * (p * v - m * u) == r * (u * u) - 2.0 * (m * (u * v)) + p * (v * v);
  }

  /** No deviation is negative. */
  lemma DeviationNonnegative(c: Cov, x: Point)
    requires Definite(c)
    ensures Deviation(c, x.f, x.fd) >= 0.0
  {
    hide Det, Dot, Takes, Deviation, Definite, Dual;
    var y := Dual(c, x);
    DualTaken(c, x);
    DeviationOf(c, y, x);
    DefiniteOpened(c);
    TakesOpened(c, y, x);
    DotOpened(x, y);
    QuadraticNonnegative(c.p00, c.p01, c.p11, Det(c), y.f, y.fd, x.f, x.fd);
  }

  lemma QuadraticNonnegative(p: real, m: real, r: real, d: real, y: real, z: real, u: real, v: real)
    requires p > 0.0 && d >= 0.0 && d == p * r - m * m && u == p * y + m * z && v == m * y + r * z
    ensures u * y + v * z >= 0.0
  {
    QuadraticSquares(p, m, r, d, y, z, u, v);
    ProductNonnegative(d, z * z);
    NonnegativeFactor(u * y + v * z, p);
  }

  lemma QuadraticSquares(p: real, m: real, r: real, d: real, y: real, z: real, u: real, v: real)
    requires d == p * r - m * m && u == p * y + m * z && v == m * y + r * z
    ensures p * (u * y + v * z) == u * u + d * (z * z)
  {
    assert p * v == m * u + d * z by {
      assert p * (m * y + r * z) == m * (p * y + m * z) + (p * r - m * m) * z;
    }
    assert u * u == u * (p * y) + u * (m * z);
    assert (p * v) * z == (m * u) * z + (d * z) * z;
  }

  /** Only the deviation of nothing is zero. */
  lemma DeviationZero(c: Cov, x: Point)
    requires Definite(c) && Deviation(c, x.f, x.fd) <= 0.0
    ensures x == Point(0.0, 0.0)
  {
    hide Det, Dot, Takes, Deviation, Definite, Dual;
    var y := Dual(c, x);
    DualTaken(c, x);
    DeviationOf(c, y, x);
    DefiniteOpened(c);
    TakesOpened(c, y, x);
    DotOpened(x, y);
    QuadraticSquares(c.p00, c.p01, c.p11, Det(c), y.f, y.fd, x.f, x.fd);
    QuadraticZero(c.p00, c.p01, c.p11, Det(c), x.f, x.fd, y.f, y.fd, x.f * y.f + x.fd * y.fd);
  }

  lemma QuadraticZero(p: real, m: real, r: real, d: real, u: real, v: real, y: real, z: real, q: real)
    requires p > 0.0 && d > 0.0 && q <= 0.0 && p * q == u * u + d * (z * z)
    requires u == p * y + m * z && v == m * y + r * z
    ensures u == 0.0 && v == 0.0
  {
    assert p * q <= 0.0;
    ProductNonnegative(d, z * z);
    assert u * u >= 0.0;
    assert u * u <= 0.0 && d * (z * z) <= 0.0;
    assert u == 0.0;
    if z != 0.0 {
      assert z * z > 0.0;
      assert d * (z * z) > 0.0;
    }
    assert m * z == 0.0;
    assert p * y == 0.0;
    assert y == 0.0;
  }

  // One stretch of the course.

  /** From x to x' in dt. Without process noise, or without time, the way is straight. */
  ghost predicate Possible(x: Point, x': Point, dt: real, q: real) {
    Mul(q, dt) == 0.0 ==> x'.f == x.f + Mul(x.fd, dt) && x'.fd == x.fd
  }

  /** What leaving the straight way costs. */
  ghost function Bend(x: Point, x': Point, dt: real, q: real): real {
    var e := Mul(q, dt);
    if e <= 0.0 || dt <= 0.0 then 0.0
    else Curved(e, dt, x'.f - (x.f + Mul(x.fd, dt)), x'.fd - x.fd)
  }

  /** Off course by u, with the drift changed by v. */
  ghost function Curved(e: real, dt: real, u: real, v: real): real
    requires e > 0.0 && dt > 0.0
  {
    (3.0 * Square(2.0 * (u / dt) - v) + Square(v)) / e
  }

  /** Twice a linear form less its own square never exceeds the deviation. */
  lemma DualBound(c: Cov, x: Point, z: Point, w: Point)
    requires Definite(c) && Takes(c, z, w)
    ensures Deviation(c, x.f, x.fd) >= 2.0 * Dot(x.f, x.fd, z.f, z.fd) - Dot(w.f, w.fd, z.f, z.fd)
  {
    hide Det, Dot, Takes, Deviation, Definite, Dual;
    var y := Dual(c, x);
    DualTaken(c, x);
    DeviationOf(c, y, x);
    DefiniteOpened(c);
    TakesOpened(c, y, x);
    TakesOpened(c, z, w);
    DotOpened(x, y);
    DotOpened(x, z);
    DotOpened(w, z);
    Expand(c.p00, c.p01, c.p11, y.f, y.fd, z.f, z.fd, x.f, x.fd, w.f, w.fd);
    QuadraticNonnegative(c.p00, c.p01, c.p11, Det(c), y.f - z.f, y.fd - z.fd, x.f - w.f, x.fd - w.fd);
  }

  lemma Expand(p: real, m: real, r: real, y: real, y': real, z: real, z': real, u: real, u': real, w: real, w': real)
    requires p * y + m * y' == u && m * y + r * y' == u' && p * z + m * z' == w && m * z + r * z' == w'
    ensures p * (y - z) + m * (y' - z') == u - w && m * (y - z) + r * (y' - z') == u' - w'
    ensures (u - w) * (y - z) + (u' - w') * (y' - z') == (u * y + u' * y') - 2.0 * (u * z + u' * z') + (w * z + w' * z')
  {
    Symmetric(p, m, r, y, y', z, z');
    assert (u - w) * (y - z) == u * y - u * z - w * y + w * z;
    assert (u' - w') * (y' - z') == u' * y' - u' * z' - w' * y' + w' * z';
  }

  lemma Symmetric(p: real, m: real, r: real, y: real, y': real, z: real, z': real)
    ensures (p * z + m * z') * y + (m * z + r * z') * y' == (p * y + m * y') * z + (m * y + r * y') * z'
  {
  }

  lemma DiffusionTerms(dt: real, q: real, e: real)
    requires e == Mul(q, dt)
    ensures Diffusion(dt, q) == Cov(e * (dt * dt) / 3.0, e * dt / 2.0, e)
  {
    assert q * dt * dt * dt == e * (dt * dt);
  }

  lemma DiffusionDefinite(dt: real, q: real)
    requires dt > 0.0 && Mul(q, dt) > 0.0
    ensures Definite(Diffusion(dt, q))
  {
    var e := Mul(q, dt);
    var h := e * dt;
    DiffusionTerms(dt, q, e);
    assert h > 0.0 && h * dt > 0.0;
    assert e * (dt * dt) == h * dt;
    assert (h * dt / 3.0) * e == (h * h) / 3.0 by { assert (h * dt) * e == h * (e * dt); }
    assert (h / 2.0) * (h / 2.0) == (h * h) / 4.0;
    assert h * h > 0.0;
  }

  /** The bend is the deviation of the departure under the diffusion it is set against. */
  lemma BendIsDeviation(x: Point, x': Point, dt: real, q: real, u: real, v: real)
    requires dt > 0.0 && Mul(q, dt) > 0.0 && u == x'.f - (x.f + Mul(x.fd, dt)) && v == x'.fd - x.fd
    ensures Definite(Diffusion(dt, q)) && Bend(x, x', dt, q) == Deviation(Diffusion(dt, q), u, v)
  {
    hide Det, Dot, Takes, Deviation, Definite, Dual;
    var e := Mul(q, dt);
    var g, b := u / dt, Diffusion(dt, q);
    DiffusionDefinite(dt, q);
    DiffusionTerms(dt, q, e);
    var y := Point((12.0 * g - 6.0 * v) / (e * dt), (4.0 * v - 6.0 * g) / e);
    CurvedDual(e, dt, g, v, y.f, y.fd);
    assert g * dt == u;
    TakesOpened(b, y, Point(u, v));
    DeviationOf(b, y, Point(u, v));
    DotOpened(Point(u, v), y);
    CurvedForm(e, dt, g, v, u, y.f, y.fd);
  }

  lemma CurvedDual(e: real, dt: real, g: real, v: real, y: real, z: real)
    requires e > 0.0 && dt > 0.0 && y == (12.0 * g - 6.0 * v) / (e * dt) && z == (4.0 * v - 6.0 * g) / e
    ensures (e * (dt * dt) / 3.0) * y + (e * dt / 2.0) * z == g * dt
    ensures (e * dt / 2.0) * y + e * z == v
  {
    var h := e * dt;
    assert h > 0.0;
    assert h * y == 12.0 * g - 6.0 * v && e * z == 4.0 * v - 6.0 * g;
    assert (e * (dt * dt) / 3.0) * y == (h * y) * dt / 3.0;
    assert (e * dt / 2.0) * z == (e * z) * dt / 2.0;
    assert (12.0 * g - 6.0 * v) * dt / 3.0 == 4.0 * (g * dt) - 2.0 * (v * dt);
    assert (4.0 * v - 6.0 * g) * dt / 2.0 == 2.0 * (v * dt) - 3.0 * (g * dt);
  }

  lemma CurvedForm(e: real, dt: real, g: real, v: real, u: real, y: real, z: real)
    requires e > 0.0 && dt > 0.0 && y == (12.0 * g - 6.0 * v) / (e * dt) && z == (4.0 * v - 6.0 * g) / e && u == g * dt
    ensures (3.0 * Square(2.0 * g - v) + Square(v)) / e == u * y + v * z
  {
    assert (e * dt) * y == 12.0 * g - 6.0 * v && e * z == 4.0 * v - 6.0 * g;
    assert (u * y) * e == g * ((e * dt) * y);
    assert (v * z) * e == v * (e * z);
    assert (u * y + v * z) * e == g * (12.0 * g - 6.0 * v) + v * (4.0 * v - 6.0 * g);
    assert 3.0 * Square(2.0 * g - v) + Square(v) == g * (12.0 * g - 6.0 * v) + v * (4.0 * v - 6.0 * g);
  }

  lemma DefinitePsd(c: Cov)
    requires Definite(c)
    ensures Psd(c)
  {
    assert c.p11 * c.p00 >= 0.0;
    NonnegativeFactor(c.p11, c.p00);
  }

  lemma PropagateDefinite(c: Cov, dt: real)
    requires Definite(c)
    ensures Definite(Propagate(c, dt))
  {
    DefinitePsd(c);
    PropagatePsd(c, dt);
    Determinant(c, dt);
    var a := Propagate(c, dt);
    assert a.p00 * a.p11 - Square(a.p01) == c.p00 * c.p11 - Square(c.p01) > 0.0;
    PositiveFactor(a.p00, a.p11);
  }

  lemma PositiveFactor(x: real, y: real)
    requires x >= 0.0 && x * y > 0.0
    ensures x > 0.0
  {
  }

  lemma AddDefinite(a: Cov, b: Cov)
    requires Definite(a) && Psd(b)
    ensures Definite(Add(a, b))
  {
    DefinitePsd(a);
    CrossTerm(a, b);
    SumOfSquares(a.p01, b.p01);
    FourProducts(a.p00, b.p00, a.p11, b.p11);
  }

  lemma FourProducts(x: real, y: real, z: real, w: real)
    ensures (x + y) * (z + w) == x * z + x * w + (y * z + y * w)
  {
  }

  /** Going straight does not change a deviation. */
  lemma StraightDeviation(c: Cov, dt: real, x: Point)
    requires Definite(c) && Definite(Propagate(c, dt))
    ensures Deviation(Propagate(c, dt), x.f + Mul(x.fd, dt), x.fd) == Deviation(c, x.f, x.fd)
  {
    hide Det, Dot, Takes, Deviation, Definite, Dual;
    var y := Dual(c, x);
    var y' := Point(y.f, y.fd - dt * y.f);
    var a, x' := Propagate(c, dt), Point(x.f + Mul(x.fd, dt), x.fd);
    DualTaken(c, x);
    DeviationOf(c, y, x);
    TakesOpened(c, y, x);
    StraightDual(c.p00, c.p01, c.p11, dt, y.f, y.fd, x.f, x.fd);
    TakesOpened(a, y', x');
    DeviationOf(a, y', x');
    DotOpened(x, y);
    DotOpened(x', y');
  }

  lemma StraightDual(p: real, m: real, r: real, dt: real, y: real, z: real, u: real, v: real)
    requires p * y + m * z == u && m * y + r * z == v
    ensures (p + 2.0 * dt * m + dt * dt * r) * y + (m + dt * r) * (z - dt * y) == u + v * dt
    ensures (m + dt * r) * y + r * (z - dt * y) == v
    ensures (u + v * dt) * y + v * (z - dt * y) == u * y + v * z
  {
    assert v * dt == (m * y) * dt + (r * z) * dt;
    assert (2.0 * dt * m) * y == 2.0 * ((m * y) * dt);
    assert (dt * r) * z == (r * z) * dt;
    assert m * (dt * y) == (m * y) * dt;
    assert (dt * dt * r) * y == (dt * r) * (dt * y);
    assert (dt * r) * y == r * (dt * y);
    assert (v * dt) * y == v * (dt * y);
  }

  /** Two independent deviations together are never less than the deviation of their sum. */
  lemma SumBound(a: Cov, b: Cov, x: Point, d: Point)
    requires Definite(a) && Definite(b) && Definite(Add(a, b))
    ensures Deviation(a, x.f, x.fd) + Deviation(b, d.f, d.fd) >= Deviation(Add(a, b), x.f + d.f, x.fd + d.fd)
  {
    var w := Point(x.f + d.f, x.fd + d.fd);
    var z := Dual(Add(a, b), w);
    var x', d' := Image(a, z), Image(b, z);
    DualTaken(Add(a, b), w);
    DeviationOf(Add(a, b), z, w);
    DualBound(a, x, z, x');
    DualBound(b, d, z, d');
    DotAdds(x, d, w, z);
    ImageAdds(a, b, z, w, x', d');
    DotAdds(x', d', w, z);
  }

  function Image(c: Cov, y: Point): (x: Point)
    ensures Takes(c, y, x)
  {
    Point(Dot(c.p00, c.p01, y.f, y.fd), Dot(c.p01, c.p11, y.f, y.fd))
  }

  lemma DotAdds(x: Point, d: Point, w: Point, z: Point)
    requires w.f == x.f + d.f && w.fd == x.fd + d.fd
    ensures Dot(w.f, w.fd, z.f, z.fd) == Dot(x.f, x.fd, z.f, z.fd) + Dot(d.f, d.fd, z.f, z.fd)
  {
  }

  lemma ImageAdds(a: Cov, b: Cov, z: Point, w: Point, x: Point, d: Point)
    requires Takes(Add(a, b), z, w) && Takes(a, z, x) && Takes(b, z, d)
    ensures w == Point(x.f + d.f, x.fd + d.fd)
  {
  }

  /** Attained by one split of the sum. */
  lemma SumAttained(a: Cov, b: Cov, w: Point) returns (x: Point, d: Point)
    requires Definite(a) && Definite(b) && Definite(Add(a, b))
    ensures w == Point(x.f + d.f, x.fd + d.fd) && x == Image(a, Dual(Add(a, b), w))
    ensures Deviation(a, x.f, x.fd) + Deviation(b, d.f, d.fd) == Deviation(Add(a, b), w.f, w.fd)
  {
    var z := Dual(Add(a, b), w);
    x, d := Image(a, z), Image(b, z);
    DualTaken(Add(a, b), w);
    DeviationOf(Add(a, b), z, w);
    DeviationOf(a, z, x);
    DeviationOf(b, z, d);
    ImageAdds(a, b, z, w, x, d);
    DotAdds(x, d, w, z);
  }

  function Off(x: Point, m: Point): Point {
    Point(x.f - m.f, x.fd - m.fd)
  }

  function Straight(x: Point, dt: real): Point {
    Point(x.f + Mul(x.fd, dt), x.fd)
  }

  lemma NoDiffusion(c: Cov, dt: real, q: real)
    requires Mul(q, dt) == 0.0
    ensures Predict(c, dt, q) == Propagate(c, dt)
  {
    DiffusionTerms(dt, q, 0.0);
  }

  lemma PredictDefinite(c: Cov, dt: real, q: real)
    requires Definite(c) && dt >= 0.0 && q >= 0.0
    ensures Definite(Predict(c, dt, q)) && Definite(Propagate(c, dt))
  {
    hide Propagate, Diffusion, Add, Psd, Definite;
    PropagateDefinite(c, dt);
    DiffusionPsd(dt, q);
    AddDefinite(Propagate(c, dt), Diffusion(dt, q));
  }

  lemma StraightOff(x: Point, x': Point, m: Point, dt: real)
    ensures var o, o' := Off(x, m), Off(x', Straight(m, dt));
            var e, d := Straight(o, dt), Off(x', Straight(x, dt));
            o' == Point(e.f + d.f, e.fd + d.fd)
  {
  }

  /** A deviation before a stretch and the bend on it are never less than the deviation after it under the prediction. */
  lemma StretchBound(c: Cov, m: Point, x: Point, x': Point, dt: real, q: real)
    requires Definite(c) && dt >= 0.0 && q >= 0.0 && Possible(x, x', dt, q)
    ensures Definite(Predict(c, dt, q))
    ensures var o, o' := Off(x, m), Off(x', Straight(m, dt));
            Deviation(c, o.f, o.fd) + Bend(x, x', dt, q) >= Deviation(Predict(c, dt, q), o'.f, o'.fd)
  {
    var o := Off(x, m);
    PredictDefinite(c, dt, q);
    StraightOff(x, x', m, dt);
    StraightDeviation(c, dt, o);
    if Mul(q, dt) == 0.0 {
      NoDiffusion(c, dt, q);
    } else {
      assert dt > 0.0 && Mul(q, dt) > 0.0;
      var d := Off(x', Straight(x, dt));
      hide Deviation, Definite, Propagate, Diffusion, Add, Bend, Possible;
      BendIsDeviation(x, x', dt, q, d.f, d.fd);
      SumBound(Propagate(c, dt), Diffusion(dt, q), Straight(o, dt), d);
    }
  }

  /** Where the cheapest way to x' comes from. */
  ghost function CameFrom(c: Cov, m: Point, dt: real, q: real, x': Point): Point
    requires Definite(Predict(c, dt, q))
  {
    var e := Image(Propagate(c, dt), Dual(Predict(c, dt, q), Off(x', Straight(m, dt))));
    Point(m.f + (e.f - Mul(e.fd, dt)), m.fd + e.fd)
  }

  lemma DualImage(c: Cov, x: Point)
    requires Definite(c)
    ensures Image(c, Dual(c, x)) == x
  {
    hide Definite, Dual, Dot;
    DualTaken(c, x);
  }

  /** Attained, whatever the end of the stretch. */
  lemma StretchAttained(c: Cov, m: Point, x': Point, dt: real, q: real) returns (x: Point)
    requires Definite(c) && dt >= 0.0 && q >= 0.0
    ensures Possible(x, x', dt, q) && Definite(Predict(c, dt, q)) && x == CameFrom(c, m, dt, q, x')
    ensures var o, o' := Off(x, m), Off(x', Straight(m, dt));
            Deviation(c, o.f, o.fd) + Bend(x, x', dt, q) == Deviation(Predict(c, dt, q), o'.f, o'.fd)
  {
    PredictDefinite(c, dt, q);
    var o' := Off(x', Straight(m, dt));
    if Mul(q, dt) == 0.0 {
      x := Point(x'.f - Mul(x'.fd, dt), x'.fd);
      NoDiffusion(c, dt, q);
      DualImage(Predict(c, dt, q), o');
      StraightOff(x, x', m, dt);
      StraightDeviation(c, dt, Off(x, m));
    } else {
      assert dt > 0.0 && Mul(q, dt) > 0.0;
      DiffusionDefinite(dt, q);
      var e, d := SumAttained(Propagate(c, dt), Diffusion(dt, q), o');
      var o := Point(e.f - Mul(e.fd, dt), e.fd);
      x := Point(o.f + m.f, o.fd + m.fd);
      hide Deviation, Definite, Propagate, Diffusion, Add, Bend;
      assert Off(x, m) == o && Straight(o, dt) == e;
      StraightOff(x, x', m, dt);
      StraightDeviation(c, dt, o);
      BendIsDeviation(x, x', dt, q, d.f, d.fd);
    }
  }

  // One observation.

  lemma UpdateDefinite(a: Cov, n: real, sv: real, k0: real, k1: real)
    requires Definite(a) && n > 0.0 && sv == a.p00 + n && k0 * sv == a.p00 && k1 * sv == a.p01
    ensures Definite(Update(a, k0, k1))
  {
    var c, u := Update(a, k0, k1), 1.0 - k0;
    assert u * sv == n;
    assert u > 0.0;
    assert c.p00 == u * a.p00 && c.p01 == u * a.p01;
    UpdatedDeterminant(a, sv, k0, k1);
    var det := a.p00 * a.p11 - Square(a.p01);
    assert Square(c.p01) == u * (u * Square(a.p01)) by { SquareOfProduct(u, a.p01); }
    assert c.p00 * c.p11 == u * (a.p00 * c.p11);
    assert u * (a.p00 * c.p11) - u * (u * Square(a.p01)) == u * det;
    assert u * det > 0.0;
  }

  /** Completing the square: a prior deviation and one residual are the deviation from the corrected
      state and the normalised innovation. */
  lemma ObservationSplits(a: Cov, n: real, sv: real, k0: real, k1: real, o: Point, nu: real)
    requires Definite(a) && Definite(Update(a, k0, k1)) && n > 0.0
    requires sv == a.p00 + n && k0 * sv == a.p00 && k1 * sv == a.p01
    ensures Deviation(a, o.f, o.fd) + Square(nu - o.f) / n
         == Deviation(Update(a, k0, k1), o.f - k0 * nu, o.fd - k1 * nu) + Square(nu) / sv
  {
    var y, c, t := Dual(a, o), Update(a, k0, k1), (o.f - nu) / n;
    var y', o' := Point(y.f + t, y.fd), Point(o.f - k0 * nu, o.fd - k1 * nu);
    assert c == Cov(a.p00 - k0 * a.p00, a.p01 - k0 * a.p01, a.p11 - k1 * a.p01);
    hide Dual, Deviation, Takes, Update, Det, Square;
    DualTaken(a, o);
    DeviationOf(a, y, o);
    TakesOpened(a, y, o);
    CorrectedDual(a.p00, a.p01, a.p11, n, sv, k0, k1, y.f, y.fd, o.f, o.fd, nu, t);
    assert Takes(c, y', o');
    DeviationOf(c, y', o');
    CorrectedForm(a.p00, a.p01, n, sv, k0, k1, y.f, y.fd, o.f, o.fd, nu, t);
  }

  lemma CorrectedDual(p: real, m: real, r: real, n: real, sv: real, k0: real, k1: real, y: real, z: real, u: real, v: real, nu: real, t: real)
    requires n > 0.0 && p > 0.0 && sv == p + n && k0 * sv == p && k1 * sv == m && t * n == u - nu
    requires p * y + m * z == u && m * y + r * z == v
    ensures Takes(Cov(p - k0 * p, m - k0 * m, r - k1 * m), Point(y + t, z), Point(u - k0 * nu, v - k1 * nu))
  {
    hide Takes;
    var c, y', o' := Cov(p - k0 * p, m - k0 * m, r - k1 * m), Point(y + t, z), Point(u - k0 * nu, v - k1 * nu);
    TakesOpened(c, y', o');
    GainSplit(p, n, sv, k0, u, nu, t);
    GainSplit(m, n, sv, k1, u, nu, t);
    assert k1 * p == k0 * m by {
      assert (k1 * p) * sv == (k1 * sv) * p && (k0 * m) * sv == (k0 * sv) * m;
      Cancel(k1 * p, k0 * m, sv);
    }
    assert (p - k0 * p) * (y + t) == p * y + p * t - k0 * (p * y) - (k0 * p) * t;
    assert (m - k0 * m) * z == m * z - k0 * (m * z);
    assert k0 * u == k0 * (p * y) + k0 * (m * z);
    assert (m - k0 * m) * (y + t) == m * y + m * t - (k0 * m) * y - (k0 * m) * t;
    assert (r - k1 * m) * z == r * z - k1 * (m * z);
    assert k1 * u == k1 * (p * y) + k1 * (m * z);
    assert (k0 * m) * y == k1 * (p * y);
    assert (k1 * p) * t == (k0 * m) * t;
  }

  /** g t less its share k p t, p the variance, is k (u - nu): the part of the residual that is taken. */
  lemma GainSplit(g: real, n: real, sv: real, k: real, u: real, nu: real, t: real)
    requires k * sv == g && t * n == u - nu
    ensures g * t - k * ((sv - n) * t) == k * u - k * nu
  {
    assert g * t == k * (sv * t);
    assert k * (sv * t) - k * ((sv - n) * t) == k * (n * t);
  }

  lemma CorrectedForm(p: real, m: real, n: real, sv: real, k0: real, k1: real, y: real, z: real, u: real, v: real, nu: real, t: real)
    requires n > 0.0 && sv > 0.0 && sv == p + n && k0 * sv == p && k1 * sv == m && t == (u - nu) / n
    requires p * y + m * z == u
    ensures u * y + v * z + Square(nu - u) / n == (u - k0 * nu) * (y + t) + (v - k1 * nu) * z + Square(nu) / sv
  {
    var g, h := k0 * y + k1 * z, Square(nu) / sv;
    assert g * sv == u by {
      assert (k0 * y) * sv == (k0 * sv) * y && (k1 * z) * sv == (k1 * sv) * z;
    }
    assert h * sv == nu * nu;
    assert t * n == u - nu;
    assert Square(nu - u) / n == (u - nu) * t by {
      assert Square(nu - u) == ((u - nu) * t) * n by { assert (u - nu) * (t * n) == ((u - nu) * t) * n; }
    }
    assert h == nu * g + k0 * (nu * t) - nu * t by {
      assert (nu * g) * sv == nu * u && (k0 * (nu * t)) * sv == p * (nu * t);
      assert p * (nu * t) - (nu * t) * sv == - ((nu * t) * n);
      assert (nu * t) * n == nu * (u - nu);
      Cancel(h, nu * g + k0 * (nu * t) - nu * t, sv);
    }
    assert (u - k0 * nu) * (y + t) == u * y + u * t - nu * (k0 * y) - k0 * (nu * t);
    assert (v - k1 * nu) * z == v * z - nu * (k1 * z);
    assert (u - nu) * t == u * t - nu * t;
    assert nu * g == nu * (k0 * y) + nu * (k1 * z);
  }

  function State(s: Filter): Point {
    Point(s.f, s.fd)
  }

  /** What the observation z says against x. */
  function Misfit(z: Obs, x: Point): real {
    Square(z.y - x.f) / Noise(z.w)
  }

  lemma StepFields(b: Filter, z: Obs, q: real, dt: real, a: Cov, sv: real, nu: real)
    requires dt == z.t - b.clock.t && a == Predict(b.clock.cov, dt, q) && sv == a.p00 + Noise(z.w) && sv > 0.0
    requires nu == z.y - Ahead(b.f, b.fd, dt)
    ensures var k0, k1 := Ratio(a.p00, sv), Ratio(a.p01, sv);
            Step(b, z, q) == Filter(Clock(Update(a, k0, k1), z.t), Corrected(Ahead(b.f, b.fd, dt), k0, nu), Corrected(b.fd, k1, nu),
                                    b.cost + Square(nu) / sv)
  {
    hide Predict, Noise, Update, Square, Ahead, Corrected, Ratio;
    var g := GainAt(b.clock, z, q);
    GainParts(b.clock, z, q, g, a);
    RatioIs(Square(nu), sv);
  }

  lemma RatioIs(a: real, b: real)
    requires b > 0.0
    ensures Ratio(a, b) == a / b
  {
  }

  lemma StepSplits(b: Filter, z: Obs, q: real, x: Point)
    requires b.clock.t <= z.t && Definite(Predict(b.clock.cov, z.t - b.clock.t, q))
    ensures var r := Step(b, z, q);
            var o, o' := Off(x, Straight(State(b), z.t - b.clock.t)), Off(x, State(r));
            && Definite(r.clock.cov)
            && Deviation(Predict(b.clock.cov, z.t - b.clock.t, q), o.f, o.fd) + Misfit(z, x)
               == Deviation(r.clock.cov, o'.f, o'.fd) + (r.cost - b.cost)
  {
    hide Deviation, Definite, Predict, Noise, Update, Ratio, Square, Step;
    var dt := z.t - b.clock.t;
    var a, n := Predict(b.clock.cov, dt, q), Noise(z.w);
    var nu, sv := z.y - Ahead(b.f, b.fd, dt), a.p00 + n;
    DefiniteDiagonal(a);
    StepFields(b, z, q, dt, a, sv, nu);
    var k0, k1 := Ratio(a.p00, sv), Ratio(a.p01, sv);
    RatioOf(a.p00, sv);
    RatioOf(a.p01, sv);
    var p, v := b.f + b.fd * dt, b.fd;
    assert Straight(State(b), dt) == Point(p, v);
    var c, cost := Update(a, k0, k1), Square(nu) / sv;
    assert Step(b, z, q) == Filter(Clock(c, z.t), p + k0 * nu, v + k1 * nu, b.cost + cost);
    UpdateDefinite(a, n, sv, k0, k1);
    var o := Point(x.f - p, x.fd - v);
    ObservationSplits(a, n, sv, k0, k1, o, nu);
    assert nu - o.f == z.y - x.f;
    var e, e' := k0 * nu, k1 * nu;
    assert x.f - (p + e) == o.f - e && x.fd - (v + e') == o.fd - e';
  }

  lemma DefiniteDiagonal(a: Cov)
    requires Definite(a)
    ensures a.p00 > 0.0
  {
  }

  // The whole course.

  ghost function TimeOf(s: Filter, zs: seq<Obs>, i: nat): real
    requires i <= |zs|
  {
    if i == 0 then s.clock.t else zs[i - 1].t
  }

  /** A point for the start and one for every observation, with a possible way between them. */
  ghost predicate Course(s: Filter, zs: seq<Obs>, xs: seq<Point>, q: real) {
    && |xs| == |zs| + 1
    && forall i: nat | i < |zs| :: Possible(xs[i], xs[i + 1], zs[i].t - TimeOf(s, zs, i), q)
  }

  /** The deviation from the prior, what bends the course, and what every observation says against it. */
  ghost function CourseCost(s: Filter, zs: seq<Obs>, xs: seq<Point>, q: real): real
    requires |xs| == |zs| + 1
  {
    if |zs| == 0 then Deviation(s.clock.cov, xs[0].f - s.f, xs[0].fd - s.fd)
    else
      var n := |zs| - 1;
      CourseCost(s, zs[..n], xs[..n + 1], q)
      + Bend(xs[n], xs[n + 1], zs[n].t - TimeOf(s, zs, n), q) + Misfit(zs[n], xs[n + 1])
  }

  lemma CoursePrefix(s: Filter, zs: seq<Obs>, xs: seq<Point>, q: real)
    requires Course(s, zs, xs, q) && |zs| > 0
    ensures Course(s, zs[..|zs| - 1], xs[..|zs|], q)
    ensures Possible(xs[|zs| - 1], xs[|zs|], zs[|zs| - 1].t - TimeOf(s, zs, |zs| - 1), q)
  {
    hide Possible;
    var n := |zs| - 1;
    forall i: nat | i < n ensures Possible(xs[i], xs[i + 1], zs[i].t - TimeOf(s, zs[..n], i), q) {
      assert TimeOf(s, zs[..n], i) == TimeOf(s, zs, i);
    }
  }

  /** No course costs less than the filter's cost and its own end's deviation from the filter's final state. */
  lemma {:induction false} NoCourseIsCheaper(s: Filter, zs: seq<Obs>, xs: seq<Point>, q: real)
    requires Definite(s.clock.cov) && Ordered(zs, s.clock.t) && q >= 0.0 && Course(s, zs, xs, q)
    ensures var r := Run(s, zs, q);
            Definite(r.clock.cov)
            && CourseCost(s, zs, xs, q) >= (r.cost - s.cost) + Deviation(r.clock.cov, xs[|zs|].f - r.f, xs[|zs|].fd - r.fd)
  {
    hide Deviation, Definite, Predict, Step, Bend, Possible, Misfit;
    if |zs| > 0 {
      var n := |zs| - 1;
      CoursePrefix(s, zs, xs, q);
      NoCourseIsCheaper(s, zs[..n], xs[..n + 1], q);
      var b := Run(s, zs[..n], q);
      DefinitePsd(s.clock.cov);
      RunValid(s, zs[..n], q);
      StretchBound(b.clock.cov, State(b), xs[n], xs[n + 1], zs[n].t - b.clock.t, q);
      StepSplits(b, zs[n], q, xs[n + 1]);
    }
  }

  /** And to every end there is a course that costs exactly that. */
  lemma {:induction false} CheapestCourse(s: Filter, zs: seq<Obs>, q: real, end: Point) returns (xs: seq<Point>)
    requires Definite(s.clock.cov) && Ordered(zs, s.clock.t) && q >= 0.0
    ensures |xs| == |zs| + 1 && Course(s, zs, xs, q) && xs[|zs|] == end
    ensures forall k: nat | k < |zs| :: Comes(s, zs, q, xs, k)
    ensures var r := Run(s, zs, q);
            Definite(r.clock.cov)
            && CourseCost(s, zs, xs, q) == (r.cost - s.cost) + Deviation(r.clock.cov, end.f - r.f, end.fd - r.fd)
  {
    hide Deviation, Definite, Predict, Step, Bend, Possible, Misfit, Course, Comes, CameFrom, Ordered;
    if |zs| == 0 {
      xs := [end];
      assert Course(s, [], [end], q) by { OnePoint(s, end, q); }
    } else {
      var n := |zs| - 1;
      var b := Run(s, zs[..n], q);
      DefinitePsd(s.clock.cov);
      OrderedPart(zs, s.clock.t);
      RunValid(s, zs[..n], q);
      RunDefinite(s, zs[..n], q);
      var x := StretchAttained(b.clock.cov, State(b), end, zs[n].t - b.clock.t, q);
      StepSplits(b, zs[n], q, end);
      var before := CheapestCourse(s, zs[..n], q, x);
      xs := before + [end];
      assert xs[..n + 1] == before;
      CourseLonger(s, zs, before, end, q);
      ComesLonger(s, zs, zs[..n], before, end, q);
    }
  }

  lemma OnePoint(s: Filter, end: Point, q: real)
    ensures Course(s, [], [end], q)
  {
  }

  lemma OrderedPart(zs: seq<Obs>, t: real)
    requires Ordered(zs, t) && |zs| > 0
    ensures var n := |zs| - 1;
            Ordered(zs[..n], t) && (if n == 0 then t else zs[n - 1].t) <= zs[n].t
  {
  }

  lemma CourseLonger(s: Filter, zs: seq<Obs>, before: seq<Point>, end: Point, q: real)
    requires |zs| > 0 && Course(s, zs[..|zs| - 1], before, q)
    requires Possible(before[|zs| - 1], end, zs[|zs| - 1].t - TimeOf(s, zs, |zs| - 1), q)
    ensures Course(s, zs, before + [end], q)
  {
    hide Possible;
    var n, xs := |zs| - 1, before + [end];
    forall i: nat | i < |zs| ensures Possible(xs[i], xs[i + 1], zs[i].t - TimeOf(s, zs, i), q) {
      if i < n { assert TimeOf(s, zs[..n], i) == TimeOf(s, zs, i); }
    }
  }

  lemma ComesLonger(s: Filter, zs: seq<Obs>, early: seq<Obs>, before: seq<Point>, end: Point, q: real)
    requires |zs| > 0 && early == zs[..|zs| - 1] && |before| == |zs| && forall k: nat | k < |early| :: Comes(s, early, q, before, k)
    requires var b := Run(s, early, q);
             var dt := zs[|zs| - 1].t - b.clock.t;
             Definite(Predict(b.clock.cov, dt, q)) && before[|zs| - 1] == CameFrom(b.clock.cov, State(b), dt, q, end)
    ensures forall k: nat | k < |zs| :: Comes(s, zs, q, before + [end], k)
  {
    hide Definite, Predict, CameFrom, Run;
    forall k: nat | k < |zs| ensures Comes(s, zs, q, before + [end], k) {
      if k < |early| { assert Comes(s, early, q, before, k) && early[..k] == zs[..k]; }
    }
  }

  /** Point k of the course is where the cheapest way to the next one comes from. */
  ghost predicate Comes(s: Filter, zs: seq<Obs>, q: real, xs: seq<Point>, k: nat)
    requires k < |zs| && |xs| == |zs| + 1
  {
    var b := Run(s, zs[..k], q);
    var dt := zs[k].t - b.clock.t;
    Definite(Predict(b.clock.cov, dt, q)) && xs[k] == CameFrom(b.clock.cov, State(b), dt, q, xs[k + 1])
  }

  lemma {:induction false} RunDefinite(s: Filter, zs: seq<Obs>, q: real)
    requires Definite(s.clock.cov) && Ordered(zs, s.clock.t) && q >= 0.0
    ensures Definite(Run(s, zs, q).clock.cov)
  {
    hide Definite, Predict, Step;
    if |zs| > 0 {
      var n := |zs| - 1;
      var b := Run(s, zs[..n], q);
      DefinitePsd(s.clock.cov);
      RunValid(s, zs[..n], q);
      RunDefinite(s, zs[..n], q);
      PredictDefinite(b.clock.cov, zs[n].t - b.clock.t, q);
      StepSplits(b, zs[n], q, Point(0.0, 0.0));
    }
  }

  /** The filter's state is the one end of a course that is as cheap as any. */
  lemma FilterIsOptimal(s: Filter, zs: seq<Obs>, xs: seq<Point>, q: real)
    requires Definite(s.clock.cov) && Ordered(zs, s.clock.t) && q >= 0.0 && Course(s, zs, xs, q)
    ensures var r := Run(s, zs, q);
            && CourseCost(s, zs, xs, q) >= r.cost - s.cost
            && (CourseCost(s, zs, xs, q) == r.cost - s.cost ==> xs[|zs|] == State(r))
  {
    hide Deviation, Definite, Predict, Step, Bend, Possible, Misfit, Run;
    var r := Run(s, zs, q);
    NoCourseIsCheaper(s, zs, xs, q);
    var o := Off(xs[|zs|], State(r));
    DeviationNonnegative(r.clock.cov, o);
    if CourseCost(s, zs, xs, q) == r.cost - s.cost {
      DeviationZero(r.clock.cov, o);
    }
  }

  // The pass back.

  lemma SmoothedForm(c: Cov, dt: real, a: Cov, r0: real, r1: real, z: Point)
    requires Det(a) != 0.0 && z == Point((a.p11 * r0 - a.p01 * r1) / Det(a), (a.p00 * r1 - a.p01 * r0) / Det(a))
    ensures var g := GainBack(c, dt, a);
            && Mul(g.c00, r0) + Mul(g.c01, r1) == (c.p00 + dt * c.p01) * z.f + c.p01 * z.fd
            && Mul(g.c10, r0) + Mul(g.c11, r1) == (c.p01 + dt * c.p11) * z.f + c.p11 * z.fd
  {
    var det := Det(a);
    var i00, i01, i11 := a.p11 / det, -a.p01 / det, a.p00 / det;
    assert GainBack(c, dt, a) == RowsOf(c.p00 + dt * c.p01, c.p01, c.p01 + dt * c.p11, c.p11, i00, i01, i11);
    hide GainBack, Det, RowsOf;
    Quotients(a.p11, a.p01, r0, r1, det);
    Quotients(a.p00, a.p01, r1, r0, det);
    RowForm(c.p00 + dt * c.p01, c.p01, c.p01 + dt * c.p11, c.p11, i00, i01, i11, r0, r1, z.f, z.fd);
  }

  function RowsOf(b00: real, b01: real, b10: real, b11: real, i00: real, i01: real, i11: real): BackGain {
    BackGain(b00 * i00 + b01 * i01, b00 * i01 + b01 * i11, b10 * i00 + b11 * i01, b10 * i01 + b11 * i11)
  }

  lemma RowForm(b00: real, b01: real, b10: real, b11: real, i00: real, i01: real, i11: real, r0: real, r1: real, z0: real, z1: real)
    requires z0 == i00 * r0 + i01 * r1 && z1 == i11 * r1 + i01 * r0
    ensures var g := RowsOf(b00, b01, b10, b11, i00, i01, i11);
            Mul(g.c00, r0) + Mul(g.c01, r1) == b00 * z0 + b01 * z1 && Mul(g.c10, r0) + Mul(g.c11, r1) == b10 * z0 + b11 * z1
  {
    Bilinear(b00, b01, i00, i01, i11, r0, r1);
    Bilinear(b10, b11, i00, i01, i11, r0, r1);
  }

  lemma Quotients(a: real, b: real, r: real, s: real, det: real)
    requires det != 0.0
    ensures (a * r - b * s) / det == (a / det) * r + (-b / det) * s
  {
    assert (a / det) * det == a && (-b / det) * det == -b;
    assert ((a / det) * r + (-b / det) * s) * det == a * r - b * s;
  }

  lemma Bilinear(b: real, b': real, i: real, m: real, j: real, r: real, s: real)
    ensures (b * i + b' * m) * r + (b * m + b' * j) * s == b * (i * r + m * s) + b' * (m * r + j * s)
  {
  }

  /** The program's smoothing step finds where the cheapest way comes from. */
  lemma SmoothedComesFrom(c: Cov, m: Point, dt: real, q: real, a: Cov, x': Point)
    requires a == Predict(c, dt, q) && Definite(a) && Det(a) >= LEAST_DET
    ensures Smoothed(c, m, dt, Point(Ahead(m.f, m.fd, dt), m.fd), a, x') == CameFrom(c, m, dt, q, x')
  {
    var ahead := Point(Ahead(m.f, m.fd, dt), m.fd);
    assert ahead == Straight(m, dt);
    var z := Dual(a, Off(x', ahead));
    hide Dual, Definite, Det, Predict, Propagate, Smoothed, Straight, Ahead, Image;
    SmoothedIs(c, m, dt, ahead, a, x', z);
    PropagatedImage(c, dt, z);
  }

  lemma SmoothedIs(c: Cov, m: Point, dt: real, ahead: Point, a: Cov, x': Point, z: Point)
    requires Definite(a) && Det(a) >= LEAST_DET && z == Dual(a, Off(x', ahead))
    ensures Smoothed(c, m, dt, ahead, a, x')
         == Point(m.f + ((c.p00 + dt * c.p01) * z.f + c.p01 * z.fd), m.fd + ((c.p01 + dt * c.p11) * z.f + c.p11 * z.fd))
  {
    var r0, r1 := x'.f - ahead.f, x'.fd - ahead.fd;
    assert z == Point((a.p11 * r0 - a.p01 * r1) / Det(a), (a.p00 * r1 - a.p01 * r0) / Det(a));
    hide Definite, GainBack, Mul, Det, Dual;
    SmoothedForm(c, dt, a, r0, r1, z);
  }

  lemma PropagatedImage(c: Cov, dt: real, z: Point)
    ensures var e := Image(Propagate(c, dt), z);
            e.f - Mul(e.fd, dt) == (c.p00 + dt * c.p01) * z.f + c.p01 * z.fd && e.fd == (c.p01 + dt * c.p11) * z.f + c.p11 * z.fd
  {
  }

  lemma RecordAt(s: Filter, zs: seq<Obs>, q: real, recs: seq<Record>, j: nat)
    requires Recorded(s, zs, q, recs) && j < |zs|
    ensures var b := Run(s, zs[..j + 1], q);
            recs[j].x == State(b) && recs[j].cov == b.clock.cov && recs[j].t == b.clock.t == zs[j].t
    ensures var b := Run(s, zs[..j + 1], q);
            j + 1 < |zs| ==> recs[j + 1].t == zs[j + 1].t
                             && recs[j + 1].ahead == Point(Ahead(b.f, b.fd, zs[j + 1].t - b.clock.t), b.fd)
                             && recs[j + 1].pcov == Predict(b.clock.cov, zs[j + 1].t - b.clock.t, q)
  {
    hide Step, Predict, Ahead, Run;
    var b := Run(s, zs[..j], q);
    assert zs[..j + 1] == zs[..j] + [zs[j]];
    RunStep(s, zs[..j], zs[j], q);
    StepClock(b, zs[j], q);
    assert recs[j] == RecordOf(b, zs[j], q);
  }

  lemma SameLength(s: Filter, zs: seq<Obs>, q: real, recs: seq<Record>)
    requires Recorded(s, zs, q, recs)
    ensures |recs| == |zs|
  {
  }

  /** As long as no predicted covariance is too near singular for the program, the pass back visits
      where the cheapest course to the final state comes from. */
  lemma {:induction false} PassBack(s: Filter, zs: seq<Obs>, q: real, recs: seq<Record>, xs: seq<Point>, j: nat)
    requires Recorded(s, zs, q, recs) && j < |zs| && |xs| == |zs| + 1 && xs[|zs|] == recs[|zs| - 1].x
    requires forall k: nat | k < |zs| :: Comes(s, zs, q, xs, k)
    requires forall k: nat | 0 < k < |zs| :: Det(recs[k].pcov) >= LEAST_DET
    ensures SmoothFrom(recs, j) == xs[j + 1..]
    decreases |zs| - j
  {
    hide Smoothed, CameFrom, Recorded, Det, Predict, Definite, Run, Ahead;
    RecordAt(s, zs, q, recs, j);
    assert |recs| == |zs| by { SameLength(s, zs, q, recs); }
    assert xs[j + 1..] == [xs[j + 1]] + xs[j + 2..];
    if j + 1 < |zs| {
      PassBack(s, zs, q, recs, xs, j + 1);
      var b := Run(s, zs[..j + 1], q);
      var dt := zs[j + 1].t - b.clock.t;
      assert Comes(s, zs, q, xs, j + 1);
      SmoothedComesFrom(b.clock.cov, State(b), dt, q, Predict(b.clock.cov, dt, q), xs[j + 2]);
    }
  }

  /** The smoothed points are the cheapest course through the observations, which starts at some first point. */
  lemma SmootherIsOptimal(s: Filter, zs: seq<Obs>, q: real, recs: seq<Record>) returns (xs: seq<Point>)
    requires Definite(s.clock.cov) && Ordered(zs, s.clock.t) && q >= 0.0 && |zs| > 0 && Recorded(s, zs, q, recs)
    requires forall k: nat | 0 < k < |zs| :: Det(recs[k].pcov) >= LEAST_DET
    ensures Course(s, zs, xs, q) && xs[1..] == SmoothFrom(recs, 0)
    ensures CourseCost(s, zs, xs, q) == Run(s, zs, q).cost - s.cost
    ensures forall others: seq<Point> | Course(s, zs, others, q) :: CourseCost(s, zs, xs, q) <= CourseCost(s, zs, others, q)
  {
    hide CourseCost, Comes, Run, SmoothFrom, Det, Definite, Possible;
    var r := Run(s, zs, q);
    xs := CheapestCourse(s, zs, q, State(r));
    NothingOff(r.clock.cov);
    assert zs[..|zs|] == zs;
    RecordAt(s, zs, q, recs, |zs| - 1);
    PassBack(s, zs, q, recs, xs, 0);
    forall others: seq<Point> | Course(s, zs, others, q) ensures CourseCost(s, zs, xs, q) <= CourseCost(s, zs, others, q) {
      FilterIsOptimal(s, zs, others, q);
    }
  }

  /** Observations of a straight course on which the filter stands cost it nothing and keep it there. */
  lemma ExactObservations(s: Filter, zs: seq<Obs>, q: real)
    requires Definite(s.clock.cov) && Ordered(zs, s.clock.t) && q >= 0.0
    requires forall i: nat | i < |zs| :: zs[i].y == s.f + Mul(s.fd, zs[i].t - s.clock.t)
    ensures var r := Run(s, zs, q);
            r.cost == s.cost && r.f == s.f + Mul(s.fd, TimeOf(s, zs, |zs|) - s.clock.t) && r.fd == s.fd
  {
    var xs := Line(s, zs);
    LineIsFree(s, zs, q);
    FilterIsOptimal(s, zs, xs, q);
    DefinitePsd(s.clock.cov);
    RunValid(s, zs, q);
    hide Run;
  }

  ghost function Line(s: Filter, zs: seq<Obs>): (xs: seq<Point>)
    ensures |xs| == |zs| + 1
    ensures forall i: nat | i <= |zs| :: xs[i] == Point(s.f + Mul(s.fd, TimeOf(s, zs, i) - s.clock.t), s.fd)
  {
    seq(|zs| + 1, i requires 0 <= i <= |zs| => Point(s.f + Mul(s.fd, TimeOf(s, zs, i) - s.clock.t), s.fd))
  }

  lemma LineStretch(s: Filter, zs: seq<Obs>, q: real, i: nat)
    requires i < |zs|
    ensures var xs, dt := Line(s, zs), zs[i].t - TimeOf(s, zs, i);
            Possible(xs[i], xs[i + 1], dt, q) && Bend(xs[i], xs[i + 1], dt, q) == 0.0
  {
    hide Line;
    MulAdds(s.fd, TimeOf(s, zs, i) - s.clock.t, zs[i].t - TimeOf(s, zs, i));
    hide Mul;
    var xs, dt, e := Line(s, zs), zs[i].t - TimeOf(s, zs, i), Mul(q, zs[i].t - TimeOf(s, zs, i));
    if e > 0.0 && dt > 0.0 { CurvedNothing(e, dt); }
  }

  lemma MulAdds(x: real, a: real, b: real)
    ensures Mul(x, a + b) == Mul(x, a) + Mul(x, b)
  {
  }

  lemma MulNothing(x: real)
    ensures Mul(x, 0.0) == 0.0
  {
  }

  lemma CurvedNothing(e: real, dt: real)
    requires e > 0.0 && dt > 0.0
    ensures Curved(e, dt, 0.0, 0.0) == 0.0
  {
    assert 0.0 / dt == 0.0;
  }

  lemma NothingSaid(z: Obs, x: Point)
    requires z.y == x.f
    ensures Misfit(z, x) == 0.0
  {
  }

  lemma {:induction false} LineIsFree(s: Filter, zs: seq<Obs>, q: real)
    requires Definite(s.clock.cov)
    requires forall i: nat | i < |zs| :: zs[i].y == s.f + Mul(s.fd, zs[i].t - s.clock.t)
    ensures Course(s, zs, Line(s, zs), q) && CourseCost(s, zs, Line(s, zs), q) == 0.0
  {
    hide Possible, Bend, Definite, Deviation, Misfit, Mul, Course, Line;
    var xs := Line(s, zs);
    if |zs| == 0 {
      NothingOff(s.clock.cov);
      MulNothing(s.fd);
      assert xs == [xs[0]];
      OnePoint(s, xs[0], q);
    } else {
      var n := |zs| - 1;
      LineIsFree(s, zs[..n], q);
      LineLonger(s, zs);
      LineStretch(s, zs, q, n);
      CourseLonger(s, zs, Line(s, zs[..n]), xs[n + 1], q);
      NothingSaid(zs[n], xs[n + 1]);
    }
  }

  lemma LineLonger(s: Filter, zs: seq<Obs>)
    requires |zs| > 0
    ensures var n, xs := |zs| - 1, Line(s, zs);
            xs[..n + 1] == Line(s, zs[..n]) && xs == Line(s, zs[..n]) + [xs[n + 1]]
  {
    hide Line, Mul;
    var n := |zs| - 1;
    forall i: nat | i <= n ensures Line(s, zs)[i] == Line(s, zs[..n])[i] {
      assert TimeOf(s, zs[..n], i) == TimeOf(s, zs, i);
    }
  }

  /** The variance of an observation, in its weight and three hundredths of a chip. */
  lemma NoiseOf(w: real)
    ensures w >= 0.000000001 ==> Mul(Noise(w) - 0.0009, w) == 1.0
    ensures w < 0.000000001 ==> Noise(w) == 1000000000.0009
  {
  }

  // The slip search scores an offset list by such courses.

  lemma DiagonalDefinite(a: real, b: real)
    requires a > 0.0 && b > 0.0
    ensures Definite(Cov(a, 0.0, b))
  {
    assert a * b > 0.0;
  }

  lemma DiagonalDeviation(a: real, b: real, x: Point)
    requires a > 0.0 && b > 0.0
    ensures Deviation(Cov(a, 0.0, b), x.f, x.fd) == Square(x.f) / a + Square(x.fd) / b
  {
    hide Deviation, Definite, Det, Dot, Takes;
    var c, y := Cov(a, 0.0, b), Point(x.f / a, x.fd / b);
    DiagonalDefinite(a, b);
    assert a * y.f == x.f && b * y.fd == x.fd;
    TakesOpened(c, y, x);
    DeviationOf(c, y, x);
    DotOpened(x, y);
    assert x.f * y.f == Square(x.f) / a && x.fd * y.fd == Square(x.fd) / b;
  }

  lemma SquarePositive(x: real)
    requires x > 0.0
    ensures Square(x) > 0.0
  {
    StrictSquare(0.0, x);
  }

  lemma StartDefinite(p: SlipSearch.Problem)
    requires 4.0 * p.sigma + 1.0 > 0.0
    ensures Definite(p.Start().clock.cov)
  {
    hide Definite, Square;
    var c, b := p.Start().clock.cov, Square(4.0 * p.sigma + 1.0);
    SquarePositive(4.0 * p.sigma + 1.0);
    assert c == Cov(1000000.0, 0.0, b);
    DiagonalDefinite(1000000.0, b);
  }

  lemma RatioSquare(x: real, g: real)
    requires g > 0.0
    ensures Square(g) > 0.0 && Square(x) / Square(g) == Square(x / g)
  {
    var r := x / g;
    SquarePositive(g);
    assert r * g == x;
    assert x * x == (r * r) * (g * g);
  }

  /** The prior of a path: a thousand chips for the carrier, 4 sigma + 1 a symbol for its drift. */
  lemma StartDeviation(p: SlipSearch.Problem, x: Point)
    requires 4.0 * p.sigma + 1.0 > 0.0
    ensures var s := p.Start();
            Deviation(s.clock.cov, x.f - s.f, x.fd - s.fd) == Square(x.f) / 1000000.0 + Square(x.fd / (4.0 * p.sigma + 1.0))
  {
    hide Deviation, Square;
    var c, g := p.Start().clock.cov, 4.0 * p.sigma + 1.0;
    RatioSquare(x.fd, g);
    assert c == Cov(1000000.0, 0.0, Square(g));
    DiagonalDeviation(1000000.0, Square(g), x);
  }

  lemma {:induction false} ShiftedOrdered(p: SlipSearch.Problem, offs: seq<int>)
    requires p.Valid() && |offs| <= |p.syms|
    ensures Ordered(SlipSearch.Shifted(p, offs), 0.0) && UpTo(SlipSearch.Shifted(p, offs), p.EndTime(|offs|)) && p.EndTime(|offs|) >= 0.0
  {
    hide Ordered, UpTo;
    if |offs| > 0 {
      var k := |offs| - 1;
      ShiftedOrdered(p, offs[..k]);
      var seen := SlipSearch.Shift(p.Seen(k), offs[k]);
      SlipSearch.ShiftOrdered(p.Seen(k), offs[k], p.EndTime(k));
      OrderedConcat(SlipSearch.Shifted(p, offs[..k]), seen, 0.0, p.EndTime(k));
      assert p.EndTime(|offs|) == if |seen| == 0 then p.EndTime(k) else seen[|seen| - 1].t;
    } else {
      NothingOrdered(0.0, p.EndTime(0));
    }
  }

  ghost predicate UpTo(zs: seq<Obs>, e: real) {
    forall i: nat | i < |zs| :: zs[i].t <= e
  }

  lemma NothingOrdered(t: real, e: real)
    ensures Ordered([], t) && UpTo([], e)
  {
  }

  lemma OrderedConcat(a: seq<Obs>, b: seq<Obs>, t: real, e: real)
    requires Ordered(a, t) && t <= e && Ordered(b, e) && UpTo(a, e)
    ensures var e' := if |b| == 0 then e else b[|b| - 1].t;
            Ordered(a + b, t) && UpTo(a + b, e') && e <= e'
  {
  }

  /** No carrier course explains the observations, moved by the offsets, for less than the list's score. */
  lemma ScoreIsLeast(p: SlipSearch.Problem, offs: seq<int>, xs: seq<Point>)
    requires p.Valid() && 4.0 * p.sigma + 1.0 > 0.0 && |offs| <= |p.syms|
    requires Course(p.Start(), SlipSearch.Shifted(p, offs), xs, p.q)
    ensures SlipSearch.Cost(p, offs) <= 6.0 * SlipSearch.Slips(offs) as real + CourseCost(p.Start(), SlipSearch.Shifted(p, offs), xs, p.q)
  {
    hide Run, CourseCost, Course, Definite;
    StartDefinite(p);
    ShiftedOrdered(p, offs);
    FilterIsOptimal(p.Start(), SlipSearch.Shifted(p, offs), xs, p.q);
  }

  /** One course explains them for exactly that. */
  lemma ScoreIsAttained(p: SlipSearch.Problem, offs: seq<int>) returns (xs: seq<Point>)
    requires p.Valid() && 4.0 * p.sigma + 1.0 > 0.0 && |offs| <= |p.syms|
    ensures Course(p.Start(), SlipSearch.Shifted(p, offs), xs, p.q)
    ensures SlipSearch.Cost(p, offs) == 6.0 * SlipSearch.Slips(offs) as real + CourseCost(p.Start(), SlipSearch.Shifted(p, offs), xs, p.q)
  {
    hide Run, CourseCost, Course, Definite;
    StartDefinite(p);
    ShiftedOrdered(p, offs);
    var s, zs := p.Start(), SlipSearch.Shifted(p, offs);
    var r := Run(s, zs, p.q);
    xs := CheapestCourse(s, zs, p.q, State(r));
    NothingOff(r.clock.cov);
  }

  lemma NothingOff(c: Cov)
    ensures Deviation(c, 0.0, 0.0) == 0.0
  {
  }
}
