// A constant-velocity Kalman filter along one axis: what the 4x4 filter of internal/fusion
// amounts to, and the laws it obeys.
module AxisFilter {
  import opened Plane

  const MAX_PREDICT_STEP := 30.0

  /** Position, velocity, and the entries [a b; b c] of their covariance. */
  datatype Axis = Axis(pos: real, vel: real, a: real, b: real, c: real)

  /** The matrix [a b; b c] is positive definite. */
  predicate Definite(a: real, b: real, c: real) {
    a > 0.0 && c > 0.0 && a * c - b * b > 0.0
  }

  predicate PositiveDefinite(x: Axis) {
    Definite(x.a, x.b, x.c)
  }

  /** Constant velocity for a time dt. */
  function Drift(x: Axis, dt: real): Axis {
    Axis(x.pos + x.vel * dt, x.vel, x.a + 2.0 * (dt * x.b) + dt * (dt * x.c), x.b + dt * x.c, x.c)
  }

  /** A random acceleration of variance q over the time dt. */
  function Shake(x: Axis, dt: real, q: real): Axis {
    var n := dt * dt / 2.0;
    x.(a := x.a + q * (n * n), b := x.b + q * (n * dt), c := x.c + q * (dt * dt))
  }

  function Predict(x: Axis, dt: real, q: real): Axis {
    Shake(Drift(x, dt), dt, q)
  }

  function ClampStep(dt: real): real {
    if dt > MAX_PREDICT_STEP then MAX_PREDICT_STEP else dt
  }

  /** Prediction never runs backwards and at most MAX_PREDICT_STEP forwards. */
  function PredictBy(x: Axis, dt: real, q: real): Axis {
    if dt <= 0.0 then x else Predict(x, ClampStep(dt), q)
  }

  /** Fusing one measurement z of variance r. */
  function Update(x: Axis, z: real, r: real): Axis
    requires x.a + r > 0.0
  {
    var k, m := x.a / (x.a + r), x.b / (x.a + r);
    Axis(x.pos + k * (z - x.pos), x.vel + m * (z - x.pos), x.a - k * x.a, x.b - k * x.b, x.c - m * x.b)
  }

  // ---- Positive definiteness ----

  lemma DriftDeterminant(a: real, b: real, c: real, e: real, t: real)
    requires e == t * c
    ensures (a + 2.0 * (t * b) + t * e) * c - (b + e) * (b + e) == a * c - b * b
  {
    assert (t * b) * c == e * b;
    assert (t * e) * c == e * e;
    assert (b + e) * (b + e) == b * b + 2.0 * (e * b) + e * e;
  }

  lemma DriftKeepsPositive(x: Axis, dt: real)
    requires PositiveDefinite(x)
    ensures PositiveDefinite(Drift(x, dt))
  {
    var y := Drift(x, dt);
    DriftDeterminant(x.a, x.b, x.c, dt * x.c, dt);
    OtherCorner(y.c, y.a, y.b);
  }

  lemma CompleteTheSquare(a: real, b: real, c: real, u: real, v: real)
    ensures a * (a * (u * u) - 2.0 * (b * (u * v)) + c * (v * v))
         == (a * u - b * v) * (a * u - b * v) + (a * c - b * b) * (v * v)
  {
    var p, q := a * u, b * v;
    assert (p - q) * (p - q) == p * p - 2.0 * (p * q) + q * q;
    assert p * p == a * (a * (u * u));
    assert p * q == a * (b * (u * v));
    assert q * q == (b * b) * (v * v);
  }

  /** The quadratic form of a positive definite matrix is never negative. */
  lemma FormNonNegative(a: real, b: real, c: real, u: real, v: real)
    requires a > 0.0 && a * c - b * b > 0.0
    ensures a * (u * u) - 2.0 * (b * (u * v)) + c * (v * v) >= 0.0
  {
    CompleteTheSquare(a, b, c, u, v);
    SquareNonNegative(a * u - b * v);
    SquareNonNegative(v);
    ProductMonotone(0.0, a * c - b * b, v * v);
    var form := a * (u * u) - 2.0 * (b * (u * v)) + c * (v * v);
    if form < 0.0 { ProductPositive(a, -form); }
  }

  lemma NoiseDeterminant(a: real, b: real, c: real, q: real, n: real, t: real)
    ensures (a + q * (n * n)) * (c + q * (t * t)) - (b + q * (n * t)) * (b + q * (n * t))
         == a * c - b * b + q * (a * (t * t) - 2.0 * (b * (t * n)) + c * (n * n))
  {
    var u, v, w := q * (n * n), q * (t * t), q * (n * t);
    assert u * v == w * w by {
      assert (n * n) * (t * t) == (n * t) * (n * t);
    }
    assert (a + u) * (c + v) == a * c + a * v + c * u + u * v;
    assert (b + w) * (b + w) == b * b + 2.0 * (b * w) + w * w;
    assert q * (a * (t * t)) == a * v;
    assert q * (c * (n * n)) == c * u;
    assert q * (b * (t * n)) == b * w;
  }

  lemma ShakeKeepsPositive(x: Axis, dt: real, q: real)
    requires PositiveDefinite(x) && q >= 0.0
    ensures PositiveDefinite(Shake(x, dt, q))
  {
    var n := dt * dt / 2.0;
    SquareNonNegative(n);
    SquareNonNegative(dt);
    FormNonNegative(x.a, x.b, x.c, dt, n);
    NoiseDeterminant(x.a, x.b, x.c, q, n, dt);
    ProductMonotone(0.0, x.a * (dt * dt) - 2.0 * (x.b * (dt * n)) + x.c * (n * n), q);
    ProductMonotone(0.0, n * n, q);
    ProductMonotone(0.0, dt * dt, q);
  }

  /** The noise terms as powers of dt. */
  lemma NoisePowers(q: real, t: real, n: real)
    requires n == t * t / 2.0
    ensures q * (n * n) == q * (t * t * t * t) / 4.0
    ensures q * (n * t) == q * (t * t * t) / 2.0
  {
    var tt := t * t;
    assert n * n == tt * tt / 4.0 && tt * tt == t * t * t * t;
    assert n * t == tt * t / 2.0 && tt * t == t * t * t;
  }

  lemma PredictKeepsPositive(x: Axis, dt: real, q: real)
    requires PositiveDefinite(x) && q >= 0.0
    ensures PositiveDefinite(PredictBy(x, dt, q))
  {
    if dt > 0.0 {
      DriftKeepsPositive(x, ClampStep(dt));
      ShakeKeepsPositive(Drift(x, ClampStep(dt)), ClampStep(dt), q);
    }
  }

  /** The covariance after an update, written with the two gains. */
  lemma UpdateByGain(a: real, b: real, r: real, s: real, k: real, m: real)
    requires s == a + r && k * s == a && m * s == b
    ensures k * b == m * a && a - k * a == r * k && b - k * b == r * m
  {
    assert k * b == k * (m * s) == (k * s) * m == m * a;
  }

  lemma UpdateDeterminant(a: real, b: real, c: real, r: real, s: real, k: real, m: real)
    requires s == a + r && k * s == a && m * s == b
    ensures s * ((r * k) * (c - m * b) - (r * m) * (r * m)) == r * (a * c - b * b)
  {
    var e := m * b;
    assert s * ((r * k) * (c - e)) == r * (a * (c - e)) by { assert s * (r * k) == r * a; }
    assert s * ((r * m) * (r * m)) == r * (r * e) by { assert s * (r * m) == r * b; }
    assert a * e + r * e == b * b by { assert s * e == (m * s) * b; }
    assert r * (a * (c - e)) - r * (r * e) == r * (a * c - b * b) by {
      assert a * (c - e) - r * e == a * c - b * b;
    }
  }

  lemma VelocityVarianceShrinks(b: real, s: real, m: real)
    requires s > 0.0 && m * s == b
    ensures m * b >= 0.0
  {
    SquareNonNegative(m);
    assert m * b == s * (m * m);
    ProductMonotone(0.0, m * m, s);
  }

  lemma OtherCorner(x: real, y: real, z: real)
    requires x > 0.0 && x * y - z * z > 0.0
    ensures y > 0.0
  {
    SquareNonNegative(z);
    PositiveFactor(x, y, x * y);
  }

  lemma UpdatedDefinite(a: real, b: real, c: real, r: real, s: real, k: real, m: real)
    requires Definite(a, b, c) && r > 0.0
    requires s == a + r && k * s == a && m * s == b
    ensures Definite(r * k, r * m, c - m * b)
  {
    PositiveFactor(s, k, a);
    ProductPositive(r, k);
    UpdateDeterminant(a, b, c, r, s, k, m);
    ProductPositive(r, a * c - b * b);
    var p, q := (r * k) * (c - m * b), (r * m) * (r * m);
    PositiveFactor(s, p - q, r * (a * c - b * b));
    OtherCorner(r * k, c - m * b, r * m);
  }

  /** The gains, and the variances y' that an update with those gains leaves. */
  lemma VariancesShrink(x: Axis, y: Axis, r: real, s: real, k: real, m: real)
    requires x.a > 0.0 && r > 0.0 && s == x.a + r && k * s == x.a && m * s == x.b
    requires y.a == r * k && y.c == x.c - m * x.b
    ensures 0.0 < k < 1.0 && y.a < x.a && y.a < r && y.c <= x.c
  {
    PositiveFactor(s, k, x.a);
    PositiveFactor(s, 1.0 - k, r);
    var d, e := r * (1.0 - k), x.a * k;
    ProductPositive(r, 1.0 - k);
    ProductPositive(x.a, k);
    assert y.a == r - d && y.a == x.a - e;
    VelocityVarianceShrinks(x.b, s, m);
  }

  lemma UpdateShape(x: Axis, z: real, r: real, k: real, m: real)
    requires x.a + r > 0.0 && k == x.a / (x.a + r) && m == x.b / (x.a + r)
    ensures k * (x.a + r) == x.a && m * (x.a + r) == x.b
    ensures Update(x, z, r) == Axis(x.pos + k * (z - x.pos), x.vel + m * (z - x.pos), r * k, r * m, x.c - m * x.b)
  {
    UpdateByGain(x.a, x.b, r, x.a + r, k, m);
  }

  /** An update keeps the covariance positive definite and makes neither variance larger; the
      position variance falls below that of the measurement. */
  lemma UpdateKeepsPositive(x: Axis, z: real, r: real)
    requires PositiveDefinite(x) && r > 0.0
    ensures PositiveDefinite(Update(x, z, r))
    ensures Update(x, z, r).a < x.a && Update(x, z, r).a < r && Update(x, z, r).c <= x.c
  {
    var s, k, m := x.a + r, x.a / (x.a + r), x.b / (x.a + r);
    UpdateShape(x, z, r, k, m);
    UpdatedDefinite(x.a, x.b, x.c, r, s, k, m);
    VariancesShrink(x, Update(x, z, r), r, s, k, m);
  }

  /** p lies strictly between s and t, at the fraction k of the way. */
  predicate OnSegment(s: real, t: real, k: real, p: real) {
    0.0 < k < 1.0 && p == (1.0 - k) * s + k * t
  }

  /** The new position lies strictly between the prediction and the measurement. */
  lemma UpdateStaysOnSegment(x: Axis, z: real, r: real)
    requires PositiveDefinite(x) && r > 0.0
    ensures var k := x.a / (x.a + r);
      OnSegment(x.pos, z, k, Update(x, z, r).pos)
  {
    UpdateShape(x, z, r, x.a / (x.a + r), x.b / (x.a + r));
    VariancesShrink(x, Update(x, z, r), r, x.a + r, x.a / (x.a + r), x.b / (x.a + r));
  }

  /** In the plane the two axes share one gain: the new position divides the segment between the
      predicted and the measured one in the ratio of their variances. */
  lemma UpdateStaysOnPlanarSegment(x: Axis, y: Axis, zx: real, zy: real, r: real)
    requires PositiveDefinite(x) && SameCovariance(x, y) && r > 0.0
    ensures y.a + r > 0.0
    ensures exists k :: OnSegment(x.pos, zx, k, Update(x, zx, r).pos) && OnSegment(y.pos, zy, k, Update(y, zy, r).pos)
                        && k * r == (1.0 - k) * x.a
  {
    var k := x.a / (x.a + r);
    UpdateStaysOnSegment(x, zx, r);
    UpdateStaysOnSegment(y, zy, r);
    assert k * (x.a + r) == x.a;
    assert OnSegment(x.pos, zx, k, Update(x, zx, r).pos) && OnSegment(y.pos, zy, k, Update(y, zy, r).pos);
  }

  // ---- Simultaneous measurements ----

  lemma Cancel(x: real, y: real, t: real)
    requires t > 0.0 && x * t == y * t
    ensures x == y
  {
    assert (x - y) * t == 0.0;
    if x > y { ProductPositive(x - y, t); } else if x < y { ProductPositive(y - x, t); }
  }

  /** The gains, in one column of the covariance, of a first update with variance r, a second one with
      variance p, and of the one update that replaces both. */
  datatype StepGains = StepGains(first: real, second: real, both: real)

  /** Both columns obey the same equations; v stands for the entry before the first update. */
  predicate GainLaw(v: real, r: real, p: real, k: real, g: StepGains, t: real) {
    g.second * t == v * r && g.both * t == v * (r + p) && (g.first - g.second * k) * t == v * p
  }

  /** The gain of the second of two updates, and of the one that replaces both. */
  lemma SecondGain(a: real, v: real, r: real, p: real, k: real, g: real, a': real, v': real, g': real, t: real)
    requires k * (a + r) == a && g * (a + r) == v && a' == r * k && v' == r * g
    requires g' * (a' + p) == v' && t == a * (r + p) + r * p
    ensures g' * t == v * r
  {
    var s := a + r;
    assert t == (a' + p) * s by { assert a' * s == r * a; }
    assert g' * t == v' * s;
    assert v' * s == r * v;
  }

  lemma ReplacingGain(a: real, v: real, r: real, p: real, w: real, g'': real, t: real)
    requires w * (r + p) == r * p && g'' * (a + w) == v
    requires t == a * (r + p) + r * p
    ensures g'' * t == v * (r + p)
  {
    assert t == (a + w) * (r + p);
  }

  lemma RemainingGain(a: real, v: real, r: real, p: real, s: real, k: real, g: real, g': real, t: real)
    requires s == a + r && k * s == a && g * s == v && g' * t == v * r
    requires t == a * (r + p) + r * p
    ensures (g - g' * k) * t == v * p
  {
    assert (g' * k) * t == k * (v * r);
    assert k * v == g * a by { assert k * v == k * (g * s) == (k * s) * g; }
    assert k * (v * r) == g * (a * r);
    assert t - a * r == p * s;
    assert g * (p * s) == p * v;
  }

  lemma CombinedGains(a: real, v: real, r: real, p: real, w: real, k: real, a': real, v': real,
                      g: real, g': real, g'': real, t: real)
    requires k * (a + r) == a && g * (a + r) == v && a' == r * k && v' == r * g && g' * (a' + p) == v'
    requires w * (r + p) == r * p && g'' * (a + w) == v
    requires t == a * (r + p) + r * p
    ensures GainLaw(v, r, p, k, StepGains(g, g', g''), t)
  {
    SecondGain(a, v, r, p, k, g, a', v', g', t);
    ReplacingGain(a, v, r, p, w, g'', t);
    RemainingGain(a, v, r, p, a + r, k, g, g', t);
  }

  /** What a first shift by d1 and a second one, from there, by d2 come to. */
  lemma ShiftsAdd(v: real, r: real, p: real, k: real, g: StepGains, t: real, d1: real, d2: real, d: real)
    requires t > 0.0 && GainLaw(v, r, p, k, g, t) && d * (r + p) == d1 * p + d2 * r
    ensures g.first * d1 + g.second * (d2 - k * d1) == g.both * d
  {
    var rest := g.first - g.second * k;
    assert g.first * d1 + g.second * (d2 - k * d1) == rest * d1 + g.second * d2;
    assert (rest * d1 + g.second * d2) * t == (g.both * d) * t by {
      assert (rest * d1) * t == (v * p) * d1;
      assert (g.second * d2) * t == (v * r) * d2;
      assert (g.both * d) * t == (v * (r + p)) * d;
      assert (v * (r + p)) * d == v * (d * (r + p));
      assert v * (d1 * p + d2 * r) == (v * p) * d1 + (v * r) * d2;
    }
    Cancel(rest * d1 + g.second * d2, g.both * d, t);
  }

  lemma CombinedColumn(r: real, p: real, w: real, k: real, g: StepGains, v: real, t: real)
    requires t > 0.0 && w * (r + p) == r * p && GainLaw(v, r, p, k, g, t)
    ensures p * g.second == w * g.both
  {
    assert (p * g.second) * t == p * (v * r);
    assert (w * g.both) * t == w * (v * (r + p)) == v * (w * (r + p));
    assert p * (v * r) == v * (r * p);
    Cancel(p * g.second, w * g.both, t);
  }

  lemma CombinedReduction(a: real, b: real, r: real, p: real, k: real, b': real,
                          m: real, m': real, m'': real, t: real)
    requires t > 0.0 && b' == r * m && t == a * (r + p) + r * p && m * (a + r) == b
    requires GainLaw(b, r, p, k, StepGains(m, m', m''), t)
    ensures m * b + m' * b' == m'' * b
  {
    assert (m' * (r * m)) * t == (m * b) * (r * r) by {
      assert (m' * (r * m)) * t == (b * r) * (r * m);
    }
    WholeReduction(a, b, r, p, m, t);
    assert (m * b + m' * (r * m)) * t == (m * b) * (t + r * r);
    assert (m'' * b) * t == (b * (r + p)) * b;
    Cancel(m * b + m' * (r * m), m'' * b, t);
  }

  lemma WholeReduction(a: real, b: real, r: real, p: real, m: real, t: real)
    requires t == a * (r + p) + r * p && m * (a + r) == b
    ensures (m * b) * (t + r * r) == (b * (r + p)) * b
  {
    var s := a + r;
    assert t + r * r == (r + p) * s;
    assert (m * b) * ((r + p) * s) == (b * (r + p)) * b by { assert (m * b) * s == b * b; }
  }

  /** An update with a measurement z of variance r, its two gains, and what it leads to. */
  datatype Fusion = Fusion(z: real, r: real, k: real, m: real, to: Axis)

  /** The gains solve k * s = a and m * s = b. */
  predicate Fuses(x: Axis, f: Fusion) {
    && f.k * (x.a + f.r) == x.a && f.m * (x.a + f.r) == x.b
    && f.to == Axis(x.pos + f.k * (f.z - x.pos), x.vel + f.m * (f.z - x.pos), f.r * f.k, f.r * f.m, x.c - f.m * x.b)
  }

  lemma UpdateFuses(x: Axis, z: real, r: real) returns (f: Fusion)
    requires x.a + r > 0.0
    ensures Fuses(x, f) && f.z == z && f.r == r && f.to == Update(x, z, r)
  {
    f := Fusion(z, r, x.a / (x.a + r), x.b / (x.a + r), Update(x, z, r));
    UpdateShape(x, z, r, f.k, f.m);
  }

  /** A first update, a second one, and one with the weighted mean and the harmonic variance. */
  predicate Replaces(x: Axis, f: Fusion, f1: Fusion, f2: Fusion) {
    && x.a > 0.0 && f.r > 0.0 && f1.r > 0.0 && Fuses(x, f) && Fuses(f.to, f1) && Fuses(x, f2)
    && f2.r * (f.r + f1.r) == f.r * f1.r && f2.z * (f.r + f1.r) == f.z * f1.r + f1.z * f.r
  }

  function PositionGains(f: Fusion, f1: Fusion, f2: Fusion): StepGains {
    StepGains(f.k, f1.k, f2.k)
  }

  function VelocityGains(f: Fusion, f1: Fusion, f2: Fusion): StepGains {
    StepGains(f.m, f1.m, f2.m)
  }

  function Scale(x: Axis, f: Fusion, f1: Fusion): real {
    x.a * (f.r + f1.r) + f.r * f1.r
  }

  lemma ScalePositive(x: Axis, f: Fusion, f1: Fusion)
    requires x.a > 0.0 && f.r > 0.0 && f1.r > 0.0
    ensures Scale(x, f, f1) > 0.0
  {
    ProductPositive(x.a, f.r + f1.r);
    ProductPositive(f.r, f1.r);
  }

  lemma PositionGainLaw(x: Axis, f: Fusion, f1: Fusion, f2: Fusion)
    requires Replaces(x, f, f1, f2)
    ensures GainLaw(x.a, f.r, f1.r, f.k, PositionGains(f, f1, f2), Scale(x, f, f1))
  {
    CombinedGains(x.a, x.a, f.r, f1.r, f2.r, f.k, f.to.a, f.to.a, f.k, f1.k, f2.k, Scale(x, f, f1));
  }

  lemma VelocityGainLaw(x: Axis, f: Fusion, f1: Fusion, f2: Fusion)
    requires Replaces(x, f, f1, f2)
    ensures GainLaw(x.b, f.r, f1.r, f.k, VelocityGains(f, f1, f2), Scale(x, f, f1))
  {
    CombinedGains(x.a, x.b, f.r, f1.r, f2.r, f.k, f.to.a, f.to.b, f.m, f1.m, f2.m, Scale(x, f, f1));
  }

  lemma CombinedState(x: Axis, f: Fusion, f1: Fusion, f2: Fusion)
    requires Replaces(x, f, f1, f2)
    ensures f1.to.pos == f2.to.pos && f1.to.vel == f2.to.vel
  {
    ScalePositive(x, f, f1);
    PositionGainLaw(x, f, f1, f2);
    VelocityGainLaw(x, f, f1, f2);
    var t, d1, d2, d := Scale(x, f, f1), f.z - x.pos, f1.z - x.pos, f2.z - x.pos;
    assert f1.z - f.to.pos == d2 - f.k * d1;
    assert d * (f.r + f1.r) == d1 * f1.r + d2 * f.r;
    ShiftsAdd(x.a, f.r, f1.r, f.k, PositionGains(f, f1, f2), t, d1, d2, d);
    ShiftsAdd(x.b, f.r, f1.r, f.k, VelocityGains(f, f1, f2), t, d1, d2, d);
  }

  lemma CombinedEntries(x: Axis, f: Fusion, f1: Fusion, f2: Fusion)
    requires Replaces(x, f, f1, f2)
    ensures f1.to.a == f2.to.a && f1.to.b == f2.to.b
  {
    ScalePositive(x, f, f1);
    PositionGainLaw(x, f, f1, f2);
    VelocityGainLaw(x, f, f1, f2);
    CombinedColumn(f.r, f1.r, f2.r, f.k, PositionGains(f, f1, f2), x.a, Scale(x, f, f1));
    CombinedColumn(f.r, f1.r, f2.r, f.k, VelocityGains(f, f1, f2), x.b, Scale(x, f, f1));
  }

  lemma Reductions(u: real, v: real, w: real, c: real, once: real, twice: real, both: real)
    requires u + v == w && once == c - u && twice == once - v && both == c - w
    ensures twice == both
  {
  }

  lemma CombinedVelocityVariance(x: Axis, f: Fusion, f1: Fusion, f2: Fusion)
    requires Replaces(x, f, f1, f2)
    ensures f1.to.c == f2.to.c
  {
    ScalePositive(x, f, f1);
    VelocityGainLaw(x, f, f1, f2);
    CombinedReduction(x.a, x.b, f.r, f1.r, f.k, f.to.b, f.m, f1.m, f2.m, Scale(x, f, f1));
    Reductions(f.m * x.b, f1.m * f.to.b, f2.m * x.b, x.c, f.to.c, f1.to.c, f2.to.c);
  }

  /** Two measurements of the same instant, with variances r and p, act as one: their
      precision-weighted mean, with the harmonic variance. */
  lemma UpdatesCombine(x: Axis, z1: real, r: real, z2: real, p: real)
    requires PositiveDefinite(x) && r > 0.0 && p > 0.0
    ensures Update(x, z1, r).a + p > 0.0 && x.a + r * p / (r + p) > 0.0 && r * p / (r + p) > 0.0
    ensures Update(Update(x, z1, r), z2, p) == Update(x, (z1 * p + z2 * r) / (r + p), r * p / (r + p))
  {
    UpdateKeepsPositive(x, z1, r);
    var w, z := r * p / (r + p), (z1 * p + z2 * r) / (r + p);
    ProductPositive(r, p);
    assert w * (r + p) == r * p && z * (r + p) == z1 * p + z2 * r;
    PositiveFactor(r + p, w, r * p);
    var f := UpdateFuses(x, z1, r);
    var f1 := UpdateFuses(f.to, z2, p);
    var f2 := UpdateFuses(x, z, w);
    CombinedState(x, f, f1, f2);
    CombinedEntries(x, f, f1, f2);
    CombinedVelocityVariance(x, f, f1, f2);
  }

  /** Measurements of one instant, fused one after the other. */
  function FuseAll(x: Axis, zs: seq<real>, r: real): (y: Axis)
    requires PositiveDefinite(x) && r > 0.0
    ensures PositiveDefinite(y)
  {
    if zs == [] then x
    else
      var before := FuseAll(x, zs[..|zs| - 1], r);
      UpdateKeepsPositive(before, zs[|zs| - 1], r);
      Update(before, zs[|zs| - 1], r)
  }

  function Sum(zs: seq<real>): real {
    if zs == [] then 0.0 else Sum(zs[..|zs| - 1]) + zs[|zs| - 1]
  }

  lemma MeanGrows(r: real, n: real, m: real, s: real, z: real, r1: real, z1: real)
    requires n > 0.0 && r > 0.0 && m == n + 1.0 && r1 * n == r && z1 * n == s && r1 > 0.0
    ensures (z1 * r + z * r1) / (r1 + r) == (s + z) / m
    ensures r1 * r / (r1 + r) == r / m
  {
    var t := r1 + r;
    assert t == r1 * m;
    var mean := (s + z) / m;
    assert mean * m == s + z;
    assert mean * t == r1 * (s + z) by { assert mean * t == r1 * (mean * m); }
    assert r1 * s == z1 * r by { assert r1 * (z1 * n) == z1 * (r1 * n); }
    assert mean * t == z1 * r + z * r1;
    var w := r / m;
    assert w * m == r;
    assert w * t == r1 * r by { assert w * t == r1 * (w * m); }
  }

  /** Any number of measurements of one instant act as their mean, with the variance divided by
      their number. */
  lemma {:induction false} FuseAllIsMean(x: Axis, zs: seq<real>, r: real)
    requires PositiveDefinite(x) && r > 0.0 && zs != []
    ensures x.a + r / |zs| as real > 0.0
    ensures FuseAll(x, zs, r) == Update(x, Sum(zs) / |zs| as real, r / |zs| as real)
  {
    var n := (|zs| - 1) as real;
    var z := zs[|zs| - 1];
    var before := zs[..|zs| - 1];
    if before == [] {
      assert Sum(zs) == z;
      assert FuseAll(x, before, r) == x;
    } else {
      FuseAllIsMean(x, before, r);
      var r1, z1 := r / n, Sum(before) / n;
      PositiveFactor(n, r1, r);
      UpdatesCombine(x, z1, r1, z, r);
      MeanGrows(r, n, n + 1.0, Sum(before), z, r1, z1);
    }
  }

  lemma {:induction false} SumOfPermutation(xs: seq<real>, ys: seq<real>)
    requires multiset(xs) == multiset(ys)
    ensures Sum(xs) == Sum(ys) && |xs| == |ys|
    decreases |xs|
  {
    assert |xs| == |multiset(xs)| == |multiset(ys)| == |ys|;
    if xs != [] {
      var last, rest := xs[|xs| - 1], xs[..|xs| - 1];
      assert xs == rest + [last];
      assert last in multiset(ys);
      var i :| 0 <= i < |ys| && ys[i] == last;
      var before, after := ys[..i], ys[i + 1..];
      var others := before + after;
      assert ys == before + [last] + after;
      SumAround(before, last, after);
      ItemsAround(before, last, after);
      assert multiset(rest) == multiset(xs) - multiset{last};
      SumOfPermutation(rest, others);
    }
  }

  lemma SumAround(before: seq<real>, y: real, after: seq<real>)
    ensures Sum(before + [y] + after) == Sum(before + after) + y
  {
    SumOfConcat(before + [y], after);
    SumOfConcat(before, after);
    assert (before + [y])[..|before|] == before;
  }

  lemma ItemsAround(before: seq<real>, y: real, after: seq<real>)
    ensures multiset(before + [y] + after) - multiset{y} == multiset(before + after)
  {
  }

  lemma {:induction false} SumOfConcat(xs: seq<real>, ys: seq<real>)
    ensures Sum(xs + ys) == Sum(xs) + Sum(ys)
  {
    if ys == [] {
      assert xs + ys == xs;
    } else {
      assert (xs + ys)[..|xs + ys| - 1] == xs + ys[..|ys| - 1];
      SumOfConcat(xs, ys[..|ys| - 1]);
    }
  }

  /** The order in which the stations' measurements of one instant arrive does not matter. */
  lemma FusionOrderIrrelevant(x: Axis, zs: seq<real>, ws: seq<real>, r: real)
    requires PositiveDefinite(x) && r > 0.0 && multiset(zs) == multiset(ws)
    ensures FuseAll(x, zs, r) == FuseAll(x, ws, r)
  {
    SumOfPermutation(zs, ws);
    if zs != [] {
      FuseAllIsMean(x, zs, r);
      FuseAllIsMean(x, ws, r);
    }
  }

  // ---- Runs ----

  datatype Observation = Observation(dt: real, z: real)

  /** Predict and update for each observation, dt after the one before it (or not after it). */
  function RunFilter(x: Axis, obs: seq<Observation>, q: real, r: real): (y: Axis)
    requires PositiveDefinite(x) && q >= 0.0 && r > 0.0
    ensures PositiveDefinite(y)
  {
    if obs == [] then x
    else
      var o := obs[|obs| - 1];
      var before := RunFilter(x, obs[..|obs| - 1], q, r);
      PredictKeepsPositive(before, o.dt, q);
      UpdateKeepsPositive(PredictBy(before, o.dt, q), o.z, r);
      Update(PredictBy(before, o.dt, q), o.z, r)
  }

  /** However long the gaps, the stored position variance never exceeds that of one measurement. */
  lemma RunVarianceBounded(x: Axis, obs: seq<Observation>, q: real, r: real)
    requires PositiveDefinite(x) && q >= 0.0 && r > 0.0 && x.a <= r
    ensures 0.0 < RunFilter(x, obs, q, r).a <= r
  {
    if obs != [] {
      var o := obs[|obs| - 1];
      var before := RunFilter(x, obs[..|obs| - 1], q, r);
      PredictKeepsPositive(before, o.dt, q);
      UpdateKeepsPositive(PredictBy(before, o.dt, q), o.z, r);
    }
  }

  predicate SameCovariance(x: Axis, y: Axis) {
    x.a == y.a && x.b == y.b && x.c == y.c
  }

  lemma StepKeepsSameCovariance(x: Axis, y: Axis, dt: real, q: real)
    requires SameCovariance(x, y)
    ensures SameCovariance(PredictBy(x, dt, q), PredictBy(y, dt, q))
  {
  }

  lemma UpdateKeepsSameCovariance(x: Axis, y: Axis, z: real, w: real, r: real)
    requires SameCovariance(x, y) && x.a + r > 0.0
    ensures SameCovariance(Update(x, z, r), Update(y, w, r))
  {
  }

  /** The covariance does not depend on what was measured, only on when. */
  lemma {:induction false} RunCovarianceIndependentOfMeasurements(x: Axis, obs: seq<Observation>, y: Axis,
                                                                  other: seq<Observation>, q: real, r: real)
    requires PositiveDefinite(x) && PositiveDefinite(y) && q >= 0.0 && r > 0.0 && SameCovariance(x, y)
    requires |obs| == |other| && forall i :: 0 <= i < |obs| ==> obs[i].dt == other[i].dt
    ensures SameCovariance(RunFilter(x, obs, q, r), RunFilter(y, other, q, r))
  {
    if obs != [] {
      var n := |obs| - 1;
      var u, v, dt := RunFilter(x, obs[..n], q, r), RunFilter(y, other[..n], q, r), obs[n].dt;
      RunCovarianceIndependentOfMeasurements(x, obs[..n], y, other[..n], q, r);
      StepKeepsSameCovariance(u, v, dt, q);
      PredictKeepsPositive(u, dt, q);
      UpdateKeepsSameCovariance(PredictBy(u, dt, q), PredictBy(v, dt, q), obs[n].z, other[n].z, r);
    }
  }
}
