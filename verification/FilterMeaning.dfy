// What a prediction and an update of the filter mean: how far a prediction goes, what it does to the
// spread, and in which sense an update is the right combination of what is known and what is measured.
module FilterMeaning {
  import opened Plane
  import opened AxisFilter
  import opened Kalman

  // ---- Predictions ----

  /** A prediction follows the velocity for the time that has passed, but never for more than 30 s: after a
      longer gap it is the prediction for 30 s, covariance and all. */
  lemma PredictionIsCapped(x: Axis, dt: real, q: real)
    ensures dt <= 0.0 ==> PredictBy(x, dt, q) == x
    ensures 0.0 < dt <= 30.0 ==> PredictBy(x, dt, q).pos == x.pos + dt * x.vel
    ensures dt >= 30.0 ==> PredictBy(x, dt, q) == PredictBy(x, 30.0, q)
    ensures dt >= 30.0 ==> PredictBy(x, dt, q).pos == x.pos + 30.0 * x.vel
    ensures PredictBy(x, dt, q).vel == x.vel
  {
  }

  /** The variance of u times the position and w times the velocity. */
  function Variance(x: Axis, u: real, w: real): real {
    x.a * (u * u) + 2.0 * (x.b * (u * w)) + x.c * (w * w)
  }

  lemma DriftedVariance(a: real, b: real, c: real, t: real, u: real, w: real)
    ensures (a + 2.0 * (t * b) + t * (t * c)) * (u * u) + 2.0 * ((b + t * c) * (u * w)) + c * (w * w)
         == a * (u * u) + 2.0 * (b * (u * (w + t * u))) + c * ((w + t * u) * (w + t * u))
  {
    var v := t * u;
    assert (t * (t * c)) * (u * u) == c * (v * v);
    assert (t * b) * (u * u) == b * (u * v);
    assert (t * c) * (u * w) == c * (v * w);
    assert (w + v) * (w + v) == w * w + 2.0 * (v * w) + v * v;
  }

  lemma ShakenVariance(q: real, n: real, t: real, u: real, w: real)
    ensures (q * (n * n)) * (u * u) + 2.0 * ((q * (n * t)) * (u * w)) + (q * (t * t)) * (w * w)
         == q * ((n * u + t * w) * (n * u + t * w))
  {
    var x, y := n * u, t * w;
    assert (x + y) * (x + y) == x * x + 2.0 * (x * y) + y * y;
    assert (q * (n * n)) * (u * u) == q * (x * x);
    assert (q * (n * t)) * (u * w) == q * (x * y);
    assert (q * (t * t)) * (w * w) == q * (y * y);
  }

  /** After t seconds the position is what position and velocity together were before, plus what an
      acceleration of variance q, held for that long, does to both: t*t/2 to the one, t to the other. */
  lemma PredictedVariance(x: Axis, t: real, q: real, u: real, w: real)
    requires 0.0 < t <= 30.0
    ensures Variance(PredictBy(x, t, q), u, w)
         == Variance(x, u, w + t * u) + q * ((t * t / 2.0 * u + t * w) * (t * t / 2.0 * u + t * w))
  {
    var n, d, y := t * t / 2.0, Drift(x, t), PredictBy(x, t, q);
    DriftedVariance(x.a, x.b, x.c, t, u, w);
    ShakenVariance(q, n, t, u, w);
    assert y.a * (u * u) == d.a * (u * u) + (q * (n * n)) * (u * u);
    assert y.b * (u * w) == d.b * (u * w) + (q * (n * t)) * (u * w);
    assert y.c * (w * w) == d.c * (w * w) + (q * (t * t)) * (w * w);
  }

  // ---- Updates add information ----

  function Det(x: Axis): real {
    x.a * x.c - x.b * x.b
  }

  /** The numerators of an information: those of the position and the velocity. */
  function PositionPart(x: Axis): real { x.c * x.pos - x.b * x.vel }
  function VelocityPart(x: Axis): real { x.a * x.vel - x.b * x.pos }

  /** The inverse of the covariance, and the inverse applied to the state: what is known, in a form in which
      independent pieces of knowledge add up. */
  datatype Information = Information(pp: real, pv: real, vv: real, p: real, v: real)

  function InformationOf(x: Axis): Information
    requires PositiveDefinite(x)
  {
    Information(x.c / Det(x), -(x.b / Det(x)), x.a / Det(x),
                PositionPart(x) / Det(x), VelocityPart(x) / Det(x))
  }

  /** A measurement of the position says nothing about the velocity. */
  function With(i: Information, z: real, r: real): Information
    requires r != 0.0
  {
    i.(pp := i.pp + 1.0 / r, p := i.p + z / r)
  }

  lemma RatioPlus(n': real, n: real, z: real, s: real, r: real, d: real, d': real)
    requires s > 0.0 && r > 0.0 && d > 0.0 && d' > 0.0 && s * d' == r * d && n' * s == r * n + d * z
    ensures n' / d' == n / d + z / r
  {
    var u, v, w := n' / d', n / d, z / r;
    assert u * d' == n' && v * d == n && w * r == z;
    assert (n' * s) == u * (s * d') by { assert n' * s == (u * d') * s; }
    assert r * n == (r * d) * v;
    assert d * z == (r * d) * w;
    var rd := Product(r, d);
    Cancel(u, v + w, rd);
  }

  /** The new covariance times the innovation variance s. */
  lemma UpdatedCovariance(x: Axis, y: Axis, r: real, s: real, k: real, m: real, det: real)
    requires s == x.a + r && k * s == x.a && m * s == x.b && det == x.a * x.c - x.b * x.b
    requires y.a == r * k && y.b == r * m && y.c == x.c - m * x.b
    ensures y.a * s == r * x.a && y.b * s == r * x.b && y.c * s == r * x.c + det
  {
    assert y.c * s == x.c * s - x.b * x.b by { assert (m * x.b) * s == x.b * x.b; }
    assert y.c * s == r * x.c + det by { assert x.c * s == x.c * x.a + x.c * r; }
  }

  /** And the new state. */
  lemma UpdatedState(x: Axis, y: Axis, z: real, d: real, r: real, s: real, k: real, m: real, det: real)
    requires s > 0.0 && s == x.a + r && k * s == x.a && m * s == x.b && det == x.a * x.c - x.b * x.b
    requires y.a == r * k && y.b == r * m && y.c * s == r * x.c + det
    requires d == z - x.pos && y.pos == x.pos + k * d && y.vel == x.vel + m * d
    ensures PositionPart(y) * s == r * PositionPart(x) + det * z
    ensures VelocityPart(y) * s == r * VelocityPart(x)
  {
    InformedPosition(x.a, x.b, x.c, x.pos, x.vel, d, r, s, k, m, y.b, y.c, y.pos, y.vel, det);
    InformedVelocity(x.a, x.b, x.pos, x.vel, d, r, s, k, m, y.a, y.b, y.pos, y.vel);
    Distribute(det, x.pos, z);
  }

  lemma InformedPosition(a: real, b: real, c: real, p: real, v: real, d: real, r: real, s: real, k: real, m: real,
                         b': real, c': real, p': real, v': real, det: real)
    requires s > 0.0 && s == a + r && k * s == a && m * s == b && det == a * c - b * b
    requires b' == r * m && c' * s == r * c + det && p' == p + k * d && v' == v + m * d
    ensures (c' * p' - b' * v') * s == r * (c * p - b * v) + det * p + det * d
  {
    var g := (r * c + det) * k - (r * b) * m;
    assert g == det by {
      assert g * s == (r * c + det) * (k * s) - (r * b) * (m * s);
      assert (r * c + det) * a - (r * b) * b == r * (a * c - b * b) + det * a;
      assert r * det + det * a == det * s;
      Cancel(g, det, s);
    }
    assert (c' * p') * s == (r * c + det) * p';
    assert (b' * v') * s == (r * b) * v' by { assert b' * s == r * b; }
    assert (r * c + det) * p' == r * (c * p) + det * p + ((r * c + det) * k) * d;
    assert (r * b) * v' == r * (b * v) + ((r * b) * m) * d;
    assert g * d == ((r * c + det) * k) * d - ((r * b) * m) * d;
    Difference(c' * p', b' * v', s);
  }

  lemma InformedVelocity(a: real, b: real, p: real, v: real, d: real, r: real, s: real, k: real, m: real,
                         a': real, b': real, p': real, v': real)
    requires k * s == a && m * s == b && a' == r * k && b' == r * m && p' == p + k * d && v' == v + m * d
    ensures (a' * v' - b' * p') * s == r * (a * v - b * p)
  {
    assert a' * v' == r * (k * v) + r * (k * (m * d));
    assert b' * p' == r * (m * p) + r * (m * (k * d));
    assert k * (m * d) == m * (k * d);
    assert (k * v) * s == a * v && (m * p) * s == b * p;
  }

  lemma SameRatio(n': real, n: real, s: real, r: real, d: real, d': real)
    requires s > 0.0 && r > 0.0 && d > 0.0 && d' > 0.0 && s * d' == r * d && n' * s == r * n
    ensures n' / d' == n / d
  {
    RatioPlus(n', n, 0.0, s, r, d, d');
  }

  /** Each new numerator over the new determinant; p and v are the last two numerators, d the determinants. */
  lemma NumeratorsMean(x: Axis, y: Axis, p: real, p': real, v: real, v': real, d: real, d': real,
                       z: real, r: real, s: real)
    requires d > 0.0 && d' > 0.0 && r > 0.0 && s > 0.0 && s * d' == r * d
    requires y.a * s == r * x.a && y.b * s == r * x.b && y.c * s == r * x.c + d
    requires p' * s == r * p + d * z && v' * s == r * v
    ensures y.c / d' == x.c / d + 1.0 / r && y.b / d' == x.b / d && y.a / d' == x.a / d
    ensures p' / d' == p / d + z / r && v' / d' == v / d
  {
    RatioPlus(y.c, x.c, 1.0, s, r, d, d');
    SameRatio(y.b, x.b, s, r, d, d');
    SameRatio(y.a, x.a, s, r, d, d');
    RatioPlus(p', p, z, s, r, d, d');
    SameRatio(v', v, s, r, d, d');
  }

  lemma Distribute(k: real, x: real, z: real)
    ensures k * x + k * (z - x) == k * z
  {
  }

  lemma UpdatedDeterminant(x: Axis, y: Axis, r: real, s: real, k: real, m: real)
    requires s == x.a + r && k * s == x.a && m * s == x.b
    requires y.a == r * k && y.b == r * m && y.c == x.c - m * x.b
    ensures s * Det(y) == r * Det(x)
  {
    UpdateDeterminant(x.a, x.b, x.c, r, s, k, m);
  }

  /** An update is the exact fusion of what was known with the measurement: their informations add. */
  lemma UpdateAddsInformation(x: Axis, z: real, r: real)
    requires PositiveDefinite(x) && r > 0.0
    ensures PositiveDefinite(Update(x, z, r))
    ensures InformationOf(Update(x, z, r)) == With(InformationOf(x), z, r)
  {
    var s, k, m, d := x.a + r, x.a / (x.a + r), x.b / (x.a + r), z - x.pos;
    UpdateKeepsPositive(x, z, r);
    UpdateShape(x, z, r, k, m);
    var y := Update(x, z, r);
    UpdatedCovariance(x, y, r, s, k, m, Det(x));
    UpdatedState(x, y, z, d, r, s, k, m, Det(x));
    UpdatedDeterminant(x, y, r, s, k, m);
    NumeratorsMean(x, y, PositionPart(x), PositionPart(y), VelocityPart(x), VelocityPart(y), Det(x), Det(y), z, r, s);
  }

  lemma Difference(x: real, y: real, d: real)
    ensures (x - y) * d == x * d - y * d
  {
  }

  /** An inverse has one inverse. */
  lemma SameCovarianceFrom(a: real, b: real, c: real, d: real, i: real, j: real, l: real)
    requires d > 0.0 && d == a * c - b * b && i * d == c && j * d == b && l * d == a
    ensures (i * l - j * j) * d == 1.0
  {
    var e := i * l - j * j;
    var u, v := (i * l) * d, (j * j) * d;
    assert u * d == c * a by { assert u * d == (i * d) * (l * d); }
    assert v * d == b * b by { assert v * d == (j * d) * (j * d); }
    Difference(i * l, j * j, d);
    Difference(u, v, d);
    Cancel(e * d, 1.0, d);
  }

  lemma SolvesFor(a: real, b: real, c: real, p: real, v: real, d: real)
    requires d == a * c - b * b
    ensures a * (c * p - b * v) + b * (a * v - b * p) == d * p
    ensures b * (c * p - b * v) + c * (a * v - b * p) == d * v
  {
    assert a * (c * p) == (a * c) * p && a * (b * v) == b * (a * v) && b * (b * p) == (b * b) * p;
    assert c * (a * v) == (a * c) * v && b * (b * v) == (b * b) * v && b * (c * p) == c * (b * p);
  }

  /** What the covariance is in terms of its inverse [i j; j l], and the state in terms of the two products. */
  lemma Recover(x: Axis, d: real, i: real, j: real, l: real, e: real, f: real)
    requires d > 0.0 && d == Det(x) && i * d == x.c && -(j * d) == x.b && l * d == x.a
    requires e * d == x.c * x.pos - x.b * x.vel && f * d == x.a * x.vel - x.b * x.pos
    ensures (i * l - j * j) * d == 1.0
    ensures x.pos == x.a * e + x.b * f && x.vel == x.b * e + x.c * f
  {
    SameCovarianceFrom(x.a, x.b, x.c, d, i, -j, l);
    SolvesFor(x.a, x.b, x.c, x.pos, x.vel, d);
    assert (x.a * e + x.b * f) * d == x.a * (e * d) + x.b * (f * d);
    assert (x.b * e + x.c * f) * d == x.b * (e * d) + x.c * (f * d);
    Cancel(x.pos, x.a * e + x.b * f, d);
    Cancel(x.vel, x.b * e + x.c * f, d);
  }

  lemma Fraction(n: real, d: real) returns (q: real)
    requires d > 0.0
    ensures q == n / d && q * d == n
  {
    q := n / d;
  }

  /** The estimate, from its determinant and its information. */
  function Solved(d: real, i: Information): Axis {
    var a, b, c := i.vv * d, -(i.pv * d), i.pp * d;
    Axis(a * i.p + b * i.v, b * i.p + c * i.v, a, b, c)
  }

  /** The inverse matrix has the inverse determinant. */
  predicate Inverts(d: real, i: Information) {
    (i.pp * i.vv - i.pv * i.pv) * d == 1.0
  }

  lemma Invert(x: Axis) returns (d: real, i: Information)
    requires PositiveDefinite(x)
    ensures i == InformationOf(x) && x == Solved(d, i) && Inverts(d, i)
  {
    d := Det(x);
    var pp := Fraction(x.c, d);
    var pv := Fraction(x.b, d);
    var vv := Fraction(x.a, d);
    var p := Fraction(PositionPart(x), d);
    var v := Fraction(VelocityPart(x), d);
    i := Information(pp, -pv, vv, p, v);
    Recover(x, d, pp, -pv, vv, p, v);
  }

  lemma OneInverse(d: real, e: real, i: Information)
    requires Inverts(d, i) && Inverts(e, i)
    ensures d == e
  {
    var g := i.pp * i.vv - i.pv * i.pv;
    assert (g * e) * d == (g * d) * e;
  }

  /** And that fixes the state and its covariance: nothing else has this information. */
  lemma InformationDetermines(x: Axis, y: Axis)
    requires PositiveDefinite(x) && PositiveDefinite(y) && InformationOf(x) == InformationOf(y)
    ensures x == y
  {
    var d, i := Invert(x);
    var e, j := Invert(y);
    OneInverse(d, e, i);
  }

  /** So the update is the one estimate that holds the information of both. */
  lemma UpdateIsTheFusion(x: Axis, z: real, r: real, y: Axis)
    requires PositiveDefinite(x) && r > 0.0 && PositiveDefinite(y)
    ensures y == Update(x, z, r) <==> InformationOf(y) == With(InformationOf(x), z, r)
  {
    UpdateAddsInformation(x, z, r);
    if InformationOf(y) == With(InformationOf(x), z, r) { InformationDetermines(y, Update(x, z, r)); }
  }

  // ---- The distance of a measurement ----

  function Square(x: real): real { x * x }

  /** How badly a position p agrees with the prediction and with the measurement. */
  function Disagreement(x: Axis, z: real, r: real, p: real): real
    requires x.a > 0.0 && r > 0.0
  {
    Square(p - x.pos) / x.a + Square(z - p) / r
  }

  lemma Expand(f: real, a: real, g: real, e: real, u: real)
    requires u == f * a + e && g * a == e
    ensures u * (f + g) == f * (f * a) + 2.0 * (f * e) + e * g
  {
    assert u * (f + g) == (f * a) * f + f * (g * a) + e * f + e * g;
  }

  /** Of a residual d the share k goes to the prediction, the rest to the measurement; u and v are e away
      from that. */
  lemma Compromise(a: real, r: real, s: real, k: real, d: real, e: real, u: real, v: real)
    requires a > 0.0 && r > 0.0 && s == a + r && k * s == a && u == k * d + e && v == d - k * d - e
    ensures Square(u) / a + Square(v) / r == Square(d) / s + Square(e) / a + Square(e) / r
  {
    var f, g, h := d / s, e / a, e / r;
    assert f * s == d && g * a == e && h * r == e;
    assert k * d == f * a by { assert k * d == k * (f * s) == (k * s) * f; }
    assert u == f * a + e && v == f * r - e;
    SquareOver(u, f + g, a);
    SquareOver(v, f - h, r);
    SquareOver(d, f, s);
    SquareOver(e, g, a);
    SquareOver(e, h, r);
    Expand(f, a, g, e, u);
    Expand(f, r, -h, -e, v);
    assert d * f == f * (f * a) + f * (f * r);
  }

  lemma SquareOver(x: real, q: real, a: real)
    requires a > 0.0 && q * a == x
    ensures Square(x) / a == x * q
  {
    assert (x * q) * a == x * x;
    Cancel(x * x / a, x * q, a);
  }

  lemma PositiveQuotient(e: real, a: real)
    requires a > 0.0
    ensures Square(e) / a >= 0.0 && (Square(e) / a == 0.0 <==> e == 0.0)
  {
    var q := Square(e) / a;
    assert q * a == e * e;
    SquareNonNegative(e);
    if e != 0.0 {
      var ee := PositiveSquare(e);
      PositiveFactor(a, q, ee);
    }
    if q < 0.0 { ProductPositive(-q, a); }
  }

  /** Of all positions the updated one agrees best; and how badly it still disagrees is the squared
      residual over the variance of the residual. */
  lemma UpdateIsBestCompromise(x: Axis, z: real, r: real, p: real)
    requires x.a > 0.0 && r > 0.0
    ensures Disagreement(x, z, r, p) >= Square(z - x.pos) / (x.a + r)
    ensures Disagreement(x, z, r, p) == Square(z - x.pos) / (x.a + r) <==> p == Update(x, z, r).pos
  {
    var k, d, e := x.a / (x.a + r), z - x.pos, p - Update(x, z, r).pos;
    UpdateShape(x, z, r, k, x.b / (x.a + r));
    Compromise(x.a, r, x.a + r, k, d, e, p - x.pos, z - p);
    PositiveQuotient(e, x.a);
    PositiveQuotient(e, r);
  }

  /** The distance by which a track is chosen for a sample: what the best compromise costs. */
  lemma DistanceIsLeastDisagreement(x: Axis, y: Axis, zx: real, zy: real, r: real, px: real, py: real)
    requires x.a > 0.0 && y.a == x.a && r > 0.0
    ensures DistanceFrom(x, y, zx, zy, r) <= Disagreement(x, zx, r, px) + Disagreement(y, zy, r, py)
    ensures DistanceFrom(x, y, zx, zy, r) == Disagreement(x, zx, r, px) + Disagreement(y, zy, r, py) <==>
      px == Update(x, zx, r).pos && py == Update(y, zy, r).pos
  {
    UpdateIsBestCompromise(x, zx, r, px);
    UpdateIsBestCompromise(y, zy, r, py);
    var u, v, s := Square(zx - x.pos), Square(zy - y.pos), x.a + r;
    assert (u + v) / s == u / s + v / s;
  }

  // ---- Quality ----

  /** A report has a quality of at least n exactly if its uncertainty is at most 5 m for each point that
      is missing from 100. */
  lemma QualityAtLeastIff(uncertainty: real, n: int)
    requires 1 <= n <= 100
    ensures QualityFromUncertainty(uncertainty) >= n <==> uncertainty <= 5.0 * (100 - n) as real
    ensures 0 <= QualityFromUncertainty(uncertainty) <= 100
  {
  }
}
