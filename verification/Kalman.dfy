// The 4x4 Kalman filter of internal/fusion: state (x, y, vx, vy), updated in place. It is
// proved to be two AxisFilters that share one covariance.
module Kalman {
  import opened Plane
  import opened AxisFilter

  const INITIAL_VELOCITY_STD_DEV := 60.0
  const METERS_PER_DEGREE_EQUATOR := 111320.0

  type Vector = v: seq<real> | |v| == 4 witness [0.0, 0.0, 0.0, 0.0]

  /** Go's [4][4]float64, a value that is copied on assignment. */
  type Matrix = m: seq<seq<real>> | |m| == 4 && forall r :: 0 <= r < 4 ==> |m[r]| == 4
    witness [[0.0, 0.0, 0.0, 0.0], [0.0, 0.0, 0.0, 0.0], [0.0, 0.0, 0.0, 0.0], [0.0, 0.0, 0.0, 0.0]]

  function Put(m: Matrix, row: nat, col: nat, v: real): (m': Matrix)
    requires row < 4 && col < 4
    ensures m'[row][col] == v
    ensures forall r, c :: 0 <= r < 4 && 0 <= c < 4 && !(r == row && c == col) ==> m'[r][c] == m[r][c]
  {
    m[row := m[row][col := v]]
  }

  function Dot(f: Matrix, g: Matrix, r: nat, c: nat): real
    requires r < 4 && c < 4
  {
    f[r][0] * g[0][c] + f[r][1] * g[1][c] + f[r][2] * g[2][c] + f[r][3] * g[3][c]
  }

  /** The matrix product. */
  function Mul(f: Matrix, g: Matrix): Matrix {
    seq(4, r requires 0 <= r < 4 => seq(4, c requires 0 <= c < 4 => Dot(f, g, r, c)))
  }

  function Transpose(f: Matrix): Matrix {
    seq(4, r requires 0 <= r < 4 => seq(4, c requires 0 <= c < 4 => f[c][r]))
  }

  function Add(f: Matrix, g: Matrix): Matrix {
    seq(4, r requires 0 <= r < 4 => seq(4, c requires 0 <= c < 4 => f[r][c] + g[r][c]))
  }

  /** Constant-velocity motion over dt. */
  function Motion(dt: real): Matrix {
    [[1.0, 0.0,  dt, 0.0],
     [0.0, 1.0, 0.0,  dt],
     [0.0, 0.0, 1.0, 0.0],
     [0.0, 0.0, 0.0, 1.0]]
  }

  /** The covariance of one random acceleration of variance q per axis, held for dt. */
  function ProcessNoise(dt: real, q: real): Matrix {
    var v, w, u := q * (dt * dt * dt * dt) / 4.0, q * (dt * dt * dt) / 2.0, q * (dt * dt);
    [[  v, 0.0,   w, 0.0],
     [0.0,   v, 0.0,   w],
     [  w, 0.0,   u, 0.0],
     [0.0,   w, 0.0,   u]]
  }

  /** F P F' + Q */
  function PredictedCovariance(p: Matrix, dt: real, q: real): Matrix {
    Add(Mul(Mul(Motion(dt), p), Transpose(Motion(dt))), ProcessNoise(dt, q))
  }

  /** Both axes with covariance [a b; b c] and nothing across the axes. */
  function Block(a: real, b: real, c: real): Matrix {
    [[  a, 0.0,   b, 0.0],
     [0.0,   a, 0.0,   b],
     [  b, 0.0,   c, 0.0],
     [0.0,   b, 0.0,   c]]
  }

  lemma SameMatrix(f: Matrix, g: Matrix)
    requires forall r, c :: 0 <= r < 4 && 0 <= c < 4 ==> f[r][c] == g[r][c]
    ensures f == g
  {
    assert forall r :: 0 <= r < 4 ==> f[r] == g[r];
  }

  lemma MotionRow(p: Matrix, dt: real, r: nat, c: nat)
    requires r < 4 && c < 4
    ensures Mul(Motion(dt), p)[r][c] == p[r][c] + (if r < 2 then dt * p[r + 2][c] else 0.0)
  {
    assert Mul(Motion(dt), p)[r][c] == Dot(Motion(dt), p, r, c);
    var row := Motion(dt)[r];
    assert row == if r == 0 then [1.0, 0.0, dt, 0.0] else if r == 1 then [0.0, 1.0, 0.0, dt]
                  else if r == 2 then [0.0, 0.0, 1.0, 0.0] else [0.0, 0.0, 0.0, 1.0];
  }

  lemma MotionColumn(p: Matrix, dt: real, r: nat, c: nat)
    requires r < 4 && c < 4
    ensures Mul(p, Transpose(Motion(dt)))[r][c] == MovedBy(p, dt, r, c)
  {
    var g := Transpose(Motion(dt));
    assert Mul(p, g)[r][c] == Dot(p, g, r, c);
    var row := Motion(dt)[c];
    assert row == if c == 0 then [1.0, 0.0, dt, 0.0] else if c == 1 then [0.0, 1.0, 0.0, dt]
                  else if c == 2 then [0.0, 0.0, 1.0, 0.0] else [0.0, 0.0, 0.0, 1.0];
    assert g[0][c] == row[0] && g[1][c] == row[1] && g[2][c] == row[2] && g[3][c] == row[3];
  }

  /** One entry of the predicted covariance, of F P F' and of F P. */
  function PredictedEntry(p: Matrix, dt: real, q: real, r: nat, c: nat): real
    requires r < 4 && c < 4
  {
    MovedEntry(p, dt, r, c) + ProcessNoise(dt, q)[r][c]
  }

  function MovedEntry(p: Matrix, dt: real, r: nat, c: nat): real
    requires r < 4 && c < 4
  {
    DriftedEntry(p, dt, r, c) + (if c < 2 then dt * DriftedEntry(p, dt, r, c + 2) else 0.0)
  }

  function DriftedEntry(p: Matrix, dt: real, r: nat, c: nat): real
    requires r < 4 && c < 4
  {
    p[r][c] + (if r < 2 then dt * p[r + 2][c] else 0.0)
  }

  lemma PredictedCovarianceEntry(p: Matrix, dt: real, q: real, r: nat, c: nat)
    requires r < 4 && c < 4
    ensures PredictedCovariance(p, dt, q)[r][c] == PredictedEntry(p, dt, q, r, c)
  {
    var fp := Mul(Motion(dt), p);
    assert MovedBy(fp, dt, r, c) == MovedEntry(p, dt, r, c) by {
      MotionRow(p, dt, r, c);
      if c < 2 { MotionRow(p, dt, r, c + 2); }
    }
    MotionColumn(fp, dt, r, c);
    AddEntry(Mul(fp, Transpose(Motion(dt))), ProcessNoise(dt, q), r, c);
  }

  function MovedBy(fp: Matrix, dt: real, r: nat, c: nat): real
    requires r < 4 && c < 4
  {
    fp[r][c] + (if c < 2 then dt * fp[r][c + 2] else 0.0)
  }

  lemma AddEntry(f: Matrix, g: Matrix, r: nat, c: nat)
    requires r < 4 && c < 4
    ensures Add(f, g)[r][c] == f[r][c] + g[r][c]
  {
  }

  /** The entry of a block matrix. */
  function BlockAt(a: real, b: real, c: real, row: nat, col: nat): real {
    if row == col then (if row < 2 then a else c) else if row == col + 2 || col == row + 2 then b else 0.0
  }

  lemma BlockEntry(a: real, b: real, c: real, row: nat, col: nat)
    requires row < 4 && col < 4
    ensures Block(a, b, c)[row][col] == BlockAt(a, b, c, row, col)
  {
    var m := Block(a, b, c);
    assert m[0] == [a, 0.0, b, 0.0] && m[1] == [0.0, a, 0.0, b] && m[2] == [b, 0.0, c, 0.0] && m[3] == [0.0, b, 0.0, c];
    assert row == 0 || row == 1 || row == 2 || row == 3;
  }

  lemma NoiseEntry(dt: real, q: real, row: nat, col: nat)
    requires row < 4 && col < 4
    ensures var n := dt * dt / 2.0;
      ProcessNoise(dt, q)[row][col] == BlockAt(q * (n * n), q * (n * dt), q * (dt * dt), row, col)
  {
    NoisePowers(q, dt, dt * dt / 2.0);
  }

  /** F P has b where P has b, and moves it by dt in the upper half. */
  lemma DriftedBlockEntry(x: Axis, dt: real, row: nat, col: nat)
    requires row < 4 && col < 4
    ensures DriftedEntry(Block(x.a, x.b, x.c), dt, row, col)
      == if row >= 2 then BlockAt(x.a, x.b, x.c, row, col)
         else if row == col then x.a + dt * x.b else if col == row + 2 then x.b + dt * x.c else 0.0
  {
    BlockEntry(x.a, x.b, x.c, row, col);
    if row < 2 { BlockEntry(x.a, x.b, x.c, row + 2, col); }
  }

  lemma PredictedBlockEntry(x: Axis, dt: real, q: real, row: nat, col: nat)
    requires row < 4 && col < 4
    ensures var y := Predict(x, dt, q);
      PredictedEntry(Block(x.a, x.b, x.c), dt, q, row, col) == BlockAt(y.a, y.b, y.c, row, col)
  {
    MovedBlockEntry(x, Drift(x, dt), dt, row, col);
    NoiseEntry(dt, q, row, col);
  }

  lemma MovedBlockEntry(x: Axis, y: Axis, dt: real, row: nat, col: nat)
    requires row < 4 && col < 4 && y == Drift(x, dt)
    ensures MovedEntry(Block(x.a, x.b, x.c), dt, row, col) == BlockAt(y.a, y.b, y.c, row, col)
  {
    DriftedBlockEntry(x, dt, row, col);
    if col < 2 {
      DriftedBlockEntry(x, dt, row, col + 2);
      if row == col { assert dt * (x.b + dt * x.c) == dt * x.b + dt * (dt * x.c); }
    }
  }

  /** Two uncoupled axes stay uncoupled, and each is predicted as an axis of its own. */
  lemma PredictionIsPerAxis(x: Axis, dt: real, q: real)
    ensures var y := Predict(x, dt, q);
      PredictedCovariance(Block(x.a, x.b, x.c), dt, q) == Block(y.a, y.b, y.c)
  {
    var y, p := Predict(x, dt, q), Block(x.a, x.b, x.c);
    forall r, c | 0 <= r < 4 && 0 <= c < 4
      ensures PredictedCovariance(p, dt, q)[r][c] == Block(y.a, y.b, y.c)[r][c]
    {
      PredictedCovarianceEntry(p, dt, q, r, c);
      PredictedBlockEntry(x, dt, q, r, c);
      BlockEntry(y.a, y.b, y.c, r, c);
    }
    SameMatrix(PredictedCovariance(p, dt, q), Block(y.a, y.b, y.c));
  }

  // ---- Positive definiteness of the whole matrix ----

  /** v' P v */
  function Form(p: Matrix, v: Vector): real {
    v[0] * (p[0][0] * v[0] + p[0][1] * v[1] + p[0][2] * v[2] + p[0][3] * v[3])
    + v[1] * (p[1][0] * v[0] + p[1][1] * v[1] + p[1][2] * v[2] + p[1][3] * v[3])
    + v[2] * (p[2][0] * v[0] + p[2][1] * v[1] + p[2][2] * v[2] + p[2][3] * v[3])
    + v[3] * (p[3][0] * v[0] + p[3][1] * v[1] + p[3][2] * v[2] + p[3][3] * v[3])
  }

  lemma AxisForm(a: real, b: real, c: real, u: real, v: real) returns (form: real)
    requires Definite(a, b, c)
    ensures form == a * (u * u) + 2.0 * (b * (u * v)) + c * (v * v)
    ensures form >= 0.0 && (u != 0.0 || v != 0.0 ==> form > 0.0)
  {
    form := a * (u * u) + 2.0 * (b * (u * v)) + c * (v * v);
    if v != 0.0 {
      CompleteTheSquare(a, -b, c, u, v);
      var vv := PositiveSquare(v);
      var rest := Product(a * c - b * b, vv);
      var w := a * u + b * v;
      assert a * form == w * w + rest;
      var ww := NonNegativeSquare(w);
      PositiveFactor(a, form, ww + rest);
    } else if u != 0.0 {
      var uu := PositiveSquare(u);
      form := Product(a, uu);
    }
  }

  /** The 4x4 covariance of a filter is symmetric, and v' P v > 0 for every v other than 0. */
  lemma BlockIsPositiveDefinite(a: real, b: real, c: real, v: Vector)
    requires Definite(a, b, c)
    ensures Transpose(Block(a, b, c)) == Block(a, b, c)
    ensures v != [0.0, 0.0, 0.0, 0.0] ==> Form(Block(a, b, c), v) > 0.0
  {
    SameMatrix(Transpose(Block(a, b, c)), Block(a, b, c));
    FormOfBlock(a, b, c, v);
    assert v == [v[0], v[1], v[2], v[3]];
    var f := AxisForm(a, b, c, v[0], v[2]);
    var g := AxisForm(a, b, c, v[1], v[3]);
    assert Form(Block(a, b, c), v) == f + g;
  }

  lemma FormOfBlock(a: real, b: real, c: real, v: Vector)
    ensures Form(Block(a, b, c), v)
      == (a * (v[0] * v[0]) + 2.0 * (b * (v[0] * v[2])) + c * (v[2] * v[2]))
         + (a * (v[1] * v[1]) + 2.0 * (b * (v[1] * v[3])) + c * (v[3] * v[3]))
  {
    var p := Block(a, b, c);
    assert p[0] == [a, 0.0, b, 0.0] && p[1] == [0.0, a, 0.0, b] && p[2] == [b, 0.0, c, 0.0] && p[3] == [0.0, b, 0.0, c];
    assert v[0] * (a * v[0] + b * v[2]) == a * (v[0] * v[0]) + b * (v[0] * v[2]);
    assert v[1] * (a * v[1] + b * v[3]) == a * (v[1] * v[1]) + b * (v[1] * v[3]);
    assert v[2] * (b * v[0] + c * v[2]) == b * (v[0] * v[2]) + c * (v[2] * v[2]);
    assert v[3] * (b * v[1] + c * v[3]) == b * (v[1] * v[3]) + c * (v[3] * v[3]);
  }

  // ---- The loops of predictedAt ----

  method MoveRows(before: Matrix, dt: real) returns (p: Matrix)
    ensures forall r, c :: 0 <= r < 4 && 0 <= c < 4 ==> p[r][c] == DriftedEntry(before, dt, r, c)
  {
    p := before;
    for row := 0 to 2
      invariant forall r, c :: 0 <= r < 4 && 0 <= c < 4 ==>
        p[r][c] == if r < row then DriftedEntry(before, dt, r, c) else before[r][c]
    {
      var velocity := row + 2;
      for col := 0 to 4
        invariant forall r, c :: 0 <= r < 4 && 0 <= c < 4 ==>
          p[r][c] == if r < row || (r == row && c < col) then DriftedEntry(before, dt, r, c) else before[r][c]
      {
        p := Put(p, row, col, p[row][col] + dt * before[velocity][col]);
      }
    }
  }

  method MoveColumns(before: Matrix, fp: Matrix, dt: real) returns (p: Matrix)
    requires forall r, c :: 0 <= r < 4 && 0 <= c < 4 ==> fp[r][c] == DriftedEntry(before, dt, r, c)
    ensures forall r, c :: 0 <= r < 4 && 0 <= c < 4 ==> p[r][c] == MovedEntry(before, dt, r, c)
  {
    p := fp;
    for col := 0 to 2
      invariant forall r, c :: 0 <= r < 4 && 0 <= c < 4 ==>
        p[r][c] == if c < col then MovedEntry(before, dt, r, c) else DriftedEntry(before, dt, r, c)
    {
      var velocity := col + 2;
      for row := 0 to 4
        invariant forall r, c :: 0 <= r < 4 && 0 <= c < 4 ==>
          p[r][c] == if c < col || (c == col && r < row) then MovedEntry(before, dt, r, c)
            else DriftedEntry(before, dt, r, c)
      {
        var entry := p[row][velocity];
        assert entry == DriftedEntry(before, dt, row, velocity);
        p := Put(p, row, col, p[row][col] + dt * entry);
      }
    }
  }

  method AddNoise(m: Matrix, dt: real, q: real) returns (p: Matrix)
    ensures forall r, c :: 0 <= r < 4 && 0 <= c < 4 ==> p[r][c] == m[r][c] + ProcessNoise(dt, q)[r][c]
  {
    var dt2, dt3, dt4 := dt * dt, dt * dt * dt, dt * dt * dt * dt;
    p := m;
    p := Put(p, 0, 0, p[0][0] + q * dt4 / 4.0);
    p := Put(p, 1, 1, p[1][1] + q * dt4 / 4.0);
    p := Put(p, 0, 2, p[0][2] + q * dt3 / 2.0);
    p := Put(p, 2, 0, p[2][0] + q * dt3 / 2.0);
    p := Put(p, 1, 3, p[1][3] + q * dt3 / 2.0);
    p := Put(p, 3, 1, p[3][1] + q * dt3 / 2.0);
    p := Put(p, 2, 2, p[2][2] + q * dt2);
    p := Put(p, 3, 3, p[3][3] + q * dt2);
    forall r, c | 0 <= r < 4 && 0 <= c < 4
      ensures p[r][c] == m[r][c] + ProcessNoise(dt, q)[r][c]
    {
      NoiseAdded(m, p, dt, q, r, c);
    }
  }

  // ---- The loops of update ----

  /** The inverse of the 2x2 innovation covariance. */
  datatype Inverse2 = Inverse2(i00: real, i01: real, i10: real, i11: real)

  datatype Gains = Gains(x: real, y: real)

  /** The gains of row r for the residuals along both axes. */
  function Gain(p: Matrix, inv: Inverse2, r: nat): Gains
    requires r < 4
  {
    Gains(p[r][0] * inv.i00 + p[r][1] * inv.i10, p[r][0] * inv.i01 + p[r][1] * inv.i11)
  }

  function MovedState(s: Vector, g: Gains, rx: real, ry: real, r: nat): real
    requires r < 4
  {
    s[r] + (g.x * rx + g.y * ry)
  }

  function ShrunkEntry(p: Matrix, g: Gains, r: nat, c: nat): real
    requires r < 4 && c < 4
  {
    p[r][c] - g.x * p[0][c] - g.y * p[1][c]
  }

  method ComputeGain(p: Matrix, inv: Inverse2) returns (gain: seq<Gains>)
    ensures |gain| == 4 && forall r :: 0 <= r < 4 ==> gain[r] == Gain(p, inv, r)
  {
    gain := [];
    for row := 0 to 4
      invariant |gain| == row && forall r :: 0 <= r < row ==> gain[r] == Gain(p, inv, r)
    {
      gain := gain + [Gains(p[row][0] * inv.i00 + p[row][1] * inv.i10, p[row][0] * inv.i01 + p[row][1] * inv.i11)];
    }
  }

  method MoveState(s: Vector, gain: seq<Gains>, rx: real, ry: real) returns (s': Vector)
    requires |gain| == 4
    ensures forall r :: 0 <= r < 4 ==> s'[r] == MovedState(s, gain[r], rx, ry, r)
  {
    s' := s;
    for row := 0 to 4
      invariant forall r :: 0 <= r < 4 ==> s'[r] == if r < row then MovedState(s, gain[r], rx, ry, r) else s[r]
    {
      s' := s'[row := s'[row] + (gain[row].x * rx + gain[row].y * ry)];
    }
  }

  method ShrinkCovariance(p: Matrix, gain: seq<Gains>) returns (p': Matrix)
    requires |gain| == 4
    ensures forall r, c :: 0 <= r < 4 && 0 <= c < 4 ==> p'[r][c] == ShrunkEntry(p, gain[r], r, c)
  {
    p' := p;
    for row := 0 to 4
      invariant forall r, c :: 0 <= r < row && 0 <= c < 4 ==> p'[r][c] == ShrunkEntry(p, gain[r], r, c)
    {
      for col := 0 to 4
        invariant forall r, c :: 0 <= r < 4 && 0 <= c < 4 && (r < row || (r == row && c < col)) ==>
          p'[r][c] == ShrunkEntry(p, gain[r], r, c)
      {
        p' := Put(p', row, col, p[row][col] - gain[row].x * p[0][col] - gain[row].y * p[1][col]);
      }
    }
  }

  lemma UncoupledDistance(rx: real, ry: real, s: real, det: real, d: real)
    requires s > 0.0 && det > 0.0 && det == s * s
    requires d == (rx * (s * rx - 0.0 * ry) + ry * (s * ry - 0.0 * rx)) / det
    ensures d == (rx * rx + ry * ry) / s
  {
    var e := (rx * rx + ry * ry) / s;
    assert e * s == rx * rx + ry * ry;
    assert d * det == rx * (s * rx) + ry * (s * ry);
    assert d * det == e * det by {
      assert e * det == (e * s) * s;
      assert rx * (s * rx) + ry * (s * ry) == (rx * rx + ry * ry) * s;
    }
    Cancel(d, e, det);
  }

  lemma DiagonalInverse(s: real, det: real, inv: real, zero: real)
    requires s > 0.0 && det > 0.0 && det == s * s && inv == s / det && zero == -0.0 / det
    ensures inv * s == 1.0 && zero == 0.0
  {
    assert inv * det == s;
    assert inv * (s * s) == inv * det;
    assert (inv * s) * s == inv * (s * s);
    Cancel(inv * s, 1.0, s);
    assert zero * det == 0.0 * det;
    Cancel(zero, 0.0, det);
  }

  function StateOf(x: Axis, y: Axis): Vector {
    [x.pos, y.pos, x.vel, y.vel]
  }

  function CovarianceOf(x: Axis): Matrix {
    Block(x.a, x.b, x.c)
  }

  /** A state and covariance that are those of two separate axes with one definite covariance. */
  ghost predicate Splits(s: Vector, p: Matrix, x: Axis, y: Axis) {
    PositiveDefinite(x) && SameCovariance(x, y) && s == StateOf(x, y) && p == CovarianceOf(x)
  }

  lemma CovarianceEntry(x: Axis, row: nat, col: nat)
    requires row < 4 && col < 4
    ensures CovarianceOf(x)[row][col] == BlockAt(x.a, x.b, x.c, row, col)
  {
    BlockEntry(x.a, x.b, x.c, row, col);
  }

  /** The gain of a row when position gains are k and velocity gains m, each on its own axis. */
  function AxisGain(k: real, m: real, row: nat): Gains {
    if row == 0 then Gains(k, 0.0) else if row == 1 then Gains(0.0, k) else if row == 2 then Gains(m, 0.0)
      else Gains(0.0, m)
  }

  /** On uncoupled axes the gain of each row is that of its axis, and nothing crosses over. */
  lemma UncoupledGain(x: Axis, s: real, inv: real, k: real, m: real, row: nat)
    requires row < 4 && s > 0.0 && inv * s == 1.0 && k * s == x.a && m * s == x.b
    ensures Gain(CovarianceOf(x), Inverse2(inv, 0.0, 0.0, inv), row)
      == AxisGain(k, m, row)
  {
    CovarianceEntry(x, row, 0);
    CovarianceEntry(x, row, 1);
    assert (x.a * inv) * s == x.a * (inv * s);
    Cancel(x.a * inv, k, s);
    assert (x.b * inv) * s == x.b * (inv * s);
    Cancel(x.b * inv, m, s);
  }

  /** Rows 0 and 1 shrink by the position gain, rows 2 and 3 by the velocity gain. */
  lemma UncoupledShrink(x: Axis, k: real, m: real, u: Axis, g: Gains, row: nat, col: nat)
    requires row < 4 && col < 4 && g == AxisGain(k, m, row)
    requires k * x.b == m * x.a
    requires u.a == x.a - k * x.a && u.b == x.b - k * x.b && u.c == x.c - m * x.b
    ensures ShrunkEntry(CovarianceOf(x), g, row, col) == BlockAt(u.a, u.b, u.c, row, col)
  {
    CovarianceEntry(x, row, col);
    CovarianceEntry(x, 0, col);
    CovarianceEntry(x, 1, col);
    var e, e0, e1 := BlockAt(x.a, x.b, x.c, row, col), BlockAt(x.a, x.b, x.c, 0, col), BlockAt(x.a, x.b, x.c, 1, col);
    var gain, own := if row < 2 then k else m, if row % 2 == 0 then e0 else e1;
    ShrunkBy(CovarianceOf(x), g, row, col, e, e0, e1, gain, own);
    ShrinkByGain(x, k, m, u, row, col, gain, own);
  }

  lemma ShrunkBy(p: Matrix, g: Gains, row: nat, col: nat, e: real, e0: real, e1: real, gain: real, own: real)
    requires row < 4 && col < 4 && p[row][col] == e && p[0][col] == e0 && p[1][col] == e1
    requires (g == Gains(gain, 0.0) && own == e0) || (g == Gains(0.0, gain) && own == e1)
    ensures ShrunkEntry(p, g, row, col) == e - gain * own
  {
    assert ShrunkEntry(p, g, row, col) == e - g.x * e0 - g.y * e1;
  }

  lemma ShrinkByGain(x: Axis, k: real, m: real, u: Axis, row: nat, col: nat, gain: real, own: real)
    requires row < 4 && col < 4 && k * x.b == m * x.a
    requires u.a == x.a - k * x.a && u.b == x.b - k * x.b && u.c == x.c - m * x.b
    requires gain == (if row < 2 then k else m) && own == BlockAt(x.a, x.b, x.c, row % 2, col)
    ensures BlockAt(x.a, x.b, x.c, row, col) - gain * own == BlockAt(u.a, u.b, u.c, row, col)
  {
    if row % 2 != col % 2 {
      assert own == 0.0;
    } else if col < 2 {
      assert own == x.a;
    } else {
      assert own == x.b;
    }
  }

  lemma UncoupledCovariance(x: Axis, k: real, m: real, u: Axis, gain: seq<Gains>, p': Matrix)
    requires |gain| == 4 && forall i :: 0 <= i < 4 ==> gain[i] == AxisGain(k, m, i)
    requires forall i, c :: 0 <= i < 4 && 0 <= c < 4 ==> p'[i][c] == ShrunkEntry(CovarianceOf(x), gain[i], i, c)
    requires k * x.b == m * x.a
    requires u.a == x.a - k * x.a && u.b == x.b - k * x.b && u.c == x.c - m * x.b
    ensures p' == CovarianceOf(u)
  {
    forall i, c | 0 <= i < 4 && 0 <= c < 4
      ensures p'[i][c] == CovarianceOf(u)[i][c]
    {
      UncoupledShrink(x, k, m, u, gain[i], i, c);
      CovarianceEntry(u, i, c);
    }
    SameMatrix(p', CovarianceOf(u));
  }

  lemma UncoupledState(x: Axis, y: Axis, dx: real, dy: real, k: real, m: real, u: Axis, v: Axis, gain: seq<Gains>,
                       s': Vector)
    requires |gain| == 4 && forall i :: 0 <= i < 4 ==> gain[i] == AxisGain(k, m, i)
    requires forall i :: 0 <= i < 4 ==> s'[i] == MovedState(StateOf(x, y), gain[i], dx, dy, i)
    requires u.pos == x.pos + k * dx && u.vel == x.vel + m * dx && v.pos == y.pos + k * dy && v.vel == y.vel + m * dy
    ensures s' == StateOf(u, v)
  {
    assert s'[0] == u.pos;
    assert s'[1] == v.pos;
    assert s'[2] == u.vel;
    assert s'[3] == v.vel;
  }

  /** u is x after an update with gains k and m on a residual d. */
  predicate Gained(x: Axis, d: real, k: real, m: real, u: Axis) {
    u == Axis(x.pos + k * d, x.vel + m * d, x.a - k * x.a, x.b - k * x.b, x.c - m * x.b)
  }

  lemma UncoupledGains(x: Axis, y: Axis, dx: real, dy: real, r: real, s: real, inv: real, k: real, m: real, u: Axis,
                       v: Axis, gain: seq<Gains>, s': Vector, p': Matrix)
    requires s > 0.0 && s == x.a + r && inv * s == 1.0 && k * s == x.a && m * s == x.b
    requires Gained(x, dx, k, m, u) && Gained(y, dy, k, m, v)
    requires |gain| == 4 && forall i :: 0 <= i < 4 ==> gain[i] == Gain(CovarianceOf(x), Inverse2(inv, 0.0, 0.0, inv), i)
    requires forall i :: 0 <= i < 4 ==> s'[i] == MovedState(StateOf(x, y), gain[i], dx, dy, i)
    requires forall i, c :: 0 <= i < 4 && 0 <= c < 4 ==> p'[i][c] == ShrunkEntry(CovarianceOf(x), gain[i], i, c)
    ensures s' == StateOf(u, v) && p' == CovarianceOf(u)
  {
    UpdateByGain(x.a, x.b, r, s, k, m);
    forall i | 0 <= i < 4
      ensures gain[i] == AxisGain(k, m, i)
    {
      UncoupledGain(x, s, inv, k, m, i);
    }
    UncoupledCovariance(x, k, m, u, gain, p');
    UncoupledState(x, y, dx, dy, k, m, u, v, gain, s');
  }

  lemma UpdateGained(x: Axis, z: real, r: real, s: real, k: real, m: real)
    requires s == x.a + r && s > 0.0 && k == x.a / s && m == x.b / s
    ensures Gained(x, z - x.pos, k, m, Update(x, z, r))
    ensures k * s == x.a && m * s == x.b
  {
  }

  /** What predictedAt returns for a filter in state s0, p0 that was last updated dt ago. */
  ghost predicate Predicted(s0: Vector, p0: Matrix, dt: real, q: real, s: Vector, p: Matrix) {
    if dt <= 0.0 then s == s0 && p == p0
    else
      && s[0] == s0[0] + s0[2] * ClampStep(dt) && s[1] == s0[1] + s0[3] * ClampStep(dt)
      && s[2] == s0[2] && s[3] == s0[3]
      && p == PredictedCovariance(p0, ClampStep(dt), q)
  }

  lemma PredictedPosition(x: Axis, pos: real, vel: real, dt: real, q: real)
    requires dt > 0.0 && pos == x.pos + x.vel * ClampStep(dt) && vel == x.vel
    ensures PredictBy(x, dt, q).pos == pos && PredictBy(x, dt, q).vel == vel
  {
  }

  /** On uncoupled axes the prediction is that of each axis. */
  lemma PredictionSplits(x: Axis, y: Axis, dt: real, q: real, s: Vector, p: Matrix)
    requires SameCovariance(x, y) && Predicted(StateOf(x, y), CovarianceOf(x), dt, q, s, p)
    ensures s == StateOf(PredictBy(x, dt, q), PredictBy(y, dt, q)) && p == CovarianceOf(PredictBy(x, dt, q))
  {
    if dt > 0.0 {
      PredictionIsPerAxis(x, ClampStep(dt), q);
      var s0 := StateOf(x, y);
      assert s0[0] == x.pos && s0[1] == y.pos && s0[2] == x.vel && s0[3] == y.vel;
      PredictedPosition(x, s[0], s[2], dt, q);
      PredictedPosition(y, s[1], s[3], dt, q);
    }
  }

  function PredictAxis(x: Axis, elapsed: real, accel: real): Axis {
    PredictBy(x, elapsed, accel * accel)
  }

  lemma PredictionIsValid(x: Axis, y: Axis, s0: Vector, p0: Matrix, dt: real, accel: real, s: Vector, p: Matrix,
                          x': Axis, y': Axis)
    requires Splits(s0, p0, x, y)
    requires Predicted(s0, p0, dt, accel * accel, s, p)
    requires x' == PredictAxis(x, dt, accel) && y' == PredictAxis(y, dt, accel)
    ensures Splits(s, p, x', y')
  {
    SquareNonNegative(accel);
    PredictKeepsPositive(x, dt, accel * accel);
    StepKeepsSameCovariance(x, y, dt, accel * accel);
    PredictionSplits(x, y, dt, accel * accel, s, p);
  }

  method PredictFrom(s0: Vector, p0: Matrix, elapsed: real, accel: real, ghost x0: Axis, ghost y0: Axis)
    returns (s: Vector, p: Matrix)
    requires Splits(s0, p0, x0, y0)
    ensures Splits(s, p, PredictAxis(x0, elapsed, accel), PredictAxis(y0, elapsed, accel))
  {
    s, p := Propagate(s0, p0, elapsed, accel);
    ghost var x, y := PredictAxis(x0, elapsed, accel), PredictAxis(y0, elapsed, accel);
    PredictionIsValid(x0, y0, s0, p0, elapsed, accel, s, p, x, y);
  }

  /** predictedAt on any state and covariance: F s and F P F' + Q, for 30 s at most and never backwards. */
  method Propagate(s0: Vector, p0: Matrix, elapsed: real, accel: real) returns (s: Vector, p: Matrix)
    ensures Predicted(s0, p0, elapsed, accel * accel, s, p)
    ensures elapsed <= 0.0 ==> s == s0 && p == p0
    ensures elapsed > 0.0 ==> s[2] == s0[2] && s[3] == s0[3]
    ensures 0.0 < elapsed <= 30.0 ==>
      && s[0] == s0[0] + s0[2] * elapsed && s[1] == s0[1] + s0[3] * elapsed
      && p == PredictedCovariance(p0, elapsed, accel * accel)
    ensures elapsed >= 30.0 ==>
      && s[0] == s0[0] + s0[2] * 30.0 && s[1] == s0[1] + s0[3] * 30.0
      && p == PredictedCovariance(p0, 30.0, accel * accel)
  {
    var dt := elapsed;
    if dt <= 0.0 {
      return s0, p0;
    }
    if dt > MAX_PREDICT_STEP {
      dt := MAX_PREDICT_STEP;
    }
    s := s0;
    s := s[0 := s[0] + s[2] * dt];
    s := s[1 := s[1] + s[3] * dt];
    var q := accel * accel;
    var fp := MoveRows(p0, dt);
    var fpf := MoveColumns(p0, fp, dt);
    p := AddNoise(fpf, dt, q);
    forall r, c | 0 <= r < 4 && 0 <= c < 4
      ensures p[r][c] == PredictedCovariance(p0, dt, q)[r][c]
    {
      PredictedCovarianceEntry(p0, dt, q, r, c);
    }
    SameMatrix(p, PredictedCovariance(p0, dt, q));
  }

  /** The squared distance of a measurement from a prediction, in units of the variance of their difference. */
  function DistanceFrom(x: Axis, y: Axis, zx: real, zy: real, r: real): real
    requires x.a + r > 0.0
  {
    ((zx - x.pos) * (zx - x.pos) + (zy - y.pos) * (zy - y.pos)) / (x.a + r)
  }

  /** The innovation covariance has a positive determinant, so the two guards against a singular
      one never fire. */
  method InnovationDistance(s: Vector, p: Matrix, zx: real, zy: real, r: real, ghost x: Axis, ghost y: Axis)
    returns (d: real)
    requires Splits(s, p, x, y) && r > 0.0
    ensures d == DistanceFrom(x, y, zx, zy, r)
  {
    var rx := zx - s[0];
    var ry := zy - s[1];
    var s00 := p[0][0] + r;
    var s01 := p[0][1];
    var s10 := p[1][0];
    var s11 := p[1][1] + r;
    var det := s00 * s11 - s01 * s10;
    ghost var ss := PositiveSquare(s00);
    if det <= 0.0 {
      assert false;
    } else {
      d := (rx * (s11 * rx - s01 * ry) + ry * (s00 * ry - s10 * rx)) / det;
      UncoupledDistance(rx, ry, s00, det, d);
    }
  }

  method FuseMeasurement(s: Vector, p: Matrix, zx: real, zy: real, r: real, ghost x: Axis, ghost y: Axis)
    returns (s': Vector, p': Matrix)
    requires Splits(s, p, x, y) && r > 0.0
    ensures Splits(s', p', Update(x, zx, r), Update(y, zy, r))
  {
    UpdateKeepsPositive(x, zx, r);
    UpdateKeepsSameCovariance(x, y, zx, zy, r);
    var rx := zx - s[0];
    var ry := zy - s[1];
    var s00 := p[0][0] + r;
    var s01 := p[0][1];
    var s10 := p[1][0];
    var s11 := p[1][1] + r;
    var det := s00 * s11 - s01 * s10;
    ghost var ss := PositiveSquare(s00);
    if det <= 0.0 {
      assert false;
    } else {
      var inv00, inv01 := s11 / det, -s01 / det;
      var inv10, inv11 := -s10 / det, s00 / det;
      DiagonalInverse(s00, det, inv00, inv01);
      var gain := ComputeGain(p, Inverse2(inv00, inv01, inv10, inv11));
      s' := MoveState(s, gain, rx, ry);
      p' := ShrinkCovariance(p, gain);
      ghost var k, g := x.a / s00, x.b / s00;
      UpdateGained(x, zx, r, s00, k, g);
      UpdateGained(y, zy, r, s00, k, g);
      UncoupledGains(x, y, rx, ry, r, s00, inv00, k, g, Update(x, zx, r), Update(y, zy, r), gain, s', p');
    }
  }

  // ---- The filter ----

  /** A position in the filter's metric plane, and on the globe. */
  datatype Local = Local(x: real, y: real)

  datatype Geo = Geo(latitude: real, longitude: real)

  class KalmanFilter {
    const cos: real -> real
    const originLatitude: real
    const originLongitude: real
    const measurementVar: real
    const processAccel: real
    var state: Vector
    var covariance: Matrix
    var lastTimestamp: real

    /** The east-west axis, and the north-south axis with the same covariance: what state and
        covariance amount to. */
    ghost var x: Axis
    ghost var y: Axis

    ghost predicate Valid()
      reads this
    {
      && measurementVar > 0.0 && cos(originLatitude) > 0.0
      && Splits(state, covariance, x, y)
      && x.a <= measurementVar
    }

    constructor (latitude: real, longitude: real, timestamp: real, measurementNoiseM: real, processAccel: real,
                 cos: real -> real)
      requires measurementNoiseM > 0.0 && cos(latitude) > 0.0
      ensures Valid()
      ensures originLatitude == latitude && originLongitude == longitude && lastTimestamp == timestamp
      ensures measurementVar == measurementNoiseM * measurementNoiseM && this.processAccel == processAccel
        && this.cos == cos
      ensures x == y == Axis(0.0, 0.0, measurementVar, 0.0, INITIAL_VELOCITY_STD_DEV * INITIAL_VELOCITY_STD_DEV)
    {
      this.cos := cos;
      originLatitude, originLongitude, lastTimestamp := latitude, longitude, timestamp;
      measurementVar := measurementNoiseM * measurementNoiseM;
      this.processAccel := processAccel;
      state := [0.0, 0.0, 0.0, 0.0];
      var zero: Matrix := [[0.0, 0.0, 0.0, 0.0], [0.0, 0.0, 0.0, 0.0], [0.0, 0.0, 0.0, 0.0], [0.0, 0.0, 0.0, 0.0]];
      var velocityVar := INITIAL_VELOCITY_STD_DEV * INITIAL_VELOCITY_STD_DEV;
      ghost var noiseVar := PositiveSquare(measurementNoiseM);
      ProductPositive(noiseVar, velocityVar);
      covariance := Put(Put(Put(Put(zero, 0, 0, measurementNoiseM * measurementNoiseM), 1, 1,
        measurementNoiseM * measurementNoiseM),
                            2, 2, velocityVar), 3, 3, velocityVar);
      x := Axis(0.0, 0.0, measurementNoiseM * measurementNoiseM, 0.0, velocityVar);
      y := x;
      new;
      SameMatrix(covariance, CovarianceOf(x));
      assert state == StateOf(x, y);
    }

    function ToLocal(latitude: real, longitude: real): Local {
      Local((longitude - originLongitude) * METERS_PER_DEGREE_EQUATOR * cos(originLatitude),
       (latitude - originLatitude) * METERS_PER_DEGREE_EQUATOR)
    }

    function ToGeo(x: real, y: real): Geo
      requires cos(originLatitude) > 0.0
    {
      Geo(originLatitude + y / METERS_PER_DEGREE_EQUATOR,
       originLongitude + x / (METERS_PER_DEGREE_EQUATOR * cos(originLatitude)))
    }

    function Elapsed(timestamp: real): real
      reads this
    {
      timestamp - lastTimestamp
    }

    ghost function PredictedX(timestamp: real): Axis
      reads this
    {
      PredictAxis(x, Elapsed(timestamp), processAccel)
    }

    ghost function PredictedY(timestamp: real): Axis
      reads this
    {
      PredictAxis(y, Elapsed(timestamp), processAccel)
    }

    ghost function Distance(latitude: real, longitude: real, timestamp: real): real
      reads this
      requires PredictedX(timestamp).a + measurementVar > 0.0
    {
      DistanceFrom(PredictedX(timestamp), PredictedY(timestamp),
                   ToLocal(latitude, longitude).x, ToLocal(latitude, longitude).y, measurementVar)
    }

    method PredictedAt(timestamp: real) returns (s: Vector, p: Matrix)
      requires Valid()
      ensures Splits(s, p, PredictedX(timestamp), PredictedY(timestamp))
    {
      s, p := PredictFrom(state, covariance, Elapsed(timestamp), processAccel, x, y);
    }

    method MahalanobisSquared(latitude: real, longitude: real, timestamp: real) returns (d: real)
      requires Valid()
      ensures PredictedX(timestamp).a + measurementVar > 0.0
      ensures d == Distance(latitude, longitude, timestamp)
    {
      var s, p := PredictedAt(timestamp);
      ghost var px, py := PredictedX(timestamp), PredictedY(timestamp);
      var z := ToLocal(latitude, longitude);
      d := InnovationDistance(s, p, z.x, z.y, measurementVar, px, py);
    }

    method Update(latitude: real, longitude: real, timestamp: real)
      requires Valid()
      modifies this
      ensures Valid()
      ensures old(PredictedX(timestamp)).a + measurementVar > 0.0 && old(PredictedY(timestamp)).a + measurementVar > 0.0
      ensures x == AxisFilter.Update(old(PredictedX(timestamp)), ToLocal(latitude, longitude).x, measurementVar)
      ensures y == AxisFilter.Update(old(PredictedY(timestamp)), ToLocal(latitude, longitude).y, measurementVar)
      ensures lastTimestamp == if timestamp > old(lastTimestamp) then timestamp else old(lastTimestamp)
    {
      var s, p := PredictedAt(timestamp);
      ghost var px, py := PredictedX(timestamp), PredictedY(timestamp);
      var z := ToLocal(latitude, longitude);
      var moved, updated := FuseMeasurement(s, p, z.x, z.y, measurementVar, px, py);
      UpdateKeepsPositive(px, z.x, measurementVar);
      state, covariance := moved, updated;
      x, y := AxisFilter.Update(px, z.x, measurementVar), AxisFilter.Update(py, z.y, measurementVar);
      if timestamp > lastTimestamp {
        lastTimestamp := timestamp;
      }
    }

    function Speed(hypot: (real, real) -> real): real
      reads this
    {
      hypot(state[2], state[3])
    }

    function PositionUncertainty(root: real -> real): real
      reads this
    {
      root(covariance[0][0] + covariance[1][1])
    }

    function Position(): Geo
      reads this
      requires cos(originLatitude) > 0.0
    {
      ToGeo(state[0], state[1])
    }
  }

  lemma NoiseAdded(m: Matrix, p: Matrix, dt: real, q: real, r: nat, c: nat)
    requires r < 4 && c < 4
    requires forall i, j :: 0 <= i < 4 && 0 <= j < 4 && i != j && i != j + 2 && j != i + 2 ==> p[i][j] == m[i][j]
    requires p[0][0] == m[0][0] + q * (dt * dt * dt * dt) / 4.0 && p[1][1] == m[1][1] + q * (dt * dt * dt * dt) / 4.0
    requires p[0][2] == m[0][2] + q * (dt * dt * dt) / 2.0 && p[2][0] == m[2][0] + q * (dt * dt * dt) / 2.0
    requires p[1][3] == m[1][3] + q * (dt * dt * dt) / 2.0 && p[3][1] == m[3][1] + q * (dt * dt * dt) / 2.0
    requires p[2][2] == m[2][2] + q * (dt * dt) && p[3][3] == m[3][3] + q * (dt * dt)
    ensures p[r][c] == m[r][c] + ProcessNoise(dt, q)[r][c]
  {
  }

  /** telemetry.QualityFromUncertainty */
  function QualityFromUncertainty(uncertaintyMeters: real): int {
    var quality := 100.0 - uncertaintyMeters / 5.0;
    if quality < 0.0 then 0 else if quality > 100.0 then 100 else quality.Floor
  }

  /** With the default measurement noise of 100 m, the uncertainty of any stored covariance is
      worth a quality of at least 71. */
  lemma QualityAtLeast71(x: Axis, uncertainty: real)
    requires PositiveDefinite(x) && x.a <= 100.0 * 100.0
    requires uncertainty >= 0.0 && uncertainty * uncertainty == CovarianceOf(x)[0][0] + CovarianceOf(x)[1][1]
    ensures 71 <= QualityFromUncertainty(uncertainty) <= 100
  {
    CovarianceEntry(x, 0, 0);
    CovarianceEntry(x, 1, 1);
    SquareMonotone(uncertainty, 145.0);
  }

  /** The local plane and the globe are inverse to each other. */
  lemma GeoRoundTrip(k: KalmanFilter, latitude: real, longitude: real)
    requires k.cos(k.originLatitude) > 0.0
    ensures var z := k.ToLocal(latitude, longitude); k.ToGeo(z.x, z.y) == Geo(latitude, longitude)
  {
    var z, c := k.ToLocal(latitude, longitude), METERS_PER_DEGREE_EQUATOR * k.cos(k.originLatitude);
    assert z.x == (longitude - k.originLongitude) * c;
    assert (z.x / c) * c == z.x;
    Cancel(z.x / c, longitude - k.originLongitude, c);
  }
}
