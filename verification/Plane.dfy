// Real-number geometry: what the model assumes of math.Hypot and math.Sqrt, and the
// few facts about them that the services rely on.
module Plane {

  /** h is math.Hypot: the non-negative root of the sum of the squares. */
  ghost predicate IsHypot(h: (real, real) -> real) {
    forall x: real, y: real :: HypotAt(h, x, y)
  }

  ghost predicate HypotAt(h: (real, real) -> real, x: real, y: real) {
    h(x, y) >= 0.0 && h(x, y) * h(x, y) == x * x + y * y
  }

  /** root is math.Sqrt on the non-negative numbers. */
  ghost predicate IsRoot(root: real -> real) {
    forall x: real :: x >= 0.0 ==> root(x) >= 0.0 && root(x) * root(x) == x
  }

  function Ceil(x: real): (n: int)
    ensures x <= n as real < x + 1.0
  {
    -(-x).Floor
  }

  lemma ProductPositive(x: real, y: real)
    requires x > 0.0 && y > 0.0
    ensures x * y > 0.0
  {
  }

  lemma PositiveFactor(x: real, y: real, xy: real)
    requires x > 0.0 && xy == x * y && xy > 0.0
    ensures y > 0.0
  {
    if y < 0.0 {
      ProductPositive(x, -y);
    }
  }

  lemma ProductMonotone(x: real, y: real, k: real)
    requires x <= y && k >= 0.0
    ensures x * k <= y * k
  {
  }

  /** The identity of Brahmagupta and Lagrange. */
  lemma ProductOfSums(ux: real, uy: real, vx: real, vy: real)
    ensures (ux * ux + uy * uy) * (vx * vx + vy * vy)
         == (ux * vx + uy * vy) * (ux * vx + uy * vy) + (ux * vy - uy * vx) * (ux * vy - uy * vx)
  {
    var p, q, r, s := ux * vx, uy * vy, ux * vy, uy * vx;
    assert (p + q) * (p + q) == p * p + 2.0 * (p * q) + q * q;
    assert (r - s) * (r - s) == r * r - 2.0 * (r * s) + s * s;
    assert p * q == r * s;
    assert p * p == (ux * ux) * (vx * vx) && q * q == (uy * uy) * (vy * vy);
    assert r * r == (ux * ux) * (vy * vy) && s * s == (uy * uy) * (vx * vx);
  }

  lemma SquareMonotone(x: real, y: real)
    requires 0.0 <= x && 0.0 <= y
    ensures x <= y <==> x * x <= y * y
  {
    assert y * y - x * x == (y - x) * (y + x);
    if x < y {
      ProductPositive(y - x, y + x);
    } else if y < x {
      ProductPositive(x - y, y + x);
      assert (y - x) * (y + x) == -((x - y) * (y + x));
    }
  }

  lemma SquareNonNegative(x: real)
    ensures x * x >= 0.0
    ensures x != 0.0 ==> x * x > 0.0
  {
    if x > 0.0 {
      ProductPositive(x, x);
    } else if x < 0.0 {
      ProductPositive(-x, -x);
      assert x * x == (-x) * (-x);
    }
  }

  // The next three name a product, so that its sign is a fact about one number.

  lemma Product(x: real, y: real) returns (xy: real)
    requires x > 0.0 && y > 0.0
    ensures xy == x * y && xy > 0.0
  {
    xy := x * y;
  }

  lemma PositiveSquare(x: real) returns (xx: real)
    requires x != 0.0
    ensures xx == x * x && xx > 0.0
  {
    if x > 0.0 {
      xx := Product(x, x);
    } else {
      xx := Product(-x, -x);
      assert xx == x * x;
    }
  }

  lemma NonNegativeSquare(x: real) returns (xx: real)
    ensures xx == x * x && xx >= 0.0
  {
    if x == 0.0 { xx := 0.0; } else { xx := PositiveSquare(x); }
  }

  /** A length test against a bound is a test of squares. */
  lemma WithinIffSquares(h: (real, real) -> real, x: real, y: real, bound: real)
    requires HypotAt(h, x, y) && bound >= 0.0
    ensures h(x, y) <= bound <==> x * x + y * y <= bound * bound
  {
    SquareMonotone(h(x, y), bound);
  }

  lemma HypotOfZero(h: (real, real) -> real, x: real, y: real)
    requires HypotAt(h, x, y) && x == 0.0 && y == 0.0
    ensures h(x, y) == 0.0
  {
    SquareMonotone(h(x, y), 0.0);
  }

  lemma HypotSymmetric(h: (real, real) -> real, x: real, y: real)
    requires HypotAt(h, x, y) && HypotAt(h, -x, -y)
    ensures h(-x, -y) == h(x, y)
  {
    SquareMonotone(h(x, y), h(-x, -y));
    SquareMonotone(h(-x, -y), h(x, y));
  }

  /** Scaling a vector by a non-negative factor scales its length. */
  lemma HypotScales(h: (real, real) -> real, x: real, y: real, k: real, kx: real, ky: real)
    requires HypotAt(h, x, y) && HypotAt(h, kx, ky) && k >= 0.0 && kx == k * x && ky == k * y
    ensures h(kx, ky) == k * h(x, y)
  {
    var r, s := h(x, y), h(kx, ky);
    assert s * s == (k * r) * (k * r) by {
      assert k * k * (x * x + y * y) == k * k * (r * r);
    }
    assert k * r >= 0.0;
    SquareMonotone(s, k * r);
    SquareMonotone(k * r, s);
  }

  lemma SquareOfProduct(r: real, s: real, rr: real, ss: real)
    requires rr == r * r && ss == s * s
    ensures (r * s) * (r * s) == rr * ss
  {
  }

  /** Cauchy-Schwarz for two vectors of lengths r and s. */
  lemma DotBounded(ux: real, uy: real, vx: real, vy: real, r: real, s: real)
    requires r >= 0.0 && s >= 0.0 && r * r == ux * ux + uy * uy && s * s == vx * vx + vy * vy
    ensures ux * vx + uy * vy <= r * s
  {
    var dot, cross := ux * vx + uy * vy, ux * vy - uy * vx;
    ProductOfSums(ux, uy, vx, vy);
    SquareOfProduct(r, s, ux * ux + uy * uy, vx * vx + vy * vy);
    assert (r * s) * (r * s) == dot * dot + cross * cross;
    SquareNonNegative(cross);
    assert r * s >= 0.0;
    if dot > r * s {
      SquareMonotone(r * s, dot);
      SquareMonotone(dot, r * s);
      assert false;
    }
  }

  lemma TriangleInequality(h: (real, real) -> real, ux: real, uy: real, vx: real, vy: real)
    requires HypotAt(h, ux, uy) && HypotAt(h, vx, vy) && HypotAt(h, ux + vx, uy + vy)
    ensures h(ux + vx, uy + vy) <= h(ux, uy) + h(vx, vy)
  {
    var r, s, t := h(ux, uy), h(vx, vy), h(ux + vx, uy + vy);
    DotBounded(ux, uy, vx, vy, r, s);
    assert t * t <= (r + s) * (r + s) by {
      calc {
        t * t;
        (ux + vx) * (ux + vx) + (uy + vy) * (uy + vy);
        r * r + s * s + 2.0 * (ux * vx + uy * vy);
      <=
        r * r + s * s + 2.0 * (r * s);
        (r + s) * (r + s);
      }
    }
    SquareMonotone(t, r + s);
  }

  /** Two points at most n cells apart lie in cells whose numbers differ by at most n. */
  lemma FloorsStayClose(x: real, y: real, n: int)
    requires -(n as real) <= x - y <= n as real
    ensures -n <= x.Floor - y.Floor <= n
  {
  }

  // ---- Means ----

  lemma SameMean(n: real, sum: real, x: real, y: real)
    requires n > 0.0 && x * n == sum && y * n == sum
    ensures x == y
  {
    assert (x - y) * n == 0.0;
    if x > y { ProductPositive(x - y, n); } else if x < y { ProductPositive(y - x, n); }
  }

  /** The sum of n numbers between low and high can be. */
  predicate SumWithin(n: nat, sum: real, low: real, high: real) {
    low * n as real <= sum <= high * n as real
  }

  lemma OneMoreWithin(n: nat, sum: real, x: real, low: real, high: real)
    requires SumWithin(n, sum, low, high) && low <= x <= high
    ensures SumWithin(n + 1, sum + x, low, high)
  {
  }

  lemma MeanWithin(n: nat, sum: real, mean: real, low: real, high: real)
    requires n > 0 && mean * n as real == sum && SumWithin(n, sum, low, high)
    ensures low <= mean <= high
  {
    if mean < low { ProductPositive(low - mean, n as real); }
    if mean > high { ProductPositive(mean - high, n as real); }
  }
}
