// The even-odd rule of internal/geofence/zoneindex.go: what pointInPolygon decides, and what
// that means geometrically.
module EvenOdd {
  import opened Plane

  datatype Vertex = Vertex(longitude: real, latitude: real)

  type Ring = seq<Vertex>
  type Polygon = seq<Ring>

  predicate Above(v: Vertex, latitude: real) {
    v.latitude > latitude
  }

  /** The edge has one end above the latitude and one end at or below it. */
  predicate Straddles(i: Vertex, j: Vertex, latitude: real) {
    Above(i, latitude) != Above(j, latitude)
  }

  /** The longitude at which the edge meets the latitude. */
  function Meets(i: Vertex, j: Vertex, latitude: real): real
    requires Straddles(i, j, latitude)
  {
    (j.longitude - i.longitude) * (latitude - i.latitude) / (j.latitude - i.latitude) + i.longitude
  }

  /** The edge crosses the ray that runs east from p. */
  predicate Crosses(i: Vertex, j: Vertex, p: Vertex) {
    Straddles(i, j, p.latitude) && p.longitude < Meets(i, j, p.latitude)
  }

  function Before(ring: Ring, i: nat): nat
    requires i < |ring|
  {
    if i == 0 then |ring| - 1 else i - 1
  }

  /** Whether an odd number of the edges that end in the first n vertices cross the ray. */
  predicate OddCrossings(ring: Ring, p: Vertex, n: nat)
    requires n <= |ring|
  {
    n > 0 && OddCrossings(ring, p, n - 1) != Crosses(ring[n - 1], ring[Before(ring, n - 1)], p)
  }

  predicate InsideRing(ring: Ring, p: Vertex) {
    OddCrossings(ring, p, |ring|)
  }

  /** Inside an odd number of the first n rings. */
  predicate InsideRings(rings: Polygon, p: Vertex, n: nat)
    requires n <= |rings|
  {
    n > 0 && InsideRings(rings, p, n - 1) != InsideRing(rings[n - 1], p)
  }

  predicate Inside(rings: Polygon, p: Vertex) {
    InsideRings(rings, p, |rings|)
  }

  method PointInPolygon(p: Vertex, rings: Polygon) returns (inside: bool)
    ensures inside == Inside(rings, p)
  {
    inside := false;
    for r := 0 to |rings|
      invariant inside == InsideRings(rings, p, r)
    {
      inside := ToggleByRing(inside, p, rings[r]);
    }
  }

  /** One turn of the loop over the rings: every edge that crosses the ray toggles the answer. */
  method ToggleByRing(before: bool, p: Vertex, ring: Ring) returns (inside: bool)
    ensures inside == (before != InsideRing(ring, p))
  {
    inside := before;
    var i: int, j: int := 0, |ring| - 1;
    while i < |ring|
      invariant 0 <= i <= |ring| && (i < |ring| ==> j == Before(ring, i))
      invariant inside == (before != OddCrossings(ring, p, i))
    {
      if Crosses(ring[i], ring[j], p) {
        inside := !inside;
      }
      j, i := i, i + 1;
    }
  }

  // ---- Orientation ----

  /** Positive when p lies to the left of the line from i to j. */
  function Orientation(i: Vertex, j: Vertex, p: Vertex): real {
    (j.longitude - i.longitude) * (p.latitude - i.latitude) - (p.longitude - i.longitude) * (j.latitude - i.latitude)
  }

  lemma FactorSign(x: real, d: real, q: real)
    requires d != 0.0 && q * d == x
    ensures d > 0.0 ==> (q > 0.0 <==> x > 0.0) && (q < 0.0 <==> x < 0.0)
    ensures d < 0.0 ==> (q > 0.0 <==> x < 0.0) && (q < 0.0 <==> x > 0.0)
  {
    if q > 0.0 && d > 0.0 { ProductPositive(q, d); }
    if q > 0.0 && d < 0.0 { ProductPositive(q, -d); }
    if q < 0.0 && d > 0.0 { ProductPositive(-q, d); }
    if q < 0.0 && d < 0.0 { ProductPositive(-q, -d); }
  }

  /** An edge that runs north crosses the ray of the points to its left, one that runs south that
      of the points to its right. */
  lemma CrossesIffSide(i: Vertex, j: Vertex, p: Vertex)
    ensures Above(j, p.latitude) && !Above(i, p.latitude) ==> (Crosses(i, j, p) <==> Orientation(i, j, p) > 0.0)
    ensures Above(i, p.latitude) && !Above(j, p.latitude) ==> (Crosses(i, j, p) <==> Orientation(i, j, p) < 0.0)
  {
    if Straddles(i, j, p.latitude) {
      var d := j.latitude - i.latitude;
      var num := (j.longitude - i.longitude) * (p.latitude - i.latitude);
      var side := Orientation(i, j, p);
      assert side / d == num / d - (p.longitude - i.longitude) by {
        assert side == num - (p.longitude - i.longitude) * d;
        assert (p.longitude - i.longitude) * d / d == p.longitude - i.longitude;
      }
      assert Meets(i, j, p.latitude) == num / d + i.longitude;
      FactorSign(side, d, side / d);
    }
  }

  lemma OrientationReversed(i: Vertex, j: Vertex, p: Vertex)
    ensures Orientation(j, i, p) == -Orientation(i, j, p)
  {
  }

  /** An edge is the same in either direction. */
  lemma CrossesSymmetric(i: Vertex, j: Vertex, p: Vertex)
    ensures Crosses(i, j, p) == Crosses(j, i, p)
  {
    CrossesIffSide(i, j, p);
    CrossesIffSide(j, i, p);
    OrientationReversed(i, j, p);
  }

  /** The crossing is at a point of the edge, so its longitude is between those of the ends. */
  lemma MeetsBetween(i: Vertex, j: Vertex, latitude: real, low: real, high: real)
    requires Straddles(i, j, latitude)
    requires low <= i.longitude <= high && low <= j.longitude <= high
    ensures low <= Meets(i, j, latitude) <= high
  {
    var d, e := j.latitude - i.latitude, latitude - i.latitude;
    var t, w := e / d, j.longitude - i.longitude;
    assert t * d == e;
    FactorSign(e, d, t);
    FactorSign(d - e, d, 1.0 - t);
    assert w * e / d == t * w;
    var x, y := (1.0 - t) * i.longitude, t * j.longitude;
    assert Meets(i, j, latitude) == x + y;
    Mixture(1.0 - t, t, i.longitude, j.longitude, low, x, y);
    Mixture(1.0 - t, t, -i.longitude, -j.longitude, -high, -x, -y);
  }

  lemma Mixture(s: real, t: real, x: real, y: real, low: real, sx: real, ty: real)
    requires s >= 0.0 && t >= 0.0 && s + t == 1.0 && low <= x && low <= y && sx == s * x && ty == t * y
    ensures low <= sx + ty
  {
    Weighted(s, low, x, s * low, sx);
    Weighted(t, low, y, t * low, ty);
    assert s * low + t * low == (s + t) * low;
  }

  lemma Weighted(s: real, low: real, x: real, sl: real, sx: real)
    requires s >= 0.0 && low <= x && sl == s * low && sx == s * x
    ensures sl <= sx
  {
    ProductMonotone(low, x, s);
  }

  // ---- Rings as closed paths ----

  /** Whether an odd number of the edges of a path cross the ray. */
  predicate OddPath(path: Ring, p: Vertex) {
    |path| > 1 && OddPath(path[..|path| - 1], p) != Crosses(path[|path| - 2], path[|path| - 1], p)
  }

  lemma {:induction false} OddCrossingsIsPath(ring: Ring, p: Vertex, n: nat)
    requires 0 < n <= |ring|
    ensures OddCrossings(ring, p, n) == (Crosses(ring[0], ring[|ring| - 1], p) != OddPath(ring[..n], p))
  {
    if n == 1 {
      assert OddCrossings(ring, p, 0) == false;
    } else {
      OddCrossingsIsPath(ring, p, n - 1);
      assert ring[..n][..n - 1] == ring[..n - 1];
      CrossesSymmetric(ring[n - 1], ring[n - 2], p);
    }
  }

  lemma RingIsClosedPath(ring: Ring, p: Vertex)
    requires ring != []
    ensures InsideRing(ring, p) == (OddPath(ring, p) != Crosses(ring[|ring| - 1], ring[0], p))
  {
    OddCrossingsIsPath(ring, p, |ring|);
    assert ring[..|ring|] == ring;
    CrossesSymmetric(ring[0], ring[|ring| - 1], p);
  }

  lemma {:induction false} OddPathOfConcat(s: Ring, t: Ring, p: Vertex)
    requires s != [] && t != []
    ensures OddPath(s + t, p) == ((OddPath(s, p) != OddPath(t, p)) != Crosses(s[|s| - 1], t[0], p))
  {
    var n := |t| - 1;
    assert (s + t)[..|s + t| - 1] == s + t[..n];
    if n == 0 {
      assert s + t[..n] == s;
    } else {
      OddPathOfConcat(s, t[..n], p);
    }
  }

  /** It does not matter at which vertex a ring starts. */
  lemma RotationIrrelevant(s: Ring, t: Ring, p: Vertex)
    ensures InsideRing(s + t, p) == InsideRing(t + s, p)
  {
    if s == [] || t == [] {
      assert s + t == t + s;
    } else {
      RingIsClosedPath(s + t, p);
      RingIsClosedPath(t + s, p);
      OddPathOfConcat(s, t, p);
      OddPathOfConcat(t, s, p);
    }
  }

  /** Nor whether the first vertex is repeated at the end, as GeoJSON has it. */
  lemma ClosingVertexIrrelevant(ring: Ring, p: Vertex)
    requires ring != []
    ensures InsideRing(ring + [ring[0]], p) == InsideRing(ring, p)
  {
    RingIsClosedPath(ring, p);
    RingIsClosedPath(ring + [ring[0]], p);
    OddPathOfConcat(ring, [ring[0]], p);
  }

  function Backwards(ring: Ring): Ring {
    if ring == [] then [] else [ring[|ring| - 1]] + Backwards(ring[..|ring| - 1])
  }

  lemma {:induction false} BackwardsEnds(ring: Ring)
    requires ring != []
    ensures |Backwards(ring)| == |ring| && Backwards(ring)[0] == ring[|ring| - 1]
      && Backwards(ring)[|ring| - 1] == ring[0]
  {
    if |ring| > 1 { BackwardsEnds(ring[..|ring| - 1]); } else { assert Backwards(ring[..0]) == []; }
  }

  lemma {:induction false} OddPathBackwards(path: Ring, p: Vertex)
    requires path != []
    ensures OddPath(Backwards(path), p) == OddPath(path, p)
  {
    var n := |path| - 1;
    if n == 0 {
      assert Backwards(path[..0]) == [];
    } else {
      OddPathBackwards(path[..n], p);
      BackwardsEnds(path[..n]);
      OddPathOfConcat([path[n]], Backwards(path[..n]), p);
      CrossesSymmetric(path[n], path[n - 1], p);
    }
  }

  /** Nor which way round it runs. */
  lemma DirectionIrrelevant(ring: Ring, p: Vertex)
    ensures InsideRing(Backwards(ring), p) == InsideRing(ring, p)
  {
    if ring != [] {
      BackwardsEnds(ring);
      OddPathBackwards(ring, p);
      RingIsClosedPath(ring, p);
      RingIsClosedPath(Backwards(ring), p);
      CrossesSymmetric(ring[0], ring[|ring| - 1], p);
    }
  }

  /** Cutting a ring along a chord: a point is inside the whole iff it is inside just one of the pieces. */
  lemma ChordSplits(s: Ring, t: Ring, p: Vertex)
    requires s != [] && t != []
    ensures InsideRing(s + t, p) == (InsideRing(s + [t[0]], p) != InsideRing(t + [s[0]], p))
  {
    RingIsClosedPath(s + t, p);
    RingIsClosedPath(s + [t[0]], p);
    RingIsClosedPath(t + [s[0]], p);
    OddPathOfConcat(s, t, p);
    OddPathOfConcat(s, [t[0]], p);
    OddPathOfConcat(t, [s[0]], p);
    CrossesSymmetric(s[0], t[0], p);
  }

  /** Inside an odd number of the triangles that join the first vertex to the edges. */
  predicate InsideFan(ring: Ring, p: Vertex)
    requires ring != []
  {
    |ring| > 2 && InsideFan(ring[..|ring| - 1], p) != InsideRing([ring[0], ring[|ring| - 2], ring[|ring| - 1]], p)
  }

  /** Every ring is the symmetric difference of the triangles of its fan. */
  lemma {:induction false} RingIsFan(ring: Ring, p: Vertex)
    requires ring != []
    ensures InsideRing(ring, p) == InsideFan(ring, p)
  {
    var n := |ring| - 1;
    RingIsClosedPath(ring, p);
    if n == 0 {
    } else if n == 1 {
      CrossesSymmetric(ring[0], ring[1], p);
      assert ring[..1] == [ring[0]];
    } else {
      var s, v := ring[..n], ring[n];
      assert ring == s + [v];
      RingIsFan(s, p);
      RingIsClosedPath(s, p);
      OddPathOfConcat(s, [v], p);
      TriangleParity(s[0], s[n - 1], v, p);
      CrossesSymmetric(s[0], s[n - 1], p);
    }
  }

  lemma TriangleParity(a: Vertex, b: Vertex, c: Vertex, p: Vertex)
    ensures InsideRing([a, b, c], p) == ((Crosses(a, b, p) != Crosses(b, c, p)) != Crosses(c, a, p))
  {
    var ring := [a, b, c];
    RingIsClosedPath(ring, p);
    assert ring[..2] == [a, b] && [a, b][..1] == [a];
    assert OddPath([a, b], p) == Crosses(a, b, p);
    assert OddPath(ring, p) == (OddPath(ring[..2], p) != Crosses(b, c, p));
  }

  // ---- Triangles ----

  predicate StrictlyInside(a: Vertex, b: Vertex, c: Vertex, p: Vertex) {
    || (Orientation(a, b, p) > 0.0 && Orientation(b, c, p) > 0.0 && Orientation(c, a, p) > 0.0)
    || (Orientation(a, b, p) < 0.0 && Orientation(b, c, p) < 0.0 && Orientation(c, a, p) < 0.0)
  }

  /** The triangle has an area, and p is on the other side of one of its edges. */
  predicate StrictlyOutside(a: Vertex, b: Vertex, c: Vertex, p: Vertex) {
    || (Orientation(a, b, c) > 0.0 && (Orientation(a, b, p) < 0.0 || Orientation(b, c, p) < 0.0
      || Orientation(c, a, p) < 0.0))
    || (Orientation(a, b, c) < 0.0 && (Orientation(a, b, p) > 0.0 || Orientation(b, c, p) > 0.0
      || Orientation(c, a, p) > 0.0))
  }

  lemma OrientationsAddUp(a: Vertex, b: Vertex, c: Vertex, p: Vertex)
    ensures Orientation(a, b, c) == Orientation(a, b, p) + Orientation(b, c, p) + Orientation(c, a, p)
  {
  }

  /** The orientations are p's barycentric weights. */
  lemma Barycentric(a: Vertex, b: Vertex, c: Vertex, p: Vertex)
    ensures Orientation(a, b, p) * (c.latitude - p.latitude) + Orientation(b, c, p) * (a.latitude - p.latitude)
            + Orientation(c, a, p) * (b.latitude - p.latitude) == 0.0
  {
    var ax, ay, bx, by', cx, cy := a.longitude - p.longitude, a.latitude - p.latitude, b.longitude - p.longitude,
      b.latitude - p.latitude, c.longitude - p.longitude, c.latitude - p.latitude;
    assert Orientation(a, b, p) == ax * by' - bx * ay by { Shifted(a, b, p, ax, ay, bx, by'); }
    assert Orientation(b, c, p) == bx * cy - cx * by' by { Shifted(b, c, p, bx, by', cx, cy); }
    assert Orientation(c, a, p) == cx * ay - ax * cy by { Shifted(c, a, p, cx, cy, ax, ay); }
  }

  lemma Shifted(i: Vertex, j: Vertex, p: Vertex, ix: real, iy: real, jx: real, jy: real)
    requires ix == i.longitude - p.longitude && iy == i.latitude - p.latitude
    requires jx == j.longitude - p.longitude && jy == j.latitude - p.latitude
    ensures Orientation(i, j, p) == ix * jy - jx * iy
  {
    assert Orientation(i, j, p) == (jx - ix) * (-iy) - (-ix) * (jy - iy);
  }

  /** The triangle when one corner lies on the other side of p's latitude than both others. */
  lemma Apex(a: Vertex, b: Vertex, c: Vertex, p: Vertex)
    requires Above(a, p.latitude) != Above(b, p.latitude) == Above(c, p.latitude)
    requires Orientation(a, b, c) > 0.0
    ensures Orientation(a, b, p) > 0.0 && Orientation(b, c, p) > 0.0 && Orientation(c, a, p) > 0.0
      ==> Crosses(a, b, p) != Crosses(c, a, p)
    ensures Orientation(a, b, p) < 0.0 || Orientation(b, c, p) < 0.0 || Orientation(c, a, p) < 0.0
      ==> Crosses(a, b, p) == Crosses(c, a, p)
  {
    CrossesIffSide(a, b, p);
    CrossesIffSide(c, a, p);
    OrientationsAddUp(a, b, c, p);
    Barycentric(a, b, c, p);
    ApexSigns(Orientation(a, b, p), Orientation(b, c, p), Orientation(c, a, p),
              a.latitude - p.latitude, b.latitude - p.latitude, c.latitude - p.latitude);
  }

  /** With weights u, v, w of the corners c, a, b: if both edges at a pass p on one side, so does the third. */
  lemma ApexSigns(u: real, v: real, w: real, a: real, b: real, c: real)
    requires u * c + v * a + w * b == 0.0
    requires (a > 0.0 && b <= 0.0 && c <= 0.0) || (a <= 0.0 && b > 0.0 && c > 0.0)
    ensures u >= 0.0 && w >= 0.0 && (a > 0.0 || u > 0.0 || w > 0.0) ==> a == 0.0 || v >= 0.0
    ensures u <= 0.0 && w <= 0.0 && (a > 0.0 || u < 0.0 || w < 0.0) ==> a == 0.0 || v <= 0.0
  {
  }

  /** The even-odd rule puts every point strictly inside a triangle inside, and every point strictly
      outside it outside. */
  lemma LeftTurn(a: Vertex, b: Vertex, c: Vertex, p: Vertex)
    requires Orientation(a, b, c) > 0.0
    ensures StrictlyInside(a, b, c, p) ==> InsideRing([a, b, c], p)
    ensures StrictlyOutside(a, b, c, p) ==> !InsideRing([a, b, c], p)
  {
    TriangleParity(a, b, c, p);
    OrientationsAddUp(a, b, c, p);
    var y := p.latitude;
    if Above(a, y) != Above(b, y) && Above(b, y) == Above(c, y) {
      Apex(a, b, c, p);
    } else if Above(b, y) != Above(c, y) && Above(c, y) == Above(a, y) {
      Turned(a, b, c, p);
      Apex(b, c, a, p);
    } else if Above(c, y) != Above(a, y) && Above(a, y) == Above(b, y) {
      Turned(a, b, c, p);
      Apex(c, a, b, p);
    } else if StrictlyInside(a, b, c, p) {
      NotInsideFlat(a, b, c, p);
    }
  }

  lemma Turned(a: Vertex, b: Vertex, c: Vertex, p: Vertex)
    ensures Orientation(b, c, a) == Orientation(a, b, c) == Orientation(c, a, b)
  {
  }

  lemma NotInsideFlat(a: Vertex, b: Vertex, c: Vertex, p: Vertex)
    requires Above(a, p.latitude) == Above(b, p.latitude) == Above(c, p.latitude)
    ensures !(Orientation(a, b, p) > 0.0 && Orientation(b, c, p) > 0.0 && Orientation(c, a, p) > 0.0)
  {
    if Orientation(a, b, p) > 0.0 && Orientation(b, c, p) > 0.0 && Orientation(c, a, p) > 0.0 {
      Barycentric(a, b, c, p);
      FlatSigns(Orientation(a, b, p), Orientation(b, c, p), Orientation(c, a, p),
                a.latitude - p.latitude, b.latitude - p.latitude, c.latitude - p.latitude);
    }
  }

  lemma FlatSigns(u: real, v: real, w: real, a: real, b: real, c: real)
    requires u > 0.0 && v > 0.0 && w > 0.0 && u * c + v * a + w * b == 0.0
    requires (a > 0.0 && b > 0.0 && c > 0.0) || (a <= 0.0 && b <= 0.0 && c <= 0.0)
    ensures a == b == c == 0.0
  {
  }

  lemma TriangleIsItsInterior(a: Vertex, b: Vertex, c: Vertex, p: Vertex)
    ensures StrictlyInside(a, b, c, p) ==> InsideRing([a, b, c], p)
    ensures StrictlyOutside(a, b, c, p) ==> !InsideRing([a, b, c], p)
  {
    OrientationsAddUp(a, b, c, p);
    if Orientation(a, b, c) > 0.0 {
      LeftTurn(a, b, c, p);
    } else if Orientation(a, b, c) < 0.0 {
      OrientationReversed(a, b, p);
      OrientationReversed(b, c, p);
      OrientationReversed(c, a, p);
      assert Orientation(c, b, a) == -Orientation(a, b, c);
      LeftTurn(c, b, a, p);
      TriangleParity(a, b, c, p);
      TriangleParity(c, b, a, p);
      CrossesSymmetric(a, b, p);
      CrossesSymmetric(b, c, p);
      CrossesSymmetric(c, a, p);
    }
  }

  /** A rectangle takes its southern and western border, and leaves the others to its neighbours. */
  lemma RectangleIsHalfOpen(west: real, south: real, east: real, north: real, p: Vertex)
    requires west < east && south < north
    ensures InsideRing([Vertex(west, south), Vertex(east, south), Vertex(east, north), Vertex(west, north)], p)
      <==> west <= p.longitude < east && south <= p.latitude < north
  {
    var a, b, c, d := Vertex(west, south), Vertex(east, south), Vertex(east, north), Vertex(west, north);
    var ring := [a, b, c, d];
    RingIsFan(ring, p);
    assert ring[..3] == [a, b, c] && [a, b, c][..2] == [a, b];
    assert InsideFan(ring, p) == (InsideFan([a, b, c], p) != InsideRing([a, c, d], p));
    assert InsideFan([a, b, c], p) == (InsideFan([a, b], p) != InsideRing([a, b, c], p));
    TriangleParity(a, b, c, p);
    TriangleParity(a, c, d, p);
    CrossesSymmetric(a, c, p);
    assert !Crosses(a, b, p) && !Crosses(c, d, p);
    if south <= p.latitude < north {
      MeetsBetween(b, c, p.latitude, east, east);
      MeetsBetween(d, a, p.latitude, west, west);
    }
  }
}
