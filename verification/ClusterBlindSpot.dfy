// Where the grid search of the clustering is not an all-pairs search: near the poles a column is so
// narrow that the radius covers more of them than the search looks at.
module ClusterBlindSpot {
  import opened Plane
  import opened Graph
  import opened Sets
  import opened Cluster

  /** Ten cells to either side of the meridian are valid longitudes. */
  predicate TenCellsFit(radius: real) {
    10.0 * (radius / METERS_PER_DEGREE) <= 180.0
  }

  predicate ValidLongitude(longitude: real) {
    -180.0 <= longitude <= 180.0
  }

  /** A valid position on the latitude. */
  predicate OnParallel(p: Point, latitude: real) {
    p.latitude == latitude && ValidLongitude(p.longitude)
  }

  // ---- Two points the search does not bring together ----

  /** u cells further east lie just outside ten columns, yet within the radius where a column is narrow. */
  lemma BarelyInReach(k: real) returns (u: real)
    requires 0.0 <= k < 0.1
    ensures 10.0 < u <= 11.0 && 0.0 <= u * k <= 1.0
  {
    if 11.0 * k <= 1.0 {
      u := 11.0;
    } else {
      u := 1.0 / k;
      assert u * k == 1.0;
      if u <= 10.0 { ProductMonotone(u, 10.0, k); }
      if u > 11.0 { ProductMonotone(11.0, u, k); }
    }
  }

  lemma EastwardDistance(a: Point, b: Point, u: real, size: real, radius: real, k: real)
    requires size * METERS_PER_DEGREE == radius && b.longitude - a.longitude == u * size
    requires radius > 0.0 && 0.0 <= u * Abs(k) <= 1.0
    ensures Abs(East(a, b, k)) <= radius
  {
    var reach := u * Abs(k);
    assert (u * size) * METERS_PER_DEGREE == u * radius;
    assert Abs((u * radius) * k) == reach * radius by {
      assert (u * radius) * k == (u * k) * radius;
      assert (u * radius) * k == -(-(u * k) * radius);
    }
    ProductMonotone(reach, 1.0, radius);
  }

  lemma SidewaysWithin(a: Point, b: Point, radius: real, hypot: (real, real) -> real, cos: real -> real)
    requires radius > 0.0 && IsHypot(hypot) && a.latitude == b.latitude
    requires Abs(East(a, b, cos(a.latitude))) <= radius
    ensures Distance(a, b, hypot, cos) <= radius
  {
    var x, y := North(a, b), East(a, b, cos(a.latitude));
    assert x == 0.0 && HypotAt(hypot, x, y);
    SquareMonotone(Abs(y), radius);
    assert Abs(y) * Abs(y) == x * x + y * y;
    WithinIffSquares(hypot, x, y, radius);
  }

  /** Two valid points of one latitude, within radius of each other, but more than ten columns apart. */
  lemma MissedPair(latitude: real, radius: real, hypot: (real, real) -> real, cos: real -> real)
    returns (a: Point, b: Point)
    requires radius > 0.0 && IsHypot(hypot) && Abs(cos(latitude)) < 0.1 && TenCellsFit(radius)
    ensures OnParallel(a, latitude) && OnParallel(b, latitude)
    ensures Distance(a, b, hypot, cos) <= radius && !Reaches(a, b, radius, cos)
  {
    var size, k := radius / METERS_PER_DEGREE, cos(latitude);
    var u := BarelyInReach(Abs(k));
    var west, east := (10.0 - u) * size, 10.0 * size;
    ProductMonotone(-1.0, 10.0 - u, size);
    ProductMonotone(10.0 - u, 0.0, size);
    a, b := Point(latitude, west), Point(latitude, east);
    assert b.longitude - a.longitude == u * size;
    EastwardDistance(a, b, u, size, radius, k);
    SidewaysWithin(a, b, radius, hypot, cos);
    TooFarEast(west, east, 10.0 - u, size);
    assert CellSpan(k) == 10;
  }

  lemma TooFarEast(x: real, y: real, u: real, size: real)
    requires size > 0.0 && u < 0.0 && x == u * size && y == 10.0 * size
    ensures (y / size).Floor - (x / size).Floor > 10
  {
    assert x / size == u && y / size == 10.0;
  }

  ghost predicate NeverMisses(latitude: real, radius: real, hypot: (real, real) -> real, cos: real -> real)
    requires radius > 0.0
  {
    forall a: Point, b: Point ::
      OnParallel(a, latitude) && ValidLongitude(b.longitude) && Distance(a, b, hypot, cos) <= radius ==>
        Reaches(a, b, radius, cos)
  }

  /** The search around a point is complete exactly where the cosine of its latitude is not
      below the clamp in CellSpan. */
  lemma WindowCompleteIff(latitude: real, radius: real, hypot: (real, real) -> real, cos: real -> real)
    requires radius > 0.0 && IsHypot(hypot)
    ensures Abs(cos(latitude)) >= 0.1 ==> NeverMisses(latitude, radius, hypot, cos)
    ensures TenCellsFit(radius) && NeverMisses(latitude, radius, hypot, cos) ==> Abs(cos(latitude)) >= 0.1
  {
    if Abs(cos(latitude)) >= 0.1 {
      forall a: Point, b: Point | OnParallel(a, latitude) && Distance(a, b, hypot, cos) <= radius
        ensures Reaches(a, b, radius, cos)
      {
        NearReaches(a, b, radius, hypot, cos);
      }
    } else if TenCellsFit(radius) {
      var a, b := MissedPair(latitude, radius, hypot, cos);
    }
  }

  // ---- What becomes of the clusters ----

  /** One point, and n points that all lie somewhere else. */
  function OneAndMany(a: Point, b: Point, n: nat): (points: seq<Point>)
    ensures |points| == n + 1 && points[0] == a && forall i :: 1 <= i < |points| ==> points[i] == b
  {
    [a] + seq(n, i => b)
  }

  lemma {:induction false} AtMost(s: set<nat>, n: nat)
    requires forall i :: i in s ==> i < n
    ensures |s| <= n
  {
    if n > 0 {
      AtMost(s - {n - 1}, n - 1);
      assert s <= (s - {n - 1}) + {n - 1};
      SubsetSize(s, (s - {n - 1}) + {n - 1});
    } else {
      assert s == {};
    }
  }

  /** When no link leads to the first element, no component holds all of them. */
  lemma FirstIsAlone(links: set<Link>, size: nat, i: nat)
    requires size >= 2 && i < size && forall l :: l in links ==> 1 <= l.lo < size && 1 <= l.hi < size
    ensures |Component(links, size, i)| < size
  {
    var labels := seq(size, k => if k == 0 then 0 else 1);
    var component := Component(links, size, i);
    forall j | j in component
      ensures j < size && (j == 0 <==> i == 0)
    {
      LabelConstantOnComponents(links, labels, i, j);
    }
    if i == 0 {
      AtMost(component, 1);
    } else {
      AtMost(component + {0}, size);
      assert 0 !in component;
    }
  }

  /** When links lead from the first element to all others, they are one component. */
  lemma AllInOne(links: set<Link>, size: nat)
    requires forall j :: 1 <= j < size ==> Link(0, j) in links
    ensures |Component(links, size, 0)| >= size
  {
    forall j: nat | j < size
      ensures Linked(links, 0, j)
    {
      if j == 0 { LinkedToItself(links, 0); } else { LinkedByLink(links, 0, j); }
    }
    UpToSize(size);
    SubsetSize(UpTo(size), Component(links, size, 0));
  }

  function UpTo(n: nat): (s: set<nat>)
    ensures forall i :: i in s <==> 0 <= i < n
  {
    if n == 0 then {} else UpTo(n - 1) + {n - 1}
  }

  lemma {:induction false} UpToSize(n: nat)
    ensures |UpTo(n)| == n
  {
    if n > 0 { UpToSize(n - 1); }
  }

  lemma LargeComponent(clusters: seq<seq<nat>>, links: set<Link>, size: nat, minSize: int) returns (i: nat)
    requires IsComponents(clusters, links, size, minSize) && clusters != []
    ensures i < size && |Component(links, size, i)| >= minSize
  {
    var c := clusters[0];
    AscendingSize(c);
    assert c[0] in clusters[0];
    i := c[0];
    assert Elements(clusters[0]) == Component(links, size, i);
  }

  lemma NoLargeComponent(clusters: seq<seq<nat>>, links: set<Link>, size: nat, minSize: int)
    requires forall i: nat :: i < size ==> |Component(links, size, i)| < minSize
    ensures IsComponents(clusters, links, size, minSize) <==> clusters == []
  {
    if IsComponents(clusters, links, size, minSize) && clusters != [] {
      var i := LargeComponent(clusters, links, size, minSize);
    }
  }

  /** As many points as it takes for a cluster, all within the radius of the first one: the search
      does not connect the first one to the others, and the result is no cluster at all. */
  lemma ClusterIsMissed(latitude: real, radius: real, minSize: int, hypot: (real, real) -> real, cos: real -> real)
    returns (points: seq<Point>)
    requires radius > 0.0 && IsHypot(hypot) && Abs(cos(latitude)) < 0.1 && TenCellsFit(radius) && minSize >= 2
    ensures |points| == minSize && forall p :: p in points ==> OnParallel(p, latitude)
    ensures forall clusters :: IsComponents(clusters, WindowPairs(points, radius, hypot, cos), |points|, minSize) <==>
      clusters == []
    ensures !IsComponents([], AllPairs(points, radius, hypot, cos), |points|, minSize)
  {
    var a, b := MissedPair(latitude, radius, hypot, cos);
    points := OneAndMany(a, b, minSize - 1);
    var seen, all, size := WindowPairs(points, radius, hypot, cos), AllPairs(points, radius, hypot, cos), |points|;
    forall i: nat | i < size
      ensures |Component(seen, size, i)| < minSize
    {
      FirstIsAlone(seen, size, i);
    }
    forall clusters: seq<seq<nat>>
      ensures IsComponents(clusters, seen, size, minSize) <==> clusters == []
    {
      NoLargeComponent(clusters, seen, size, minSize);
    }
    forall j | 1 <= j < size
      ensures Link(0, j) in all
    {
      assert Near(points, 0, j, radius, hypot, cos);
    }
    AllInOne(all, size);
    assert !Clustered([], 0);
  }

  /** On the latitude, whatever valid points there are, what the search finds are the clusters. */
  ghost predicate ClustersComplete(latitude: real, radius: real, minSize: int, hypot: (real, real) -> real,
                                   cos: real -> real)
    requires radius > 0.0
  {
    forall points: seq<Point>, clusters: seq<seq<nat>> ::
      (forall p :: p in points ==> OnParallel(p, latitude))
      && IsComponents(clusters, WindowPairs(points, radius, hypot, cos), |points|, minSize) ==>
        IsComponents(clusters, AllPairs(points, radius, hypot, cos), |points|, minSize)
  }

  /** So the clusters of any points on a latitude come out right exactly where its cosine is not
      below the clamp. */
  lemma ClustersCompleteIff(latitude: real, radius: real, minSize: int, hypot: (real, real) -> real, cos: real -> real)
    requires radius > 0.0 && IsHypot(hypot) && minSize >= 2
    ensures Abs(cos(latitude)) >= 0.1 ==> ClustersComplete(latitude, radius, minSize, hypot, cos)
    ensures TenCellsFit(radius) && ClustersComplete(latitude, radius, minSize, hypot, cos) ==> Abs(cos(latitude)) >= 0.1
  {
    if Abs(cos(latitude)) >= 0.1 {
      forall points: seq<Point> | forall p :: p in points ==> OnParallel(p, latitude)
        ensures WindowPairs(points, radius, hypot, cos) == AllPairs(points, radius, hypot, cos)
      {
        WindowMissesNoPair(points, radius, hypot, cos);
      }
    } else if TenCellsFit(radius) {
      var points := ClusterIsMissed(latitude, radius, minSize, hypot, cos);
      assert IsComponents([], WindowPairs(points, radius, hypot, cos), |points|, minSize);
    }
  }
}
