// The zone index of internal/geofence/zoneindex.go: a bounding box in front of the even-odd test.
module ZoneIndex {
  import opened EvenOdd

  datatype Zone = Zone(id: int, name: string)

  datatype Box = Box(minLongitude: real, minLatitude: real, maxLongitude: real, maxLatitude: real)

  datatype ZoneGeometry = ZoneGeometry(zone: Zone, polygons: seq<Polygon>, bounds: Box)

  /** A GeoJSON geometry as far as the index distinguishes them. */
  datatype Geometry =
    | MultiPolygon(polygons: seq<Polygon>)
    | SinglePolygon(rings: Polygon)
    | Unsupported(kind: string)
    | Undecodable
  {
    /** parsePolygons fails. */
    predicate Rejected() { Unsupported? || Undecodable? }
  }

  datatype Feature = Feature(zone: Zone, geometry: Geometry)

  datatype Result<T> = Ok(value: T) | Err(zone: string)

  function Join<T>(parts: seq<seq<T>>, n: nat): seq<T>
    requires n <= |parts|
  {
    if n == 0 then [] else Join(parts, n - 1) + parts[n - 1]
  }

  function Vertices(polygons: seq<Polygon>, n: nat): seq<Vertex>
    requires n <= |polygons|
  {
    if n == 0 then [] else Vertices(polygons, n - 1) + Join(polygons[n - 1], |polygons[n - 1]|)
  }

  predicate InBox(box: Box, v: Vertex) {
    box.minLongitude <= v.longitude <= box.maxLongitude && box.minLatitude <= v.latitude <= box.maxLatitude
  }

  const WORLD_INSIDE_OUT := Box(180.0, 90.0, -180.0, -90.0)

  /** The box holds every vertex, and each side lies at a vertex or where an empty box has it. */
  predicate Bounds(box: Box, vs: seq<Vertex>) {
    && (forall v :: v in vs ==> InBox(box, v))
    && box.minLongitude <= 180.0 && box.minLatitude <= 90.0 && box.maxLongitude >= -180.0 && box.maxLatitude >= -90.0
    && (box.minLongitude == 180.0 || exists v :: v in vs && v.longitude == box.minLongitude)
    && (box.minLatitude == 90.0 || exists v :: v in vs && v.latitude == box.minLatitude)
    && (box.maxLongitude == -180.0 || exists v :: v in vs && v.longitude == box.maxLongitude)
    && (box.maxLatitude == -90.0 || exists v :: v in vs && v.latitude == box.maxLatitude)
  }

  lemma BoundsUnique(box: Box, other: Box, vs: seq<Vertex>)
    requires Bounds(box, vs) && Bounds(other, vs)
    ensures box == other
  {
  }

  function Min(x: real, y: real): real { if x < y then x else y }
  function Max(x: real, y: real): real { if x > y then x else y }

  function Extend(box: Box, v: Vertex): Box {
    Box(Min(box.minLongitude, v.longitude), Min(box.minLatitude, v.latitude),
        Max(box.maxLongitude, v.longitude), Max(box.maxLatitude, v.latitude))
  }

  lemma BoundsExtend(box: Box, vs: seq<Vertex>, v: Vertex)
    requires Bounds(box, vs)
    ensures Bounds(Extend(box, v), vs + [v])
  {
    assert v in vs + [v];
    assert forall w :: w in vs ==> w in vs + [v];
  }

  method BoundsOf(polygons: seq<Polygon>) returns (bounds: Box)
    ensures Bounds(bounds, Vertices(polygons, |polygons|))
  {
    bounds := WORLD_INSIDE_OUT;
    for n := 0 to |polygons|
      invariant Bounds(bounds, Vertices(polygons, n))
    {
      var polygon := polygons[n];
      ghost var before := Vertices(polygons, n);
      assert before + Join(polygon, 0) == before;
      for r := 0 to |polygon|
        invariant Bounds(bounds, before + Join(polygon, r))
      {
        bounds := ExtendByRing(bounds, polygon[r], before + Join(polygon, r));
        assert before + Join(polygon, r) + polygon[r] == before + Join(polygon, r + 1);
      }
    }
  }

  method ExtendByRing(box: Box, ring: Ring, ghost before: seq<Vertex>) returns (bounds: Box)
    requires Bounds(box, before)
    ensures Bounds(bounds, before + ring)
  {
    bounds := box;
    assert before + ring[..0] == before;
    for i := 0 to |ring|
      invariant Bounds(bounds, before + ring[..i])
    {
      BoundsExtend(bounds, before + ring[..i], ring[i]);
      assert before + ring[..i] + [ring[i]] == before + ring[..i + 1];
      bounds := Extend(bounds, ring[i]);
    }
    assert ring[..|ring|] == ring;
  }

  // ---- The box changes no answer ----

  /** Walking round a ring, a latitude is crossed as often upwards as downwards. */
  predicate OddStraddles(ring: Ring, latitude: real, n: nat)
    requires n <= |ring|
  {
    n > 0 && OddStraddles(ring, latitude, n - 1) != Straddles(ring[n - 1], ring[Before(ring, n - 1)], latitude)
  }

  lemma {:induction false} StraddlesTelescope(ring: Ring, latitude: real, n: nat)
    requires 0 < n <= |ring|
    ensures OddStraddles(ring, latitude, n) == (Above(ring[n - 1], latitude) != Above(ring[|ring| - 1], latitude))
  {
    if n == 1 {
      assert !OddStraddles(ring, latitude, 0);
    } else {
      StraddlesTelescope(ring, latitude, n - 1);
    }
  }

  /** West of a ring every edge that straddles p's latitude is crossed, and that is an even number. */
  lemma {:induction false} WestOfRing(ring: Ring, p: Vertex, low: real, high: real, n: nat)
    requires forall v :: v in ring ==> low <= v.longitude <= high
    requires p.longitude < low && n <= |ring|
    ensures OddCrossings(ring, p, n) == OddStraddles(ring, p.latitude, n)
  {
    if n > 0 {
      WestOfRing(ring, p, low, high, n - 1);
      var i, j := ring[n - 1], ring[Before(ring, n - 1)];
      assert i in ring && j in ring;
      if Straddles(i, j, p.latitude) { MeetsBetween(i, j, p.latitude, low, high); }
    }
  }

  lemma {:induction false} OutsideOtherwise(ring: Ring, p: Vertex, box: Box, n: nat)
    requires forall v :: v in ring ==> InBox(box, v)
    requires p.longitude > box.maxLongitude || p.latitude < box.minLatitude || p.latitude > box.maxLatitude
    requires n <= |ring|
    ensures !OddCrossings(ring, p, n)
  {
    if n > 0 {
      OutsideOtherwise(ring, p, box, n - 1);
      var i, j := ring[n - 1], ring[Before(ring, n - 1)];
      assert i in ring && j in ring;
      if Straddles(i, j, p.latitude) { MeetsBetween(i, j, p.latitude, box.minLongitude, box.maxLongitude); }
    }
  }

  /** No ring contains a point outside a box that holds its vertices. */
  lemma OutsideBoxOutsideRing(ring: Ring, p: Vertex, box: Box)
    requires forall v :: v in ring ==> InBox(box, v)
    requires !InBox(box, p)
    ensures !InsideRing(ring, p)
  {
    if p.longitude < box.minLongitude {
      WestOfRing(ring, p, box.minLongitude, box.maxLongitude, |ring|);
      if ring != [] { StraddlesTelescope(ring, p.latitude, |ring|); }
    } else {
      OutsideOtherwise(ring, p, box, |ring|);
    }
  }

  lemma {:induction false} OutsideBoxOutsidePolygon(rings: Polygon, p: Vertex, box: Box, n: nat)
    requires n <= |rings| && !InBox(box, p)
    requires forall v :: v in Join(rings, n) ==> InBox(box, v)
    ensures !InsideRings(rings, p, n)
  {
    if n > 0 {
      OutsideBoxOutsidePolygon(rings, p, box, n - 1);
      OutsideBoxOutsideRing(rings[n - 1], p, box);
    }
  }

  /** Some polygon of the zone contains the point. */
  predicate Hit(polygons: seq<Polygon>, p: Vertex, n: nat)
    requires n <= |polygons|
  {
    exists k :: 0 <= k < n && Inside(polygons[k], p)
  }

  lemma {:induction false} VerticesOfPart(polygons: seq<Polygon>, k: nat, n: nat)
    requires k < n <= |polygons|
    ensures forall v :: v in Join(polygons[k], |polygons[k]|) ==> v in Vertices(polygons, n)
  {
    if k < n - 1 { VerticesOfPart(polygons, k, n - 1); }
  }

  lemma OutsideBoxNoHit(polygons: seq<Polygon>, p: Vertex, box: Box)
    requires Bounds(box, Vertices(polygons, |polygons|)) && !InBox(box, p)
    ensures !Hit(polygons, p, |polygons|)
  {
    forall k | 0 <= k < |polygons|
      ensures !Inside(polygons[k], p)
    {
      VerticesOfPart(polygons, k, |polygons|);
      OutsideBoxOutsidePolygon(polygons[k], p, box, |polygons[k]|);
    }
  }

  // ---- The index ----

  function Polygons(g: Geometry): seq<Polygon> {
    match g
    case MultiPolygon(polygons) => polygons
    case SinglePolygon(rings) => [rings]
    case _ => []
  }

  ghost predicate HitBy(f: Feature, p: Vertex) {
    Hit(Polygons(f.geometry), p, |Polygons(f.geometry)|)
  }

  /** The zones, in order, of which some polygon contains the point. */
  ghost function Matching(features: seq<Feature>, p: Vertex, n: nat): seq<Zone>
    requires n <= |features|
  {
    if n == 0 then []
    else Matching(features, p, n - 1) + if HitBy(features[n - 1], p) then [features[n - 1].zone] else []
  }

  // ---- What it means for a zone to contain a point ----

  /** Inside the first ring and in no hole; where holes do not overlap, and do not reach beyond the first ring. */
  lemma HolesAreOutside(outer: Ring, holes: seq<Ring>, p: Vertex)
    requires forall i, j :: 0 <= i < j < |holes| ==> !(InsideRing(holes[i], p) && InsideRing(holes[j], p))
    requires forall i :: 0 <= i < |holes| && InsideRing(holes[i], p) ==> InsideRing(outer, p)
    ensures Inside([outer] + holes, p) <==>
      InsideRing(outer, p) && forall i :: 0 <= i < |holes| ==> !InsideRing(holes[i], p)
  {
    var rings := [outer] + holes;
    FirstRing(rings, p, |rings|);
    assert forall i :: 0 <= i < |holes| ==> rings[i + 1] == holes[i];
  }

  /** Among the rings after the first at most one contains the point, and only if the first does. */
  lemma {:induction false} FirstRing(rings: Polygon, p: Vertex, n: nat)
    requires 0 < n <= |rings|
    requires forall i, j :: 1 <= i < j < |rings| ==> !(InsideRing(rings[i], p) && InsideRing(rings[j], p))
    requires forall i :: 1 <= i < |rings| && InsideRing(rings[i], p) ==> InsideRing(rings[0], p)
    ensures InsideRings(rings, p, n) <==>
      InsideRing(rings[0], p) && forall i :: 1 <= i < n ==> !InsideRing(rings[i], p)
  {
    if n > 1 {
      FirstRing(rings, p, n - 1);
    } else {
      assert !InsideRings(rings, p, 0);
    }
  }

  /** By what the GeoJSON of the feature says. */
  ghost predicate Covers(g: Geometry, p: Vertex) {
    match g
    case MultiPolygon(polygons) => exists k :: 0 <= k < |polygons| && Inside(polygons[k], p)
    case SinglePolygon(rings) => Inside(rings, p)
    case _ => false
  }

  lemma HitByCovers(f: Feature, p: Vertex)
    ensures HitBy(f, p) <==> Covers(f.geometry, p)
  {
    match f.geometry
    case SinglePolygon(rings) =>
      var polygons := Polygons(f.geometry);
      assert polygons[0] == rings;
      if Inside(rings, p) { assert Inside(polygons[0], p); }
    case _ =>
  }

  /** These are the features, among the first n, that cover the point, and their zones. */
  ghost predicate Lists(at: seq<nat>, zones: seq<Zone>, features: seq<Feature>, p: Vertex, n: nat)
    requires n <= |features|
  {
    && |at| == |zones| && (forall j, k :: 0 <= j < k < |at| ==> at[j] < at[k])
    && (forall k :: 0 <= k < |at| ==> at[k] < n && features[at[k]].zone == zones[k])
    && (forall j {:trigger HitBy(features[j], p)} :: 0 <= j < n ==> (j in at <==> HitBy(features[j], p)))
  }

  lemma ListsNext(at: seq<nat>, zones: seq<Zone>, features: seq<Feature>, p: Vertex, n: nat, hit: bool)
    requires n < |features| && Lists(at, zones, features, p, n) && hit == HitBy(features[n], p)
    ensures if hit then Lists(at + [n], zones + [features[n].zone], features, p, n + 1)
      else Lists(at, zones, features, p, n + 1)
  {
    assert n !in at;
  }

  lemma {:induction false} MatchingLists(features: seq<Feature>, p: Vertex, n: nat) returns (at: seq<nat>)
    requires n <= |features|
    ensures Lists(at, Matching(features, p, n), features, p, n)
  {
    at := [];
    if n > 0 {
      at := MatchingLists(features, p, n - 1);
      var hit := HitBy(features[n - 1], p);
      ListsNext(at, Matching(features, p, n - 1), features, p, n - 1, hit);
      if hit {
        at := at + [n - 1];
      } else {
        assert Matching(features, p, n - 1) + [] == Matching(features, p, n - 1);
      }
    }
  }

  /** The answer lists the zones of the features that cover the point: of all of them, in their order, and each
      once for each such feature. at are their numbers. */
  lemma MatchingIsFilter(features: seq<Feature>, p: Vertex) returns (at: seq<nat>)
    ensures |at| == |Matching(features, p, |features|)|
    ensures forall k :: 0 <= k < |at| ==>
      at[k] < |features| && features[at[k]].zone == Matching(features, p, |features|)[k]
    ensures forall j, k :: 0 <= j < k < |at| ==> at[j] < at[k]
    ensures forall j :: 0 <= j < |features| ==> (j in at <==> Covers(features[j].geometry, p))
  {
    at := MatchingLists(features, p, |features|);
    forall j | 0 <= j < |features|
      ensures j in at <==> Covers(features[j].geometry, p)
    {
      HitByCovers(features[j], p);
    }
  }

  /** So a zone is in the answer exactly if one of its features covers the point. */
  lemma ContainedIff(features: seq<Feature>, p: Vertex, zone: Zone)
    ensures zone in Matching(features, p, |features|) <==>
      exists k :: 0 <= k < |features| && features[k].zone == zone && Covers(features[k].geometry, p)
  {
    var at := MatchingIsFilter(features, p);
    if zone in Matching(features, p, |features|) {
      var k :| 0 <= k < |at| && Matching(features, p, |features|)[k] == zone;
      assert at[k] in at;
    }
    if j :| 0 <= j < |features| && features[j].zone == zone && Covers(features[j].geometry, p) {
      var k :| 0 <= k < |at| && at[k] == j;
    }
  }

  // ---- Making and asking the index ----

  /** The index was made from the features. */
  predicate Indexes(index: seq<ZoneGeometry>, features: seq<Feature>) {
    && |index| == |features|
    && forall k :: 0 <= k < |index| ==> Entry(index[k], features[k])
  }

  predicate Entry(g: ZoneGeometry, f: Feature) {
    && g.zone == f.zone && g.polygons == Polygons(f.geometry)
    && Bounds(g.bounds, Vertices(g.polygons, |g.polygons|))
  }

  predicate FirstRejected(features: seq<Feature>, k: nat) {
    k < |features| && features[k].geometry.Rejected() && forall i :: 0 <= i < k ==> !features[i].geometry.Rejected()
  }

  method NewZoneIndex(features: seq<Feature>) returns (r: Result<seq<ZoneGeometry>>)
    ensures r.Ok? ==> Indexes(r.value, features)
    ensures r.Ok? <==> forall k :: 0 <= k < |features| ==>
      features[k].geometry.MultiPolygon? || features[k].geometry.SinglePolygon?
    ensures r.Err? ==> exists k: nat :: FirstRejected(features, k) && r.zone == features[k].zone.name
  {
    var index := [];
    for n := 0 to |features|
      invariant |index| == n
      invariant forall k :: 0 <= k < n ==> !features[k].geometry.Rejected()
      invariant forall k :: 0 <= k < n ==> Entry(index[k], features[k])
    {
      var feature := features[n];
      if feature.geometry.Rejected() {
        assert FirstRejected(features, n);
        return Err(feature.zone.name);
      }
      var polygons := Polygons(feature.geometry);
      var bounds := BoundsOf(polygons);
      index := index + [ZoneGeometry(feature.zone, polygons, bounds)];
    }
    r := Ok(index);
  }

  method AnyContains(polygons: seq<Polygon>, p: Vertex) returns (hit: bool)
    ensures hit == Hit(polygons, p, |polygons|)
  {
    hit := false;
    for k := 0 to |polygons|
      invariant !Hit(polygons, p, k)
    {
      var inside := PointInPolygon(p, polygons[k]);
      if inside {
        return true;
      }
    }
  }

  /** The box first, then the polygons. */
  method ZoneContains(candidate: ZoneGeometry, p: Vertex, ghost f: Feature) returns (hit: bool)
    requires Entry(candidate, f)
    ensures hit == HitBy(f, p)
  {
    if !InBox(candidate.bounds, p) {
      OutsideBoxNoHit(candidate.polygons, p, candidate.bounds);
      return false;
    }
    hit := AnyContains(candidate.polygons, p);
  }

  ghost predicate Found(zones: seq<Zone>, features: seq<Feature>, p: Vertex, n: nat)
    requires n <= |features|
  {
    zones == Matching(features, p, n)
  }

  lemma FoundNext(zones: seq<Zone>, features: seq<Feature>, p: Vertex, n: nat, hit: bool)
    requires n < |features| && Found(zones, features, p, n) && hit == HitBy(features[n], p)
    ensures Found(if hit then zones + [features[n].zone] else zones, features, p, n + 1)
  {
  }

  /** The box never changes an answer. */
  method Containing(index: seq<ZoneGeometry>, longitude: real, latitude: real, ghost features: seq<Feature>)
    returns (zones: seq<Zone>)
    requires Indexes(index, features)
    ensures zones == Matching(features, Vertex(longitude, latitude), |features|)
  {
    var p := Vertex(longitude, latitude);
    zones := [];
    for n := 0 to |index|
      invariant Found(zones, features, p, n)
    {
      var candidate := index[n];
      var hit := ZoneContains(candidate, p, features[n]);
      FoundNext(zones, features, p, n, hit);
      if hit {
        zones := zones + [candidate.zone];
      }
    }
  }
}
