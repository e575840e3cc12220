// When the grid search of a shard sees every track inside its gates. The window is sized by the
// cosine of the sample's latitude, the gate by that of the track's.
module FuserWindow {
  import opened Plane
  import opened Kalman
  import opened FuserState
  import AxisFilter
  import Cluster

  /** Distances in cells: the coarse gate is the unit circle. */
  lemma GateInCells(c: Config, p: Geo, sample: Sample, rows: real, ck: real)
    requires c.gateRadius > 0.0 && IsHypot(c.hypot)
    requires rows * CellSize(c) == sample.latitude - p.latitude
    requires ck * CellSize(c) == (sample.longitude - p.longitude) * c.cos(p.latitude)
    ensures GateDistance(c, p, sample) <= c.gateRadius <==> rows * rows + ck * ck <= 1.0
  {
    var r := c.gateRadius;
    var a, b := PointOf(p), Cluster.Point(sample.latitude, sample.longitude);
    var x, y := Cluster.North(a, b), Cluster.East(a, b, c.cos(p.latitude));
    assert HypotAt(c.hypot, x, y);
    WithinIffSquares(c.hypot, x, y, r);
    Metres(rows, CellSize(c), r, x);
    Metres(ck, CellSize(c), r, y) by {
      assert y == (sample.longitude - p.longitude) * c.cos(p.latitude) * Cluster.METERS_PER_DEGREE;
    }
    UnitCircle(rows, ck, r, x, y);
  }

  lemma Metres(n: real, size: real, radius: real, x: real)
    requires size * Cluster.METERS_PER_DEGREE == radius && x == n * size * Cluster.METERS_PER_DEGREE
    ensures x == n * radius
  {
  }

  lemma UnitCircle(u: real, v: real, r: real, x: real, y: real)
    requires r > 0.0 && x == u * r && y == v * r
    ensures x * x + y * y <= r * r <==> u * u + v * v <= 1.0
  {
    var rr := PositiveSquare(r);
    var n := u * u + v * v;
    assert x * x + y * y == n * rr;
    if n <= 1.0 { ProductMonotone(n, 1.0, rr); } else { ProductPositive(n - 1.0, rr); }
  }

  lemma FactorBound(n: real, w: real, k: real, nk: real, wk: real)
    requires k != 0.0 && w >= 0.0 && nk == n * k && wk == w * k && nk * nk <= wk * wk
    ensures -w <= n <= w
  {
    var kk := PositiveSquare(k);
    assert nk * nk == (n * n) * kk && wk * wk == (w * w) * kk;
    Cluster.Scaled(n * n, w * w, kk, nk * nk, wk * wk);
    Cluster.AbsWithin(n, w);
  }

  lemma GateBounds(c: Config, p: Geo, sample: Sample, rows: real, cols: real, k: real, w: real)
    requires GoodConfig(c) && k == c.cos(p.latitude) && k != 0.0 && w >= 0.0
    requires rows * CellSize(c) == sample.latitude - p.latitude && cols * CellSize(c) == sample.longitude - p.longitude
    requires rows * rows + (w * k) * (w * k) >= 1.0
    requires GateDistance(c, p, sample) <= c.gateRadius
    ensures -1.0 <= rows <= 1.0 && -w <= cols <= w
  {
    var ck, wk := cols * k, w * k;
    assert ck * CellSize(c) == (cols * CellSize(c)) * k;
    GateInCells(c, p, sample, rows, ck);
    Splitting(rows, ck, wk);
    FactorBound(cols, w, k, ck, wk);
  }

  /** Inside the gate means inside the window. */
  lemma GateWithinWindow(c: Config, p: Geo, sample: Sample)
    requires GoodConfig(c) && c.cos(p.latitude) != 0.0
    requires WindowHolds(c, sample.latitude, p.latitude)
    requires GateDistance(c, p, sample) <= c.gateRadius
    ensures Searched(c, sample, CellOf(c, p))
  {
    var size, span := CellSize(c), Cluster.CellSpan(c.cos(sample.latitude));
    var rows, cols := (sample.latitude - p.latitude) / size, (sample.longitude - p.longitude) / size;
    GateBounds(c, p, sample, rows, cols, c.cos(p.latitude), span as real);
    Within(rows, 1, size, p.latitude + 90.0, sample.latitude + 90.0);
    Within(cols, span, size, p.longitude + 180.0, sample.longitude + 180.0);
  }

  lemma Splitting(u: real, v: real, w: real)
    requires u * u + v * v <= 1.0 && u * u + w * w >= 1.0
    ensures -1.0 <= u <= 1.0 && v * v <= w * w
  {
    SquareNonNegative(v);
    Cluster.AbsWithin(u, 1.0);
  }

  lemma Within(n: real, bound: int, size: real, x: real, y: real)
    requires size > 0.0 && -(bound as real) <= n <= bound as real && n * size == y - x
    ensures -bound <= (x / size).Floor - (y / size).Floor <= bound
  {
    ProductMonotone(n, bound as real, size);
    ProductMonotone(-(bound as real), n, size);
    Cluster.InCells(x, y, size, bound);
  }

  /** Room between w and the circle leaves room for a little more than w. */
  lemma LittleMore(a: real, w: real, k: real, wk: real) returns (n: real, nk: real)
    requires w >= 0.0 && wk == w * k && a + wk * wk < 1.0
    ensures w < n <= w + 1.0 && nk == n * k && a + nk * nk <= 1.0
  {
    var kk := NonNegativeSquare(k);
    var slack, d := 1.0 - a - wk * wk, kk * (2.0 * w + 1.0);
    ProductMonotone(0.0, kk, 2.0 * w + 1.0);
    var e := slack / (d + slack);
    Share(slack, d, e);
    n := w + e;
    nk := n * k;
    SquareOfMore(w, e, k, kk, d, wk, nk);
  }

  lemma Share(slack: real, d: real, e: real)
    requires slack > 0.0 && d >= 0.0 && e == slack / (d + slack)
    ensures 0.0 < e <= 1.0 && e * d <= slack
  {
    assert e * (d + slack) == slack;
    PositiveFactor(d + slack, e, slack);
    Cluster.Scaled(e, 1.0, d + slack, slack, d + slack);
    ProductPositive(e, slack);
  }

  lemma SquareBelow(e: real, ee: real)
    requires 0.0 < e <= 1.0 && ee == e * e
    ensures ee <= e
  {
    if e < 1.0 {
      var d := Product(1.0 - e, e);
      assert d == e - ee;
    } else {
      assert ee == 1.0 * 1.0;
    }
  }

  lemma SquareOfMore(w: real, e: real, k: real, kk: real, d: real, wk: real, ck: real)
    requires kk == k * k && kk >= 0.0 && d == kk * (2.0 * w + 1.0) && 0.0 < e <= 1.0
    requires wk == w * k && ck == (w + e) * k
    ensures ck * ck <= wk * wk + e * d
  {
    var ee, we := e * e, w * e;
    SquareBelow(e, ee);
    assert ck * ck == wk * wk + kk * (2.0 * we) + kk * ee by {
      assert ck == wk + e * k;
      assert (wk + e * k) * (wk + e * k) == wk * wk + 2.0 * (wk * (e * k)) + (e * k) * (e * k);
      assert wk * (e * k) == kk * we;
    }
    ProductMonotone(ee, e, kk);
    assert e * d == kk * (2.0 * we) + kk * e;
  }

  predicate ValidLongitude(longitude: real) {
    -180.0 <= longitude <= 180.0
  }

  /** The window around a sample and one more column go less than once round the globe. */
  predicate WindowFits(c: Config, sampleLatitude: real) {
    (Cluster.CellSpan(c.cos(sampleLatitude)) as real + 1.0) * CellSize(c) <= 360.0
  }

  /** Otherwise two valid positions at these latitudes are inside the gate but not inside the window. */
  lemma MissedTrack(c: Config, sampleLatitude: real, trackLatitude: real) returns (p: Geo, sample: Sample)
    requires GoodConfig(c) && !WindowHolds(c, sampleLatitude, trackLatitude) && WindowFits(c, sampleLatitude)
    ensures p.latitude == trackLatitude && sample.latitude == sampleLatitude
    ensures -180.0 <= p.longitude <= sample.longitude
    ensures sample.longitude <= (Cluster.CellSpan(c.cos(sampleLatitude)) as real + 1.0) * CellSize(c) - 180.0
    ensures GateDistance(c, p, sample) <= c.gateRadius && !Searched(c, sample, CellOf(c, p))
  {
    var rows, span, wk := InCells(c, sampleLatitude, trackLatitude);
    p, sample := MissedInCells(c, sampleLatitude, trackLatitude, rows, rows * rows, span, c.cos(trackLatitude), wk);
  }

  lemma MissedInCells(c: Config, sampleLatitude: real, trackLatitude: real, rows: real, square: real, span: int,
                      k: real, wk: real)
    returns (p: Geo, sample: Sample)
    requires GoodConfig(c) && rows * CellSize(c) == sampleLatitude - trackLatitude && square == rows * rows
    requires span == Cluster.CellSpan(c.cos(sampleLatitude)) && k == c.cos(trackLatitude) && wk == span as real * k
    requires square + wk * wk < 1.0 && (span as real + 1.0) * CellSize(c) <= 360.0
    ensures p.latitude == trackLatitude && sample.latitude == sampleLatitude
    ensures -180.0 <= p.longitude <= sample.longitude
    ensures sample.longitude <= (Cluster.CellSpan(c.cos(sampleLatitude)) as real + 1.0) * CellSize(c) - 180.0
    ensures GateDistance(c, p, sample) <= c.gateRadius && !Searched(c, sample, CellOf(c, p))
  {
    var n, nk := LittleMore(square, span as real, k, wk);
    p, sample := OutOfSight(c, sampleLatitude, trackLatitude, span, n);
    GateReached(c, p, sample, rows, square, n, k, nk);
  }

  lemma InCells(c: Config, sampleLatitude: real, trackLatitude: real) returns (rows: real, span: int, wk: real)
    requires GoodConfig(c)
    ensures rows * CellSize(c) == sampleLatitude - trackLatitude
    ensures span == Cluster.CellSpan(c.cos(sampleLatitude)) && wk == span as real * c.cos(trackLatitude)
    ensures WindowHolds(c, sampleLatitude, trackLatitude) <==> rows * rows + wk * wk >= 1.0
  {
    rows := (sampleLatitude - trackLatitude) / CellSize(c);
    span := Cluster.CellSpan(c.cos(sampleLatitude));
    wk := span as real * c.cos(trackLatitude);
  }

  /** A track in column 0, and a sample a little more than span columns further east, so in column span + 1. */
  lemma OutOfSight(c: Config, sampleLatitude: real, trackLatitude: real, span: int, n: real)
    returns (p: Geo, sample: Sample)
    requires GoodConfig(c) && span == Cluster.CellSpan(c.cos(sampleLatitude)) && span as real < n <= span as real + 1.0
    requires (span as real + 1.0) * CellSize(c) <= 360.0
    ensures p.latitude == trackLatitude && sample.latitude == sampleLatitude
    ensures -180.0 <= p.longitude <= sample.longitude
    ensures sample.longitude <= (Cluster.CellSpan(c.cos(sampleLatitude)) as real + 1.0) * CellSize(c) - 180.0
    ensures sample.longitude - p.longitude == n * CellSize(c)
    ensures !Searched(c, sample, CellOf(c, p))
  {
    var size := CellSize(c);
    var west, east := Columns(n, span as real, size);
    p := Geo(trackLatitude, west - 180.0);
    sample := Sample("", "", 0.0, sampleLatitude, east - 180.0, 0.0, 0.0, "");
    TooFarWest(p.longitude + 180.0, sample.longitude + 180.0, n - span as real, span, size);
  }

  /** The two places, in degrees from the western edge. */
  lemma Columns(n: real, span: real, size: real) returns (west: real, east: real)
    requires size > 0.0 && 0.0 <= span < n <= span + 1.0
    ensures west == (1.0 - (n - span)) * size && east == (span + 1.0) * size
    ensures 0.0 <= west <= east && east - west == n * size
  {
    var w := 1.0 - (n - span);
    west, east := w * size, (span + 1.0) * size;
    ProductMonotone(0.0, w, size);
    ProductMonotone(w, span + 1.0, size);
    assert (span + 1.0) * size - w * size == (span + 1.0 - w) * size;
  }

  lemma GateReached(c: Config, p: Geo, sample: Sample, rows: real, square: real, cols: real, k: real, ck: real)
    requires GoodConfig(c) && k == c.cos(p.latitude) && ck == cols * k
    requires rows * CellSize(c) == sample.latitude - p.latitude && sample.longitude - p.longitude == cols * CellSize(c)
    requires square == rows * rows && square + ck * ck <= 1.0
    ensures GateDistance(c, p, sample) <= c.gateRadius
  {
    assert ck * CellSize(c) == (cols * CellSize(c)) * k;
    GateInCells(c, p, sample, rows, ck);
  }

  lemma TooFarWest(x: real, y: real, e: real, span: int, size: real)
    requires size > 0.0 && 0.0 < e <= 1.0 && x == (1.0 - e) * size && y == (span as real + 1.0) * size
    ensures (x / size).Floor - (y / size).Floor < -span
  {
    AxisFilter.Cancel(x / size, 1.0 - e, size);
    AxisFilter.Cancel(y / size, span as real + 1.0, size);
  }

  /** At the two latitudes the window shows every position inside the gate, whatever the longitudes. */
  ghost predicate NeverMisses(c: Config, sampleLatitude: real, trackLatitude: real)
    requires c.gateRadius > 0.0
  {
    forall p: Geo, sample: Sample ::
      p.latitude == trackLatitude && sample.latitude == sampleLatitude && ValidLongitude(p.longitude)
        && ValidLongitude(sample.longitude)
      && GateDistance(c, p, sample) <= c.gateRadius ==>
        Searched(c, sample, CellOf(c, p))
  }

  /** That is so exactly when WindowHolds, which a caller can evaluate from the two latitudes. */
  lemma WindowExact(c: Config, sampleLatitude: real, trackLatitude: real)
    requires GoodConfig(c) && c.cos(trackLatitude) != 0.0
    ensures WindowHolds(c, sampleLatitude, trackLatitude) ==> NeverMisses(c, sampleLatitude, trackLatitude)
    ensures WindowFits(c, sampleLatitude) && NeverMisses(c, sampleLatitude, trackLatitude) ==>
      WindowHolds(c, sampleLatitude, trackLatitude)
  {
    if WindowHolds(c, sampleLatitude, trackLatitude) {
      forall p: Geo, sample: Sample | p.latitude == trackLatitude && sample.latitude == sampleLatitude
                                      && GateDistance(c, p, sample) <= c.gateRadius
        ensures Searched(c, sample, CellOf(c, p))
      {
        GateWithinWindow(c, p, sample);
      }
    } else if WindowFits(c, sampleLatitude) {
      var p, sample := MissedTrack(c, sampleLatitude, trackLatitude);
    }
  }

  /** It holds when the columns at the track's latitude are wide enough for the sample's span. */
  lemma WideEnough(c: Config, sampleLatitude: real, trackLatitude: real)
    requires c.gateRadius > 0.0
    requires Cluster.CellSpan(c.cos(sampleLatitude)) as real * c.cos(trackLatitude) >= 1.0
    ensures WindowHolds(c, sampleLatitude, trackLatitude)
  {
    var reach := Cluster.CellSpan(c.cos(sampleLatitude)) as real * c.cos(trackLatitude);
    SquareNonNegative((sampleLatitude - trackLatitude) / CellSize(c));
    ProductMonotone(1.0, reach, reach);
  }

  /** The window holds at the latitude of every track. (It does at any that is a row or more away.) */
  ghost predicate WindowHoldsFor(c: Config, tracks: map<string, Track>, sample: Sample)
    requires GoodConfig(c)
  {
    forall id :: id in tracks && GoodEstimate(c, tracks[id].estimate) ==>
      var latitude := Position(c, tracks[id].estimate).latitude;
      c.cos(latitude) != 0.0 && WindowHolds(c, sample.latitude, latitude)
  }

  /** Then the candidates of the window are all tracks of the shard that the station does not see
      and that both gates admit. */
  lemma GridSearchIsLinearScan(c: Config, s: ShardState, issued: int, station: string, sample: Sample)
    requires GoodConfig(c) && Inv(c, s, issued) && WindowHoldsFor(c, s.tracks, sample)
    ensures forall id :: id in s.tracks && GoodEstimate(c, s.tracks[id].estimate) ==>
      (Candidate(c, s.tracks, id, station, sample) <==> Fits(c, s.tracks[id], station, sample))
  {
    forall id | id in s.tracks && GoodEstimate(c, s.tracks[id].estimate) && Fits(c, s.tracks[id], station, sample)
      ensures Candidate(c, s.tracks, id, station, sample)
    {
      assert GoodTrack(c, id, s.tracks[id], issued);
      GateWithinWindow(c, Position(c, s.tracks[id].estimate), sample);
    }
  }

  /** The track is a nearest one of all tracks of the shard that the station does not see and that
      both gates admit. */
  ghost predicate NearestOfAll(c: Config, tracks: map<string, Track>, id: string, station: string, sample: Sample)
    requires GoodConfig(c) && forall i :: i in tracks ==> GoodEstimate(c, tracks[i].estimate)
  {
    && id in tracks && Fits(c, tracks[id], station, sample)
    && forall i :: i in tracks && Fits(c, tracks[i], station, sample) ==>
         Distance(c, tracks[id].estimate, sample) <= Distance(c, tracks[i].estimate, sample)
  }

  /** What the grid search finds is what a scan of all tracks would find. */
  lemma NearestInWindowIsNearest(c: Config, s: ShardState, issued: int, id: string, station: string, sample: Sample)
    requires GoodConfig(c) && Inv(c, s, issued) && WindowHoldsFor(c, s.tracks, sample)
    ensures forall i :: i in s.tracks ==> GoodEstimate(c, s.tracks[i].estimate)
    ensures Nearest(c, s.tracks, id, station, sample) <==> NearestOfAll(c, s.tracks, id, station, sample)
    ensures NoCandidate(c, s.tracks, station, sample) <==> forall i :: i in s.tracks ==>
      !Fits(c, s.tracks[i], station, sample)
  {
    forall i | i in s.tracks
      ensures GoodEstimate(c, s.tracks[i].estimate)
      ensures Candidate(c, s.tracks, i, station, sample) <==> Fits(c, s.tracks[i], station, sample)
    {
      assert GoodTrack(c, i, s.tracks[i], issued);
      GridSearchIsLinearScan(c, s, issued, station, sample);
    }
  }
}
