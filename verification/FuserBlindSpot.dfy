// Where the grid search of a shard is not a linear scan: a track that fits a sample and is not found.
module FuserBlindSpot {
  import opened Plane
  import opened AxisFilter
  import opened Kalman
  import opened FuserState
  import opened FuserWindow
  import Cluster
  import Ids

  /** The Mahalanobis gate is not the narrower one for a track that was started 30 s ago. */
  predicate WideChiSquared(c: Config) {
    var velocityVar := INITIAL_VELOCITY_STD_DEV * INITIAL_VELOCITY_STD_DEV;
    c.gateRadius * c.gateRadius <= c.gateChiSquared * (2.0 * NoiseVar(c) + 900.0 * velocityVar)
  }

  /** The service's defaults, apart from the mathematical functions. */
  predicate HasDefaultGates(c: Config) {
    c.gateRadius == 3000.0 && c.gateChiSquared == 13.82 && c.measurementNoise == 100.0
  }

  lemma DefaultGatesAreWide(c: Config, sampleLatitude: real)
    requires HasDefaultGates(c)
    ensures WideChiSquared(c) && WindowFits(c, sampleLatitude)
  {
    var k := c.cos(sampleLatitude);
    SpanBounded(k);
    ProductMonotone(Cluster.CellSpan(k) as real + 1.0, 12.0, CellSize(c));
  }

  lemma SpanBounded(k: real)
    ensures Cluster.CellSpan(k) <= 11
  {
    if k >= 0.1 {
      Cluster.Scaled(1.0 / k, 10.0, k, 1.0, 10.0 * k);
    }
  }

  // ---- A track that was started once and is sampled again half a minute later ----

  function FirstSample(p: Geo): Sample {
    Sample("target", "first", 0.0, p.latitude, p.longitude, 0.0, 0.0, "")
  }

  /** The shard after its first sample, at p. */
  ghost function ShardWith(c: Config, p: Geo): ShardState
    requires GoodConfig(c)
  {
    var key := Key("first", "target");
    FuserState.Add(ShardState(map[], map[], map[]), Ids.SequenceID(c.idPrefix, 1), key,
      NewTrack(c, key, FirstSample(p), 0.0))
  }

  function LaterSample(sample: Sample): Sample {
    Sample("target", "second", MAX_PREDICT_STEP, sample.latitude, sample.longitude, 0.0, 0.0, "")
  }

  /** It is what an empty shard makes of the sample. */
  lemma ShardWithIsReached(c: Config, p: Geo)
    requires GoodConfig(c) && c.cos(p.latitude) > 0.0
    ensures Inv(c, ShardWith(c, p), 1)
    ensures Resolved(c, map[], ShardWith(c, p).tracks, Key("first", "target"), FirstSample(p), 0.0,
      Ids.SequenceID(c.idPrefix, 1), 0, 1)
    ensures var id := Ids.SequenceID(c.idPrefix, 1);
      && id in ShardWith(c, p).tracks
      && ShardWith(c, p).tracks[id].estimate == FirstEstimate(c, FirstSample(p))
      && ShardWith(c, p).tracks[id].keys == {Key("first", "target")} && ShardWith(c, p).tracks[id].cell == CellOf(c, p)
  {
    var empty := ShardState(map[], map[], map[]);
    assert Inv(c, empty, 0);
    StartedIsResolved(c, empty, ShardWith(c, p), 0, Ids.SequenceID(c.idPrefix, 1), Key("first", "target"),
      FirstSample(p), 0.0);
  }

  lemma PredictedFirst(c: Config, p: Geo)
    requires GoodConfig(c)
    ensures var x := PredictedX(c, FirstEstimate(c, FirstSample(p)), MAX_PREDICT_STEP);
      x.pos == 0.0 && x.a >= NoiseVar(c) + 900.0 * (INITIAL_VELOCITY_STD_DEV * INITIAL_VELOCITY_STD_DEV)
    ensures PredictedY(c, FirstEstimate(c, FirstSample(p)), MAX_PREDICT_STEP).pos == 0.0
  {
    var q := NonNegativeSquare(c.processAccel);
    var n := MAX_PREDICT_STEP * MAX_PREDICT_STEP / 2.0;
    ProductMonotone(0.0, q, n * n);
  }

  /** The two gates measure the same distance; the second in units of the predicted variance. */
  lemma FitsSecondGate(c: Config, p: Geo, sample: Sample)
    requires GoodConfig(c) && WideChiSquared(c) && c.cos(p.latitude) > 0.0
    requires GateDistance(c, p, sample) <= c.gateRadius
    ensures GoodEstimate(c, FirstEstimate(c, FirstSample(p)))
    ensures Distance(c, FirstEstimate(c, FirstSample(p)), LaterSample(sample)) <= c.gateChiSquared
  {
    var first := FirstSample(p);
    FirstEstimateGood(c, first);
    var e := FirstEstimate(c, first);
    PredictedFirst(c, p);
    PredictionGood(c, e, MAX_PREDICT_STEP);
    var z := Measured(c, e, LaterSample(sample));
    var x, y := Cluster.North(PointOf(p), Cluster.Point(sample.latitude, sample.longitude)),
                Cluster.East(PointOf(p), Cluster.Point(sample.latitude, sample.longitude), c.cos(p.latitude));
    assert HypotAt(c.hypot, x, y);
    WithinIffSquares(c.hypot, x, y, c.gateRadius);
    assert z.y == x && z.x == y;
    Quotient(z.x * z.x + z.y * z.y, PredictedX(c, e, MAX_PREDICT_STEP).a + NoiseVar(c),
             2.0 * NoiseVar(c) + 900.0 * (INITIAL_VELOCITY_STD_DEV * INITIAL_VELOCITY_STD_DEV), c.gateChiSquared);
  }

  lemma Quotient(n: real, d: real, least: real, bound: real)
    requires 0.0 < least <= d && bound > 0.0 && n <= bound * least
    ensures n / d <= bound
  {
    ProductMonotone(least, d, bound);
    assert n / d * d == n;
    Cluster.Scaled(n / d, bound, d, n, bound * d);
  }

  /** Where the window condition fails there is a shard that one sample has made, and a valid second
      sample that its track fits, and the search does not find the track. */
  lemma TrackIsOverlooked(c: Config, sampleLatitude: real, trackLatitude: real) returns (p: Geo, sample: Sample)
    requires GoodConfig(c) && c.cos(trackLatitude) > 0.0 && WideChiSquared(c) && WindowFits(c, sampleLatitude)
    requires !WindowHolds(c, sampleLatitude, trackLatitude)
    ensures p.latitude == trackLatitude && sample.latitude == sampleLatitude
    ensures -180.0 <= p.longitude <= sample.longitude
    ensures sample.longitude <= (Cluster.CellSpan(c.cos(sampleLatitude)) as real + 1.0) * CellSize(c) - 180.0
    ensures Overlooked(c, ShardWith(c, p), 1, Ids.SequenceID(c.idPrefix, 1), "second", sample)
  {
    var there;
    p, there := MissedTrack(c, sampleLatitude, trackLatitude);
    sample := LaterSample(there);
    ShardWithIsReached(c, p);
    FirstEstimateGood(c, FirstSample(p));
    FitsSecondGate(c, p, there);
    assert !Searched(c, sample, CellOf(c, p));
  }

  /** The track fits the sample, and is not among the candidates. */
  ghost predicate Overlooked(c: Config, s: ShardState, issued: int, id: string, station: string, sample: Sample)
    requires GoodConfig(c)
  {
    && Inv(c, s, issued) && id in s.tracks && GoodEstimate(c, s.tracks[id].estimate)
    && Fits(c, s.tracks[id], station, sample) && !Candidate(c, s.tracks, id, station, sample)
  }

  ghost predicate TrackAt(c: Config, s: ShardState, id: string, latitude: real)
    requires GoodConfig(c)
  {
    && id in s.tracks && GoodEstimate(c, s.tracks[id].estimate)
    && Position(c, s.tracks[id].estimate).latitude == latitude
      && ValidLongitude(Position(c, s.tracks[id].estimate).longitude)
  }

  /** No shard overlooks a track at the one latitude when a sample comes from the other. */
  ghost predicate SearchComplete(c: Config, sampleLatitude: real, trackLatitude: real)
    requires GoodConfig(c)
  {
    forall s: ShardState, issued: int, id: string, station: string, sample: Sample
      {:trigger Overlooked(c, s, issued, id, station, sample)} ::
      TrackAt(c, s, id, trackLatitude) && sample.latitude == sampleLatitude && ValidLongitude(sample.longitude) ==>
        !Overlooked(c, s, issued, id, station, sample)
  }

  lemma CompleteIfHolds(c: Config, sampleLatitude: real, trackLatitude: real)
    requires GoodConfig(c) && c.cos(trackLatitude) > 0.0 && WindowHolds(c, sampleLatitude, trackLatitude)
    ensures SearchComplete(c, sampleLatitude, trackLatitude)
  {
    forall s: ShardState, issued: int, id: string, station: string, sample: Sample
      | TrackAt(c, s, id, trackLatitude) && sample.latitude == sampleLatitude && Inv(c, s, issued)
      ensures !Overlooked(c, s, issued, id, station, sample)
    {
      NothingOverlooked(c, s, issued, id, station, sample);
    }
  }

  // A track that moves just as the later sample says is at no distance from it, and so within any
  // chi-squared gate.

  /** The estimate of a track at p whose velocity leads to the sample in the longest prediction. */
  function Aimed(c: Config, p: Geo, sample: Sample): Estimate {
    var e := FirstEstimate(c, FirstSample(p));
    var z := Measured(c, e, sample);
    e.(x := e.x.(vel := z.x / MAX_PREDICT_STEP), y := e.y.(vel := z.y / MAX_PREDICT_STEP))
  }

  function MovingShard(c: Config, p: Geo, sample: Sample): ShardState
    requires c.gateRadius > 0.0
  {
    var key := Key("first", "target");
    FuserState.Add(ShardState(map[], map[], map[]), Ids.SequenceID(c.idPrefix, 1), key,
                   NewTrack(c, key, FirstSample(p), 0.0).(estimate := Aimed(c, p, sample)))
  }

  lemma AimedIsGood(c: Config, p: Geo, sample: Sample)
    requires GoodConfig(c) && c.cos(p.latitude) > 0.0
    ensures GoodEstimate(c, Aimed(c, p, sample)) && Position(c, Aimed(c, p, sample)) == p
  {
    FirstEstimateGood(c, FirstSample(p));
  }

  lemma AimedHits(c: Config, p: Geo, sample: Sample)
    requires GoodConfig(c) && c.cos(p.latitude) > 0.0
    ensures GoodEstimate(c, Aimed(c, p, sample)) && Distance(c, Aimed(c, p, sample), LaterSample(sample)) == 0.0
  {
    AimedIsGood(c, p, sample);
    var e := Aimed(c, p, sample);
    var z := Measured(c, e, LaterSample(sample));
    PredictionGood(c, e, MAX_PREDICT_STEP);
    var x, y := PredictedX(c, e, MAX_PREDICT_STEP), PredictedY(c, e, MAX_PREDICT_STEP);
    assert x.pos == z.x && y.pos == z.y;
    assert (z.x - x.pos) * (z.x - x.pos) + (z.y - y.pos) * (z.y - y.pos) == 0.0;
  }

  lemma MovingShardIsGood(c: Config, p: Geo, sample: Sample)
    requires GoodConfig(c) && c.cos(p.latitude) > 0.0
    ensures Inv(c, MovingShard(c, p, sample), 1)
  {
    var id, key := Ids.SequenceID(c.idPrefix, 1), Key("first", "target");
    var s, empty := MovingShard(c, p, sample), ShardState(map[], map[], map[]);
    AimedIsGood(c, p, sample);
    AddKeepsCoherent(empty, id, key, s.tracks[id]);
    assert Ids.Issued(c.idPrefix, id, 1);
    assert GoodTrack(c, id, s.tracks[id], 1);
  }

  lemma IncompleteUnlessHolds(c: Config, sampleLatitude: real, trackLatitude: real)
    requires GoodConfig(c) && c.cos(trackLatitude) > 0.0 && WindowFits(c, sampleLatitude)
    requires !WindowHolds(c, sampleLatitude, trackLatitude)
    ensures !SearchComplete(c, sampleLatitude, trackLatitude)
  {
    var p, there := MissedTrack(c, sampleLatitude, trackLatitude);
    var s, id, sample := MovingShard(c, p, there), Ids.SequenceID(c.idPrefix, 1), LaterSample(there);
    MovingShardIsGood(c, p, there);
    AimedIsGood(c, p, there);
    AimedHits(c, p, there);
    assert !Searched(c, sample, CellOf(c, p));
    assert Overlooked(c, s, 1, id, "second", sample);
    assert TrackAt(c, s, id, trackLatitude);
  }

  /** Grid search and linear scan agree at two latitudes exactly when the window condition holds there;
      one half of this is for windows that go less than once round the globe. */
  lemma SearchCompleteIff(c: Config, sampleLatitude: real, trackLatitude: real)
    requires GoodConfig(c) && c.cos(trackLatitude) > 0.0
    ensures WindowHolds(c, sampleLatitude, trackLatitude) ==> SearchComplete(c, sampleLatitude, trackLatitude)
    ensures WindowFits(c, sampleLatitude) && SearchComplete(c, sampleLatitude, trackLatitude) ==>
      WindowHolds(c, sampleLatitude, trackLatitude)
  {
    if WindowHolds(c, sampleLatitude, trackLatitude) {
      CompleteIfHolds(c, sampleLatitude, trackLatitude);
    } else if WindowFits(c, sampleLatitude) {
      IncompleteUnlessHolds(c, sampleLatitude, trackLatitude);
    }
  }

  lemma NothingOverlooked(c: Config, s: ShardState, issued: int, id: string, station: string, sample: Sample)
    requires GoodConfig(c) && Inv(c, s, issued) && id in s.tracks && GoodEstimate(c, s.tracks[id].estimate)
    requires var latitude := Position(c, s.tracks[id].estimate).latitude;
      c.cos(latitude) != 0.0 && WindowHolds(c, sample.latitude, latitude)
    ensures !Overlooked(c, s, issued, id, station, sample)
  {
    assert GoodTrack(c, id, s.tracks[id], issued);
    if Fits(c, s.tracks[id], station, sample) {
      GateWithinWindow(c, Position(c, s.tracks[id].estimate), sample);
    }
  }

  // ---- Latitudes where it fails ----

  /** What is used of the cosine: it is a half at 60 degrees, and falls by 0.01 or more per degree
      over the next degree. */
  ghost predicate FallsFromSixty(cos: real -> real) {
    && cos(60.0) == 0.5
    && forall latitude: real :: 60.0 < latitude < 61.0 ==> 0.0 < cos(latitude) <= 0.5 - 0.01 * (latitude - 60.0)
  }

  /** A little north of 60 degrees the columns are too narrow for the span of two that a sample on 60
      degrees searches. */
  lemma NorthOfSixty(c: Config) returns (d: real)
    requires GoodConfig(c) && FallsFromSixty(c.cos)
    ensures 0.0 < d < 1.0 && !WindowHolds(c, 60.0, 60.0 + d)
  {
    var size := CellSize(c);
    var square := PositiveSquare(size);
    d := 0.02 * square / (1.0 + square);
    StepNorth(square, d);
    var rows, k := (60.0 - (60.0 + d)) / size, c.cos(60.0 + d);
    assert Cluster.CellSpan(c.cos(60.0)) == 2;
    RowsSquared(rows, d, size, square);
    Narrow(d, rows * rows, k, square);
  }

  lemma StepNorth(square: real, d: real)
    requires square > 0.0 && d == 0.02 * square / (1.0 + square)
    ensures 0.0 < d < 0.02 && d * (1.0 + square) == 0.02 * square
  {
    PositiveFactor(1.0 + square, d, 0.02 * square);
    Cluster.Scaled(d, 0.02, 1.0 + square, 0.02 * square, 0.02 * (1.0 + square));
  }

  lemma RowsSquared(rows: real, d: real, size: real, square: real)
    requires size > 0.0 && square == size * size && rows == -d / size
    ensures (rows * rows) * square == d * d
  {
    assert rows * size == -d;
    assert (rows * rows) * (size * size) == (rows * size) * (rows * size);
  }

  lemma Narrow(d: real, rr: real, k: real, square: real)
    requires square > 0.0 && 0.0 < d < 0.02 && d * (1.0 + square) == 0.02 * square && rr * square == d * d
    requires 0.0 < k <= 0.5 - 0.01 * d
    ensures rr + (2.0 * k) * (2.0 * k) < 1.0
  {
    var reach := 2.0 * k;
    SquareMonotone(reach, 1.0 - 0.02 * d);
    assert (1.0 - 0.02 * d) * (1.0 - 0.02 * d) == 1.0 - 0.04 * d + 0.0004 * (d * d);
    var dd := Product(d, d);
    ProductMonotone(d, 0.02, d);
    // dd * (1 + square) is 0.02 * d * square, and so rr is below 0.02 * d
    assert dd * (1.0 + square) == (d * (1.0 + square)) * d;
    var dds := Product(dd, square);
    assert rr * square == 0.02 * d * square - dds;
    Cluster.Scaled(rr, 0.02 * d, square, rr * square, 0.02 * d * square);
  }

  /** The cell of one degree that chooses the shard. */
  function CoarseCell(latitude: real, longitude: real): Cluster.Cell {
    Cluster.Cell((latitude + 90.0).Floor, (longitude + 180.0).Floor)
  }

  /** With the default gates, and the cosine as it is near 60 degrees, the service can come to overlook
      a track that fits: one of its shards after two valid samples. */
  lemma DefaultsOverlook(c: Config) returns (p: Geo, sample: Sample)
    requires GoodConfig(c) && HasDefaultGates(c) && FallsFromSixty(c.cos)
    ensures sample.latitude == 60.0 && ValidLongitude(sample.longitude)
    ensures CoarseCell(p.latitude, p.longitude) == CoarseCell(sample.latitude, sample.longitude) == Cluster.Cell(150, 0)
    ensures Overlooked(c, ShardWith(c, p), 1, Ids.SequenceID(c.idPrefix, 1), "second", sample)
  {
    var d := NorthOfSixty(c);
    DefaultGatesAreWide(c, 60.0);
    p, sample := TrackIsOverlooked(c, 60.0, 60.0 + d);
  }
}
