// Track fusion, internal/fusion/fuser.go, on values: what one shard holds, how a resolved sample
// changes it, and the invariant that ties its three indexes together.
module FuserState {
  import opened Plane
  import opened AxisFilter
  import opened Kalman
  import Cluster
  import Ids

  datatype Config = Config(gateRadius: real, gateChiSquared: real, measurementNoise: real, processAccel: real,
                           trackTTL: real, mergeWindow: real, idPrefix: string,
                           hypot: (real, real) -> real, cos: real -> real, root: real -> real)

  ghost predicate GoodConfig(c: Config) {
    && c.gateRadius > 0.0 && c.gateChiSquared > 0.0 && c.measurementNoise > 0.0 && c.trackTTL > 0.0
    && IsHypot(c.hypot) && IsRoot(c.root)
  }

  datatype Key = Key(station: string, drone: string)

  datatype Sample = Sample(droneID: string, stationID: string, timestamp: real, latitude: real, longitude: real,
                           altitude: real, confidence: real, squawk: string)

  /** Not at a pole: the cosine of the latitude is positive. */
  predicate OffPoles(c: Config, sample: Sample) {
    c.cos(sample.latitude) > 0.0
  }

  /** A filter as a value. */
  datatype Estimate = Estimate(originLatitude: real, originLongitude: real, x: Axis, y: Axis, lastTimestamp: real)

  datatype Track = Track(estimate: Estimate, keys: set<Key>, lastUpdate: real, cell: Cluster.Cell)

  datatype ShardState = ShardState(tracks: map<string, Track>, byObservation: map<Key, string>,
                                   grid: map<Cluster.Cell, set<string>>)

  // ---- Estimates ----

  function NoiseVar(c: Config): real {
    c.measurementNoise * c.measurementNoise
  }

  ghost predicate GoodEstimate(c: Config, e: Estimate) {
    && PositiveDefinite(e.x) && SameCovariance(e.x, e.y)
    && e.x.a <= NoiseVar(c) && c.cos(e.originLatitude) > 0.0
  }

  function Measured(c: Config, e: Estimate, sample: Sample): Local {
    Local((sample.longitude - e.originLongitude) * METERS_PER_DEGREE_EQUATOR * c.cos(e.originLatitude),
          (sample.latitude - e.originLatitude) * METERS_PER_DEGREE_EQUATOR)
  }

  function Position(c: Config, e: Estimate): Geo
    requires c.cos(e.originLatitude) > 0.0
  {
    Geo(e.originLatitude + e.y.pos / METERS_PER_DEGREE_EQUATOR,
        e.originLongitude + e.x.pos / (METERS_PER_DEGREE_EQUATOR * c.cos(e.originLatitude)))
  }

  function PredictedX(c: Config, e: Estimate, timestamp: real): Axis {
    PredictAxis(e.x, timestamp - e.lastTimestamp, c.processAccel)
  }

  function PredictedY(c: Config, e: Estimate, timestamp: real): Axis {
    PredictAxis(e.y, timestamp - e.lastTimestamp, c.processAccel)
  }

  lemma NoisePositive(c: Config)
    requires GoodConfig(c)
    ensures NoiseVar(c) > 0.0
  {
    var r := PositiveSquare(c.measurementNoise);
  }

  lemma PredictAxisGood(x: Axis, y: Axis, elapsed: real, accel: real)
    requires PositiveDefinite(x) && SameCovariance(x, y)
    ensures PositiveDefinite(PredictAxis(x, elapsed, accel))
    ensures SameCovariance(PredictAxis(x, elapsed, accel), PredictAxis(y, elapsed, accel))
  {
    var q := NonNegativeSquare(accel);
    PredictKeepsPositive(x, elapsed, q);
    StepKeepsSameCovariance(x, y, elapsed, q);
  }

  lemma PredictionGood(c: Config, e: Estimate, timestamp: real)
    requires GoodConfig(c) && GoodEstimate(c, e)
    ensures PositiveDefinite(PredictedX(c, e, timestamp)) && NoiseVar(c) > 0.0
    ensures SameCovariance(PredictedX(c, e, timestamp), PredictedY(c, e, timestamp))
  {
    NoisePositive(c);
    PredictAxisGood(e.x, e.y, timestamp - e.lastTimestamp, c.processAccel);
  }

  /** The squared Mahalanobis distance of the sample. */
  ghost function Distance(c: Config, e: Estimate, sample: Sample): real
    requires GoodConfig(c) && GoodEstimate(c, e)
  {
    PredictionGood(c, e, sample.timestamp);
    var z := Measured(c, e, sample);
    DistanceFrom(PredictedX(c, e, sample.timestamp), PredictedY(c, e, sample.timestamp), z.x, z.y, NoiseVar(c))
  }

  function Newest(x: real, y: real): real {
    if y > x then y else x
  }

  /** The estimate after the sample. */
  ghost function Updated(c: Config, e: Estimate, sample: Sample): (e': Estimate)
    requires GoodConfig(c) && GoodEstimate(c, e)
    ensures GoodEstimate(c, e')
  {
    PredictionGood(c, e, sample.timestamp);
    var px, py, z := PredictedX(c, e, sample.timestamp), PredictedY(c, e, sample.timestamp), Measured(c, e, sample);
    UpdateKeepsPositive(px, z.x, NoiseVar(c));
    UpdateKeepsSameCovariance(px, py, z.x, z.y, NoiseVar(c));
    Estimate(e.originLatitude, e.originLongitude, AxisFilter.Update(px, z.x, NoiseVar(c)),
      AxisFilter.Update(py, z.y, NoiseVar(c)),
             Newest(e.lastTimestamp, sample.timestamp))
  }

  function FirstEstimate(c: Config, sample: Sample): Estimate {
    var axis := Axis(0.0, 0.0, NoiseVar(c), 0.0, INITIAL_VELOCITY_STD_DEV * INITIAL_VELOCITY_STD_DEV);
    Estimate(sample.latitude, sample.longitude, axis, axis, sample.timestamp)
  }

  lemma FirstEstimateGood(c: Config, sample: Sample)
    requires GoodConfig(c) && OffPoles(c, sample)
    ensures GoodEstimate(c, FirstEstimate(c, sample))
    ensures Position(c, FirstEstimate(c, sample)) == Geo(sample.latitude, sample.longitude)
  {
    var r := PositiveSquare(c.measurementNoise);
    ProductPositive(r, INITIAL_VELOCITY_STD_DEV * INITIAL_VELOCITY_STD_DEV);
  }

  // ---- Cells ----

  function CellSize(c: Config): real {
    c.gateRadius / METERS_PER_DEGREE_EQUATOR
  }

  function CellOf(c: Config, p: Geo): Cluster.Cell
    requires c.gateRadius > 0.0
  {
    Cluster.Cell(((p.latitude + 90.0) / CellSize(c)).Floor, ((p.longitude + 180.0) / CellSize(c)).Floor)
  }

  function Bucket(grid: map<Cluster.Cell, set<string>>, cell: Cluster.Cell): set<string> {
    if cell in grid then grid[cell] else {}
  }

  function AddToGrid(grid: map<Cluster.Cell, set<string>>, cell: Cluster.Cell,
                     id: string): map<Cluster.Cell, set<string>> {
    grid[cell := Bucket(grid, cell) + {id}]
  }

  /** A bucket that becomes empty goes. */
  function RemoveFromGrid(grid: map<Cluster.Cell, set<string>>, cell: Cluster.Cell,
                          id: string): map<Cluster.Cell, set<string>> {
    if cell !in grid then grid
    else if grid[cell] - {id} == {} then grid - {cell}
    else grid[cell := grid[cell] - {id}]
  }

  // ---- The invariant ----

  /** No station appears twice in the set. */
  ghost predicate OnePerStation(keys: set<Key>) {
    forall j, k :: j in keys && k in keys && j.station == k.station ==> j == k
  }

  ghost predicate GoodTrack(c: Config, id: string, t: Track, issued: int)
    requires c.gateRadius > 0.0
  {
    && GoodEstimate(c, t.estimate) && OnePerStation(t.keys) && t.keys != {}
    && t.cell == CellOf(c, Position(c, t.estimate))
    && Ids.Issued(c.idPrefix, id, issued)
  }

  /** byObservation and the tracks' own keys are inverse to each other: here at one key ... */
  ghost predicate KeyCoherent(s: ShardState, k: Key) {
    k in s.byObservation ==> s.byObservation[k] in s.tracks && k in s.tracks[s.byObservation[k]].keys
  }

  /** ... and here at one track. */
  ghost predicate TrackCoherent(s: ShardState, id: string) {
    id in s.tracks ==> forall k :: k in s.tracks[id].keys ==> k in s.byObservation && s.byObservation[k] == id
  }

  /** The bucket of a cell holds the tracks that are in the cell, and there are no empty buckets. */
  ghost predicate CellCoherent(s: ShardState, cell: Cluster.Cell) {
    && (cell in s.grid ==> s.grid[cell] != {})
    && forall id :: id in Bucket(s.grid, cell) <==> id in s.tracks && s.tracks[id].cell == cell
  }

  ghost predicate Coherent(s: ShardState) {
    && (forall k {:trigger KeyCoherent(s, k)} :: KeyCoherent(s, k))
    && (forall id {:trigger TrackCoherent(s, id)} :: TrackCoherent(s, id))
    && (forall cell {:trigger CellCoherent(s, cell)} :: CellCoherent(s, cell))
  }

  ghost predicate Inv(c: Config, s: ShardState, issued: int)
    requires c.gateRadius > 0.0
  {
    && (forall id {:trigger GoodTrack(c, id, s.tracks[id], issued)} :: id in s.tracks ==>
      GoodTrack(c, id, s.tracks[id], issued))
    && Coherent(s)
  }

  /** The two indexes are functions of the tracks: nothing can be wrong with them that is not
      visible in the tracks. */
  lemma IndexesDetermined(s: ShardState, t: ShardState)
    requires Coherent(s) && Coherent(t) && s.tracks == t.tracks
    ensures s == t
  {
    forall k
      ensures k in s.byObservation <==> k in t.byObservation
      ensures k in s.byObservation ==> s.byObservation[k] == t.byObservation[k]
    {
      assert KeyCoherent(s, k) && KeyCoherent(t, k);
      if k in s.byObservation { assert TrackCoherent(t, s.byObservation[k]); }
      if k in t.byObservation { assert TrackCoherent(s, t.byObservation[k]); }
    }
    assert s.byObservation == t.byObservation;
    forall cell
      ensures Bucket(s.grid, cell) == Bucket(t.grid, cell)
      ensures cell in s.grid <==> Bucket(s.grid, cell) != {}
      ensures cell in t.grid <==> Bucket(t.grid, cell) != {}
    {
      assert CellCoherent(s, cell) && CellCoherent(t, cell);
      forall id
        ensures id in Bucket(s.grid, cell) <==> id in Bucket(t.grid, cell)
      {
      }
    }
    SameGrid(s.grid, t.grid);
  }

  lemma SameGrid(g: map<Cluster.Cell, set<string>>, h: map<Cluster.Cell, set<string>>)
    requires forall cell :: Bucket(g, cell) == Bucket(h, cell)
    requires forall cell :: (cell in g <==> Bucket(g, cell) != {}) && (cell in h <==> Bucket(h, cell) != {})
    ensures g == h
  {
    assert forall cell :: cell in g <==> cell in h;
    forall cell | cell in g
      ensures g[cell] == h[cell]
    {
      assert Bucket(g, cell) == Bucket(h, cell);
    }
  }

  /** No local track is held by two live tracks, and no live track holds two of one station. */
  lemma StationExclusive(c: Config, s: ShardState, issued: int, id: string, j: Key, other: string, k: Key)
    requires c.gateRadius > 0.0 && Inv(c, s, issued)
    requires id in s.tracks && other in s.tracks && j in s.tracks[id].keys && k in s.tracks[other].keys
    ensures j == k ==> id == other
    ensures id == other && j.station == k.station ==> j == k
  {
    assert GoodTrack(c, id, s.tracks[id], issued);
    assert TrackCoherent(s, id) && TrackCoherent(s, other);
  }

  lemma MoreIssued(c: Config, s: ShardState, m: int, n: int)
    requires c.gateRadius > 0.0 && Inv(c, s, m) && m <= n
    ensures Inv(c, s, n)
  {
    forall id | id in s.tracks
      ensures GoodTrack(c, id, s.tracks[id], n)
    {
      assert GoodTrack(c, id, s.tracks[id], m);
      var k: nat :| 1 <= k <= m && id == Ids.SequenceID(c.idPrefix, k);
    }
  }

  // ---- Pruning ----

  /** The state without one track. */
  function Drop(s: ShardState, id: string): ShardState
    requires id in s.tracks
  {
    ShardState(s.tracks - {id},
               map k | k in s.byObservation && s.byObservation[k] != id :: s.byObservation[k],
               RemoveFromGrid(s.grid, s.tracks[id].cell, id))
  }

  lemma DropKeepsCoherent(s: ShardState, id: string)
    requires Coherent(s) && id in s.tracks
    ensures Coherent(Drop(s, id))
  {
    var s' := Drop(s, id);
    forall k ensures KeyCoherent(s', k) {
      assert KeyCoherent(s, k);
    }
    forall i ensures TrackCoherent(s', i) {
      assert TrackCoherent(s, i);
    }
    forall cell ensures CellCoherent(s', cell) {
      assert CellCoherent(s, cell);
      BucketAfterRemoval(s.grid, s.tracks[id].cell, id, cell);
    }
  }

  lemma BucketAfterRemoval(grid: map<Cluster.Cell, set<string>>, cell: Cluster.Cell, id: string, q: Cluster.Cell)
    ensures Bucket(RemoveFromGrid(grid, cell, id), q) == if q == cell then Bucket(grid, q) - {id} else Bucket(grid, q)
    ensures q in RemoveFromGrid(grid, cell, id) && (q in grid ==> grid[q] != {}) ==>
      RemoveFromGrid(grid, cell, id)[q] != {}
  {
  }

  lemma BucketAfterAddition(grid: map<Cluster.Cell, set<string>>, cell: Cluster.Cell, id: string, q: Cluster.Cell)
    ensures Bucket(AddToGrid(grid, cell, id), q) == if q == cell then Bucket(grid, q) + {id} else Bucket(grid, q)
    ensures q in AddToGrid(grid, cell, id) && (q in grid ==> grid[q] != {}) ==> AddToGrid(grid, cell, id)[q] != {}
  {
  }

  lemma DropKeepsInv(c: Config, s: ShardState, issued: int, id: string)
    requires c.gateRadius > 0.0 && Inv(c, s, issued) && id in s.tracks
    ensures Inv(c, Drop(s, id), issued)
  {
    DropKeepsCoherent(s, id);
    var s' := Drop(s, id);
    forall i | i in s'.tracks
      ensures GoodTrack(c, i, s'.tracks[i], issued)
    {
      assert GoodTrack(c, i, s.tracks[i], issued);
    }
  }

  predicate Expired(t: Track, cutoff: real) {
    t.lastUpdate <= cutoff
  }

  /** The tracks that were updated after the cutoff. */
  function Live(tracks: map<string, Track>, cutoff: real): map<string, Track> {
    map id | id in tracks && !Expired(tracks[id], cutoff) :: tracks[id]
  }

  /** Halfway through a pruning that has still to visit the remaining tracks. */
  function Spared(tracks: map<string, Track>, cutoff: real, remaining: set<string>): map<string, Track> {
    map id | id in tracks && (id in remaining || !Expired(tracks[id], cutoff)) :: tracks[id]
  }

  lemma SparedStep(tracks: map<string, Track>, cutoff: real, remaining: set<string>, id: string)
    requires id in remaining && id in tracks
    ensures id in Spared(tracks, cutoff, remaining) && Spared(tracks, cutoff, remaining)[id] == tracks[id]
    ensures Spared(tracks, cutoff, remaining - {id})
      == if Expired(tracks[id], cutoff) then Spared(tracks, cutoff, remaining) - {id}
        else Spared(tracks, cutoff, remaining)
  {
  }

  lemma SparedEnds(tracks: map<string, Track>, cutoff: real)
    ensures Spared(tracks, cutoff, tracks.Keys) == tracks && Spared(tracks, cutoff, {}) == Live(tracks, cutoff)
  {
  }

  // ---- A sample joins a track, or starts one ----

  ghost function Touched(c: Config, t: Track, key: Key, sample: Sample, now: real): Track
    requires GoodConfig(c) && GoodEstimate(c, t.estimate)
  {
    var e := Updated(c, t.estimate, sample);
    Track(e, t.keys + {key}, now, CellOf(c, Position(c, e)))
  }

  /** Only the estimate and the cell of the track change. */
  ghost function Moved(c: Config, t: Track, sample: Sample): Track
    requires GoodConfig(c) && GoodEstimate(c, t.estimate)
  {
    var e := Updated(c, t.estimate, sample);
    t.(estimate := e, cell := CellOf(c, Position(c, e)))
  }

  function NewTrack(c: Config, key: Key, sample: Sample, now: real): Track
    requires c.gateRadius > 0.0
  {
    Track(FirstEstimate(c, sample), {key}, now, CellOf(c, Geo(sample.latitude, sample.longitude)))
  }

  function Reindexed(grid: map<Cluster.Cell, set<string>>, from: Cluster.Cell, to: Cluster.Cell,
                     id: string): map<Cluster.Cell, set<string>> {
    if from == to then grid else AddToGrid(RemoveFromGrid(grid, from, id), to, id)
  }

  /** The track takes the key and its new value. */
  function Touch(s: ShardState, id: string, key: Key, t: Track): ShardState
    requires id in s.tracks
  {
    ShardState(s.tracks[id := t], s.byObservation[key := id], Reindexed(s.grid, s.tracks[id].cell, t.cell, id))
  }

  function Add(s: ShardState, id: string, key: Key, t: Track): ShardState {
    ShardState(s.tracks[id := t], s.byObservation[key := id], AddToGrid(s.grid, t.cell, id))
  }

  lemma TouchKeepsCoherent(s: ShardState, id: string, key: Key, t: Track)
    requires Coherent(s) && id in s.tracks && t.keys == s.tracks[id].keys + {key}
    requires key in s.byObservation ==> s.byObservation[key] == id
    ensures Coherent(Touch(s, id, key, t))
  {
    var s', from := Touch(s, id, key, t), s.tracks[id].cell;
    forall k ensures KeyCoherent(s', k) {
      assert KeyCoherent(s, k);
    }
    forall i ensures TrackCoherent(s', i) {
      assert TrackCoherent(s, i);
    }
    forall cell ensures CellCoherent(s', cell) {
      assert CellCoherent(s, cell);
      BucketAfterRemoval(s.grid, from, id, cell);
      BucketAfterAddition(RemoveFromGrid(s.grid, from, id), t.cell, id, cell);
    }
  }

  lemma AddKeepsCoherent(s: ShardState, id: string, key: Key, t: Track)
    requires Coherent(s) && id !in s.tracks && t.keys == {key} && key !in s.byObservation
    ensures Coherent(Add(s, id, key, t))
  {
    var s' := Add(s, id, key, t);
    forall k ensures KeyCoherent(s', k) {
      assert KeyCoherent(s, k);
    }
    forall i ensures TrackCoherent(s', i) {
      assert TrackCoherent(s, i);
    }
    forall cell ensures CellCoherent(s', cell) {
      assert CellCoherent(s, cell);
      BucketAfterAddition(s.grid, t.cell, id, cell);
    }
  }

  /** Does any local track of the station belong to the track? */
  ghost predicate Sees(t: Track, station: string) {
    exists k :: k in t.keys && k.station == station
  }

  ghost predicate Held(tracks: map<string, Track>, key: Key, id: string) {
    id in tracks && key in tracks[id].keys
  }

  /** The key joined a track it did not belong to before. */
  ghost function Merged(before: map<string, Track>, key: Key, id: string): nat {
    if id in before && !Held(before, key, id) then 1 else 0
  }

  lemma TouchKeepsInv(c: Config, s: ShardState, issued: int, id: string, key: Key, sample: Sample, now: real)
    requires GoodConfig(c) && Inv(c, s, issued) && id in s.tracks && GoodEstimate(c, s.tracks[id].estimate)
    requires key in s.byObservation ==> s.byObservation[key] == id
    requires key !in s.byObservation ==> !Sees(s.tracks[id], key.station)
    ensures Inv(c, Touch(s, id, key, Touched(c, s.tracks[id], key, sample, now)), issued)
  {
    var t := Touched(c, s.tracks[id], key, sample, now);
    TouchKeepsCoherent(s, id, key, t);
    assert KeyCoherent(s, key);
    var after := s.tracks[id := t];
    forall i | i in after
      ensures GoodTrack(c, i, after[i], issued)
    {
      assert GoodTrack(c, i, s.tracks[i], issued);
    }
  }

  lemma AddKeepsInv(c: Config, s: ShardState, issued: nat, id: string, key: Key, sample: Sample, now: real)
    requires GoodConfig(c) && Inv(c, s, issued) && OffPoles(c, sample) && key !in s.byObservation
    requires id == Ids.SequenceID(c.idPrefix, issued + 1)
    ensures id !in s.tracks
    ensures Inv(c, Add(s, id, key, NewTrack(c, key, sample, now)), issued + 1)
  {
    Ids.NextIsFresh(c.idPrefix, issued);
    assert id in s.tracks ==> GoodTrack(c, id, s.tracks[id], issued);
    var t := NewTrack(c, key, sample, now);
    AddKeepsCoherent(s, id, key, t);
    MoreIssued(c, s, issued, issued + 1);
    FirstEstimateGood(c, sample);
    var after := s.tracks[id := t];
    forall i | i in after
      ensures GoodTrack(c, i, after[i], issued + 1)
    {
      assert i != id ==> GoodTrack(c, i, s.tracks[i], issued + 1);
    }
  }

  // ---- The candidate search ----

  function PointOf(p: Geo): Cluster.Point {
    Cluster.Point(p.latitude, p.longitude)
  }

  /** The distance of the coarse gate, taken at the latitude of the track. */
  function GateDistance(c: Config, p: Geo, sample: Sample): real {
    Cluster.Distance(PointOf(p), Cluster.Point(sample.latitude, sample.longitude), c.hypot, c.cos)
  }

  /** The station does not see the track yet, and the track is within the coarse gate. */
  ghost predicate Open(c: Config, t: Track, station: string, sample: Sample)
    requires c.cos(t.estimate.originLatitude) > 0.0
  {
    !Sees(t, station) && GateDistance(c, Position(c, t.estimate), sample) <= c.gateRadius
  }

  /** The cells searched around a sample; how many columns they span depends on its own latitude. */
  predicate Searched(c: Config, sample: Sample, cell: Cluster.Cell)
    requires c.gateRadius > 0.0
  {
    Cluster.InWindow(CellOf(c, Geo(sample.latitude, sample.longitude)), cell, Cluster.CellSpan(c.cos(sample.latitude)))
  }

  ghost predicate Fits(c: Config, t: Track, station: string, sample: Sample)
    requires GoodConfig(c) && GoodEstimate(c, t.estimate)
  {
    Open(c, t, station, sample) && Distance(c, t.estimate, sample) <= c.gateChiSquared
  }

  ghost predicate Candidate(c: Config, tracks: map<string, Track>, id: string, station: string, sample: Sample)
    requires GoodConfig(c)
  {
    id in tracks && GoodEstimate(c, tracks[id].estimate) && Searched(c, sample, tracks[id].cell)
      && Fits(c, tracks[id], station, sample)
  }

  /** The track is a nearest one of those that the predicate admits. */
  ghost predicate Nearest(c: Config, tracks: map<string, Track>, id: string, station: string, sample: Sample)
    requires GoodConfig(c)
  {
    && Candidate(c, tracks, id, station, sample)
    && forall i {:trigger Candidate(c, tracks, i, station, sample)} :: Candidate(c, tracks, i, station, sample) ==>
         Distance(c, tracks[id].estimate, sample) <= Distance(c, tracks[i].estimate, sample)
  }

  ghost predicate NoCandidate(c: Config, tracks: map<string, Track>, station: string, sample: Sample)
    requires GoodConfig(c)
  {
    forall i {:trigger Candidate(c, tracks, i, station, sample)} :: !Candidate(c, tracks, i, station, sample)
  }

  /** Outside the Mahalanobis gate, though inside the coarse one. */
  ghost predicate GatedOut(c: Config, tracks: map<string, Track>, id: string, station: string, sample: Sample)
    requires GoodConfig(c)
  {
    && id in tracks && GoodEstimate(c, tracks[id].estimate)
    && Open(c, tracks[id], station, sample) && Distance(c, tracks[id].estimate, sample) > c.gateChiSquared
  }

  ghost function GatedAmong(c: Config, tracks: map<string, Track>, seen: set<string>, station: string,
                            sample: Sample): set<string>
    requires GoodConfig(c)
  {
    set id | id in seen && GatedOut(c, tracks, id, station, sample)
  }

  /** How many tracks the search for this sample finds inside the coarse gate and outside the other one. There
      is no search when the key belongs to a track already. */
  ghost function GatedOff(c: Config, tracks: map<string, Track>, key: Key, sample: Sample): nat
    requires GoodConfig(c)
  {
    if exists i :: Held(tracks, key, i) then 0
    else |GatedAmong(c, tracks, InWindowTracks(c, tracks, sample), key.station, sample)|
  }

  ghost function InWindowTracks(c: Config, tracks: map<string, Track>, sample: Sample): set<string>
    requires GoodConfig(c)
  {
    set id | id in tracks && Searched(c, sample, tracks[id].cell)
  }

  /** The tracks of the window around origin whose cell comes before (row, col). */
  ghost function SeenBefore(tracks: map<string, Track>, origin: Cluster.Cell, span: int, row: int,
                            col: int): set<string> {
    set id | id in tracks && Cluster.InWindow(origin, tracks[id].cell, span)
             && (tracks[id].cell.row < row || (tracks[id].cell.row == row && tracks[id].cell.col < col))
  }

  lemma SeenCell(s: ShardState, origin: Cluster.Cell, span: int, cell: Cluster.Cell)
    requires Coherent(s) && Cluster.InWindow(origin, cell, span)
    ensures SeenBefore(s.tracks, origin, span, cell.row, cell.col + 1)
      == SeenBefore(s.tracks, origin, span, cell.row, cell.col) + Bucket(s.grid, cell)
    ensures SeenBefore(s.tracks, origin, span, cell.row, cell.col) !! Bucket(s.grid, cell)
    ensures forall id :: id in Bucket(s.grid, cell) ==> id in s.tracks && s.tracks[id].cell == cell
  {
    assert CellCoherent(s, cell);
    forall id | id in s.tracks
      ensures s.tracks[id].cell.row == cell.row && s.tracks[id].cell.col == cell.col <==> id in Bucket(s.grid, cell)
    {
    }
  }

  lemma SeenRows(tracks: map<string, Track>, origin: Cluster.Cell, span: int, row: int)
    requires span >= 0
    ensures SeenBefore(tracks, origin, span, row, origin.col + span + 1) ==
      SeenBefore(tracks, origin, span, row + 1, origin.col - span)
  {
  }

  lemma SeenEnds(c: Config, tracks: map<string, Track>, sample: Sample, origin: Cluster.Cell, span: int)
    requires GoodConfig(c) && origin == CellOf(c, Geo(sample.latitude, sample.longitude))
    requires span == Cluster.CellSpan(c.cos(sample.latitude))
    ensures SeenBefore(tracks, origin, span, origin.row - 1, origin.col - span) == {}
    ensures SeenBefore(tracks, origin, span, origin.row + 2, origin.col - span) == InWindowTracks(c, tracks, sample)
  {
  }

  lemma SetStep(seen: set<string>, remaining: set<string>, id: string, all: set<string>)
    requires id in remaining && seen !! remaining && seen + remaining == all
    ensures seen + {id} !! remaining - {id} && seen + {id} + (remaining - {id}) == all
  {
  }

  /** The best of the tracks seen so far, and its distance. */
  ghost predicate BestSoFar(c: Config, tracks: map<string, Track>, seen: set<string>, station: string, sample: Sample,
                            best: Ids.Option<string>, distance: real)
    requires GoodConfig(c)
  {
    && (best.None? ==> distance == c.gateChiSquared)
    && (best.Some? ==>
        && Candidate(c, tracks, best.value, station, sample)
        && distance == Distance(c, tracks[best.value].estimate, sample))
    && (forall i {:trigger Candidate(c, tracks, i, station, sample)} ::
          i in seen && Candidate(c, tracks, i, station, sample) ==>
          best.Some? && distance <= Distance(c, tracks[i].estimate, sample))
  }

  /** One more track seen: it takes over when it is no farther than the best so far. */
  lemma BestStep(c: Config, tracks: map<string, Track>, seen: set<string>, station: string, sample: Sample,
                 best: Ids.Option<string>, distance: real, id: string)
    requires GoodConfig(c) && BestSoFar(c, tracks, seen, station, sample, best, distance)
    requires id in tracks && GoodEstimate(c, tracks[id].estimate) && Searched(c, sample, tracks[id].cell)
    ensures distance <= c.gateChiSquared
    ensures var d := Distance(c, tracks[id].estimate, sample);
      if Open(c, tracks[id], station, sample) && d <= distance
      then BestSoFar(c, tracks, seen + {id}, station, sample, Ids.Some(id), d)
      else BestSoFar(c, tracks, seen + {id}, station, sample, best, distance)
  {
  }

  lemma GatedStep(c: Config, tracks: map<string, Track>, seen: set<string>, station: string, sample: Sample, id: string)
    requires GoodConfig(c) && id !in seen
    ensures |GatedAmong(c, tracks, seen + {id}, station, sample)|
      == |GatedAmong(c, tracks, seen, station, sample)| + if GatedOut(c, tracks, id, station, sample) then 1 else 0
  {
    var before, after := GatedAmong(c, tracks, seen, station, sample),
      GatedAmong(c, tracks, seen + {id}, station, sample);
    assert after == if GatedOut(c, tracks, id, station, sample) then before + {id} else before;
  }

  lemma BestOfWindow(c: Config, tracks: map<string, Track>, seen: set<string>, station: string, sample: Sample,
                     best: Ids.Option<string>, distance: real)
    requires GoodConfig(c) && BestSoFar(c, tracks, seen, station, sample, best, distance)
    requires seen == InWindowTracks(c, tracks, sample)
    ensures best.Some? ==> Nearest(c, tracks, best.value, station, sample)
    ensures best.None? ==> NoCandidate(c, tracks, station, sample)
  {
  }

  /** What resolve makes of the tracks that are left after pruning; issued and issued' count the
      track numbers handed out before and after. */
  ghost predicate Resolved(c: Config, before: map<string, Track>, after: map<string, Track>, key: Key, sample: Sample,
                           now: real, id: string, issued: nat, issued': nat)
    requires GoodConfig(c)
  {
    if id in before then
      && GoodEstimate(c, before[id].estimate) && after == before[id := Touched(c, before[id], key, sample, now)]
        && issued' == issued
      && ((exists i :: Held(before, key, i)) ==> Held(before, key, id))
      && ((forall i :: !Held(before, key, i)) ==> Nearest(c, before, id, key.station, sample))
    else
      && (forall i :: !Held(before, key, i)) && NoCandidate(c, before, key.station, sample)
      && issued' == issued + 1 && id == Ids.SequenceID(c.idPrefix, issued')
      && after == before[id := NewTrack(c, key, sample, now)]
  }

  /** What the index says about the key is what the tracks say. */
  lemma IndexTellsHolder(s: ShardState, key: Key)
    requires Coherent(s)
    ensures key in s.byObservation ==> Held(s.tracks, key, s.byObservation[key])
    ensures key !in s.byObservation ==> forall i :: !Held(s.tracks, key, i)
  {
    assert KeyCoherent(s, key);
    forall i | Held(s.tracks, key, i)
      ensures key in s.byObservation
    {
      assert TrackCoherent(s, i);
    }
  }

  lemma IndexTellsGated(c: Config, s: ShardState, key: Key, sample: Sample)
    requires GoodConfig(c) && Coherent(s)
    ensures GatedOff(c, s.tracks, key, sample) == if key in s.byObservation then 0
      else |GatedAmong(c, s.tracks, InWindowTracks(c, s.tracks, sample), key.station, sample)|
  {
    IndexTellsHolder(s, key);
  }

  /** A track the key already belongs to, or the nearest candidate, absorbs the sample. */
  lemma AbsorbedIsResolved(c: Config, s: ShardState, s': ShardState, issued: nat, id: string, key: Key, sample: Sample,
                           now: real)
    requires GoodConfig(c) && Inv(c, s, issued) && id in s.tracks && GoodEstimate(c, s.tracks[id].estimate)
    requires if key in s.byObservation then s.byObservation[key] == id
      else Nearest(c, s.tracks, id, key.station, sample)
    requires s' == Touch(s, id, key, Touched(c, s.tracks[id], key, sample, now))
    ensures Inv(c, s', issued) && Resolved(c, s.tracks, s'.tracks, key, sample, now, id, issued, issued)
  {
    IndexTellsHolder(s, key);
    TouchKeepsInv(c, s, issued, id, key, sample, now);
  }

  lemma StartedIsResolved(c: Config, s: ShardState, s': ShardState, issued: nat, id: string, key: Key, sample: Sample,
                          now: real)
    requires GoodConfig(c) && Inv(c, s, issued) && OffPoles(c, sample)
    requires key !in s.byObservation && NoCandidate(c, s.tracks, key.station, sample)
    requires id == Ids.SequenceID(c.idPrefix, issued + 1)
    requires s' == Add(s, id, key, NewTrack(c, key, sample, now))
    ensures Inv(c, s', issued + 1) && Resolved(c, s.tracks, s'.tracks, key, sample, now, id, issued, issued + 1)
  {
    IndexTellsHolder(s, key);
    AddKeepsInv(c, s, issued, id, key, sample, now);
  }

  /** The last step of resolve: the track notes the observation. */
  function Noted(t: Track, key: Key, now: real): Track {
    t.(keys := t.keys + {key}, lastUpdate := now)
  }

  lemma StartedThenNoted(c: Config, s: ShardState, values: map<string, Track>, s': ShardState, issued: nat, id: string,
                         key: Key, sample: Sample, now: real)
    requires GoodConfig(c) && Inv(c, s, issued) && OffPoles(c, sample)
    requires key !in s.byObservation && NoCandidate(c, s.tracks, key.station, sample)
    requires id == Ids.SequenceID(c.idPrefix, issued + 1)
    requires values == s.tracks[id := NewTrack(c, key, sample, now).(keys := {})]
    requires s'.tracks == values[id := Noted(values[id], key, now)] && s'.byObservation == s.byObservation[key := id]
    requires s'.grid == AddToGrid(s.grid, NewTrack(c, key, sample, now).cell, id)
    ensures Inv(c, s', issued + 1) && Resolved(c, s.tracks, s'.tracks, key, sample, now, id, issued, issued + 1)
  {
    var t := NewTrack(c, key, sample, now);
    assert Noted(values[id], key, now) == t by { assert {} + {key} == {key}; }
    assert s'.tracks == s.tracks[id := t];
    StartedIsResolved(c, s, s', issued, id, key, sample, now);
  }

  lemma AbsorbedThenNoted(c: Config, s: ShardState, values: map<string, Track>, s': ShardState, issued: nat,
                          id: string, key: Key, sample: Sample, now: real)
    requires GoodConfig(c) && Inv(c, s, issued) && id in s.tracks && GoodEstimate(c, s.tracks[id].estimate)
    requires if key in s.byObservation then s.byObservation[key] == id
      else Nearest(c, s.tracks, id, key.station, sample)
    requires values == s.tracks[id := Moved(c, s.tracks[id], sample)]
    requires s'.tracks == values[id := Noted(values[id], key, now)] && s'.byObservation == s.byObservation[key := id]
    requires s'.grid == Reindexed(s.grid, s.tracks[id].cell, values[id].cell, id)
    ensures Inv(c, s', issued) && Resolved(c, s.tracks, s'.tracks, key, sample, now, id, issued, issued)
  {
    var t := Touched(c, s.tracks[id], key, sample, now);
    assert Noted(values[id], key, now) == t;
    assert s'.tracks == s.tracks[id := t];
    AbsorbedIsResolved(c, s, s', issued, id, key, sample, now);
  }

  // ---- Several shards, one counter ----

  ghost predicate ShardsInv(c: Config, shards: seq<ShardState>, issued: int)
    requires c.gateRadius > 0.0
  {
    && (forall i :: 0 <= i < |shards| ==> Inv(c, shards[i], issued))
    && (forall i, j :: 0 <= i < j < |shards| ==> shards[i].tracks.Keys !! shards[j].tracks.Keys)
  }

  /** Whichever shard resolves next, no track name is ever live in two shards. */
  lemma ResolveKeepsShardsApart(c: Config, shards: seq<ShardState>, k: nat, before: map<string, Track>, s': ShardState,
                                key: Key, sample: Sample, now: real, id: string, issued: nat, issued': nat)
    requires GoodConfig(c) && k < |shards| && ShardsInv(c, shards, issued)
    requires before.Keys <= shards[k].tracks.Keys && Inv(c, s', issued')
    requires Resolved(c, before, s'.tracks, key, sample, now, id, issued, issued')
    ensures ShardsInv(c, shards[k := s'], issued')
  {
    forall i | 0 <= i < |shards| && i != k
      ensures Inv(c, shards[i], issued') && shards[i].tracks.Keys !! s'.tracks.Keys
    {
      MoreIssued(c, shards[i], issued, issued');
      if id !in before {
        Ids.NextIsFresh(c.idPrefix, issued);
        assert id in shards[i].tracks ==> GoodTrack(c, id, shards[i].tracks[id], issued);
      }
    }
  }

  // ---- When the window misses no track ----

  /** North-south distance in cells, and the reach of the window in units of the gate radius. */
  ghost predicate WindowHolds(c: Config, sampleLatitude: real, trackLatitude: real)
    requires c.gateRadius > 0.0
  {
    var rows := (sampleLatitude - trackLatitude) / CellSize(c);
    var reach := Cluster.CellSpan(c.cos(sampleLatitude)) as real * c.cos(trackLatitude);
    rows * rows + reach * reach >= 1.0
  }
}
