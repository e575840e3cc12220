// One shard of the fuser of internal/fusion/fuser.go: tracks behind pointers, three maps over
// them, all changed in place under the shard's lock.
module Fuser {
  import opened Plane
  import opened AxisFilter
  import opened Kalman
  import opened FuserState
  import FuserHistory
  import Cluster
  import Ids

  datatype Observation = Observation(sample: Sample, seenAt: real)

  /** What resolve reports of a track. */
  datatype FusedSample = FusedSample(droneID: string, timestamp: real, latitude: real, longitude: real, speed: real,
    quality: int,
                                    altitude: real, confidence: real, squawk: string)

  // ---- What the fresh observations of a track agree on ----

  /** The observations seen at the cutoff or later. */
  function Fresh(observations: map<Key, Observation>, cutoff: real): set<Key> {
    set k | k in observations && observations[k].seenAt >= cutoff
  }

  ghost function AltitudeSum(observations: map<Key, Observation>, keys: set<Key>): real
    requires keys <= observations.Keys
  {
    if keys == {} then 0.0
    else
      var k :| k in keys;
      observations[k].sample.altitude + AltitudeSum(observations, keys - {k})
  }

  /** In whatever order they are added. */
  lemma {:induction false} AltitudeSumWith(observations: map<Key, Observation>, keys: set<Key>, k: Key)
    requires keys <= observations.Keys && k in keys
    ensures AltitudeSum(observations, keys) == observations[k].sample.altitude + AltitudeSum(observations, keys - {k})
    decreases |keys|
  {
    var j :| j in keys && AltitudeSum(observations, keys) ==
      observations[j].sample.altitude + AltitudeSum(observations, keys - {j});
    if j != k {
      AltitudeSumWith(observations, keys - {j}, k);
      AltitudeSumWith(observations, keys - {k}, j);
      assert keys - {j} - {k} == keys - {k} - {j};
    }
  }

  /** The highest confidence among these observations, and a squawk of one of them that has one. */
  ghost predicate Agreed(observations: map<Key, Observation>, keys: set<Key>, confidence: real, squawk: string)
    requires keys <= observations.Keys
  {
    && confidence >= 0.0 && (forall k :: k in keys ==> observations[k].sample.confidence <= confidence)
    && (confidence == 0.0 || exists k :: k in keys && observations[k].sample.confidence == confidence)
    && (squawk == "" ==> forall k :: k in keys ==> observations[k].sample.squawk == "")
    && (squawk != "" ==> exists k :: k in keys && observations[k].sample.squawk == squawk)
  }

  /** The altitude is the mean over the fresh observations. */
  ghost predicate Blends(observations: map<Key, Observation>, cutoff: real, altitude: real, confidence: real,
                         squawk: string) {
    && altitude * |Fresh(observations, cutoff)| as real == AltitudeSum(observations, Fresh(observations, cutoff))
    && (Fresh(observations, cutoff) == {} ==> altitude == 0.0)
    && Agreed(observations, Fresh(observations, cutoff), confidence, squawk)
  }

  lemma AgreedWith(observations: map<Key, Observation>, keys: set<Key>, confidence: real, squawk: string, k: Key)
    requires keys <= observations.Keys && k in observations && Agreed(observations, keys, confidence, squawk)
    ensures var s := observations[k].sample;
      Agreed(observations, keys + {k}, if s.confidence > confidence then s.confidence else confidence,
             if squawk == "" && s.squawk != "" then s.squawk else squawk)
  {
    assert k in keys + {k};
    forall j | j in keys
      ensures j in keys + {k}
    {
    }
  }

  /** What is known of the fresh observations that have been visited. */
  ghost predicate Merging(observations: map<Key, Observation>, merged: set<Key>, altitudeSum: real, count: nat,
                          confidence: real, squawk: string) {
    && merged <= observations.Keys && count == |merged| && altitudeSum == AltitudeSum(observations, merged)
    && Agreed(observations, merged, confidence, squawk)
  }

  lemma MergeNext(observations: map<Key, Observation>, merged: set<Key>, altitudeSum: real, count: nat,
                  confidence: real, squawk: string, k: Key)
    requires Merging(observations, merged, altitudeSum, count, confidence, squawk) && k in observations && k !in merged
    ensures var s := observations[k].sample;
      Merging(observations, merged + {k}, altitudeSum + s.altitude, count + 1,
        if s.confidence > confidence then s.confidence else confidence,
              if squawk == "" && s.squawk != "" then s.squawk else squawk)
  {
    AgreedWith(observations, merged, confidence, squawk, k);
    AltitudeSumWith(observations, merged + {k}, k);
    assert merged + {k} - {k} == merged;
  }

  lemma FreshNext(observations: map<Key, Observation>, cutoff: real, remaining: set<Key>, k: Key)
    requires k in remaining && k in observations
    ensures k !in Fresh(observations, cutoff) - remaining
    ensures Fresh(observations, cutoff) - (remaining - {k})
      == if observations[k].seenAt < cutoff then Fresh(observations, cutoff) - remaining
        else Fresh(observations, cutoff) - remaining + {k}
  {
  }

  lemma MergedIsBlend(observations: map<Key, Observation>, cutoff: real, altitudeSum: real, count: nat, altitude: real,
                      confidence: real, squawk: string)
    requires Merging(observations, Fresh(observations, cutoff), altitudeSum, count, confidence, squawk)
    requires altitude == if count > 0 then altitudeSum / count as real else 0.0
    ensures Blends(observations, cutoff, altitude, confidence, squawk)
  {
  }

  method Blend(observations: map<Key, Observation>, cutoff: real)
    returns (altitude: real, confidence: real, squawk: string)
    ensures Blends(observations, cutoff, altitude, confidence, squawk)
  {
    confidence, squawk := 0.0, "";
    var altitudeSum: real, count: nat := 0.0, 0;
    var remaining := observations.Keys;
    assert Fresh(observations, cutoff) - remaining == {};
    while remaining != {}
      invariant remaining <= observations.Keys
      invariant Merging(observations, Fresh(observations, cutoff) - remaining, altitudeSum, count, confidence, squawk)
    {
      var k :| k in remaining;
      FreshNext(observations, cutoff, remaining, k);
      ghost var merged := Fresh(observations, cutoff) - remaining;
      remaining := remaining - {k};
      var obs := observations[k];
      if obs.seenAt < cutoff {
        continue;
      }
      MergeNext(observations, merged, altitudeSum, count, confidence, squawk, k);
      altitudeSum := altitudeSum + obs.sample.altitude;
      if obs.sample.confidence > confidence {
        confidence := obs.sample.confidence;
      }
      if squawk == "" && obs.sample.squawk != "" {
        squawk := obs.sample.squawk;
      }
      count := count + 1;
    }
    assert Fresh(observations, cutoff) - remaining == Fresh(observations, cutoff);
    altitude := if count > 0 then altitudeSum / count as real else 0.0;
    MergedIsBlend(observations, cutoff, altitudeSum, count, altitude, confidence, squawk);
  }

  /** An observation of this moment is among those that count. */
  lemma NewestCounts(observations: map<Key, Observation>, key: Key, now: real, window: real, altitude: real,
                     confidence: real, squawk: string)
    requires key in observations && observations[key].seenAt == now
    requires Blends(observations, now - window, altitude, confidence, squawk)
    ensures window >= 0.0 ==> observations[key].sample.confidence <= confidence
    ensures window >= 0.0 && observations[key].sample.squawk != "" ==> squawk != ""
  {
    assert window >= 0.0 ==> key in Fresh(observations, now - window);
  }

  lemma AtRest(hypot: (real, real) -> real)
    requires IsHypot(hypot)
    ensures hypot(0.0, 0.0) == 0.0
  {
    assert HypotAt(hypot, 0.0, 0.0);
    HypotOfZero(hypot, 0.0, 0.0);
  }

  /** The counters that the shards share. */
  class Counters {
    var nextTrack: nat
    var mergesTotal: nat
    var gatedTotal: nat

    constructor ()
      ensures nextTrack == mergesTotal == gatedTotal == 0
    {
      nextTrack, mergesTotal, gatedTotal := 0, 0, 0;
    }
  }

  ghost function EstimateOf(k: KalmanFilter): Estimate
    reads k
  {
    Estimate(k.originLatitude, k.originLongitude, k.x, k.y, k.lastTimestamp)
  }

  /** A working filter with this configuration. */
  ghost predicate Configured(c: Config, k: KalmanFilter)
    reads k
  {
    k.Valid() && k.measurementVar == NoiseVar(c) && k.processAccel == c.processAccel && k.cos == c.cos
  }

  lemma ConfiguredIsGood(c: Config, k: KalmanFilter)
    requires Configured(c, k)
    ensures GoodEstimate(c, EstimateOf(k))
    ensures k.Position() == FuserState.Position(c, EstimateOf(k))
  {
    assert k.state == StateOf(k.x, k.y);
  }

  lemma IsDistance(c: Config, e: Estimate, sample: Sample, px: Axis, py: Axis, z: Local, d: real)
    requires GoodConfig(c) && GoodEstimate(c, e)
    requires px == FuserState.PredictedX(c, e, sample.timestamp) && py == FuserState.PredictedY(c, e, sample.timestamp)
    requires z == Measured(c, e, sample)
    requires px.a + NoiseVar(c) > 0.0 && d == DistanceFrom(px, py, z.x, z.y, NoiseVar(c))
    ensures d == FuserState.Distance(c, e, sample)
  {
  }

  lemma IsUpdated(c: Config, e: Estimate, e': Estimate, sample: Sample, px: Axis, py: Axis, z: Local)
    requires GoodConfig(c) && GoodEstimate(c, e)
    requires px == FuserState.PredictedX(c, e, sample.timestamp) && py == FuserState.PredictedY(c, e, sample.timestamp)
    requires z == Measured(c, e, sample)
    requires px.a + NoiseVar(c) > 0.0 && py.a + NoiseVar(c) > 0.0
    requires e' == Estimate(e.originLatitude, e.originLongitude, AxisFilter.Update(px, z.x, NoiseVar(c)),
                            AxisFilter.Update(py, z.y, NoiseVar(c)), Newest(e.lastTimestamp, sample.timestamp))
    ensures e' == FuserState.Updated(c, e, sample)
  {
  }

  method MeasureDistance(c: Config, k: KalmanFilter, sample: Sample) returns (d: real)
    requires GoodConfig(c) && Configured(c, k)
    ensures GoodEstimate(c, EstimateOf(k)) && d == FuserState.Distance(c, EstimateOf(k), sample)
  {
    ConfiguredIsGood(c, k);
    ghost var px, py, z := k.PredictedX(sample.timestamp), k.PredictedY(sample.timestamp),
      k.ToLocal(sample.latitude, sample.longitude);
    ConfiguredIsGood(c, k);
    SameView(c, k, sample);
    d := k.MahalanobisSquared(sample.latitude, sample.longitude, sample.timestamp);
    IsDistance(c, EstimateOf(k), sample, px, py, z, d);
  }

  method UpdateFilter(c: Config, k: KalmanFilter, sample: Sample)
    requires GoodConfig(c) && Configured(c, k)
    modifies k
    ensures Configured(c, k)
    ensures GoodEstimate(c, old(EstimateOf(k))) && EstimateOf(k) == FuserState.Updated(c, old(EstimateOf(k)), sample)
  {
    ghost var e, px, py, z := EstimateOf(k), k.PredictedX(sample.timestamp), k.PredictedY(sample.timestamp),
      k.ToLocal(sample.latitude, sample.longitude);
    ConfiguredIsGood(c, k);
    SameView(c, k, sample);
    k.Update(sample.latitude, sample.longitude, sample.timestamp);
    IsUpdated(c, e, EstimateOf(k), sample, px, py, z);
  }

  /** What the filter sees of a sample is what its estimate does. */
  lemma SameView(c: Config, k: KalmanFilter, sample: Sample)
    requires k.processAccel == c.processAccel && k.cos == c.cos
    ensures k.ToLocal(sample.latitude, sample.longitude) == Measured(c, EstimateOf(k), sample)
    ensures k.PredictedX(sample.timestamp) == FuserState.PredictedX(c, EstimateOf(k), sample.timestamp)
    ensures k.PredictedY(sample.timestamp) == FuserState.PredictedY(c, EstimateOf(k), sample.timestamp)
  {
  }

  method FirstFilter(c: Config, sample: Sample) returns (k: KalmanFilter)
    requires GoodConfig(c) && OffPoles(c, sample)
    ensures fresh(k) && Configured(c, k) && EstimateOf(k) == FirstEstimate(c, sample)
  {
    k := new KalmanFilter(sample.latitude, sample.longitude, sample.timestamp, c.measurementNoise, c.processAccel,
      c.cos);
  }

  /** The report on an estimate. With a measurement noise of at most 100 m its quality is at least 71. */
  ghost predicate Reports(c: Config, fused: FusedSample, id: string, e: Estimate, timestamp: real)
    requires c.cos(e.originLatitude) > 0.0
  {
    var p := FuserState.Position(c, e);
    && fused.droneID == id && fused.timestamp == timestamp
    && fused.latitude == p.latitude && fused.longitude == p.longitude
    && fused.speed == c.hypot(e.x.vel, e.y.vel)
    && fused.quality == QualityFromUncertainty(c.root(2.0 * e.x.a))
    && 0 <= fused.quality <= 100 && (0.0 < c.measurementNoise <= 100.0 ==> fused.quality >= 71)
  }

  lemma QualityOfEstimate(c: Config, e: Estimate, uncertainty: real)
    requires GoodConfig(c) && GoodEstimate(c, e) && uncertainty == c.root(2.0 * e.x.a)
    ensures 0 <= QualityFromUncertainty(uncertainty) <= 100
    ensures c.measurementNoise <= 100.0 ==> QualityFromUncertainty(uncertainty) >= 71
  {
    assert c.root(2.0 * e.x.a) >= 0.0 && c.root(2.0 * e.x.a) * c.root(2.0 * e.x.a) == 2.0 * e.x.a;
    if c.measurementNoise <= 100.0 {
      SquareMonotone(c.measurementNoise, 100.0);
      CovarianceEntry(e.x, 0, 0);
      CovarianceEntry(e.x, 1, 1);
      QualityAtLeast71(e.x, uncertainty);
    }
  }

  method ReportOn(c: Config, id: string, k: KalmanFilter, observations: map<Key, Observation>, timestamp: real,
                  now: real) returns (fused: FusedSample)
    requires GoodConfig(c) && Configured(c, k)
    ensures GoodEstimate(c, EstimateOf(k)) && Reports(c, fused, id, EstimateOf(k), timestamp)
    ensures Blends(observations, now - c.mergeWindow, fused.altitude, fused.confidence, fused.squawk)
  {
    var altitude, confidence, squawk := Blend(observations, now - c.mergeWindow);
    ConfiguredIsGood(c, k);
    var p := k.Position();
    CovarianceEntry(k.x, 0, 0);
    CovarianceEntry(k.x, 1, 1);
    assert k.state == StateOf(k.x, k.y);
    QualityOfEstimate(c, EstimateOf(k), k.PositionUncertainty(c.root));
    fused := FusedSample(id, timestamp, p.latitude, p.longitude, k.Speed(c.hypot),
      QualityFromUncertainty(k.PositionUncertainty(c.root)),
                         altitude, confidence, squawk);
  }

  class FusedTrack {
    const id: string
    const filter: KalmanFilter
    var observations: map<Key, Observation>
    var lastUpdate: real
    var cell: Cluster.Cell

    ghost function Value(): Track
      reads this, filter
    {
      Track(EstimateOf(filter), observations.Keys, lastUpdate, cell)
    }

    constructor (id: string, filter: KalmanFilter, now: real, cell: Cluster.Cell)
      ensures this.id == id && this.filter == filter
      ensures Value() == Track(EstimateOf(filter), {}, now, cell)
    {
      this.id, this.filter := id, filter;
      observations, lastUpdate, this.cell := map[], now, cell;
    }

    method StationSees(station: string) returns (sees: bool)
      ensures sees == Sees(Value(), station)
    {
      var keys := observations.Keys;
      while keys != {}
        invariant keys <= observations.Keys
        invariant forall k :: k in observations && k.station == station ==> k in keys
      {
        var key :| key in keys;
        if key.station == station {
          return true;
        }
        keys := keys - {key};
      }
      return false;
    }
  }

  /** The track carries the name, its filter works, and v is what it holds. */
  ghost predicate Reflects(c: Config, t: FusedTrack, id: string, v: Track)
    reads t, t.filter
  {
    t.id == id && Configured(c, t.filter) && t.Value() == v
  }

  function NameOf(t: FusedTrack?): Ids.Option<string> {
    if t == null then Ids.None else Ids.Some(t.id)
  }

  class Shard {
    const c: Config
    const counters: Counters
    var tracks: map<string, FusedTrack>
    var byObservation: map<Key, string>
    var grid: map<Cluster.Cell, set<string>>
    var lastPrune: Ids.Option<real>

    /** The tracks as values. */
    ghost var values: map<string, Track>

    ghost function Filters(): set<KalmanFilter>
      reads this`tracks
    {
      set id | id in tracks :: tracks[id].filter
    }

    ghost function State(): ShardState
      reads this
    {
      ShardState(values, byObservation, grid)
    }

    /** Every name has a track of its own, with a filter of its own, and values says what they hold. */
    ghost predicate Mirrored()
      reads this`tracks, this`values, tracks.Values, Filters()
    {
      && GoodConfig(c) && values.Keys == tracks.Keys
      && (forall id {:trigger Reflects(c, tracks[id], id, values[id])} :: id in tracks ==>
        Reflects(c, tracks[id], id, values[id]))
      && (forall i, j :: i in tracks && j in tracks && tracks[i].filter == tracks[j].filter ==> i == j)
    }

    ghost predicate Valid()
      reads this, tracks.Values, Filters(), counters`nextTrack
    {
      Mirrored() && Inv(c, State(), counters.nextTrack)
    }

    constructor (c: Config, counters: Counters)
      requires GoodConfig(c)
      ensures Valid() && this.c == c && this.counters == counters
      ensures State() == ShardState(map[], map[], map[]) && lastPrune == Ids.None
    {
      this.c, this.counters := c, counters;
      tracks, values, byObservation, grid, lastPrune := map[], map[], map[], map[], Ids.None;
    }

    method AddToGrid(track: FusedTrack)
      modifies this`grid
      ensures grid == FuserState.AddToGrid(old(grid), track.cell, track.id)
    {
      if track.cell !in grid {
        grid := grid[track.cell := {}];
      }
      grid := grid[track.cell := grid[track.cell] + {track.id}];
      assert grid == FuserState.AddToGrid(old(grid), track.cell, track.id);
    }

    method RemoveFromGrid(track: FusedTrack)
      modifies this`grid
      ensures grid == FuserState.RemoveFromGrid(old(grid), track.cell, track.id)
    {
      if track.cell !in grid {
        return;
      }
      grid := grid[track.cell := grid[track.cell] - {track.id}];
      if |grid[track.cell]| == 0 {
        grid := grid - {track.cell};
      }
      assert grid == FuserState.RemoveFromGrid(old(grid), track.cell, track.id);
    }

    method ForgetObservations(id: string)
      modifies this`byObservation
      ensures byObservation == map k | k in old(byObservation) && old(byObservation)[k] != id :: old(byObservation)[k]
    {
      var keys := byObservation.Keys;
      while keys != {}
        invariant keys <= byObservation.Keys <= old(byObservation).Keys
        invariant forall k :: k in byObservation ==> byObservation[k] == old(byObservation)[k]
        invariant forall k :: k in old(byObservation) && k !in keys ==>
          (k in byObservation <==> old(byObservation)[k] != id)
        invariant forall k :: k in keys ==> k in byObservation
      {
        var key :| key in keys;
        keys := keys - {key};
        if byObservation[key] == id {
          byObservation := byObservation - {key};
        }
      }
    }

    /** Takes a track out of the two indexes. */
    method Unlink(track: FusedTrack)
      modifies this`byObservation, this`grid
      ensures grid == FuserState.RemoveFromGrid(old(grid), track.cell, track.id)
      ensures byObservation ==
        map k | k in old(byObservation) && old(byObservation)[k] != track.id :: old(byObservation)[k]
    {
      RemoveFromGrid(track);
      ForgetObservations(track.id);
    }

    method DeleteTrack(id: string)
      requires Mirrored() && id in tracks
      modifies this`tracks, this`values
      ensures Mirrored() && tracks == old(tracks) - {id} && values == old(values) - {id}
    {
      tracks, values := tracks - {id}, values - {id};
      forall i | i in tracks
        ensures Reflects(c, tracks[i], i, values[i])
      {
        assert old(Reflects(c, tracks[i], i, values[i]));
      }
    }

    method DropTrack(id: string)
      requires Mirrored() && id in tracks
      modifies this`tracks, this`values, this`byObservation, this`grid
      ensures Mirrored() && tracks == old(tracks) - {id}
      ensures State() == Drop(old(State()), id)
    {
      assert Reflects(c, tracks[id], id, values[id]);
      Unlink(tracks[id]);
      DeleteTrack(id);
    }

    /** Is it time to prune? */
    predicate Due(now: real)
      reads this`lastPrune
    {
      lastPrune.None? || now - lastPrune.value >= c.trackTTL / 4.0
    }

    method PruneOne(id: string, cutoff: real)
      requires Valid() && id in tracks
      modifies this`tracks, this`values, this`byObservation, this`grid
      ensures Valid()
      ensures old(id in values) && if Expired(old(values[id]), cutoff)
        then tracks == old(tracks) - {id} && values == old(values) - {id}
        else unchanged(`tracks, `values)
    {
      assert Reflects(c, tracks[id], id, values[id]);
      if tracks[id].lastUpdate > cutoff {
        return;
      }
      DropKeepsInv(c, State(), counters.nextTrack, id);
      DropTrack(id);
    }

    method PruneExpired(cutoff: real)
      requires Valid()
      modifies this`tracks, this`values, this`byObservation, this`grid
      ensures Valid() && values == Live(old(values), cutoff)
      ensures tracks.Values <= old(tracks.Values) && Filters() <= old(Filters())
      ensures forall id :: id in tracks ==> id in old(tracks) && tracks[id] == old(tracks)[id]
    {
      var remaining := tracks.Keys;
      ghost var before := values;
      SparedEnds(before, cutoff);
      while remaining != {}
        invariant Valid() && remaining <= tracks.Keys
        invariant forall id :: id in tracks ==> id in old(tracks) && tracks[id] == old(tracks[id])
        invariant values == Spared(before, cutoff, remaining)
      {
        var id :| id in remaining;
        SparedStep(before, cutoff, remaining, id);
        remaining := remaining - {id};
        PruneOne(id, cutoff);
      }
    }

    /** Exactly the tracks that were not updated within the TTL go, whatever the order of the loop. */
    method Prune(now: real)
      requires Valid()
      modifies this`tracks, this`values, this`byObservation, this`grid, this`lastPrune
      ensures Valid()
      ensures if old(Due(now))
        then values == Live(old(values), now - c.trackTTL) && lastPrune == Ids.Some(now)
        else unchanged(this)
      ensures forall id :: id in old(values) && now - old(values)[id].lastUpdate < c.trackTTL ==>
        id in values && values[id] == old(values)[id]
      ensures old(lastPrune).None? || now - old(lastPrune).value >= c.trackTTL / 4.0 ==>
        FuserHistory.Survivors(old(values), now, c.trackTTL, values) && lastPrune == Ids.Some(now)
      ensures old(lastPrune).Some? && now - old(lastPrune).value < c.trackTTL / 4.0 ==> unchanged(this)
      ensures tracks.Values <= old(tracks.Values) && Filters() <= old(Filters())
      ensures forall id :: id in tracks ==> id in old(tracks) && tracks[id] == old(tracks)[id]
    {
      if Due(now) {
        lastPrune := Ids.Some(now);
        PruneExpired(now - c.trackTTL);
      }
    }

    ghost predicate Keeps(t: FusedTrack?)
      reads this`tracks
    {
      t == null || (t.id in tracks && tracks[t.id] == t)
    }

    /** One track of the search: the body of the innermost loop. */
    method Consider(track: FusedTrack, station: string, sample: Sample, best: FusedTrack?, bestDistance: real,
                    ghost seen: set<string>)
      returns (best': FusedTrack?, bestDistance': real)
      requires Valid() && Keeps(track) && Keeps(best) && track.id in values
      requires Searched(c, sample, values[track.id].cell) && track.id !in seen
      requires BestSoFar(c, values, seen, station, sample, NameOf(best), bestDistance)
      modifies counters`gatedTotal
      ensures Keeps(best') && BestSoFar(c, values, seen + {track.id}, station, sample, NameOf(best'), bestDistance')
      ensures counters.gatedTotal == old(counters.gatedTotal) + if GatedOut(c, values, track.id, station, sample) then 1
        else 0
    {
      assert Reflects(c, track, track.id, values[track.id]);
      ConfiguredIsGood(c, track.filter);
      best', bestDistance' := best, bestDistance;
      BestStep(c, values, seen, station, sample, NameOf(best), bestDistance, track.id);
      var sees := track.StationSees(station);
      if sees {
        return;
      }
      if GateDistance(c, track.filter.Position(), sample) > c.gateRadius {
        return;
      }
      var distance := MeasureDistance(c, track.filter, sample);
      if distance <= bestDistance {
        best', bestDistance' := track, distance;
      } else if distance > c.gateChiSquared {
        counters.gatedTotal := counters.gatedTotal + 1;
      }
    }

    /** What the search has established once it has seen these tracks. */
    ghost predicate Searching(station: string, sample: Sample, seen: set<string>, best: FusedTrack?,
                              bestDistance: real, gated: int)
      reads this, counters`gatedTotal
      requires GoodConfig(c)
    {
      && Keeps(best) && BestSoFar(c, values, seen, station, sample, NameOf(best), bestDistance)
      && counters.gatedTotal == gated + |GatedAmong(c, values, seen, station, sample)|
    }

    /** The tracks of one cell, in any order. */
    method SearchCell(cell: Cluster.Cell, station: string, sample: Sample, best: FusedTrack?, bestDistance: real,
                      ghost seen: set<string>,
                      ghost gated: int)
      returns (best': FusedTrack?, bestDistance': real, ghost seen': set<string>)
      requires Valid() && Searching(station, sample, seen, best, bestDistance, gated)
      requires Searched(c, sample, cell) && seen !! Bucket(grid, cell)
      requires forall id :: id in Bucket(grid, cell) ==> id in values && values[id].cell == cell
      modifies counters`gatedTotal
      ensures seen' == seen + Bucket(grid, cell)
      ensures Searching(station, sample, seen', best', bestDistance', gated)
    {
      best', bestDistance', seen' := best, bestDistance, seen;
      var remaining := Bucket(grid, cell);
      ghost var all := seen + remaining;
      while remaining != {}
        invariant remaining <= Bucket(grid, cell) && seen' !! remaining && seen' + remaining == all
        invariant Searching(station, sample, seen', best', bestDistance', gated)
      {
        var id :| id in remaining;
        SetStep(seen', remaining, id, all);
        remaining := remaining - {id};
        best', bestDistance', seen' := SearchOne(id, station, sample, best', bestDistance', seen', gated);
      }
    }

    method SearchOne(id: string, station: string, sample: Sample, best: FusedTrack?, bestDistance: real,
                     ghost seen: set<string>,
                     ghost gated: int)
      returns (best': FusedTrack?, bestDistance': real, ghost seen': set<string>)
      requires Valid() && Searching(station, sample, seen, best, bestDistance, gated)
      requires id in values && Searched(c, sample, values[id].cell) && id !in seen
      modifies counters`gatedTotal
      ensures seen' == seen + {id}
      ensures Searching(station, sample, seen', best', bestDistance', gated)
    {
      seen' := seen + {id};
      GatedStep(c, values, seen, station, sample, id);
      assert Reflects(c, tracks[id], id, values[id]);
      best', bestDistance' := Consider(tracks[id], station, sample, best, bestDistance, seen);
    }

    method SearchColumn(origin: Cluster.Cell, colSpan: int, cell: Cluster.Cell, station: string, sample: Sample,
                        best: FusedTrack?, bestDistance: real, ghost seen: set<string>, ghost gated: int)
      returns (best': FusedTrack?, bestDistance': real, ghost seen': set<string>)
      requires Valid() && Searched(c, sample, cell) && Cluster.InWindow(origin, cell, colSpan)
      requires seen == SeenBefore(values, origin, colSpan, cell.row, cell.col)
      requires Searching(station, sample, seen, best, bestDistance, gated)
      modifies counters`gatedTotal
      ensures seen' == SeenBefore(values, origin, colSpan, cell.row, cell.col + 1)
      ensures Searching(station, sample, seen', best', bestDistance', gated)
    {
      SeenCell(State(), origin, colSpan, cell);
      best', bestDistance', seen' := SearchCell(cell, station, sample, best, bestDistance, seen, gated);
    }

    method SearchRow(origin: Cluster.Cell, colSpan: int, row: int, station: string, sample: Sample, best: FusedTrack?,
                     bestDistance: real, ghost seen: set<string>, ghost gated: int)
      returns (best': FusedTrack?, bestDistance': real, ghost seen': set<string>)
      requires Valid() && origin == CellOf(c, Geo(sample.latitude, sample.longitude))
        && origin.row - 1 <= row <= origin.row + 1
      requires colSpan == Cluster.CellSpan(c.cos(sample.latitude))
      requires seen == SeenBefore(values, origin, colSpan, row, origin.col - colSpan)
      requires Searching(station, sample, seen, best, bestDistance, gated)
      modifies counters`gatedTotal
      ensures seen' == SeenBefore(values, origin, colSpan, row + 1, origin.col - colSpan)
      ensures Searching(station, sample, seen', best', bestDistance', gated)
    {
      best', bestDistance', seen' := best, bestDistance, seen;
      for col := origin.col - colSpan to origin.col + colSpan + 1
        invariant seen' == SeenBefore(values, origin, colSpan, row, col)
        invariant Searching(station, sample, seen', best', bestDistance', gated)
      {
        best', bestDistance', seen' := SearchColumn(origin, colSpan, Cluster.Cell(row, col), station, sample, best',
          bestDistance', seen', gated);
      }
      SeenRows(values, origin, colSpan, row);
    }

    /** The nearest candidate of the window, and the count of the tracks that only the statistical
        gate kept out. */
    method BestCandidate(key: Key, sample: Sample) returns (best: FusedTrack?)
      requires Valid()
      modifies counters`gatedTotal
      ensures Keeps(best)
      ensures best != null ==> Nearest(c, values, best.id, key.station, sample)
      ensures best == null ==> NoCandidate(c, values, key.station, sample)
      ensures counters.gatedTotal == old(counters.gatedTotal)
        + |GatedAmong(c, values, InWindowTracks(c, values, sample), key.station, sample)|
    {
      var origin := CellOf(c, Geo(sample.latitude, sample.longitude));
      var colSpan := Cluster.CellSpan(c.cos(sample.latitude));
      best := null;
      var bestDistance := c.gateChiSquared;
      ghost var gated, seen := counters.gatedTotal, {};
      SeenEnds(c, values, sample, origin, colSpan);
      assert GatedAmong(c, values, seen, key.station, sample) == {};
      for dRow := -1 to 2
        invariant seen == SeenBefore(values, origin, colSpan, origin.row + dRow, origin.col - colSpan)
        invariant Searching(key.station, sample, seen, best, bestDistance, gated)
      {
        best, bestDistance, seen := SearchRow(origin, colSpan, origin.row + dRow, key.station, sample, best,
          bestDistance, seen, gated);
      }
      BestOfWindow(c, values, seen, key.station, sample, NameOf(best), bestDistance);
    }

    // ---- One sample ----

    /** A new track enters the shard. */
    method Register(track: FusedTrack)
      requires Mirrored() && track.id !in tracks && track.filter !in Filters() && Configured(c, track.filter)
      modifies this`tracks, this`values
      ensures Mirrored() && tracks == old(tracks)[track.id := track] && values == old(values)[track.id := track.Value()]
    {
      tracks, values := tracks[track.id := track], values[track.id := track.Value()];
      forall i | i in tracks
        ensures Reflects(c, tracks[i], i, values[i])
      {
        assert i != track.id ==> old(Reflects(c, tracks[i], i, values[i]));
      }
    }

    method MakeTrack(sample: Sample, now: real) returns (track: FusedTrack)
      requires GoodConfig(c) && OffPoles(c, sample)
      modifies counters`nextTrack
      ensures fresh(track) && fresh(track.filter) && Configured(c, track.filter)
      ensures counters.nextTrack == old(counters.nextTrack) + 1
        && track.id == Ids.SequenceID(c.idPrefix, counters.nextTrack)
      ensures track.Value() == NewTrack(c, Key("", ""), sample, now).(keys := {})
    {
      counters.nextTrack := counters.nextTrack + 1;
      var filter := FirstFilter(c, sample);
      track := new FusedTrack(Ids.SequenceID(c.idPrefix, counters.nextTrack), filter, now,
                              CellOf(c, Geo(sample.latitude, sample.longitude)));
    }

    /** A new track enters all three indexes. */
    method Enter(track: FusedTrack, key: Key)
      requires Mirrored() && track.id !in tracks && track.filter !in Filters() && Configured(c, track.filter)
      modifies this`tracks, this`values, this`byObservation, this`grid
      ensures Mirrored() && tracks == old(tracks)[track.id := track] && values == old(values)[track.id := track.Value()]
      ensures byObservation == old(byObservation)[key := track.id]
      ensures grid == FuserState.AddToGrid(old(grid), track.cell, track.id)
    {
      Register(track);
      AddToGrid(track);
      byObservation := byObservation[key := track.id];
    }

    method StartTrack(key: Key, sample: Sample, now: real) returns (track: FusedTrack)
      requires Valid() && OffPoles(c, sample)
      modifies this`tracks, this`values, this`byObservation, this`grid, counters`nextTrack
      ensures Mirrored() && fresh(track) && fresh(track.filter) && track.id !in old(tracks)
      ensures counters.nextTrack == old(counters.nextTrack) + 1
        && track.id == Ids.SequenceID(c.idPrefix, counters.nextTrack)
      ensures tracks == old(tracks)[track.id := track]
      ensures values == old(values)[track.id := NewTrack(c, key, sample, now).(keys := {})]
      ensures byObservation == old(byObservation)[key := track.id]
      ensures grid == FuserState.AddToGrid(old(grid), NewTrack(c, key, sample, now).cell, track.id)
    {
      IDIsFree(c, State(), counters.nextTrack);
      track := MakeTrack(sample, now);
      Enter(track, key);
    }

    /** The track of the sample, and whether it had to be started. A name in byObservation always
        belongs to a live track. */
    method TrackFor(key: Key, sample: Sample, now: real) returns (track: FusedTrack, isNew: bool)
      requires Valid() && OffPoles(c, sample)
      modifies this`tracks, this`values, this`byObservation, this`grid, counters
      ensures Mirrored() && Keeps(track)
      ensures byObservation == old(byObservation)[key := track.id]
      ensures !isNew ==> unchanged(`tracks, `values, `grid) && counters.nextTrack == old(counters.nextTrack)
      ensures !isNew ==> if key in old(byObservation) then old(byObservation)[key] == track.id
                         else Nearest(c, values, track.id, key.station, sample)
      ensures isNew ==>
        && fresh(track) && fresh(track.filter) && track.id !in old(tracks)
        && key !in old(byObservation) && NoCandidate(c, old(values), key.station, sample)
        && counters.nextTrack == old(counters.nextTrack) + 1
        && track.id == Ids.SequenceID(c.idPrefix, counters.nextTrack)
        && tracks == old(tracks)[track.id := track]
        && values == old(values)[track.id := NewTrack(c, key, sample, now).(keys := {})]
        && grid == FuserState.AddToGrid(old(grid), NewTrack(c, key, sample, now).cell, track.id)
      ensures counters.mergesTotal == old(counters.mergesTotal) + if key !in old(byObservation) && !isNew then 1 else 0
      ensures counters.gatedTotal == old(counters.gatedTotal) + if key in old(byObservation) then 0
        else |GatedAmong(c, old(values), InWindowTracks(c, old(values), sample), key.station, sample)|
    {
      if key in byObservation {
        assert KeyCoherent(State(), key);
        var id := byObservation[key];
        if id in tracks {
          assert Reflects(c, tracks[id], id, values[id]);
          assert byObservation == byObservation[key := id];
          return tracks[id], false;
        }
        assert false;
      }
      var best := BestCandidate(key, sample);
      if best != null {
        byObservation := byObservation[key := best.id];
        counters.mergesTotal := counters.mergesTotal + 1;
        return best, false;
      }
      track := StartTrack(key, sample, now);
      isNew := true;
    }

    method Reindex(track: FusedTrack)
      requires track.filter.Valid() && c.gateRadius > 0.0
      modifies this`grid, track`cell
      ensures track.cell == CellOf(c, track.filter.Position())
      ensures grid == Reindexed(old(grid), old(track.cell), track.cell, track.id)
    {
      var newCell := CellOf(c, track.filter.Position());
      if newCell == track.cell {
        return;
      }
      RemoveFromGrid(track);
      track.cell := newCell;
      AddToGrid(track);
    }

    /** As Mirrored, except that the values need not say yet what one track holds. */
    ghost predicate MirroredBut(track: FusedTrack)
      reads this`tracks, this`values, tracks.Values, Filters()
    {
      && Keeps(track) && GoodConfig(c) && values.Keys == tracks.Keys && Configured(c, track.filter)
      && (forall id {:trigger Reflects(c, tracks[id], id, values[id])} :: id in tracks && id != track.id ==>
        Reflects(c, tracks[id], id, values[id]))
      && (forall i, j :: i in tracks && j in tracks && tracks[i].filter == tracks[j].filter ==> i == j)
    }

    ghost method Mirror(track: FusedTrack)
      requires MirroredBut(track)
      modifies this`values
      ensures Mirrored() && values == old(values)[track.id := track.Value()]
    {
      values := values[track.id := track.Value()];
      forall i | i in tracks
        ensures Reflects(c, tracks[i], i, values[i])
      {
        assert i != track.id ==> old(Reflects(c, tracks[i], i, values[i]));
      }
    }

    method MoveFilter(track: FusedTrack, sample: Sample)
      requires Mirrored() && Keeps(track)
      modifies track.filter
      ensures MirroredBut(track)
      ensures track.id in values && GoodEstimate(c, values[track.id].estimate)
      ensures EstimateOf(track.filter) == FuserState.Updated(c, values[track.id].estimate, sample)
    {
      assert Reflects(c, track, track.id, values[track.id]);
      UpdateFilter(c, track.filter, sample);
      forall i | i in tracks && i != track.id
        ensures Reflects(c, tracks[i], i, values[i])
      {
        assert old(Reflects(c, tracks[i], i, values[i]));
      }
    }

    /** What the sample of a known track does to it: update, then reindex. */
    method Absorb(track: FusedTrack, sample: Sample)
      requires Mirrored() && Keeps(track)
      modifies track.filter, track`cell, this`grid, this`values
      ensures Mirrored()
      ensures track.id in old(values) && GoodEstimate(c, old(values[track.id]).estimate)
      ensures values == old(values)[track.id := Moved(c, old(values[track.id]), sample)]
      ensures grid == Reindexed(old(grid), old(values[track.id]).cell, values[track.id].cell, track.id)
    {
      ghost var t := values[track.id];
      assert Reflects(c, track, track.id, t);
      MoveFilter(track, sample);
      ConfiguredIsGood(c, track.filter);
      Reindex(track);
      assert track.Value() == Moved(c, t, sample);
      Mirror(track);
    }

    method Observe(track: FusedTrack, key: Key, sample: Sample, now: real)
      requires Mirrored() && Keeps(track)
      modifies track`observations, track`lastUpdate, this`values
      ensures Mirrored()
      ensures track.id in old(values)
      ensures values == old(values)[track.id := Noted(old(values[track.id]), key, now)]
      ensures track.observations == old(track.observations)[key := Observation.Observation(sample, now)]
    {
      ghost var t := values[track.id];
      assert Reflects(c, track, track.id, t);
      track.observations := track.observations[key := Observation.Observation(sample, now)];
      assert track.observations.Keys == t.keys + {key};
      track.lastUpdate := now;
      Mirror(track);
    }

    /** The tracks that are left once resolve has pruned. */
    ghost function Pruned(now: real): map<string, Track>
      reads this`values, this`lastPrune
    {
      if Due(now) then Live(values, now - c.trackTTL) else values
    }

    method NoteNew(track: FusedTrack, key: Key, sample: Sample, now: real, ghost s: ShardState, ghost issued: nat)
      requires Mirrored() && Keeps(track) && Inv(c, s, issued) && OffPoles(c, sample)
      requires key !in s.byObservation && NoCandidate(c, s.tracks, key.station, sample)
      requires counters.nextTrack == issued + 1 && track.id == Ids.SequenceID(c.idPrefix, issued + 1)
      requires values == s.tracks[track.id := NewTrack(c, key, sample, now).(keys := {})]
      requires byObservation == s.byObservation[key := track.id]
      requires grid == FuserState.AddToGrid(s.grid, NewTrack(c, key, sample, now).cell, track.id)
      modifies track`observations, track`lastUpdate, this`values
      ensures Valid()
      ensures Resolved(c, s.tracks, values, key, sample, now, track.id, issued, issued + 1)
      ensures track.observations == old(track.observations)[key := Observation.Observation(sample, now)]
    {
      ghost var mid := values;
      Observe(track, key, sample, now);
      StartedThenNoted(c, s, mid, State(), issued, track.id, key, sample, now);
    }

    method AbsorbAndNote(track: FusedTrack, key: Key, sample: Sample, now: real, ghost s: ShardState)
      requires Mirrored() && Keeps(track) && Inv(c, s, counters.nextTrack) && track.id in s.tracks
      requires if key in s.byObservation then s.byObservation[key] == track.id
        else Nearest(c, s.tracks, track.id, key.station, sample)
      requires State() == s.(byObservation := s.byObservation[key := track.id])
      modifies track, track.filter, this`grid, this`values
      ensures Valid()
      ensures Resolved(c, s.tracks, values, key, sample, now, track.id, counters.nextTrack, counters.nextTrack)
      ensures track.observations == old(track.observations)[key := Observation.Observation(sample, now)]
    {
      Absorb(track, sample);
      ghost var mid := values;
      Observe(track, key, sample, now);
      AbsorbedThenNoted(c, s, mid, State(), counters.nextTrack, track.id, key, sample, now);
    }

    /** The same, with the counters and the track objects told by what the tracks hold. */
    method FindTrack(key: Key, sample: Sample, now: real) returns (track: FusedTrack, isNew: bool)
      requires Valid() && OffPoles(c, sample)
      modifies this`tracks, this`values, this`byObservation, this`grid, counters
      ensures Mirrored() && Keeps(track) && isNew == (track.id !in old(values))
      ensures byObservation == old(byObservation)[key := track.id]
      ensures !isNew ==> unchanged(`tracks, `values, `grid) && counters.nextTrack == old(counters.nextTrack)
      ensures !isNew ==> if key in old(byObservation) then old(byObservation)[key] == track.id
                         else Nearest(c, values, track.id, key.station, sample)
      ensures isNew ==>
        && fresh(track) && fresh(track.filter)
        && key !in old(byObservation) && NoCandidate(c, old(values), key.station, sample)
        && counters.nextTrack == old(counters.nextTrack) + 1
        && track.id == Ids.SequenceID(c.idPrefix, counters.nextTrack)
        && values == old(values)[track.id := NewTrack(c, key, sample, now).(keys := {})]
        && grid == FuserState.AddToGrid(old(grid), NewTrack(c, key, sample, now).cell, track.id)
      ensures counters.mergesTotal == old(counters.mergesTotal) + Merged(old(values), key, track.id)
      ensures counters.gatedTotal == old(counters.gatedTotal) + GatedOff(c, old(values), key, sample)
      ensures forall id :: id in tracks && id != track.id ==> id in old(tracks) && tracks[id] == old(tracks)[id]
      ensures !isNew ==> track.id in old(tracks) && track == old(tracks)[track.id]
    {
      IndexTellsHolder(State(), key);
      IndexTellsGated(c, State(), key, sample);
      track, isNew := TrackFor(key, sample, now);
    }

    /** The rest of resolve, once the shard is pruned. */
    method ResolvePruned(key: Key, sample: Sample, now: real) returns (track: FusedTrack)
      requires Valid() && OffPoles(c, sample)
      modifies this`tracks, this`values, this`byObservation, this`grid, counters, tracks.Values, Filters()
      ensures Valid() && Keeps(track)
      ensures key in track.observations && track.observations[key] == Observation.Observation(sample, now)
      ensures Resolved(c, old(values), values, key, sample, now, track.id, old(counters.nextTrack), counters.nextTrack)
      ensures counters.mergesTotal == old(counters.mergesTotal) + Merged(old(values), key, track.id)
      ensures counters.gatedTotal == old(counters.gatedTotal) + GatedOff(c, old(values), key, sample)
      ensures forall id :: id in tracks && id != track.id ==> id in old(tracks) && tracks[id] == old(tracks)[id]
      ensures if track.id in old(tracks) then track == old(tracks)[track.id] else fresh(track) && fresh(track.filter)
    {
      ghost var s, issued := State(), counters.nextTrack;
      var isNew;
      track, isNew := FindTrack(key, sample, now);
      if isNew {
        NoteNew(track, key, sample, now, s, issued);
      } else {
        AbsorbAndNote(track, key, sample, now, s);
      }
    }

    method ReportTrack(track: FusedTrack, timestamp: real, now: real) returns (fused: FusedSample)
      requires Mirrored() && Keeps(track)
      ensures track.id in values && GoodEstimate(c, values[track.id].estimate) && fused.droneID == track.id
      ensures Reports(c, fused, track.id, values[track.id].estimate, timestamp)
      ensures Blends(track.observations, now - c.mergeWindow, fused.altitude, fused.confidence, fused.squawk)
    {
      assert Reflects(c, track, track.id, values[track.id]);
      fused := ReportOn(c, track.id, track.filter, track.observations, timestamp, now);
    }

    /** Altitude, confidence and squawk are those of the fresh observations, among which is this sample. */
    ghost predicate BlendsWith(fused: FusedSample, key: Key, sample: Sample, now: real)
      reads this`tracks, tracks.Values
    {
      && fused.droneID in tracks && key in tracks[fused.droneID].observations
      && tracks[fused.droneID].observations[key] == Observation.Observation(sample, now)
      && Blends(tracks[fused.droneID].observations, now - c.mergeWindow, fused.altitude, fused.confidence, fused.squawk)
    }

    /** What a sample has made of the tracks that pruning had left, and what is reported of it. */
    ghost predicate Answered(before: map<string, Track>, issued: nat, key: Key, sample: Sample, now: real,
                             fused: FusedSample)
      requires GoodConfig(c)
      reads this`tracks, this`values, tracks.Values, counters`nextTrack
    {
      && fused.droneID in values && GoodEstimate(c, values[fused.droneID].estimate)
      && Resolved(c, before, values, key, sample, now, fused.droneID, issued, counters.nextTrack)
      && Reports(c, fused, fused.droneID, values[fused.droneID].estimate, sample.timestamp)
      && BlendsWith(fused, key, sample, now)
    }

    method ResolveAndReport(key: Key, sample: Sample, now: real) returns (fused: FusedSample)
      requires Valid() && OffPoles(c, sample)
      modifies this`tracks, this`values, this`byObservation, this`grid, counters, tracks.Values, Filters()
      ensures Valid() && Answered(old(values), old(counters.nextTrack), key, sample, now, fused)
      ensures counters.mergesTotal == old(counters.mergesTotal) + Merged(old(values), key, fused.droneID)
      ensures counters.gatedTotal == old(counters.gatedTotal) + GatedOff(c, old(values), key, sample)
      ensures forall id :: id in tracks && id != fused.droneID ==> id in old(tracks) && tracks[id] == old(tracks)[id]
      ensures if fused.droneID in old(tracks) then tracks[fused.droneID] == old(tracks)[fused.droneID]
              else fresh(tracks[fused.droneID]) && fresh(tracks[fused.droneID].filter)
    {
      var track := ResolvePruned(key, sample, now);
      fused := ReportTrack(track, sample.timestamp, now);
    }

    method PruneFirst(now: real) returns (ghost left: map<string, Track>)
      requires Valid()
      modifies this`tracks, this`values, this`byObservation, this`grid, this`lastPrune
      ensures Valid() && values == left == old(Pruned(now))
      ensures FuserHistory.MayPrune(old(values), now, c.trackTTL, left)
      ensures tracks.Values <= old(tracks.Values) && Filters() <= old(Filters())
      ensures forall id :: id in tracks ==> id in old(tracks) && tracks[id] == old(tracks)[id]
    {
      Prune(now);
      left := values;
    }

    method PruneAndResolve(sample: Sample, now: real) returns (fused: FusedSample, ghost left: map<string, Track>)
      requires Valid() && OffPoles(c, sample)
      modifies this, counters, tracks.Values, Filters()
      ensures Valid() && left == old(Pruned(now)) && FuserHistory.MayPrune(old(values), now, c.trackTTL, left)
      ensures Answered(left, old(counters.nextTrack), Key(sample.stationID, sample.droneID), sample, now,
        fused)
      ensures counters.mergesTotal == old(counters.mergesTotal)
        + Merged(left, Key(sample.stationID, sample.droneID), fused.droneID)
      ensures counters.gatedTotal == old(counters.gatedTotal)
        + GatedOff(c, left, Key(sample.stationID, sample.droneID), sample)
      ensures forall id :: id in tracks && id != fused.droneID ==> id in old(tracks) && tracks[id] == old(tracks)[id]
      ensures if fused.droneID in left
              then fused.droneID in old(tracks) && tracks[fused.droneID] == old(tracks)[fused.droneID]
              else fresh(tracks[fused.droneID]) && fresh(tracks[fused.droneID].filter)
    {
      left := PruneFirst(now);
      fused := ResolveAndReport(Key(sample.stationID, sample.droneID), sample, now);
    }

    method Resolve(sample: Sample, now: real) returns (fused: FusedSample)
      requires Valid() && OffPoles(c, sample)
      modifies this, counters, tracks.Values, Filters()
      ensures Valid()
      ensures Answered(old(Pruned(now)), old(counters.nextTrack), Key(sample.stationID, sample.droneID), sample, now,
        fused)
      ensures counters.mergesTotal == old(counters.mergesTotal)
        + Merged(old(Pruned(now)), Key(sample.stationID, sample.droneID), fused.droneID)
      ensures counters.gatedTotal == old(counters.gatedTotal)
        + GatedOff(c, old(Pruned(now)), Key(sample.stationID, sample.droneID), sample)
      ensures counters.nextTrack + counters.mergesTotal == old(counters.nextTrack + counters.mergesTotal)
        + if exists id :: Held(old(Pruned(now)), Key(sample.stationID, sample.droneID), id) then 0 else 1
      ensures forall id :: id in tracks && id != fused.droneID ==> id in old(tracks) && tracks[id] == old(tracks)[id]
      ensures if fused.droneID in old(Pruned(now))
              then fused.droneID in old(tracks) && tracks[fused.droneID] == old(tracks)[fused.droneID]
              else fresh(tracks[fused.droneID]) && fresh(tracks[fused.droneID].filter)
      ensures Follows(old(values), old(counters.nextTrack), sample, now, fused)
      ensures forall id :: id in old(values) && now - old(values)[id].lastUpdate < c.trackTTL ==>
        && id in values
        && (Key(sample.stationID, sample.droneID) in old(values)[id].keys ==> fused.droneID == id)
      ensures fused.droneID !in old(Pruned(now)) ==>
        fused.latitude == sample.latitude && fused.longitude == sample.longitude && fused.speed == 0.0
      ensures c.mergeWindow >= 0.0 ==>
        fused.confidence >= sample.confidence && (sample.squawk != "" ==> fused.squawk != "")
    {
      ghost var s, issued, left := State(), counters.nextTrack, values;
      fused, left := PruneAndResolve(sample, now);
      FuserHistory.StartsOrMerges(c, left, values, Key(sample.stationID, sample.droneID), sample, now, fused.droneID,
                                  issued, counters.nextTrack);
      Concluded(s, left, issued, sample, now, fused);
    }

    /** The shard has gone through one more event. */
    ghost predicate Follows(before: map<string, Track>, issued: nat, sample: Sample, now: real, fused: FusedSample)
      requires GoodConfig(c)
      reads this`values, counters`nextTrack
    {
      FuserHistory.Follows(c, FuserHistory.Moment(before, issued),
        FuserHistory.Sampled(Key(sample.stationID, sample.droneID), sample, now, fused.droneID),
        FuserHistory.Moment(values, counters.nextTrack))
    }

    /** What the answer to a sample says about the tracks there were, and about the sample. */
    lemma Concluded(s: ShardState, left: map<string, Track>, issued: nat, sample: Sample, now: real, fused: FusedSample)
      requires GoodConfig(c) && Coherent(s) && OffPoles(c, sample)
      requires FuserHistory.MayPrune(s.tracks, now, c.trackTTL, left)
      requires Answered(left, issued, Key(sample.stationID, sample.droneID), sample, now, fused)
      ensures Follows(s.tracks, issued, sample, now, fused)
      ensures forall id :: id in s.tracks && now - s.tracks[id].lastUpdate < c.trackTTL ==>
        && id in values
        && (Key(sample.stationID, sample.droneID) in s.tracks[id].keys ==> fused.droneID == id)
      ensures fused.droneID !in left ==>
        fused.latitude == sample.latitude && fused.longitude == sample.longitude && fused.speed == 0.0
      ensures c.mergeWindow >= 0.0 ==>
        fused.confidence >= sample.confidence && (sample.squawk != "" ==> fused.squawk != "")
    {
      var key := Key(sample.stationID, sample.droneID);
      FuserHistory.AnswerFollows(c, s, left, values, key, sample, now, fused.droneID, issued, counters.nextTrack);
      NewestCounts(tracks[fused.droneID].observations, key, now, c.mergeWindow, fused.altitude, fused.confidence,
                   fused.squawk);
      if fused.droneID !in left {
        FuserHistory.StartsAtSample(c, left, values, key, sample, now, fused.droneID, issued, counters.nextTrack);
        AtRest(c.hypot);
      }
    }

    method Sweep(now: real)
      requires Valid()
      modifies this`tracks, this`values, this`byObservation, this`grid, this`lastPrune
      ensures Valid() && values == Live(old(values), now - c.trackTTL)
      ensures forall id :: id in values <==> id in old(values) && now - old(values)[id].lastUpdate < c.trackTTL
      ensures FuserHistory.Survivors(old(values), now, c.trackTTL, values)
      ensures forall id :: id in tracks ==> id in old(tracks) && tracks[id] == old(tracks)[id]
    {
      lastPrune := Ids.None;
      Prune(now);
    }
  }

  lemma IDIsFree(c: Config, s: ShardState, issued: nat)
    requires c.gateRadius > 0.0 && Inv(c, s, issued)
    ensures Ids.SequenceID(c.idPrefix, issued + 1) !in s.tracks
  {
    var id := Ids.SequenceID(c.idPrefix, issued + 1);
    Ids.NextIsFresh(c.idPrefix, issued);
    assert id in s.tracks ==> GoodTrack(c, id, s.tracks[id], issued);
  }
}
