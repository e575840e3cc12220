// A shard over time: which tracks a pruning leaves, and how long a local track of a station keeps
// its name.
module FuserHistory {
  import opened Plane
  import opened AxisFilter
  import opened Kalman
  import opened FuserState
  import Cluster
  import Ids

  // ---- Which tracks are pruned ----

  /** What is left is what has been updated within the TTL, unchanged. */
  ghost predicate Survivors(before: map<string, Track>, now: real, ttl: real, after: map<string, Track>) {
    && (forall id :: id in before && now - before[id].lastUpdate < ttl ==> id in after)
    && (forall id :: id in after ==> id in before && after[id] == before[id] && now - after[id].lastUpdate < ttl)
  }

  /** A pruning that may not have been due: at least what has been updated within the TTL is left. */
  ghost predicate MayPrune(before: map<string, Track>, now: real, ttl: real, after: map<string, Track>) {
    after == before || Survivors(before, now, ttl, after)
  }

  // ---- Histories ----

  datatype Event = Sampled(key: Key, sample: Sample, now: real, id: string) | Swept(now: real)

  /** The tracks, and how many track numbers have been handed out. */
  datatype Moment = Moment(tracks: map<string, Track>, issued: nat)

  ghost predicate Follows(c: Config, m: Moment, e: Event, m': Moment)
    requires GoodConfig(c)
  {
    match e
    case Sampled(key, sample, now, id) =>
      exists left :: MayPrune(m.tracks, now, c.trackTTL, left)
        && Resolved(c, left, m'.tracks, key, sample, now, id, m.issued, m'.issued)
    case Swept(now) => Survivors(m.tracks, now, c.trackTTL, m'.tracks) && m'.issued == m.issued
  }

  /** Any samples and sweeps, one after the other. */
  ghost predicate History(c: Config, moments: seq<Moment>, events: seq<Event>)
    requires GoodConfig(c)
  {
    && |moments| == |events| + 1
    && (forall k {:trigger events[k]} :: 0 <= k < |events| ==> Follows(c, moments[k], events[k], moments[k + 1]))
    && (forall j, k :: 0 <= j < k < |events| ==> events[j].now <= events[k].now)
    && OneHolder(moments[0].tracks)
  }

  /** No local track belongs to two tracks. */
  ghost predicate OneHolder(tracks: map<string, Track>) {
    forall key, i, j {:trigger Held(tracks, key, i), Held(tracks, key, j)} ::
      Held(tracks, key, i) && Held(tracks, key, j) ==> i == j
  }

  /** The shard's invariant says so. */
  lemma CoherentHasOneHolder(s: ShardState)
    requires Coherent(s)
    ensures OneHolder(s.tracks)
  {
    forall key, i, j | Held(s.tracks, key, i) && Held(s.tracks, key, j)
      ensures i == j
    {
      assert TrackCoherent(s, i) && TrackCoherent(s, j);
    }
  }

  lemma ResolvedHasOneHolder(c: Config, before: map<string, Track>, after: map<string, Track>, key: Key, sample: Sample,
                             now: real, id: string, issued: nat, issued': nat)
    requires GoodConfig(c) && OneHolder(before)
    requires Resolved(c, before, after, key, sample, now, id, issued, issued')
    ensures OneHolder(after) && Held(after, key, id) && after[id].lastUpdate == now
    ensures forall k, i :: Held(before, k, i) ==> Held(after, k, i)
    ensures forall i :: Held(before, key, i) ==> i == id
    ensures forall i :: i in before && i != id ==> i in after && after[i] == before[i]
  {
    forall k, i | Held(after, k, i)
      ensures Held(before, k, i) || (k == key && i == id)
    {
    }
    forall i | Held(before, key, i)
      ensures i == id
    {
      assert Held(before, key, id);
    }
    forall k, i, j | Held(after, k, i) && Held(after, k, j)
      ensures i == j
    {
      if k == key && (i == id || j == id) {
        assert !Held(before, key, i) || i == id;
        assert !Held(before, key, j) || j == id;
      } else {
        assert Held(before, k, i) && Held(before, k, j);
      }
    }
  }

  /** The key belongs to the track, and it has been updated at that time or later. */
  ghost predicate HeldSince(tracks: map<string, Track>, key: Key, id: string, since: real) {
    Held(tracks, key, id) && tracks[id].lastUpdate >= since
  }

  /** Until the TTL has passed, the key stays where it is, and a sample under it joins the same track. */
  lemma StepKeepsHolder(c: Config, m: Moment, e: Event, m': Moment, key: Key, id: string, since: real)
    requires GoodConfig(c) && Follows(c, m, e, m') && OneHolder(m.tracks)
    requires HeldSince(m.tracks, key, id, since) && since <= e.now && e.now - since < c.trackTTL
    ensures OneHolder(m'.tracks) && HeldSince(m'.tracks, key, id, since)
    ensures e.Sampled? && e.key == key ==> e.id == id
  {
    match e
    case Sampled(k, sample, now, i) =>
      var left :| MayPrune(m.tracks, now, c.trackTTL, left)
        && Resolved(c, left, m'.tracks, k, sample, now, i, m.issued, m'.issued);
      FewerHaveOneHolder(m.tracks, left);
      assert HeldSince(left, key, id, since);
      ResolvedHasOneHolder(c, left, m'.tracks, k, sample, now, i, m.issued, m'.issued);
    case Swept(now) =>
      FewerHaveOneHolder(m.tracks, m'.tracks);
  }

  lemma FewerHaveOneHolder(before: map<string, Track>, after: map<string, Track>)
    requires OneHolder(before) && forall id :: id in after ==> id in before && after[id] == before[id]
    ensures OneHolder(after)
  {
    forall key, i, j | Held(after, key, i) && Held(after, key, j)
      ensures i == j
    {
      assert Held(before, key, i) && Held(before, key, j);
    }
  }

  lemma StepHasOneHolder(c: Config, m: Moment, e: Event, m': Moment)
    requires GoodConfig(c) && Follows(c, m, e, m') && OneHolder(m.tracks)
    ensures OneHolder(m'.tracks)
    ensures e.Sampled? ==> HeldSince(m'.tracks, e.key, e.id, e.now)
  {
    match e
    case Sampled(k, sample, now, i) =>
      var left :| MayPrune(m.tracks, now, c.trackTTL, left)
        && Resolved(c, left, m'.tracks, k, sample, now, i, m.issued, m'.issued);
      FewerHaveOneHolder(m.tracks, left);
      ResolvedHasOneHolder(c, left, m'.tracks, k, sample, now, i, m.issued, m'.issued);
    case Swept(now) =>
      FewerHaveOneHolder(m.tracks, m'.tracks);
  }

  lemma {:induction false} AlwaysOneHolder(c: Config, moments: seq<Moment>, events: seq<Event>, n: nat)
    requires GoodConfig(c) && History(c, moments, events) && n <= |events|
    ensures OneHolder(moments[n].tracks)
  {
    if n > 0 {
      AlwaysOneHolder(c, moments, events, n - 1);
      assert Follows(c, moments[n - 1], events[n - 1], moments[n]);
      StepHasOneHolder(c, moments[n - 1], events[n - 1], moments[n]);
    }
  }

  lemma {:induction false} HeldUntil(c: Config, moments: seq<Moment>, events: seq<Event>, i: nat, n: nat)
    requires GoodConfig(c) && History(c, moments, events) && i < n <= |events| && events[i].Sampled?
    requires forall k :: i < k < n ==> events[k].now - events[i].now < c.trackTTL
    ensures OneHolder(moments[n].tracks) && HeldSince(moments[n].tracks, events[i].key, events[i].id, events[i].now)
  {
    if n == i + 1 {
      AlwaysOneHolder(c, moments, events, i);
      assert Follows(c, moments[i], events[i], moments[n]);
      StepHasOneHolder(c, moments[i], events[i], moments[n]);
    } else {
      HeldUntil(c, moments, events, i, n - 1);
      var e := events[n - 1];
      assert Follows(c, moments[n - 1], e, moments[n]);
      StepKeepsHolder(c, moments[n - 1], e, moments[n], events[i].key, events[i].id, events[i].now);
    }
  }

  /** Whatever other samples and sweeps come in between: two samples under one key less than a TTL apart
      are answered with the same track. */
  lemma NameIsKept(c: Config, moments: seq<Moment>, events: seq<Event>, i: nat, j: nat)
    requires GoodConfig(c) && History(c, moments, events) && i < j < |events|
    requires events[i].Sampled? && events[j].Sampled? && events[i].key == events[j].key
    requires events[j].now - events[i].now < c.trackTTL
    ensures events[j].id == events[i].id
  {
    forall k | i < k < j
      ensures events[k].now - events[i].now < c.trackTTL
    {
    }
    HeldUntil(c, moments, events, i, j);
    assert Follows(c, moments[j], events[j], moments[j + 1]);
    StepKeepsHolder(c, moments[j], events[j], moments[j + 1], events[i].key, events[i].id, events[i].now);
  }

  /** So a target that a station keeps reporting keeps its name for as long as it does. */
  lemma {:induction false} NameIsKeptThroughout(c: Config, moments: seq<Moment>, events: seq<Event>, at: seq<nat>)
    requires GoodConfig(c) && History(c, moments, events) && at != []
    requires forall k :: 0 <= k < |at| ==> at[k] < |events| && events[at[k]].Sampled?
    requires forall k :: 0 <= k < |at| - 1 ==> at[k] < at[k + 1] && events[at[k]].key == events[at[k + 1]].key
    requires forall k :: 0 <= k < |at| - 1 ==> events[at[k + 1]].now - events[at[k]].now < c.trackTTL
    ensures events[at[|at| - 1]].id == events[at[0]].id
  {
    if |at| > 1 {
      var before := at[..|at| - 1];
      assert forall k :: 0 <= k < |before| ==> before[k] == at[k];
      NameIsKeptThroughout(c, moments, events, before);
      NameIsKept(c, moments, events, at[|at| - 2], at[|at| - 1]);
    }
  }

  /** After a sweep nothing is left that has not been updated within the TTL: its keys start new tracks, or
      join others. */
  lemma SweepForgets(c: Config, m: Moment, now: real, m': Moment, id: string)
    requires GoodConfig(c) && Follows(c, m, Swept(now), m') && id in m.tracks
    ensures id in m'.tracks <==> now - m.tracks[id].lastUpdate < c.trackTTL
  {
  }

  // ---- What a sample finds ----

  /** The position is at most the gate radius away, in metres north and east. */
  ghost predicate WithinRadius(c: Config, p: Geo, sample: Sample) {
    c.hypot((sample.latitude - p.latitude) * 111320.0, (sample.longitude - p.longitude) * 111320.0 * c.cos(p.latitude))
      <= c.gateRadius
  }

  /** The squared residual of the sample is at most the gate times its variance. */
  ghost predicate WithinSpread(c: Config, e: Estimate, sample: Sample) {
    var x, y, z := PredictedX(c, e, sample.timestamp), PredictedY(c, e, sample.timestamp), Measured(c, e, sample);
    SquaredLength(z.x - x.pos, z.y - y.pos) <= c.gateChiSquared * (x.a + NoiseVar(c))
  }

  function SquaredLength(x: real, y: real): real {
    x * x + y * y
  }

  lemma DistanceWithin(x: Axis, y: Axis, zx: real, zy: real, r: real, bound: real)
    requires x.a + r > 0.0 && DistanceFrom(x, y, zx, zy, r) <= bound
    ensures SquaredLength(zx - x.pos, zy - y.pos) <= bound * (x.a + r)
  {
    FractionAtMost(SquaredLength(zx - x.pos, zy - y.pos), x.a + r, bound);
  }

  lemma GateIsRadius(c: Config, p: Geo, sample: Sample)
    requires GateDistance(c, p, sample) <= c.gateRadius
    ensures WithinRadius(c, p, sample)
  {
    var a, b := PointOf(p), Cluster.Point(sample.latitude, sample.longitude);
    assert Cluster.North(a, b) == (sample.latitude - p.latitude) * 111320.0;
    assert Cluster.East(a, b, c.cos(p.latitude)) == (sample.longitude - p.longitude) * 111320.0 * c.cos(p.latitude);
  }

  lemma GateIsSpread(c: Config, e: Estimate, sample: Sample, x: Axis, y: Axis, z: Local)
    requires GoodConfig(c) && GoodEstimate(c, e) && Distance(c, e, sample) <= c.gateChiSquared
    requires x == PredictedX(c, e, sample.timestamp) && y == PredictedY(c, e, sample.timestamp)
    requires z == Measured(c, e, sample) && x.a + NoiseVar(c) > 0.0
    ensures SquaredLength(z.x - x.pos, z.y - y.pos) <= c.gateChiSquared * (x.a + NoiseVar(c))
  {
    DistanceWithin(x, y, z.x, z.y, NoiseVar(c), c.gateChiSquared);
  }

  lemma OutsideGateIsOutsideSpread(c: Config, e: Estimate, sample: Sample, x: Axis, y: Axis, z: Local)
    requires GoodConfig(c) && GoodEstimate(c, e) && Distance(c, e, sample) > c.gateChiSquared
    requires x == PredictedX(c, e, sample.timestamp) && y == PredictedY(c, e, sample.timestamp)
    requires z == Measured(c, e, sample) && x.a + NoiseVar(c) > 0.0
    ensures SquaredLength(z.x - x.pos, z.y - y.pos) > c.gateChiSquared * (x.a + NoiseVar(c))
  {
    DistanceAbove(x, y, z.x, z.y, NoiseVar(c), c.gateChiSquared);
  }

  lemma DistanceAbove(x: Axis, y: Axis, zx: real, zy: real, r: real, bound: real)
    requires x.a + r > 0.0 && DistanceFrom(x, y, zx, zy, r) > bound
    ensures SquaredLength(zx - x.pos, zy - y.pos) > bound * (x.a + r)
  {
    FractionAbove(SquaredLength(zx - x.pos, zy - y.pos), x.a + r, bound);
  }

  lemma FractionAbove(n: real, d: real, bound: real)
    requires d > 0.0 && n / d > bound
    ensures n > bound * d
  {
    var q := n / d;
    assert q * d == n;
    ProductPositive(q - bound, d);
  }

  /** What is counted as gated: within the radius and unseen by the station, but outside the spread. */
  lemma GatedIsOutsideSpread(c: Config, tracks: map<string, Track>, seen: set<string>, station: string, sample: Sample,
                             id: string)
    requires GoodConfig(c) && id in GatedAmong(c, tracks, seen, station, sample)
    ensures id in tracks && GoodEstimate(c, tracks[id].estimate)
    ensures (forall k :: k in tracks[id].keys ==> k.station != station)
    ensures WithinRadius(c, Position(c, tracks[id].estimate), sample) && !WithinSpread(c, tracks[id].estimate, sample)
  {
    var e := tracks[id].estimate;
    GateIsRadius(c, Position(c, e), sample);
    PredictionGood(c, e, sample.timestamp);
    OutsideGateIsOutsideSpread(c, e, sample, PredictedX(c, e, sample.timestamp), PredictedY(c, e, sample.timestamp),
                               Measured(c, e, sample));
  }

  /** A sample that joins a track it did not belong to is inside both gates, and no candidate is nearer; and its
      station had not seen the track. */
  lemma JoinsWithinGates(c: Config, before: map<string, Track>, after: map<string, Track>, key: Key, sample: Sample,
                         now: real, id: string, issued: nat, issued': nat)
    requires GoodConfig(c) && Resolved(c, before, after, key, sample, now, id, issued, issued')
    requires id in before && forall i :: !Held(before, key, i)
    ensures GoodEstimate(c, before[id].estimate)
    ensures forall k :: k in before[id].keys ==> k.station != key.station
    ensures WithinRadius(c, Position(c, before[id].estimate), sample) && WithinSpread(c, before[id].estimate, sample)
    ensures forall i {:trigger Candidate(c, before, i, key.station, sample)} ::
      Candidate(c, before, i, key.station, sample) ==>
        Distance(c, before[id].estimate, sample) <= Distance(c, before[i].estimate, sample)
  {
    assert Candidate(c, before, id, key.station, sample);
    GateIsRadius(c, Position(c, before[id].estimate), sample);
    var e := before[id].estimate;
    PredictionGood(c, e, sample.timestamp);
    GateIsSpread(c, e, sample, PredictedX(c, e, sample.timestamp), PredictedY(c, e, sample.timestamp),
                 Measured(c, e, sample));
  }

  lemma FractionAtMost(n: real, d: real, bound: real)
    requires d > 0.0 && n / d <= bound
    ensures n <= bound * d
  {
    ProductMonotone(n / d, bound, d);
    assert n / d * d == n;
  }

  /** What becomes of a shard that prunes, or not, and then resolves a sample. */
  lemma AnswerFollows(c: Config, s: ShardState, left: map<string, Track>, after: map<string, Track>, key: Key,
                      sample: Sample, now: real, id: string, issued: nat, issued': nat)
    requires GoodConfig(c) && Coherent(s) && MayPrune(s.tracks, now, c.trackTTL, left)
    requires Resolved(c, left, after, key, sample, now, id, issued, issued')
    ensures Follows(c, Moment(s.tracks, issued), Sampled(key, sample, now, id), Moment(after, issued'))
    ensures forall i :: i in s.tracks && now - s.tracks[i].lastUpdate < c.trackTTL ==> i in after
    ensures forall i ::
      i in s.tracks && now - s.tracks[i].lastUpdate < c.trackTTL && key in s.tracks[i].keys ==> i == id
    ensures id in after && key in after[id].keys && after[id].lastUpdate == now
  {
    CoherentHasOneHolder(s);
    FewerHaveOneHolder(s.tracks, left);
    ResolvedHasOneHolder(c, left, after, key, sample, now, id, issued, issued');
    forall i | i in s.tracks && now - s.tracks[i].lastUpdate < c.trackTTL && key in s.tracks[i].keys
      ensures i == id
    {
      assert Held(left, key, i);
    }
  }

  /** Each sample under a key that no track has either starts a track or is merged into one. */
  lemma StartsOrMerges(c: Config, before: map<string, Track>, after: map<string, Track>, key: Key, sample: Sample,
                       now: real, id: string, issued: nat, issued': nat)
    requires GoodConfig(c) && Resolved(c, before, after, key, sample, now, id, issued, issued')
    ensures issued' - issued + Merged(before, key, id) == if exists i :: Held(before, key, i) then 0 else 1
  {
  }

  /** A sample that starts a track is where the track begins: at rest, with a spread of the measurement noise
      in its position and of 60 m/s in its velocity. */
  lemma StartsAtSample(c: Config, before: map<string, Track>, after: map<string, Track>, key: Key, sample: Sample,
                       now: real, id: string, issued: nat, issued': nat)
    requires GoodConfig(c) && Resolved(c, before, after, key, sample, now, id, issued, issued')
    requires id !in before && OffPoles(c, sample)
    ensures id in after && after[id].keys == {key} && after[id].lastUpdate == now
    ensures var e := after[id].estimate;
      && GoodEstimate(c, e) && Position(c, e) == Geo(sample.latitude, sample.longitude)
      && e.x.vel == 0.0 == e.y.vel && e.lastTimestamp == sample.timestamp
      && e.x.a == e.y.a == c.measurementNoise * c.measurementNoise && e.x.c == e.y.c == 60.0 * 60.0
      && e.x.b == 0.0 == e.y.b
  {
    FirstEstimateGood(c, sample);
  }
}
