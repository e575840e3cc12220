// What the report on a track takes from the stations: only what they have seen within the merge window.
module FuserReports {
  import opened Plane
  import opened Kalman
  import opened FuserState
  import opened Fuser
  import FilterMeaning

  /** Seen within the window. */
  predicate Recent(observations: map<Key, Observation>, now: real, window: real, k: Key) {
    k in observations && now - observations[k].seenAt <= window
  }

  lemma {:induction false} SameSum(observations: map<Key, Observation>, others: map<Key, Observation>, keys: set<Key>)
    requires keys <= observations.Keys && keys <= others.Keys
    requires forall k :: k in keys ==> observations[k] == others[k]
    ensures AltitudeSum(observations, keys) == AltitudeSum(others, keys)
    decreases |keys|
  {
    if keys != {} {
      var k :| k in keys;
      AltitudeSumWith(observations, keys, k);
      AltitudeSumWith(others, keys, k);
      SameSum(observations, others, keys - {k});
    }
  }

  /** Two tracks with the same recent observations are reported with the same altitude and confidence,
      whatever older ones they have; and either both with a squawk or both without. */
  lemma OnlyRecentCount(observations: map<Key, Observation>, others: map<Key, Observation>, now: real, window: real,
                        a: FusedSample, b: FusedSample)
    requires forall k :: Recent(observations, now, window, k) <==> Recent(others, now, window, k)
    requires forall k :: Recent(observations, now, window, k) ==> k in others && observations[k] == others[k]
    requires Blends(observations, now - window, a.altitude, a.confidence, a.squawk)
    requires Blends(others, now - window, b.altitude, b.confidence, b.squawk)
    ensures a.altitude == b.altitude && a.confidence == b.confidence && (a.squawk == "" <==> b.squawk == "")
  {
    var keys := Fresh(observations, now - window);
    forall k
      ensures k in keys <==> Recent(observations, now, window, k)
      ensures k in Fresh(others, now - window) <==> Recent(observations, now, window, k)
    {
      assert Recent(observations, now, window, k) <==> Recent(others, now, window, k);
    }
    assert keys == Fresh(others, now - window);
    SameSum(observations, others, keys);
    if keys != {} {
      SameMean(|keys| as real, AltitudeSum(observations, keys), a.altitude, b.altitude);
    }
    SameAgreement(observations, others, keys, a.confidence, a.squawk, b.confidence, b.squawk);
  }

  lemma SameAgreement(observations: map<Key, Observation>, others: map<Key, Observation>, keys: set<Key>,
                      confidence: real, squawk: string, confidence': real, squawk': string)
    requires keys <= observations.Keys && keys <= others.Keys
    requires forall k :: k in keys ==> observations[k] == others[k]
    requires Agreed(observations, keys, confidence, squawk) && Agreed(others, keys, confidence', squawk')
    ensures confidence == confidence' && (squawk == "" <==> squawk' == "")
  {
  }

  lemma {:induction false} SumBetween(observations: map<Key, Observation>, keys: set<Key>, low: real, high: real)
    requires keys <= observations.Keys
    requires forall k :: k in keys ==> low <= observations[k].sample.altitude <= high
    ensures SumWithin(|keys|, AltitudeSum(observations, keys), low, high)
    decreases |keys|
  {
    if keys != {} {
      var k :| k in keys;
      AltitudeSumWith(observations, keys, k);
      SumBetween(observations, keys - {k}, low, high);
      OneMoreWithin(|keys - {k}|, AltitudeSum(observations, keys - {k}), observations[k].sample.altitude, low, high);
    }
  }

  /** The reported altitude is among those that were recently seen; with one recent observation it is that. */
  lemma AltitudeBetween(observations: map<Key, Observation>, now: real, window: real, fused: FusedSample,
                        low: real, high: real)
    requires Blends(observations, now - window, fused.altitude, fused.confidence, fused.squawk)
    requires forall k :: Recent(observations, now, window, k) ==> low <= observations[k].sample.altitude <= high
    ensures (exists k :: Recent(observations, now, window, k)) ==> low <= fused.altitude <= high
    ensures (forall k :: !Recent(observations, now, window, k)) ==>
      fused.altitude == 0.0 == fused.confidence && fused.squawk == ""
  {
    var keys := Fresh(observations, now - window);
    forall k
      ensures k in keys <==> Recent(observations, now, window, k)
    {
    }
    SumBetween(observations, keys, low, high);
    if keys != {} {
      MeanWithin(|keys|, AltitudeSum(observations, keys), fused.altitude, low, high);
    } else {
      NobodyAgrees(observations, fused.confidence, fused.squawk);
    }
  }

  lemma NobodyAgrees(observations: map<Key, Observation>, confidence: real, squawk: string)
    requires Agreed(observations, {}, confidence, squawk)
    ensures confidence == 0.0 && squawk == ""
  {
  }

  // ---- Place, speed and quality ----

  /** A quality of at least n: the variances of both axes together are at most the square of 5 m for each point
      that is missing from 100. */
  lemma QualityMeans(c: Config, variance: real, n: int)
    requires IsRoot(c.root) && variance >= 0.0 && 1 <= n <= 100
    ensures QualityFromUncertainty(c.root(variance)) >= n <==>
      variance <= (5.0 * (100 - n) as real) * (5.0 * (100 - n) as real)
  {
    var u, bound := c.root(variance), 5.0 * (100 - n) as real;
    assert u >= 0.0 && u * u == variance;
    FilterMeaning.QualityAtLeastIff(u, n);
    SquareMonotone(u, bound);
  }

  /** What a report says about the estimate of its track: where it is, in metres from where the track began;
      how fast it moves; and how sure that is. */
  lemma ReportMeans(c: Config, fused: FusedSample, id: string, e: Estimate, timestamp: real, n: int)
    requires GoodConfig(c) && GoodEstimate(c, e) && Reports(c, fused, id, e, timestamp) && 1 <= n <= 100
    ensures (fused.latitude - e.originLatitude) * 111320.0 == e.y.pos
    ensures (fused.longitude - e.originLongitude) * (111320.0 * c.cos(e.originLatitude)) == e.x.pos
    ensures fused.speed >= 0.0 && fused.speed * fused.speed == e.x.vel * e.x.vel + e.y.vel * e.y.vel
    ensures fused.quality >= n <==> e.x.a + e.y.a <= (5.0 * (100 - n) as real) * (5.0 * (100 - n) as real)
    ensures fused.droneID == id && fused.timestamp == timestamp
  {
    assert HypotAt(c.hypot, e.x.vel, e.y.vel);
    QualityMeans(c, 2.0 * e.x.a, n);
    Scale(e.x.pos, 111320.0 * c.cos(e.originLatitude));
  }

  lemma Scale(x: real, k: real)
    requires k > 0.0
    ensures x / k * k == x
  {
  }
}
