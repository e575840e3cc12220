// Swarm identity over time: internal/geofence/swarm.go.
module Swarm {
  import opened Plane
  import opened Graph
  import opened Cluster
  import Ids
  import opened Sets

  // ---- Which swarm a cluster continues ----

  function Names(names: seq<string>): set<string> {
    set n | n in names
  }

  /** The old swarm o is still to be had. */
  predicate Unclaimed(old_: map<string, set<string>>, taken: set<string>, o: string) {
    o in old_ && o !in taken
  }

  /** A cluster takes the name of an old swarm it overlaps most, among those nobody has taken before
      it; it takes a new name only if it overlaps none of them. */
  ghost predicate Claims(old_: map<string, set<string>>, taken: set<string>, group: set<string>, name: string) {
    if name in old_ then
      && Unclaimed(old_, taken, name) && |group * old_[name]| > 0
      && forall o {:trigger Unclaimed(old_, taken, o)} :: Unclaimed(old_, taken, o) ==>
        |group * old_[o]| <= |group * old_[name]|
    else forall o {:trigger Unclaimed(old_, taken, o)} :: Unclaimed(old_, taken, o) ==> |group * old_[o]| == 0
  }

  ghost predicate Assignment(old_: map<string, set<string>>, groups: seq<set<string>>, names: seq<string>) {
    && |groups| == |names|
    && forall k :: 0 <= k < |names| ==> Claims(old_, Names(names[..k]), groups[k], names[k])
  }

  /** A cluster that overlaps just one old swarm, which overlaps no other cluster, continues it. */
  lemma IdentityIsStable(old_: map<string, set<string>>, groups: seq<set<string>>, names: seq<string>, k: nat,
                         o: string)
    requires Assignment(old_, groups, names) && k < |groups| && o in old_
    requires |groups[k] * old_[o]| > 0
    requires forall p :: p in old_ && p != o ==> |groups[k] * old_[p]| == 0
    requires forall j :: 0 <= j < |groups| && j != k ==> |groups[j] * old_[o]| == 0
    ensures names[k] == o
  {
    assert Claims(old_, Names(names[..k]), groups[k], names[k]);
    forall j | 0 <= j < k
      ensures names[j] != o
    {
      assert Claims(old_, Names(names[..j]), groups[j], names[j]);
    }
    assert Unclaimed(old_, Names(names[..k]), o);
  }

  /** An old swarm goes only if every cluster that shares a member with it continues another one
      that it shares at least as many with. */
  lemma DissolvedOnlyWhenOutbid(old_: map<string, set<string>>, groups: seq<set<string>>, names: seq<string>, k: nat,
                                o: string)
    requires Assignment(old_, groups, names) && k < |groups| && o in old_ && o !in names
    requires |groups[k] * old_[o]| > 0
    ensures names[k] in old_ && |groups[k] * old_[names[k]]| >= |groups[k] * old_[o]|
  {
    assert Unclaimed(old_, Names(names[..k]), o);
    assert Claims(old_, Names(names[..k]), groups[k], names[k]);
  }

  // ---- The members of a cluster ----

  datatype Tracked = Tracked(latitude: real, longitude: real, seenAt: real)

  function PointsOf(ids: seq<string>, positions: map<string, Tracked>): (points: seq<Point>)
    requires forall id :: id in ids ==> id in positions
    ensures |points| == |ids| && forall i :: 0 <= i < |ids| ==>
      points[i] == Point(positions[ids[i]].latitude, positions[ids[i]].longitude)
  {
    seq(|ids|, i requires 0 <= i < |ids| =>
      assert ids[i] in ids;
      Point(positions[ids[i]].latitude, positions[ids[i]].longitude))
  }

  /** The positions that are not older than the cutoff. */
  function Unexpired(positions: map<string, Tracked>, cutoff: real): map<string, Tracked> {
    map id | id in positions && positions[id].seenAt >= cutoff :: positions[id]
  }

  function Group(ids: seq<string>, cluster: seq<nat>): set<string>
    requires forall i :: i in cluster ==> i < |ids|
  {
    set i | i in cluster :: ids[i]
  }

  ghost predicate Enumerates(ids: seq<string>, keys: set<string>) {
    && (forall i, j :: 0 <= i < j < |ids| ==> ids[i] != ids[j])
    && (forall id :: id in ids <==> id in keys)
  }

  lemma GroupsDisjoint(ids: seq<string>, keys: set<string>, c: seq<nat>, d: seq<nat>)
    requires Enumerates(ids, keys) && Elements(c) !! Elements(d)
    requires forall i :: i in c ==> i < |ids|
    requires forall i :: i in d ==> i < |ids|
    ensures Group(ids, c) !! Group(ids, d)
  {
    forall i, j | i in c && j in d
      ensures ids[i] != ids[j]
    {
      assert i in Elements(c) && j in Elements(d);
    }
  }

  lemma {:induction false} GroupSize(ids: seq<string>, keys: set<string>, c: seq<nat>)
    requires Enumerates(ids, keys) && Ascending(c) && forall i :: i in c ==> i < |ids|
    ensures |Group(ids, c)| == |c|
  {
    if c != [] {
      var last, rest := c[|c| - 1], c[..|c| - 1];
      assert c == rest + [last] && last in c;
      assert forall i :: i in rest ==> i in c;
      GroupSize(ids, keys, rest);
      GroupGrows(ids, rest, last);
    }
  }

  lemma GroupGrows(ids: seq<string>, rest: seq<nat>, last: nat)
    requires (forall i, j :: 0 <= i < j < |ids| ==> ids[i] != ids[j]) && Ascending(rest + [last])
    requires last < |ids| && forall i :: i in rest ==> i < |ids|
    ensures |Group(ids, rest + [last])| == |Group(ids, rest)| + 1
  {
    AddedToGroup(ids, rest, last);
  }

  lemma AddedToGroup(ids: seq<string>, rest: seq<nat>, last: nat)
    requires (forall i, j :: 0 <= i < j < |ids| ==> ids[i] != ids[j]) && Ascending(rest + [last])
    requires last < |ids| && forall i :: i in rest ==> i < |ids|
    ensures Group(ids, rest + [last]) == Group(ids, rest) + {ids[last]} && ids[last] !in Group(ids, rest)
  {
    forall i | i in rest
      ensures i < last
    {
      var k :| 0 <= k < |rest| && rest[k] == i;
      assert (rest + [last])[k] < (rest + [last])[|rest|];
    }
  }

  function Sum(points: seq<Point>, cluster: seq<nat>, n: nat): Point
    requires n <= |cluster| && forall i :: i in cluster ==> i < |points|
  {
    if n == 0 then Point(0.0, 0.0)
    else
      assert cluster[n - 1] in cluster;
      var rest, p := Sum(points, cluster, n - 1), points[cluster[n - 1]];
      Point(rest.latitude + p.latitude, rest.longitude + p.longitude)
  }

  function Centroid(points: seq<Point>, cluster: seq<nat>): Point
    requires cluster != [] && forall i :: i in cluster ==> i < |points|
  {
    var total := Sum(points, cluster, |cluster|);
    Point(total.latitude / |cluster| as real, total.longitude / |cluster| as real)
  }

  // ---- Where a swarm is ----

  /** The sum of the values at these keys. */
  ghost function Total(at: map<string, real>, keys: set<string>): real
    requires keys <= at.Keys
  {
    if keys == {} then 0.0
    else
      var k :| k in keys;
      at[k] + Total(at, keys - {k})
  }

  /** In whatever order they are added. */
  lemma {:induction false} TotalWith(at: map<string, real>, keys: set<string>, k: string)
    requires keys <= at.Keys && k in keys
    ensures Total(at, keys) == at[k] + Total(at, keys - {k})
    decreases |keys|
  {
    var j :| j in keys && Total(at, keys) == at[j] + Total(at, keys - {j});
    if j != k {
      TotalWith(at, keys - {j}, k);
      TotalWith(at, keys - {k}, j);
      assert keys - {j} - {k} == keys - {k} - {j};
    }
  }

  lemma {:induction false} TotalBetween(at: map<string, real>, keys: set<string>, low: real, high: real)
    requires keys <= at.Keys && forall k :: k in keys ==> low <= at[k] <= high
    ensures SumWithin(|keys|, Total(at, keys), low, high)
    decreases |keys|
  {
    if keys != {} {
      var k :| k in keys;
      TotalWith(at, keys, k);
      TotalBetween(at, keys - {k}, low, high);
      OneMoreWithin(|keys - {k}|, Total(at, keys - {k}), at[k], low, high);
    }
  }

  function Latitudes(positions: map<string, Tracked>): map<string, real> {
    map id | id in positions :: positions[id].latitude
  }

  function Longitudes(positions: map<string, Tracked>): map<string, real> {
    map id | id in positions :: positions[id].longitude
  }

  /** The point is the mean of the members' positions. */
  ghost predicate CentredOn(positions: map<string, Tracked>, members: set<string>, p: Point) {
    && members != {} && members <= positions.Keys
    && p.latitude * |members| as real == Total(Latitudes(positions), members)
    && p.longitude * |members| as real == Total(Longitudes(positions), members)
  }

  /** A mean lies where the members are: in every box that holds all of them. */
  lemma CentreIsAmongMembers(positions: map<string, Tracked>, members: set<string>, p: Point, low: Point, high: Point)
    requires CentredOn(positions, members, p)
    requires forall id :: id in members ==>
      && low.latitude <= positions[id].latitude <= high.latitude
      && low.longitude <= positions[id].longitude <= high.longitude
    ensures low.latitude <= p.latitude <= high.latitude && low.longitude <= p.longitude <= high.longitude
  {
    TotalBetween(Latitudes(positions), members, low.latitude, high.latitude);
    TotalBetween(Longitudes(positions), members, low.longitude, high.longitude);
    MeanWithin(|members|, Total(Latitudes(positions), members), p.latitude, low.latitude, high.latitude);
    MeanWithin(|members|, Total(Longitudes(positions), members), p.longitude, low.longitude, high.longitude);
  }

  /** p is the sum of the positions of the group. */
  ghost predicate AddsUp(positions: map<string, Tracked>, group: set<string>, p: Point) {
    && group <= positions.Keys
    && p.latitude == Total(Latitudes(positions), group) && p.longitude == Total(Longitudes(positions), group)
  }

  lemma AddsUpNext(positions: map<string, Tracked>, group: set<string>, p: Point, id: string, p': Point)
    requires AddsUp(positions, group, p) && id in positions && id !in group
    requires p' == Point(p.latitude + positions[id].latitude, p.longitude + positions[id].longitude)
    ensures AddsUp(positions, group + {id}, p')
  {
    assert group + {id} - {id} == group;
    TotalWith(Latitudes(positions), group + {id}, id);
    TotalWith(Longitudes(positions), group + {id}, id);
  }

  /** The loop over a cluster adds up the positions of its members, each once. */
  lemma {:induction false} SumAddsUp(positions: map<string, Tracked>, ids: seq<string>, points: seq<Point>,
                                     cluster: seq<nat>, n: nat, done: seq<nat>)
    requires Enumerates(ids, positions.Keys) && (forall id :: id in ids ==> id in positions)
    requires points == PointsOf(ids, positions)
    requires Ascending(cluster) && (forall i :: i in cluster ==> i < |ids|) && n <= |cluster| && done == cluster[..n]
    ensures (forall i :: i in done ==> i < |ids|) && AddsUp(positions, Group(ids, done), Sum(points, cluster, n))
  {
    forall i | i in done
      ensures i < |ids|
    {
      assert i in cluster;
    }
    if n == 0 {
      assert Group(ids, done) == {};
    } else {
      var rest, last := cluster[..n - 1], cluster[n - 1];
      assert done == rest + [last] && last in cluster;
      SumAddsUp(positions, ids, points, cluster, n - 1, rest);
      AddedToGroup(ids, rest, last);
      AddsUpNext(positions, Group(ids, rest), Sum(points, cluster, n - 1), ids[last], Sum(points, cluster, n));
    }
  }

  lemma MeanOf(positions: map<string, Tracked>, members: set<string>, total: Point, n: nat, p: Point)
    requires AddsUp(positions, members, total) && n == |members| > 0
    requires p == Point(total.latitude / n as real, total.longitude / n as real)
    ensures CentredOn(positions, members, p)
  {
    assert total.latitude / n as real * n as real == total.latitude;
    assert total.longitude / n as real * n as real == total.longitude;
  }

  lemma CentroidIsMean(positions: map<string, Tracked>, ids: seq<string>, points: seq<Point>, cluster: seq<nat>)
    requires Enumerates(ids, positions.Keys) && (forall id :: id in ids ==> id in positions)
    requires points == PointsOf(ids, positions)
    requires cluster != [] && Ascending(cluster) && forall i :: i in cluster ==> i < |ids|
    ensures CentredOn(positions, Group(ids, cluster), Centroid(points, cluster))
  {
    assert cluster[..|cluster|] == cluster;
    SumAddsUp(positions, ids, points, cluster, |cluster|, cluster);
    GroupSize(ids, positions.Keys, cluster);
    MeanOf(positions, Group(ids, cluster), Sum(points, cluster, |cluster|), |cluster|, Centroid(points, cluster));
  }

  // ---- Swarms and evaluations ----

  datatype Swarm = Swarm(id: string, members: set<string>, centroid: Point, detectedAt: real)

  class SwarmState {
    const id: string
    const detectedAt: real
    var members: set<string>
    var centroid: Point

    ghost function Value(): Swarm
      reads this
    {
      Swarm(id, members, centroid, detectedAt)
    }

    constructor (id: string, detectedAt: real)
      ensures this.id == id && this.detectedAt == detectedAt
    {
      this.id, this.detectedAt := id, detectedAt;
      members, centroid := {}, Point(0.0, 0.0);
    }
  }

  ghost predicate GoodSwarm(v: Swarm, id: string, minSize: int, issued: int) {
    v.id == id && |v.members| >= minSize && Ids.Issued("swarm", id, issued)
  }

  ghost predicate GoodSwarms(swarms: map<string, Swarm>, minSize: int, issued: int) {
    forall id {:trigger GoodSwarm(swarms[id], id, minSize, issued)} :: id in swarms ==>
      GoodSwarm(swarms[id], id, minSize, issued)
  }

  ghost predicate Foreign(swarms: map<string, Swarm>, i: string, j: string)
    requires i in swarms && j in swarms
  {
    swarms[i].members !! swarms[j].members
  }

  /** The swarms of one moment, with the counters: what holds at every moment. */
  ghost predicate Inv(swarms: map<string, Swarm>, minSize: int, nextSwarm: int, detectedTotal: int,
                      dissolvedTotal: int) {
    && GoodSwarms(swarms, minSize, nextSwarm)
    && (forall i, j {:trigger Foreign(swarms, i, j)} :: i in swarms && j in swarms && i != j ==> Foreign(swarms, i, j))
    && detectedTotal == nextSwarm >= 0 && detectedTotal == |swarms| + dissolvedTotal
  }

  function MembersOf(swarms: map<string, Swarm>): map<string, set<string>> {
    map id | id in swarms :: swarms[id].members
  }

  predicate NextNameFree(before: map<string, Swarm>, after: map<string, Swarm>, last: int) {
    Ids.SequenceID("swarm", last + 1) !in before && Ids.SequenceID("swarm", last + 1) !in after
  }

  /** What one evaluation starts from. */
  datatype Evaluation = Evaluation(before: map<string, Swarm>, ids: seq<string>, points: seq<Point>,
    clusters: seq<seq<nat>>,
                                   now: real, first: int)

  ghost predicate GoodEvaluation(e: Evaluation) {
    && |e.points| == |e.ids|
    && forall k {:trigger WithinIds(e, k)} :: 0 <= k < |e.clusters| ==> WithinIds(e, k)
  }

  ghost predicate WithinIds(e: Evaluation, k: nat)
    requires k < |e.clusters|
  {
    e.clusters[k] != [] && forall i :: i in e.clusters[k] ==> i < |e.ids|
  }

  /** Cluster k is large enough, and lists its elements once. */
  ghost predicate GoodCluster(e: Evaluation, minSize: int, k: nat)
    requires k < |e.clusters|
  {
    WithinIds(e, k) && Ascending(e.clusters[k]) && |e.clusters[k]| >= minSize
  }

  ghost predicate Apart(e: Evaluation, a: nat, b: nat)
    requires a < |e.clusters| && b < |e.clusters|
  {
    Elements(e.clusters[a]) !! Elements(e.clusters[b])
  }

  ghost predicate GoodClusters(e: Evaluation, minSize: int) {
    && (forall k {:trigger GoodCluster(e, minSize, k)} :: 0 <= k < |e.clusters| ==> GoodCluster(e, minSize, k))
    && (forall a, b {:trigger Apart(e, a, b)} :: 0 <= a < |e.clusters| && 0 <= b < |e.clusters| && a != b ==>
      Apart(e, a, b))
  }

  lemma ComponentsAreGood(e: Evaluation, links: set<Link>, minSize: int)
    requires IsComponents(e.clusters, links, |e.ids|, minSize)
    ensures GoodClusters(e, minSize)
    ensures |e.points| == |e.ids| ==> GoodEvaluation(e)
  {
    forall k | 0 <= k < |e.clusters|
      ensures GoodCluster(e, minSize, k)
    {
      forall i | i in e.clusters[k]
        ensures i < |e.ids|
      {
        assert Elements(e.clusters[k]) == Component(links, |e.ids|, i);
      }
    }
    forall k | 0 <= k < |e.clusters|
      ensures WithinIds(e, k)
    {
      assert GoodCluster(e, minSize, k);
    }
    forall a, b | 0 <= a < |e.clusters| && 0 <= b < |e.clusters| && a != b
      ensures Apart(e, a, b)
    {
      if a > b { assert Elements(e.clusters[b]) !! Elements(e.clusters[a]); }
    }
  }

  /** How a swarm came by its name and its date; last numbers have been handed out by then. */
  ghost predicate Continues(e: Evaluation, v: Swarm, last: int) {
    if v.id in e.before then v.detectedAt == e.before[v.id].detectedAt
    else v.detectedAt == e.now && exists n: nat :: e.first < n <= last && v.id == Ids.SequenceID("swarm", n)
  }

  /** The swarm v is cluster k. */
  ghost predicate FromCluster(e: Evaluation, k: nat, v: Swarm, last: int)
    requires |e.points| == |e.ids| && k < |e.clusters| && WithinIds(e, k)
  {
    && v.members == Group(e.ids, e.clusters[k]) && v.centroid == Centroid(e.points, e.clusters[k])
    && Continues(e, v, last)
  }

  ghost predicate ClaimsFor(e: Evaluation, taken: set<string>, k: nat, name: string)
    requires k < |e.clusters| && WithinIds(e, k)
  {
    Claims(MembersOf(e.before), taken, Group(e.ids, e.clusters[k]), name)
  }

  /** names[k] is the name of cluster k, chosen when the names before it were taken. */
  ghost predicate Placed(e: Evaluation, names: seq<string>, after: map<string, Swarm>, last: int, k: nat)
    requires GoodEvaluation(e) && k < |names| <= |e.clusters|
  {
    && WithinIds(e, k) && ClaimsFor(e, Names(names[..k]), k, names[k]) && names[k] !in Names(names[..k])
    && names[k] in after && after[names[k]].id == names[k] && FromCluster(e, k, after[names[k]], last)
  }

  /** After the first |names| clusters. */
  ghost predicate Evaluated(e: Evaluation, names: seq<string>, after: map<string, Swarm>, last: int)
    requires GoodEvaluation(e)
  {
    && |names| <= |e.clusters| && after.Keys == Names(names)
    && (forall k {:trigger Placed(e, names, after, last, k)} :: 0 <= k < |names| ==> Placed(e, names, after, last, k))
    && e.first <= last && last - e.first == |after.Keys - e.before.Keys|
  }

  /** The next cluster gets its swarm v. */
  ghost predicate NextSwarm(e: Evaluation, k: nat, after: map<string, Swarm>, last: int, v: Swarm, last': int)
    requires |e.points| == |e.ids| && k < |e.clusters| && WithinIds(e, k)
  {
    && ClaimsFor(e, after.Keys, k, v.id) && FromCluster(e, k, v, last') && v.id !in after
    && last' == if v.id in e.before then last else last + 1
  }

  lemma IsNext(e: Evaluation, k: nat, after: map<string, Swarm>, last: int, v: Swarm, last': int)
    requires |e.points| == |e.ids| && k < |e.clusters| && WithinIds(e, k) && v.id !in after
    requires Claims(MembersOf(e.before), after.Keys, v.members, v.id)
    requires v.members == Group(e.ids, e.clusters[k]) && v.centroid == Centroid(e.points, e.clusters[k])
    requires if v.id in e.before then v.detectedAt == e.before[v.id].detectedAt && last' == last
             else v.detectedAt == e.now && 0 <= e.first <= last && last' == last + 1
                  && v.id == Ids.SequenceID("swarm", last')
    ensures NextSwarm(e, k, after, last, v, last')
  {
  }

  lemma PlacedStill(e: Evaluation, names: seq<string>, after: map<string, Swarm>, last: int, v: Swarm, last': int,
                    j: nat)
    requires GoodEvaluation(e) && j < |names| < |e.clusters| && Placed(e, names, after, last, j) && last <= last'
      && v.id !in after
    ensures Placed(e, names + [v.id], after[v.id := v], last', j)
  {
    assert (names + [v.id])[..j] == names[..j];
  }

  lemma EvaluatedStep(e: Evaluation, names: seq<string>, after: map<string, Swarm>, last: nat, v: Swarm, last': int)
    requires GoodEvaluation(e) && Evaluated(e, names, after, last) && |names| < |e.clusters| && WithinIds(e, |names|)
    requires NextSwarm(e, |names|, after, last, v, last')
    ensures Evaluated(e, names + [v.id], after[v.id := v], last')
  {
    var names', after' := names + [v.id], after[v.id := v];
    assert after'.Keys == after.Keys + {v.id} == Names(names');
    Sets.GainByOne(after.Keys, e.before.Keys, v.id);
    forall j | 0 <= j < |names'|
      ensures Placed(e, names', after', last', j)
    {
      if j < |names| {
        assert Placed(e, names, after, last, j);
        PlacedStill(e, names, after, last, v, last', j);
      } else {
        assert names'[..j] == names;
      }
    }
  }

  lemma NewNameIsNew(e: Evaluation, names: seq<string>, after: map<string, Swarm>, last: nat, minSize: int)
    requires GoodEvaluation(e) && Evaluated(e, names, after, last) && GoodSwarms(e.before, minSize, e.first)
      && e.first >= 0
    ensures NextNameFree(e.before, after, last)
  {
    var next := Ids.SequenceID("swarm", last + 1);
    Ids.NextIsFresh("swarm", last);
    assert next in e.before ==> GoodSwarm(e.before[next], next, minSize, e.first);
    forall k | 0 <= k < |names|
      ensures names[k] != next
    {
      assert Placed(e, names, after, last, k);
      NameWasIssued(e, after[names[k]], last, minSize);
    }
  }

  lemma NextIsEvaluated(e: Evaluation, names: seq<string>, after: map<string, Swarm>, last: nat, v: Swarm, last': nat,
                        minSize: int)
    returns (names': seq<string>, after': map<string, Swarm>)
    requires GoodSwarms(e.before, minSize, e.first) && e.first >= 0
    requires GoodEvaluation(e) && Evaluated(e, names, after, last) && |names| < |e.clusters| && WithinIds(e, |names|)
    requires Claims(MembersOf(e.before), after.Keys, v.members, v.id) && v.id !in after
    requires v.members == Group(e.ids, e.clusters[|names|]) && v.centroid == Centroid(e.points, e.clusters[|names|])
    requires if v.id in e.before then v.detectedAt == e.before[v.id].detectedAt && last' == last
             else v.detectedAt == e.now && last' == last + 1 && v.id == Ids.SequenceID("swarm", last')
    ensures |names'| == |names| + 1 && after' == after[v.id := v] && Evaluated(e, names', after', last')
    ensures NextNameFree(e.before, after', last')
  {
    names', after' := names + [v.id], after[v.id := v];
    IsNext(e, |names|, after, last, v, last');
    EvaluatedStep(e, names, after, last, v, last');
    NewNameIsNew(e, names', after', last', minSize);
  }

  lemma EvaluationStarts(e: Evaluation, minSize: int)
    requires GoodEvaluation(e) && GoodSwarms(e.before, minSize, e.first) && e.first >= 0
    ensures Evaluated(e, [], map[], e.first) && NextNameFree(e.before, map[], e.first)
  {
    var nothing: map<string, Swarm> := map[];
    assert nothing.Keys - e.before.Keys == {};
    NewNameIsNew(e, [], nothing, e.first, minSize);
  }

  lemma NameWasIssued(e: Evaluation, v: Swarm, last: int, minSize: int)
    requires Continues(e, v, last) && GoodSwarms(e.before, minSize, e.first) && 0 <= e.first <= last
    ensures Ids.Issued("swarm", v.id, last)
  {
    if v.id in e.before {
      assert GoodSwarm(e.before[v.id], v.id, minSize, e.first);
      var n: nat :| 1 <= n <= e.first && v.id == Ids.SequenceID("swarm", n);
    } else {
      var n: nat :| e.first < n <= last && v.id == Ids.SequenceID("swarm", n);
    }
  }

  lemma EvaluatedSizes(e: Evaluation, names: seq<string>, after: map<string, Swarm>, last: int, keys: set<string>,
                       minSize: int, k: nat)
    requires GoodEvaluation(e) && Evaluated(e, names, after, last) && Enumerates(e.ids, keys)
    requires GoodClusters(e, minSize) && GoodSwarms(e.before, minSize, e.first) && e.first >= 0
    requires k < |names|
    ensures names[k] in after && GoodSwarm(after[names[k]], names[k], minSize, last)
  {
    assert Placed(e, names, after, last, k) && GoodCluster(e, minSize, k);
    GroupSize(e.ids, keys, e.clusters[k]);
    NameWasIssued(e, after[names[k]], last, minSize);
  }

  lemma EvaluatedDisjoint(e: Evaluation, names: seq<string>, after: map<string, Swarm>, last: int, keys: set<string>,
                          minSize: int, a: nat, b: nat)
    requires GoodEvaluation(e) && Evaluated(e, names, after, last) && Enumerates(e.ids, keys)
      && GoodClusters(e, minSize)
    requires a < |names| && b < |names| && a != b
    ensures names[a] in after && names[b] in after && after[names[a]].members !! after[names[b]].members
  {
    assert Placed(e, names, after, last, a) && Placed(e, names, after, last, b) && Apart(e, a, b);
    GroupsDisjoint(e.ids, keys, e.clusters[a], e.clusters[b]);
  }

  lemma EvaluationKeepsInv(e: Evaluation, names: seq<string>, after: map<string, Swarm>, last: int, keys: set<string>,
                           minSize: int, detected: int, dissolved: int, dissolved': int)
    requires detected == last && dissolved' == dissolved + |e.before.Keys - after.Keys|
    requires GoodEvaluation(e) && Evaluated(e, names, after, last) && Enumerates(e.ids, keys)
      && GoodClusters(e, minSize)
    requires Inv(e.before, minSize, e.first, e.first, dissolved)
    ensures Inv(after, minSize, last, detected, dissolved')
  {
    forall id | id in after
      ensures GoodSwarm(after[id], id, minSize, last)
    {
      var k :| 0 <= k < |names| && names[k] == id;
      EvaluatedSizes(e, names, after, last, keys, minSize, k);
    }
    forall i, j | i in after && j in after && i != j
      ensures Foreign(after, i, j)
    {
      var a :| 0 <= a < |names| && names[a] == i;
      var b :| 0 <= b < |names| && names[b] == j;
      EvaluatedDisjoint(e, names, after, last, keys, minSize, a, b);
    }
    Sets.SizesAddUp(e.before.Keys, after.Keys);
  }

  /** One swarm for each cluster. */
  lemma NamesAreDistinct(e: Evaluation, names: seq<string>, after: map<string, Swarm>, last: int, j: nat, k: nat)
    requires GoodEvaluation(e) && Evaluated(e, names, after, last) && j < k < |names|
    ensures names[j] != names[k]
  {
    assert Placed(e, names, after, last, k);
    assert names[..k][j] == names[j];
  }

  /** The clusters as sets of tracked names. */
  function Groups(e: Evaluation): (groups: seq<set<string>>)
    requires GoodEvaluation(e)
    ensures |groups| == |e.clusters|
    ensures forall k {:trigger WithinIds(e, k)} :: 0 <= k < |groups| && WithinIds(e, k) ==>
      groups[k] == Group(e.ids, e.clusters[k])
  {
    seq(|e.clusters|, k requires 0 <= k < |e.clusters| =>
      assert WithinIds(e, k);
      Group(e.ids, e.clusters[k]))
  }

  /** The names follow the rule of Assignment. */
  lemma EvaluatedAssigns(e: Evaluation, names: seq<string>, after: map<string, Swarm>, last: int)
    requires GoodEvaluation(e) && Evaluated(e, names, after, last) && |names| == |e.clusters|
    ensures Assignment(MembersOf(e.before), Groups(e), names)
  {
    forall k | 0 <= k < |names|
      ensures Claims(MembersOf(e.before), Names(names[..k]), Groups(e)[k], names[k])
    {
      assert Placed(e, names, after, last, k) && WithinIds(e, k);
    }
  }

  /** What is reported of a swarm: enough members, all of them tracked, where they are on average, and since
      when it has been one. */
  ghost predicate Reported(positions: map<string, Tracked>, before: map<string, Swarm>, now: real, minSize: int,
                           v: Swarm) {
    && |v.members| >= minSize && CentredOn(positions, v.members, v.centroid)
    && (v.id in before ==> v.detectedAt == before[v.id].detectedAt)
    && (v.id !in before ==> v.detectedAt == now)
  }

  lemma EvaluatedIsReported(e: Evaluation, names: seq<string>, after: map<string, Swarm>, last: int,
                            positions: map<string, Tracked>, minSize: int, id: string)
    requires GoodEvaluation(e) && Evaluated(e, names, after, last) && GoodClusters(e, minSize) && id in after
    requires Enumerates(e.ids, positions.Keys) && (forall d :: d in e.ids ==> d in positions)
    requires e.points == PointsOf(e.ids, positions)
    ensures after[id].id == id && Reported(positions, e.before, e.now, minSize, after[id])
  {
    var k :| 0 <= k < |names| && names[k] == id;
    assert Placed(e, names, after, last, k) && GoodCluster(e, minSize, k);
    CentroidIsMean(positions, e.ids, e.points, e.clusters[k]);
    GroupSize(e.ids, positions.Keys, e.clusters[k]);
  }

  /** So a swarm that moves on with nobody else's members keeps its name and its date, and has the
      members of its cluster. */
  lemma SwarmLivesOn(e: Evaluation, names: seq<string>, after: map<string, Swarm>, last: int, k: nat, o: string)
    requires GoodEvaluation(e) && Evaluated(e, names, after, last) && |names| == |e.clusters|
    requires k < |e.clusters| && o in e.before && |Groups(e)[k] * e.before[o].members| > 0
    requires forall p :: p in e.before && p != o ==> |Groups(e)[k] * e.before[p].members| == 0
    requires forall j :: 0 <= j < |e.clusters| && j != k ==> |Groups(e)[j] * e.before[o].members| == 0
    ensures o in after && after[o].id == o && after[o].members == Groups(e)[k]
      && after[o].detectedAt == e.before[o].detectedAt
  {
    EvaluatedAssigns(e, names, after, last);
    IdentityIsStable(MembersOf(e.before), Groups(e), names, k, o);
    assert Placed(e, names, after, last, k) && WithinIds(e, k);
  }

  // ---- The detector ----

  /** The object carries the name, and v is what it holds. */
  ghost predicate Holds(s: SwarmState, id: string, v: Swarm)
    reads s
  {
    s.id == id && s.Value() == v
  }

  lemma CountStep(members: set<string>, remaining: set<string>, member: string, others: set<string>)
    requires member in remaining && remaining <= members
    ensures |(members - (remaining - {member})) * others|
      == |(members - remaining) * others| + if member in others then 1 else 0
  {
    var counted := (members - remaining) * others;
    assert (members - (remaining - {member})) * others == if member in others then counted + {member} else counted;
  }

  class SwarmDetector {
    const radius: real
    const minSize: int
    const positionTTL: real
    const hypot: (real, real) -> real
    const cos: real -> real
    var positions: map<string, Tracked>
    var active: map<string, SwarmState>
    var nextSwarm: nat
    var detectedTotal: int

    /** The active swarms as values, and how many have gone. */
    ghost var swarms: map<string, Swarm>
    ghost var dissolvedTotal: int

    ghost predicate Mirrored()
      reads this`active, this`swarms, active.Values
    {
      && swarms.Keys == active.Keys
      && forall id {:trigger Holds(active[id], id, swarms[id])} :: id in active ==> Holds(active[id], id, swarms[id])
    }

    ghost predicate Valid()
      reads this, active.Values
    {
      && radius > 0.0 && minSize >= 2 && IsHypot(hypot)
      && Mirrored() && Inv(swarms, minSize, nextSwarm, detectedTotal, dissolvedTotal)
    }

    constructor (radius: real, minSize: int, positionTTL: real, hypot: (real, real) -> real, cos: real -> real)
      requires radius > 0.0 && minSize >= 2 && IsHypot(hypot)
      ensures Valid() && swarms == map[] && positions == map[] && detectedTotal == 0 == dissolvedTotal
      ensures this.radius == radius && this.minSize == minSize && this.positionTTL == positionTTL && this.hypot == hypot
        && this.cos == cos
    {
      this.radius, this.minSize, this.positionTTL, this.hypot, this.cos := radius, minSize, positionTTL, hypot, cos;
      positions, active, nextSwarm, detectedTotal := map[], map[], 0, 0;
      swarms, dissolvedTotal := map[], 0;
    }

    method Observe(droneID: string, latitude: real, longitude: real, now: real)
      requires Valid()
      modifies this`positions
      ensures Valid() && positions == old(positions)[droneID := Tracked(latitude, longitude, now)]
    {
      positions := positions[droneID := Tracked(latitude, longitude, now)];
    }

    method Prune(now: real)
      modifies this`positions
      ensures positions == Unexpired(old(positions), now - positionTTL)
      ensures forall id :: id in positions <==> id in old(positions) && now - old(positions)[id].seenAt <= positionTTL
      ensures forall id :: id in positions ==> positions[id] == old(positions)[id]
    {
      var cutoff := now - positionTTL;
      var remaining := positions.Keys;
      while remaining != {}
        invariant remaining <= positions.Keys
        invariant positions == map id | id in old(positions)
          && (id in remaining || old(positions)[id].seenAt >= cutoff) :: old(positions)[id]
      {
        var id :| id in remaining;
        remaining := remaining - {id};
        if positions[id].seenAt < cutoff {
          positions := positions - {id};
        }
      }
    }

    /** The positions in the order the map yields them. */
    method Gather() returns (ids: seq<string>, points: seq<Point>)
      ensures Enumerates(ids, positions.Keys)
      ensures (forall id :: id in ids ==> id in positions) && points == PointsOf(ids, positions)
    {
      ids, points := [], [];
      var remaining := positions.Keys;
      while remaining != {}
        invariant remaining <= positions.Keys
        invariant Enumerates(ids, positions.Keys - remaining)
        invariant (forall id :: id in ids ==> id in positions) && points == PointsOf(ids, positions)
      {
        var id :| id in remaining;
        remaining := remaining - {id};
        ids, points := ids + [id], points + [Point(positions[id].latitude, positions[id].longitude)];
        assert forall i :: 0 <= i < |ids| - 1 ==> ids[i] in ids[..|ids| - 1];
      }
    }

    method Overlap(members: set<string>, others: set<string>) returns (overlap: nat)
      ensures overlap == |members * others|
    {
      overlap := 0;
      var remaining := members;
      assert (members - remaining) * others == {};
      while remaining != {}
        invariant remaining <= members
        invariant overlap == |(members - remaining) * others|
      {
        var member :| member in remaining;
        CountStep(members, remaining, member, others);
        remaining := remaining - {member};
        if member in others {
          overlap := overlap + 1;
        }
      }
      assert members - remaining == members;
    }

    /** Between two clusters of an evaluation: what has been placed is in next and after, and the
        other active swarms are as they were. */
    ghost predicate Between(before: map<string, Swarm>, next: map<string, SwarmState>, after: map<string, Swarm>)
      reads this`active, active.Values, next.Values
    {
      && before.Keys == active.Keys && after.Keys == next.Keys
      && (forall id {:trigger Holds(active[id], id, before[id])} :: id in active && id !in next ==>
        Holds(active[id], id, before[id]))
      && (forall id {:trigger Holds(next[id], id, after[id])} :: id in next ==> Holds(next[id], id, after[id]))
    }

    lemma NothingPlaced()
      requires Mirrored()
      ensures Between(swarms, map[], map[])
    {
      forall id | id in active
        ensures Holds(active[id], id, swarms[id])
      {
      }
    }

    /** The unclaimed active swarm with the largest overlap, or null when none overlaps. */
    method Match(members: set<string>, claimed: map<string, SwarmState>, ghost before: map<string, Swarm>,
                 ghost after: map<string, Swarm>)
      returns (best: SwarmState?)
      requires Between(before, claimed, after)
      ensures best != null ==> best.id in active && active[best.id] == best
      ensures best != null ==> Claims(MembersOf(before), claimed.Keys, members, best.id)
      ensures best == null ==> forall id :: id !in before ==> Claims(MembersOf(before), claimed.Keys, members, id)
    {
      best := null;
      var bestOverlap := 0;
      var remaining := active.Keys;
      ghost var old_ := MembersOf(before);
      while remaining != {}
        invariant remaining <= active.Keys
        invariant best == null ==> bestOverlap == 0
        invariant best != null ==>
          best.id in active && active[best.id] == best && Unclaimed(old_, claimed.Keys, best.id)
        invariant best != null ==> bestOverlap == |members * old_[best.id]| > 0
        invariant forall o {:trigger Unclaimed(old_, claimed.Keys, o)} ::
          Unclaimed(old_, claimed.Keys, o) && o !in remaining ==> |members * old_[o]| <= bestOverlap
      {
        var id :| id in remaining;
        remaining := remaining - {id};
        if id in claimed {
          continue;
        }
        assert Holds(active[id], id, before[id]);
        var overlap := Overlap(members, active[id].members);
        if overlap > bestOverlap {
          best, bestOverlap := active[id], overlap;
        }
      }
    }

    /** The members of a cluster, and its centre. */
    method Summarize(ids: seq<string>, points: seq<Point>, cluster: seq<nat>) returns (members: set<string>,
                     centroid: Point)
      requires |points| == |ids| && cluster != [] && forall i :: i in cluster ==> i < |ids|
      ensures members == Group(ids, cluster) && centroid == Centroid(points, cluster)
    {
      members := {};
      var latSum, lonSum := 0.0, 0.0;
      for k := 0 to |cluster|
        invariant (forall i :: i in cluster[..k] ==> i < |ids|) && members == Group(ids, cluster[..k])
        invariant Point(latSum, lonSum) == Sum(points, cluster, k)
      {
        assert cluster[k] in cluster && cluster[..k + 1] == cluster[..k] + [cluster[k]];
        members := members + {ids[cluster[k]]};
        latSum := latSum + points[cluster[k]].latitude;
        lonSum := lonSum + points[cluster[k]].longitude;
      }
      assert cluster[..|cluster|] == cluster;
      centroid := Point(latSum / |cluster| as real, lonSum / |cluster| as real);
    }

    method Detect(now: real) returns (state: SwarmState)
      modifies this`nextSwarm, this`detectedTotal
      ensures fresh(state) && state.id == Ids.SequenceID("swarm", nextSwarm) && state.detectedAt == now
      ensures nextSwarm == old(nextSwarm) + 1 && detectedTotal == old(detectedTotal) + 1
    {
      nextSwarm := nextSwarm + 1;
      state := new SwarmState(Ids.SequenceID("swarm", nextSwarm), now);
      detectedTotal := detectedTotal + 1;
    }

    /** The swarm object takes over the cluster. Nothing else that is in use is that object. */
    method Renew(state: SwarmState, members: set<string>, centroid: Point, next: map<string, SwarmState>,
                 ghost before: map<string, Swarm>, ghost after: map<string, Swarm>)
      requires Between(before, next, after) && state.id !in next
      requires state.id in active ==> active[state.id] == state
      modifies state
      ensures state.Value() == Swarm(state.id, members, centroid, state.detectedAt)
      ensures Between(before, next[state.id := state], after[state.id := state.Value()])
    {
      state.members := members;
      state.centroid := centroid;
      ghost var next', after' := next[state.id := state], after[state.id := state.Value()];
      forall id | id in active && id !in next'
        ensures Holds(active[id], id, before[id])
      {
        assert old(Holds(active[id], id, before[id]));
      }
      forall id | id in next'
        ensures Holds(next'[id], id, after'[id])
      {
        assert id != state.id ==> old(Holds(next[id], id, after[id]));
      }
    }

    /** The old swarm that goes on, or a new one: which has the best claim to the members. */
    method Choose(members: set<string>, next: map<string, SwarmState>, now: real, ghost before: map<string, Swarm>,
                  ghost after: map<string, Swarm>)
      returns (state: SwarmState)
      requires Between(before, next, after)
      requires NextNameFree(before, after, nextSwarm)
      modifies this`nextSwarm, this`detectedTotal
      ensures Between(before, next, after) && Claims(MembersOf(before), next.Keys, members, state.id)
        && state.id !in next
      ensures if state.id in before
        then active[state.id] == state && state.detectedAt == before[state.id].detectedAt && nextSwarm == old(nextSwarm)
        else fresh(state) && state.detectedAt == now && nextSwarm == old(nextSwarm) + 1
             && state.id == Ids.SequenceID("swarm", nextSwarm)
      ensures detectedTotal - old(detectedTotal) == nextSwarm - old(nextSwarm)
    {
      var best := Match(members, next, before, after);
      if best == null {
        state := Detect(now);
      } else {
        state := best;
        assert state.id in MembersOf(before) && state.id in before;
        assert Holds(active[state.id], state.id, before[state.id]);
      }
    }

    /** The swarm of one cluster, chosen and renewed. */
    method Place(ids: seq<string>, points: seq<Point>, cluster: seq<nat>, next: map<string, SwarmState>, now: real,
                 ghost before: map<string, Swarm>, ghost after: map<string, Swarm>)
      returns (state: SwarmState)
      requires Between(before, next, after)
      requires |points| == |ids| && cluster != [] && forall i :: i in cluster ==> i < |ids|
      requires NextNameFree(before, after, nextSwarm)
      modifies active.Values, this`nextSwarm, this`detectedTotal
      ensures state.Value() == Swarm(state.id, Group(ids, cluster), Centroid(points, cluster), state.detectedAt)
      ensures Between(before, next[state.id := state], after[state.id := state.Value()])
      ensures Claims(MembersOf(before), next.Keys, Group(ids, cluster), state.id) && state.id !in next
      ensures if state.id in before
        then state.detectedAt == before[state.id].detectedAt && nextSwarm == old(nextSwarm)
        else state.detectedAt == now && nextSwarm == old(nextSwarm) + 1
             && state.id == Ids.SequenceID("swarm", nextSwarm)
      ensures detectedTotal - old(detectedTotal) == nextSwarm - old(nextSwarm)
    {
      var members, centroid := Summarize(ids, points, cluster);
      state := Choose(members, next, now, before, after);
      Renew(state, members, centroid, next, before, after);
    }

    /** The clusters are the components of the positions, listed in some order: of the pairs
        that the window shows, and of all pairs unless one is too near a pole. */
    ghost predicate AreClusters(positions: map<string, Tracked>, ids: seq<string>, points: seq<Point>,
                                clusters: seq<seq<nat>>)
      requires radius > 0.0
    {
      && Enumerates(ids, positions.Keys) && (forall id :: id in ids ==> id in positions)
        && points == PointsOf(ids, positions)
      && IsComponents(clusters, WindowPairs(points, radius, hypot, cos), |ids|, minSize)
      && ((forall p :: p in points ==> Abs(cos(p.latitude)) >= 0.1) ==>
            IsComponents(clusters, AllPairs(points, radius, hypot, cos), |ids|, minSize))
    }

    method FindClusters(now: real)
      returns (ids: seq<string>, points: seq<Point>, clusters: seq<seq<nat>>, ghost e: Evaluation)
      requires Valid()
      modifies this`positions
      ensures Valid() && positions == Unexpired(old(positions), now - positionTTL)
      ensures AreClusters(positions, ids, points, clusters)
      ensures e == Evaluation(swarms, ids, points, clusters, now, nextSwarm)
      ensures GoodEvaluation(e) && GoodClusters(e, minSize)
    {
      Prune(now);
      ids, points := Gather();
      clusters := ClusterPoints(points, radius, minSize, hypot, cos);
      e := Evaluation(swarms, ids, points, clusters, now, nextSwarm);
      ComponentsAreGood(e, WindowPairs(points, radius, hypot, cos), minSize);
    }

    /** The clusters of the unexpired positions, each with its swarm. */
    method Evaluate(now: real) returns (ghost e: Evaluation, ghost names: seq<string>)
      requires Valid()
      modifies this, active.Values
      ensures Valid()
      ensures positions == Unexpired(old(positions), now - positionTTL)
      ensures e.before == old(swarms) && e.now == now && e.first == old(nextSwarm)
      ensures forall id :: id in positions <==> id in old(positions) && now - old(positions)[id].seenAt <= positionTTL
      ensures forall id :: id in swarms ==>
        swarms[id].id == id && Reported(positions, old(swarms), now, minSize, swarms[id])
      ensures AreClusters(positions, e.ids, e.points, e.clusters)
      ensures GoodEvaluation(e) && |names| == |e.clusters| && Evaluated(e, names, swarms, nextSwarm)
      ensures dissolvedTotal == old(dissolvedTotal) + |old(swarms).Keys - swarms.Keys|
    {
      var ids, points, clusters;
      ids, points, clusters, e := FindClusters(now);
      names := Rebuild(ids, points, clusters, now, e);
      forall id | id in swarms
        ensures swarms[id].id == id && Reported(positions, e.before, now, minSize, swarms[id])
      {
        EvaluatedIsReported(e, names, swarms, nextSwarm, positions, minSize, id);
      }
    }

    /** One turn of the loop over the clusters. */
    method PlaceNext(ids: seq<string>, points: seq<Point>, cluster: seq<nat>, now: real, next: map<string, SwarmState>,
                     ghost e: Evaluation, ghost names: seq<string>, ghost after: map<string, Swarm>)
      returns (next': map<string, SwarmState>, ghost names': seq<string>, ghost after': map<string, Swarm>)
      requires Between(e.before, next, after) && GoodEvaluation(e) && e.first >= 0
      requires NextNameFree(e.before, after, nextSwarm) && GoodSwarms(e.before, minSize, e.first)
      requires Evaluated(e, names, after, nextSwarm) && |names| < |e.clusters| && WithinIds(e, |names|)
      requires ids == e.ids && points == e.points && cluster == e.clusters[|names|] && now == e.now
      modifies active.Values, this`nextSwarm, this`detectedTotal
      ensures |names'| == |names| + 1 && Between(e.before, next', after') && Evaluated(e, names', after', nextSwarm)
      ensures NextNameFree(e.before, after', nextSwarm)
      ensures detectedTotal - old(detectedTotal) == nextSwarm - old(nextSwarm)
    {
      var state := Place(ids, points, cluster, next, now, e.before, after);
      next' := next[state.id := state];
      names', after' := NextIsEvaluated(e, names, after, old(nextSwarm), state.Value(), nextSwarm, minSize);
    }

    method PlaceAll(ids: seq<string>, points: seq<Point>, clusters: seq<seq<nat>>, now: real, ghost e: Evaluation)
      returns (next: map<string, SwarmState>, ghost names: seq<string>, ghost after: map<string, Swarm>)
      requires Between(e.before, map[], map[]) && GoodEvaluation(e) && GoodSwarms(e.before, minSize, e.first)
        && e.first >= 0
      requires Evaluated(e, [], map[], nextSwarm) && NextNameFree(e.before, map[], nextSwarm)
      requires ids == e.ids && points == e.points && clusters == e.clusters && now == e.now
      modifies this`nextSwarm, this`detectedTotal, active.Values
      ensures |names| == |e.clusters| && Between(e.before, next, after) && Evaluated(e, names, after, nextSwarm)
      ensures detectedTotal - old(detectedTotal) == nextSwarm - old(nextSwarm)
    {
      next, names, after := map[], [], map[];
      for k := 0 to |clusters|
        invariant |names| == k && Between(e.before, next, after) && Evaluated(e, names, after, nextSwarm)
        invariant NextNameFree(e.before, after, nextSwarm)
        invariant detectedTotal - old(detectedTotal) == nextSwarm - old(nextSwarm)
      {
        assert WithinIds(e, k);
        next, names, after := PlaceNext(ids, points, clusters[k], now, next, e, names, after);
      }
    }

    /** The new swarms replace the old ones. */
    method Adopt(next: map<string, SwarmState>, ghost after: map<string, Swarm>, ghost dissolved: int)
      requires radius > 0.0 && minSize >= 2 && IsHypot(hypot) && after.Keys == next.Keys
      requires forall id {:trigger Holds(next[id], id, after[id])} :: id in next ==> Holds(next[id], id, after[id])
      requires Inv(after, minSize, nextSwarm, detectedTotal, dissolved)
      modifies this`active, this`swarms, this`dissolvedTotal
      ensures Valid() && swarms == after && dissolvedTotal == dissolved
    {
      swarms, dissolvedTotal := after, dissolved;
      Install(next);
      assert swarms == after && dissolvedTotal == dissolved;
      assert Inv(after, minSize, nextSwarm, detectedTotal, dissolved);
    }

    method Regroup(ids: seq<string>, points: seq<Point>, clusters: seq<seq<nat>>, now: real, ghost e: Evaluation)
      returns (next: map<string, SwarmState>, ghost names: seq<string>, ghost after: map<string, Swarm>,
        ghost dissolved: int)
      requires Valid() && GoodEvaluation(e) && GoodClusters(e, minSize) && Enumerates(e.ids, positions.Keys)
      requires e == Evaluation(swarms, ids, points, clusters, now, nextSwarm)
      modifies this`nextSwarm, this`detectedTotal, active.Values
      ensures |names| == |e.clusters| && Evaluated(e, names, after, nextSwarm) && Between(e.before, next, after)
      ensures dissolved == dissolvedTotal + |e.before.Keys - after.Keys|
      ensures Inv(after, minSize, nextSwarm, detectedTotal, dissolved)
    {
      EvaluationStarts(e, minSize);
      NothingPlaced();
      next, names, after := PlaceAll(ids, points, clusters, now, e);
      dissolved := dissolvedTotal + |e.before.Keys - after.Keys|;
      EvaluationKeepsInv(e, names, after, nextSwarm, positions.Keys, minSize, detectedTotal, dissolvedTotal, dissolved);
    }

    method Rebuild(ids: seq<string>, points: seq<Point>, clusters: seq<seq<nat>>, now: real, ghost e: Evaluation)
      returns (ghost names: seq<string>)
      requires Valid() && GoodEvaluation(e) && GoodClusters(e, minSize) && Enumerates(e.ids, positions.Keys)
      requires e == Evaluation(swarms, ids, points, clusters, now, nextSwarm)
      modifies this`active, this`swarms, this`nextSwarm, this`detectedTotal, this`dissolvedTotal, active.Values
      ensures Valid() && |names| == |e.clusters| && Evaluated(e, names, swarms, nextSwarm)
      ensures dissolvedTotal == old(dissolvedTotal) + |old(swarms).Keys - swarms.Keys|
    {
      var next;
      ghost var after, dissolved;
      next, names, after, dissolved := Regroup(ids, points, clusters, now, e);
      Adopt(next, after, dissolved);
      assert Evaluated(e, names, after, nextSwarm);
    }

    method Install(next: map<string, SwarmState>)
      requires swarms.Keys == next.Keys
      requires forall id {:trigger Holds(next[id], id, swarms[id])} :: id in next ==> Holds(next[id], id, swarms[id])
      modifies this`active
      ensures Mirrored()
    {
      active := next;
    }
  }
}
