// What the swarms say about the drones: who is close to a member is a member, and a crowd is a swarm.
module SwarmReports {
  import opened Plane
  import opened Graph
  import opened Sets
  import opened Cluster
  import opened Swarm

  function PlaceOf(t: Tracked): Point {
    Point(t.latitude, t.longitude)
  }

  /** An evaluation of these positions, and what it leads to. */
  datatype Detection = Detection(positions: map<string, Tracked>, radius: real, minSize: int,
                                 hypot: (real, real) -> real, cos: real -> real,
                                 e: Evaluation, names: seq<string>, after: map<string, Swarm>, last: int)
  {
    function Links(): set<Link> {
      AllPairs(e.points, radius, hypot, cos)
    }

    /** What Evaluate ensures away from the poles. */
    ghost predicate Good() {
      && Enumerates(e.ids, positions.Keys) && (forall id :: id in e.ids ==> id in positions)
      && e.points == PointsOf(e.ids, positions)
      && IsComponents(e.clusters, Links(), |e.ids|, minSize)
      && GoodEvaluation(e) && |names| == |e.clusters| && Evaluated(e, names, after, last)
    }

    /** Within the radius, seen from either. */
    ghost predicate Close(a: string, b: string) {
      && a in positions && b in positions
      && Distance(PlaceOf(positions[a]), PlaceOf(positions[b]), hypot, cos) <= radius
      && Distance(PlaceOf(positions[b]), PlaceOf(positions[a]), hypot, cos) <= radius
    }
  }

  lemma IndexOf(positions: map<string, Tracked>, ids: seq<string>, id: string) returns (i: nat)
    requires Enumerates(ids, positions.Keys) && id in positions
    ensures i < |ids| && ids[i] == id
  {
    assert id in ids;
    i :| i < |ids| && ids[i] == id;
  }

  lemma CloseIsLinked(x: Detection, i: nat, j: nat)
    requires x.Good() && i < |x.e.ids| && j < |x.e.ids| && x.Close(x.e.ids[i], x.e.ids[j])
    ensures Linked(x.Links(), i, j)
  {
    var points := x.e.points;
    assert points[i] == PlaceOf(x.positions[x.e.ids[i]]) && points[j] == PlaceOf(x.positions[x.e.ids[j]]);
    if i < j {
      assert Near(points, i, j, x.radius, x.hypot, x.cos);
      LinkedByLink(x.Links(), i, j);
    } else if j < i {
      assert Near(points, j, i, x.radius, x.hypot, x.cos);
      LinkedByLink(x.Links(), j, i);
      LinkedBackwards(x.Links(), j, i);
    } else {
      LinkedToItself(x.Links(), i);
    }
  }

  /** The swarm of a cluster has its elements. */
  lemma SwarmOfCluster(x: Detection, k: nat)
    requires x.Good() && k < |x.names|
    ensures WithinIds(x.e, k) && x.names[k] in x.after
    ensures x.after[x.names[k]].members == Group(x.e.ids, x.e.clusters[k])
  {
    assert Placed(x.e, x.names, x.after, x.last, k);
  }

  /** Whoever is close to a member of a swarm is a member. */
  lemma NeighboursShareSwarm(x: Detection, id: string, a: string, b: string)
    requires x.Good() && id in x.after && a in x.after[id].members && x.Close(a, b)
    ensures b in x.after[id].members
  {
    var k :| 0 <= k < |x.names| && x.names[k] == id;
    SwarmOfCluster(x, k);
    var i :| i in x.e.clusters[k] && x.e.ids[i] == a;
    var j := IndexOf(x.positions, x.e.ids, b);
    CloseIsLinked(x, i, j);
    assert Elements(x.e.clusters[k]) == Component(x.Links(), |x.e.ids|, i);
    assert j in Elements(x.e.clusters[k]);
  }

  function Indices(ids: seq<string>, crowd: set<string>): set<nat> {
    set i: nat | i < |ids| && ids[i] in crowd
  }

  lemma {:induction false} IndicesSize(positions: map<string, Tracked>, ids: seq<string>, crowd: set<string>)
    requires Enumerates(ids, positions.Keys) && crowd <= positions.Keys
    ensures |Indices(ids, crowd)| == |crowd|
    decreases |crowd|
  {
    if crowd == {} {
      assert Indices(ids, crowd) == {};
    } else {
      var id :| id in crowd;
      var i := IndexOf(positions, ids, id);
      IndicesSize(positions, ids, crowd - {id});
      assert Indices(ids, crowd) == Indices(ids, crowd - {id}) + {i};
    }
  }

  /** Wherever a drone has as many others about it as it takes, counting itself, there is a swarm with all
      of them in it. */
  lemma CrowdIsSwarm(x: Detection, d: string, crowd: set<string>) returns (id: string)
    requires x.Good() && d in x.positions && |crowd| >= x.minSize && forall o :: o in crowd ==> x.Close(d, o)
    ensures id in x.after && d in x.after[id].members && crowd <= x.after[id].members
  {
    var i := IndexOf(x.positions, x.e.ids, d);
    var component := Component(x.Links(), |x.e.ids|, i);
    IndicesSize(x.positions, x.e.ids, crowd);
    forall j | j in Indices(x.e.ids, crowd)
      ensures j in component
    {
      CloseIsLinked(x, i, j);
    }
    SubsetSize(Indices(x.e.ids, crowd), component);
    assert Clustered(x.e.clusters, i);
    var k :| 0 <= k < |x.e.clusters| && i in x.e.clusters[k];
    SwarmOfCluster(x, k);
    id := x.names[k];
    forall o | o in crowd
      ensures o in x.after[id].members
    {
      NeighboursShareSwarm(x, id, d, o);
    }
  }
}
