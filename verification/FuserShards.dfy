// All shards of the fuser of internal/fusion/fuser.go: each has a lock of its own, and they share the
// counter that numbers the tracks.
module FuserShards {
  import opened Kalman
  import opened FuserState
  import opened Fuser
  import Ids

  class ShardedFuser {
    const c: Config
    const counters: Counters
    const shards: seq<Shard>

    ghost predicate ValidAt(i: nat)
      requires i < |shards|
      reads shards[i], shards[i].tracks.Values, shards[i].Filters(), shards[i].counters`nextTrack
    {
      shards[i].Valid() && shards[i].counters == counters && shards[i].c == c
    }

    /** Two shards share neither tracks nor filters nor names. */
    ghost predicate Apart(i: nat, j: nat)
      requires i < |shards| && j < |shards|
      reads shards[i], shards[j]
    {
      && shards[i] != shards[j]
      && shards[i].tracks.Values !! shards[j].tracks.Values && shards[i].Filters() !! shards[j].Filters()
      && shards[i].tracks.Keys !! shards[j].tracks.Keys
    }

    ghost predicate Valid()
      reads shards, set s, t | s in shards && t in s.tracks.Values :: t
      reads set s, f | s in shards && f in s.Filters() :: f
      reads set s | s in shards :: s.counters
    {
      && (forall i {:trigger ValidAt(i)} :: 0 <= i < |shards| ==> ValidAt(i))
      && (forall i, j {:trigger Apart(i, j)} :: 0 <= i < |shards| && 0 <= j < |shards| && i != j ==> Apart(i, j))
    }

    constructor (c: Config, n: nat)
      requires GoodConfig(c)
      ensures Valid() && this.c == c && |shards| == n
      ensures fresh(counters) && forall i :: 0 <= i < n ==> fresh(shards[i]) && shards[i].tracks == map[]
    {
      var counters := new Counters();
      var shards: seq<Shard> := [];
      for i := 0 to n
        invariant |shards| == i
        invariant forall j :: 0 <= j < i ==> fresh(shards[j]) && shards[j].c == c && shards[j].counters == counters
        invariant forall j :: 0 <= j < i ==> shards[j].tracks == map[] && shards[j].Valid()
        invariant forall j, k :: 0 <= j < k < i ==> shards[j] != shards[k]
      {
        var shard := new Shard(c, counters);
        shards := shards + [shard];
      }
      this.c, this.counters, this.shards := c, counters, shards;
    }

    /** The shard has nothing in common with these tracks. */
    ghost predicate Foreign(i: nat, others: map<string, FusedTrack>)
      requires i < |shards|
      reads shards[i]
    {
      forall d :: d in others ==>
        others[d] !in shards[i].tracks.Values && others[d].filter !in shards[i].Filters() && d !in shards[i].tracks
    }

    lemma ForeignIffApart(i: nat, k: nat)
      requires i < |shards| && k < |shards|
      ensures Foreign(i, shards[k].tracks) && shards[i] != shards[k] <==> Apart(i, k)
      ensures Foreign(i, shards[k].tracks) && shards[i] != shards[k] <==> Apart(k, i)
    {
      if Foreign(i, shards[k].tracks) {
        forall f | f in shards[k].Filters()
          ensures f !in shards[i].Filters()
        {
        }
      }
      if Apart(i, k) || Apart(k, i) {
        forall d | d in shards[k].tracks
          ensures shards[k].tracks[d] !in shards[i].tracks.Values && shards[k].tracks[d].filter !in shards[i].Filters()
          ensures d !in shards[i].tracks
        {
          assert shards[k].tracks[d] in shards[k].tracks.Values && shards[k].tracks[d].filter in shards[k].Filters();
        }
      }
    }

    /** Only the track of that name can be new, and then its name is. */
    lemma StillForeign(i: nat, before: map<string, FusedTrack>, after: map<string, FusedTrack>, id: string, issued: nat)
      requires i < |shards| && shards[i].Mirrored() && shards[i].c == c && Inv(c, shards[i].State(), issued)
        && Foreign(i, before)
      requires forall d :: d in after && d != id ==> d in before && after[d] == before[d]
      requires id in after && !(id in before && after[id] == before[id]) ==>
        && id == Ids.SequenceID(c.idPrefix, issued + 1)
        && after[id] !in shards[i].tracks.Values && after[id].filter !in shards[i].Filters()
      ensures Foreign(i, after)
    {
      IDIsFree(c, shards[i].State(), issued);
    }

    /** One shard resolves a sample, and only the counter moves on for the others. */
    method ResolveIn(k: nat, sample: Sample, now: real) returns (fused: FusedSample)
      requires Valid() && k < |shards| && OffPoles(c, sample)
      modifies shards[k], counters, shards[k].tracks.Values, shards[k].Filters()
      ensures ValidAt(k) && old(counters.nextTrack) <= counters.nextTrack
      ensures forall i :: 0 <= i < |shards| && i != k ==>
        unchanged(shards[i]) && shards[i].Mirrored() && Foreign(i, shards[k].tracks)
      ensures shards[k].Answered(old(shards[k].Pruned(now)), old(counters.nextTrack),
        Key(sample.stationID, sample.droneID), sample, now, fused)
    {
      ghost var before, issued := shards[k].tracks, counters.nextTrack;
      forall i | 0 <= i < |shards| && i != k
        ensures Foreign(i, before) && Apart(i, k) && ValidAt(i)
      {
        assert Apart(i, k);
        ForeignIffApart(i, k);
      }
      assert ValidAt(k);
      fused := shards[k].Resolve(sample, now);
      forall i | 0 <= i < |shards| && i != k
        ensures unchanged(shards[i]) && shards[i].Mirrored() && Foreign(i, shards[k].tracks)
      {
        assert old(Apart(i, k)) && old(ValidAt(i)) && old(Foreign(i, before));
        StillForeign(i, before, shards[k].tracks, fused.droneID, issued);
      }
    }

    /** Shard k resolves a sample: all shards stay valid and apart, and the others do not change. */
    method Resolve(k: nat, sample: Sample, now: real) returns (fused: FusedSample)
      requires Valid() && k < |shards| && OffPoles(c, sample)
      modifies shards[k], counters, shards[k].tracks.Values, shards[k].Filters()
      ensures Valid() && ValidAt(k)
      ensures shards[k].Answered(old(shards[k].Pruned(now)), old(counters.nextTrack),
        Key(sample.stationID, sample.droneID), sample, now, fused)
      ensures forall i :: 0 <= i < |shards| && i != k ==> unchanged(shards[i]) && shards[i].Mirrored()
    {
      ghost var issued := counters.nextTrack;
      fused := ResolveIn(k, sample, now);
      forall i | 0 <= i < |shards|
        ensures ValidAt(i)
      {
        if i != k {
          assert old(ValidAt(i));
          MoreIssued(c, shards[i].State(), issued, counters.nextTrack);
        }
      }
      forall i, j | 0 <= i < |shards| && 0 <= j < |shards| && i != j
        ensures Apart(i, j)
      {
        assert old(Apart(i, j));
        if i == k { ForeignIffApart(j, k); } else if j == k { ForeignIffApart(i, k); }
      }
    }
  }
}
