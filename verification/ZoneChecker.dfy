// The zone checker of internal/geofence/zonechecker.go: which drone is in which zones, the events
// its changes cause, and the totals. Each method is one section under the lock or one atomic add,
// so that any number of workers may interleave them.
module ZoneChecker {
  import opened ZoneEvents
  import EvenOdd
  import Ids
  import Sets
  import ZoneIndex

  const STALE_DRONE_STATE_AFTER := 60.0
  const PRUNE_STATE_EVERY := 10.0
  const ALARM_ACTIVE_WINDOW := 6.0

  datatype DroneValue = DroneValue(zones: map<int, string>, lastTimestamp: real, lastSeen: real)

  // ---- Counting memberships ----

  datatype Membership = Membership(drone: string, zone: int)

  ghost function Of(drone: string, zones: set<int>): set<Membership> {
    set z | z in zones :: Membership(drone, z)
  }

  /** Who is in which zone. */
  ghost function Memberships(values: map<string, DroneValue>): set<Membership> {
    set d, z | d in values && z in values[d].zones :: Membership(d, z)
  }

  lemma {:induction false} OfSize(drone: string, zones: set<int>)
    ensures |Of(drone, zones)| == |zones|
  {
    if exists z :: z in zones {
      var z :| z in zones;
      OfSize(drone, zones - {z});
      assert Of(drone, zones) == Of(drone, zones - {z}) + {Membership(drone, z)};
    } else {
      assert Of(drone, zones) == {};
    }
  }

  lemma MembershipsWithout(values: map<string, DroneValue>, id: string)
    ensures |Memberships(values - {id})| == |Memberships(values)| - if id in values then |values[id].zones| else 0
  {
    var others := Memberships(values - {id});
    if id in values {
      OfSize(id, values[id].zones.Keys);
      assert Memberships(values) == others + Of(id, values[id].zones.Keys);
      assert others !! Of(id, values[id].zones.Keys);
    } else {
      assert values - {id} == values;
    }
  }

  lemma MembershipsWith(values: map<string, DroneValue>, id: string, v: DroneValue)
    ensures |Memberships(values[id := v])| == |Memberships(values)| + |v.zones| - if id in values then
      |values[id].zones| else 0
  {
    MembershipsWithout(values, id);
    MembershipsWithout(values[id := v], id);
    assert values[id := v] - {id} == values - {id};
  }

  // ---- The invariant ----

  /** What is known of the drones: their zone sets, and the events and the accepted timestamps since
      each was first tracked. */
  datatype Tracking = Tracking(values: map<string, DroneValue>, logs: map<string, seq<Event>>, times: map<string,
    seq<real>>, discarded: int)

  /** The times increase, and end with last. */
  ghost predicate UpTo(times: seq<real>, last: real) {
    && times != [] && times[|times| - 1] == last
    && forall i, j :: 0 <= i < j < |times| ==> times[i] < times[j]
  }

  /** Replaying a drone's events gives its zone set; if the index never listed a new zone twice
      (clean), each event was news. The accepted timestamps increase, up to the last one. */
  ghost predicate LogFaithful(t: Tracking, id: string, clean: bool)
    requires id in t.values && id in t.logs && id in t.times
  {
    && Replay({}, t.logs[id]) == t.values[id].zones.Keys && (clean ==> Consistent({}, t.logs[id]))
    && UpTo(t.times[id], t.values[id].lastTimestamp)
  }

  /** balance is the number of zones entered less the number left, counted or still to be counted. */
  ghost predicate Inv(t: Tracking, balance: int, clean: bool) {
    && t.logs.Keys == t.times.Keys == t.values.Keys
    && (forall id {:trigger LogFaithful(t, id, clean)} :: id in t.values ==> LogFaithful(t, id, clean))
    && (clean ==> balance == |Memberships(t.values)| + t.discarded)
  }

  /** The zones a drone was last seen in. */
  function ZonesOf(values: map<string, DroneValue>, id: string): map<int, string> {
    if id in values then values[id].zones else map[]
  }

  /** A sample that is no newer than the last accepted one changes nothing but the time it was seen. */
  predicate Outdated(values: map<string, DroneValue>, id: string, timestamp: real) {
    id in values && timestamp <= values[id].lastTimestamp
  }

  function Forget(t: Tracking, id: string): Tracking {
    Tracking(t.values - {id}, t.logs - {id}, t.times - {id}, t.discarded + |ZonesOf(t.values, id)|)
  }

  function Touch(t: Tracking, id: string, now: real): Tracking
    requires id in t.values
  {
    t.(values := t.values[id := t.values[id].(lastSeen := now)])
  }

  function LogOf(t: Tracking, id: string): seq<Event> {
    if id in t.logs then t.logs[id] else []
  }

  function TimesOf(t: Tracking, id: string): seq<real> {
    if id in t.times then t.times[id] else []
  }

  function Accept(t: Tracking, id: string, timestamp: real, current: seq<Zone>, exited: seq<Zone>,
                  now: real): Tracking {
    t.(values := t.values[id := DroneValue(NamesOf(current), timestamp, now)],
       times := t.times[id := TimesOf(t, id) + [timestamp]],
       logs := t.logs[id := LogOf(t, id) + (EnteredEvents(NewZones(ZonesOf(t.values, id),
         current)) + ExitedEvents(exited))])
  }

  lemma ForgetKeepsInv(t: Tracking, balance: int, clean: bool, id: string)
    requires Inv(t, balance, clean) && id in t.values
    ensures Inv(Forget(t, id), balance, clean)
  {
    MembershipsWithout(t.values, id);
    forall d | d in t.values - {id}
      ensures LogFaithful(Forget(t, id), d, clean)
    {
      assert LogFaithful(t, d, clean);
    }
  }

  lemma TouchKeepsInv(t: Tracking, balance: int, clean: bool, id: string, now: real)
    requires Inv(t, balance, clean) && id in t.values
    ensures Inv(Touch(t, id, now), balance, clean)
  {
    MembershipsWith(t.values, id, t.values[id].(lastSeen := now));
    forall d | d in t.values
      ensures LogFaithful(Touch(t, id, now), d, clean)
    {
      assert LogFaithful(t, d, clean);
    }
  }

  /** An accepted sample keeps the invariant; a new zone listed twice only costs the clean part. */
  lemma AcceptKeepsInv(t: Tracking, balance: int, clean: bool, id: string, timestamp: real, current: seq<Zone>,
                       exited: seq<Zone>, now: real, t': Tracking, balance': int, clean': bool)
    requires Inv(t, balance, clean) && LeftZones(ZonesOf(t.values, id), NamesOf(current), exited)
    requires !Outdated(t.values, id, timestamp)
    requires t' == Accept(t, id, timestamp, current, exited, now)
    requires balance' == balance + |NewZones(ZonesOf(t.values, id), current)| - |exited|
    requires clean' == (clean && NewIdsDistinct(ZonesOf(t.values, id), current))
    ensures Inv(t', balance', clean')
  {
    MembershipsWith(t.values, id, DroneValue(NamesOf(current), timestamp, now));
    DiffBalances(ZonesOf(t.values, id), current, exited);
    LogGrows(t, balance, clean, id, current, exited);
    TimesGrow(t, balance, clean, id, timestamp);
    forall d | d in t'.values
      ensures LogFaithful(t', d, clean')
    {
      assert d != id ==> LogFaithful(t, d, clean);
    }
  }

  lemma TimesGrow(t: Tracking, balance: int, clean: bool, id: string, timestamp: real)
    requires Inv(t, balance, clean) && !Outdated(t.values, id, timestamp)
    ensures UpTo(TimesOf(t, id) + [timestamp], timestamp)
  {
    assert id in t.values ==> LogFaithful(t, id, clean);
  }

  lemma LogGrows(t: Tracking, balance: int, clean: bool, id: string, current: seq<Zone>, exited: seq<Zone>)
    requires Inv(t, balance, clean) && LeftZones(ZonesOf(t.values, id), NamesOf(current), exited)
    ensures var before := ZonesOf(t.values, id);
      var log := LogOf(t, id) + (EnteredEvents(NewZones(before, current)) + ExitedEvents(exited));
      && Replay({}, log) == NamesOf(current).Keys
      && (clean && NewIdsDistinct(before, current) ==> Consistent({}, log))
  {
    var before := ZonesOf(t.values, id);
    assert id in t.values ==> LogFaithful(t, id, clean);
    assert Replay({}, LogOf(t, id)) == before.Keys;
    ReplayOfConcat({}, LogOf(t, id), EnteredEvents(NewZones(before, current)) + ExitedEvents(exited));
    DiffIsFaithful(before, current, exited);
  }

  lemma {:induction false} MatchingIsSelection(features: seq<ZoneIndex.Feature>, p: EvenOdd.Vertex, n: nat)
    requires n <= |features| && forall i, j :: 0 <= i < j < |features| ==> features[i].zone.id != features[j].zone.id
    ensures forall z :: z in ZoneIndex.Matching(features, p, n) ==> exists i :: 0 <= i < n && features[i].zone == z
    ensures forall i, j :: 0 <= i < j < |ZoneIndex.Matching(features, p, n)| ==>
      ZoneIndex.Matching(features, p, n)[i].id != ZoneIndex.Matching(features, p, n)[j].id
  {
    if n > 0 {
      MatchingIsSelection(features, p, n - 1);
      var before := ZoneIndex.Matching(features, p, n - 1);
      assert forall i :: 0 <= i < |before| ==> before[i] in before;
    }
  }

  /** An index made from features with different identifiers never lists a zone twice. */
  lemma IndexListsOnce(features: seq<ZoneIndex.Feature>, p: EvenOdd.Vertex, before: map<int, string>)
    requires forall i, j :: 0 <= i < j < |features| ==> features[i].zone.id != features[j].zone.id
    ensures NewIdsDistinct(before, ZoneIndex.Matching(features, p, |features|))
  {
    MatchingIsSelection(features, p, |features|);
  }

  /** What one sample does to the tracking that pruning has left. */
  ghost predicate Checked(t: Tracking, t': Tracking, id: string, timestamp: real, current: seq<Zone>, now: real,
                          entered: seq<Zone>, exited: seq<Zone>) {
    if Outdated(t.values, id, timestamp) then entered == [] == exited && t' == Touch(t, id, now)
    else
      && entered == NewZones(ZonesOf(t.values, id), current)
      && LeftZones(ZonesOf(t.values, id), NamesOf(current), exited)
      && t' == Accept(t, id, timestamp, current, exited, now)
  }

  /** Whoever has just reported has been seen just now, even if the sample was outdated; an accepted sample puts
      the drone into exactly the zones it lists; and nobody else is touched. */
  lemma ReporterIsSeen(t: Tracking, t': Tracking, id: string, timestamp: real, current: seq<Zone>, now: real,
                       entered: seq<Zone>, exited: seq<Zone>)
    requires Checked(t, t', id, timestamp, current, now, entered, exited)
    ensures id in t'.values && t'.values[id].lastSeen == now
    ensures t'.values.Keys == t.values.Keys + {id}
    ensures forall d :: d in t.values && d != id ==> t'.values[d] == t.values[d]
    ensures id in t.values && timestamp <= t.values[id].lastTimestamp ==>
      t'.values[id] == t.values[id].(lastSeen := now) && entered == [] == exited
    ensures id !in t.values || timestamp > t.values[id].lastTimestamp ==>
      && t'.values[id].lastTimestamp == timestamp
      && forall zone :: zone in t'.values[id].zones <==> exists i :: 0 <= i < |current| && current[i].id == zone
  {
    forall zone
      ensures zone in NamesOf(current) <==> exists i :: 0 <= i < |current| && current[i].id == zone
    {
      NamesOfExact(current, zone);
    }
  }

  /** The timestamps accepted from a drone since it was first tracked strictly increase, and the last
      one is what the next has to exceed. */
  lemma AcceptedTimesIncrease(t: Tracking, balance: int, clean: bool, id: string, i: nat, j: nat)
    requires Inv(t, balance, clean) && id in t.values && i < j < |TimesOf(t, id)|
    ensures t.times[id][i] < t.times[id][j] <= t.values[id].lastTimestamp
  {
    assert LogFaithful(t, id, clean);
  }

  /** A sample is accepted, and its timestamp noted, exactly if it is newer than all those accepted
      before from its drone; any other one makes no events and leaves the zones. */
  lemma AcceptedIffNewer(t: Tracking, t': Tracking, balance: int, clean: bool, id: string, timestamp: real,
                         current: seq<Zone>, now: real, entered: seq<Zone>, exited: seq<Zone>)
    requires Inv(t, balance, clean) && Checked(t, t', id, timestamp, current, now, entered, exited)
    ensures var newer := forall earlier :: earlier in TimesOf(t, id) ==> earlier < timestamp;
      && TimesOf(t', id) == (if newer then TimesOf(t, id) + [timestamp] else TimesOf(t, id))
      && (!newer ==> entered == [] == exited && t'.logs == t.logs && ZonesOf(t'.values, id) == ZonesOf(t.values, id))
  {
    if id in t.values {
      assert LogFaithful(t, id, clean);
      var times := t.times[id];
      assert times[|times| - 1] in times;
    }
  }

  /** As long as the index lists no new zone twice: for every drone and zone, the events since the
      drone was first tracked alternate between entering and leaving, beginning with entering, and
      the drone is in the zone after an odd number of them. */
  lemma EventsAlternate(t: Tracking, balance: int, id: string, zone: int)
    requires Inv(t, balance, true) && id in t.values
    ensures var about := About(t.logs[id], zone);
      && (forall i :: 0 <= i < |about| ==> (about[i].Entered? <==> i % 2 == 0))
      && (zone in t.values[id].zones <==> |about| % 2 == 1)
  {
    assert LogFaithful(t, id, true);
    ConsistentAlternates(t.logs[id], zone);
  }

  // ---- The checker ----

  class DroneZoneState {
    var zones: map<int, string>
    var lastTimestamp: real
    var lastSeen: real

    ghost function Value(): DroneValue
      reads this
    {
      DroneValue(zones, lastTimestamp, lastSeen)
    }

    constructor ()
      ensures zones == map[]
    {
      zones, lastTimestamp, lastSeen := map[], 0.0, 0.0;
    }
  }

  ghost predicate Holds(s: DroneZoneState, v: DroneValue)
    reads s
  {
    s.Value() == v
  }

  function Count(alarms: map<int, nat>, zone: int): nat {
    if zone in alarms then alarms[zone] else 0
  }

  /** The drones that keep the alarm of the zone on. */
  ghost function Alarming(values: map<string, DroneValue>, now: real, zone: int): set<string> {
    set id | id in values && now - values[id].lastSeen <= ALARM_ACTIVE_WINDOW && zone in values[id].zones
  }

  function Live(values: map<string, DroneValue>, now: real): map<string, DroneValue> {
    map id | id in values && now - values[id].lastSeen <= STALE_DRONE_STATE_AFTER :: values[id]
  }

  /** What is left are the drones seen within that time, unchanged. */
  ghost predicate SeenWithin(before: map<string, DroneValue>, now: real, time: real, after: map<string, DroneValue>) {
    && (forall id :: id in after <==> id in before && now - before[id].lastSeen <= time)
    && (forall id :: id in after ==> after[id] == before[id])
  }

  /** The alarm of a zone counts the drones in it that were seen in the last 6 s. */
  lemma AlarmingMeans(values: map<string, DroneValue>, now: real, zone: int)
    ensures Alarming(values, now, zone) == set id | id in values && zone in values[id].zones
      && values[id].lastSeen + 6.0 >= now
  {
  }

  /** Halfway through a pruning that has still to visit the remaining drones. */
  function Spared(values: map<string, DroneValue>, now: real, remaining: set<string>): map<string, DroneValue> {
    map id | id in values && (id in remaining || now - values[id].lastSeen <= STALE_DRONE_STATE_AFTER) :: values[id]
  }

  lemma SparedStep(values: map<string, DroneValue>, now: real, remaining: set<string>, id: string)
    requires id in remaining && id in values
    ensures id in Spared(values, now, remaining) && Spared(values, now, remaining)[id] == values[id]
    ensures Spared(values, now, remaining - {id})
      == Spared(values, now, remaining) - if now - values[id].lastSeen > STALE_DRONE_STATE_AFTER then {id} else {}
  {
  }

  lemma SparedEnds(values: map<string, DroneValue>, now: real)
    ensures Spared(values, now, values.Keys) == values && Spared(values, now, {}) == Live(values, now)
  {
  }

  /** What a worker has taken out of diffZones and not yet added to the totals. */
  datatype Catch = Catch(entered: nat, exited: nat)

  const NOTHING := Catch(0, 0)

  function Net(hands: seq<Catch>): int {
    if hands == [] then 0 else Net(hands[..|hands| - 1]) + hands[|hands| - 1].entered - hands[|hands| - 1].exited
  }

  lemma {:induction false} NetWith(hands: seq<Catch>, w: nat, c: Catch)
    requires w < |hands|
    ensures Net(hands[w := c]) == Net(hands) + c.entered - c.exited - hands[w].entered + hands[w].exited
  {
    var rest := hands[..|hands| - 1];
    if w == |hands| - 1 {
      assert hands[w := c][..w] == rest;
    } else {
      NetWith(rest, w, c);
      assert hands[w := c][..|hands| - 1] == rest[w := c];
    }
  }

  lemma {:induction false} NetOfNothing(hands: seq<Catch>)
    requires forall w :: 0 <= w < |hands| ==> hands[w] == NOTHING
    ensures Net(hands) == 0
  {
    if hands != [] { NetOfNothing(hands[..|hands| - 1]); }
  }

  class ZoneChecker {
    var state: map<string, DroneZoneState>
    var lastPrune: Ids.Option<real>
    var enteredTotal: int
    var exitedTotal: int
    var friendlyTotal: int

    ghost var tracking: Tracking
    /** What each worker has in hand. */
    ghost var hands: seq<Catch>
    /** No index answer so far has listed a zone twice that the drone was entering. */
    ghost var clean: bool

    ghost predicate Mirrored()
      reads this`state, this`tracking, state.Values
    {
      && tracking.values.Keys == state.Keys
      && (forall i, j :: i in state && j in state && i != j ==> state[i] != state[j])
      && (forall id {:trigger Holds(state[id], tracking.values[id])} :: id in state ==>
        Holds(state[id], tracking.values[id]))
    }

    ghost function Balance(): int
      reads this
    {
      enteredTotal - exitedTotal + Net(hands)
    }

    ghost predicate Valid()
      reads this, state.Values
    {
      Mirrored() && Inv(tracking, Balance(), clean)
    }

    /** The worker is between two samples. */
    ghost predicate Free(w: nat)
      reads this`hands
    {
      w < |hands| && hands[w] == NOTHING
    }

    constructor (ghost workers: nat)
      ensures Valid() && tracking == Tracking(map[], map[], map[], 0) && clean
      ensures |hands| == workers && forall w :: 0 <= w < workers ==> Free(w)
      ensures enteredTotal == exitedTotal == friendlyTotal == 0 && lastPrune == Ids.None
    {
      state, lastPrune, enteredTotal, exitedTotal, friendlyTotal := map[], Ids.None, 0, 0, 0;
      tracking, hands, clean := Tracking(map[], map[], map[], 0), seq(workers, w => NOTHING), true;
      new;
      NetOfNothing(hands);
      assert Memberships(tracking.values) == {};
    }

    predicate Due(now: real)
      reads this`lastPrune
    {
      lastPrune.None? || now - lastPrune.value >= PRUNE_STATE_EVERY
    }

    method DropDrone(id: string)
      requires Valid() && id in state
      modifies this`state, this`tracking
      ensures Valid() && tracking == Forget(old(tracking), id) && state == old(state) - {id}
    {
      ForgetKeepsInv(tracking, Balance(), clean, id);
      state, tracking := state - {id}, Forget(tracking, id);
      forall d | d in state
        ensures Holds(state[d], tracking.values[d])
      {
        assert old(Holds(state[d], tracking.values[d]));
      }
    }

    method PruneLoop(now: real)
      requires Valid()
      modifies this`state, this`tracking
      ensures Valid() && tracking.values == Live(old(tracking).values, now)
      ensures state.Values <= old(state.Values)
    {
      var remaining := state.Keys;
      ghost var before := tracking.values;
      SparedEnds(before, now);
      while remaining != {}
        invariant Valid() && remaining <= state.Keys && state.Values <= old(state.Values)
        invariant tracking.values == Spared(before, now, remaining)
      {
        var id :| id in remaining;
        SparedStep(before, now, remaining, id);
        remaining := remaining - {id};
        PruneOne(id, now);
      }
    }

    method PruneOne(id: string, now: real)
      requires Valid() && id in state
      modifies this`state, this`tracking
      ensures Valid() && state.Values <= old(state.Values) && id in old(tracking).values
      ensures tracking.values ==
        old(tracking).values - if now - old(tracking).values[id].lastSeen > STALE_DRONE_STATE_AFTER then {id} else {}
      ensures state.Keys >= old(state.Keys) - {id}
    {
      assert Holds(state[id], tracking.values[id]);
      if now - state[id].lastSeen > STALE_DRONE_STATE_AFTER {
        DropDrone(id);
      }
    }

    method Prune(now: real)
      requires Valid()
      modifies this`state, this`tracking, this`lastPrune
      ensures Valid()
      ensures tracking.values == if old(Due(now)) then Live(old(tracking).values, now) else old(tracking).values
      ensures lastPrune == if old(Due(now)) then Ids.Some(now) else old(lastPrune)
      ensures !old(Due(now)) ==> tracking == old(tracking)
      ensures old(lastPrune).None? || now - old(lastPrune).value >= 10.0 ==>
        SeenWithin(old(tracking).values, now, 60.0, tracking.values) && lastPrune == Ids.Some(now)
      ensures old(lastPrune).Some? && now - old(lastPrune).value < 10.0 ==> tracking == old(tracking)
      ensures state.Values <= old(state.Values)
    {
      if Due(now) {
        lastPrune := Ids.Some(now);
        PruneLoop(now);
      }
    }

    // ---- diffZones ----

    /** The zones of the sample, and those among them the drone was not in. */
    method Sort(before: map<int, string>, current: seq<Zone>) returns (currentSet: map<int, string>, entered: seq<Zone>)
      ensures currentSet == NamesOf(current) && entered == NewZones(before, current)
    {
      currentSet, entered := map[], [];
      for i := 0 to |current|
        invariant currentSet == NamesOf(current[..i]) && entered == NewZones(before, current[..i])
      {
        assert current[..i + 1][..i] == current[..i];
        var zone := current[i];
        currentSet := currentSet[zone.id := zone.name];
        if zone.id !in before {
          entered := entered + [zone];
        }
      }
      assert current[..|current|] == current;
    }

    /** The old zones that are not among the new ones, in the order the map yields them. */
    method FindLeft(before: map<int, string>, currentSet: map<int, string>) returns (exited: seq<Zone>)
      ensures LeftZones(before, currentSet, exited)
    {
      exited := [];
      var remaining := before.Keys;
      while remaining != {}
        invariant remaining <= before.Keys
        invariant forall i, j :: 0 <= i < j < |exited| ==> exited[i].id != exited[j].id
        invariant forall i :: 0 <= i < |exited| ==> Left(before, currentSet, exited[i]) && exited[i].id !in remaining
        invariant forall id :: id in before && id !in currentSet && id !in remaining ==>
          ZoneIndex.Zone(id, before[id]) in exited
      {
        var id := Sets.Pick(remaining);
        remaining := remaining - {id};
        if id !in currentSet {
          exited := exited + [ZoneIndex.Zone(id, before[id])];
        }
      }
    }

    method Refresh(id: string, now: real)
      requires Valid() && id in state
      modifies state[id], this`tracking
      ensures Valid() && id in old(tracking).values && tracking == Touch(old(tracking), id, now)
    {
      assert Holds(state[id], tracking.values[id]);
      TouchKeepsInv(tracking, Balance(), clean, id, now);
      state[id].lastSeen := now;
      tracking := Touch(tracking, id, now);
      forall d | d in state
        ensures Holds(state[d], tracking.values[d])
      {
        assert d != id ==> old(Holds(state[d], tracking.values[d]));
      }
    }

    /** As Mirrored, except that the drone may be new to the values, and they need not say yet what
        its state object st holds. */
    ghost predicate Pending(id: string, st: DroneZoneState)
      reads this`state, this`tracking, state.Values
    {
      && state.Keys == tracking.values.Keys + {id} && state[id] == st
      && (forall i, j :: i in state && j in state && i != j ==> state[i] != state[j])
      && (forall d {:trigger Holds(state[d], tracking.values[d])} :: d in state && d != id ==>
        Holds(state[d], tracking.values[d]))
    }

    /** The state object of the drone, which is created if there is none. */
    method StateFor(id: string) returns (st: DroneZoneState)
      requires Mirrored()
      modifies this`state
      ensures Pending(id, st) && st.zones == ZonesOf(tracking.values, id)
      ensures st in old(state.Values) || fresh(st)
    {
      if id in state {
        assert Holds(state[id], tracking.values[id]);
        assert state.Keys == tracking.values.Keys + {id};
        return state[id];
      }
      st := new DroneZoneState();
      state := state[id := st];
      forall d | d in state && d != id
        ensures Holds(state[d], tracking.values[d])
      {
        assert old(Holds(state[d], tracking.values[d]));
      }
    }

    /** The accepted sample is written to the state object. */
    method Store(id: string, st: DroneZoneState, currentSet: map<int, string>, timestamp: real, now: real,
                 ghost t: Tracking)
      requires Pending(id, st) && t.values == tracking.values[id := DroneValue(currentSet, timestamp, now)]
      modifies st, this`tracking
      ensures Mirrored() && tracking == t
    {
      st.zones := currentSet;
      st.lastTimestamp := timestamp;
      st.lastSeen := now;
      tracking := t;
      forall d | d in state
        ensures Holds(state[d], t.values[d])
      {
        assert d != id ==> old(Holds(state[d], tracking.values[d]));
      }
    }

    /** The changes of an accepted sample, stored. */
    method StoreChanges(id: string, timestamp: real, current: seq<Zone>, now: real) returns (entered: seq<Zone>,
                        exited: seq<Zone>)
      requires Mirrored()
      modifies this`state, this`tracking, state.Values
      ensures Mirrored()
      ensures entered == NewZones(ZonesOf(old(tracking).values, id), current)
      ensures LeftZones(ZonesOf(old(tracking).values, id), NamesOf(current), exited)
      ensures tracking == Accept(old(tracking), id, timestamp, current, exited, now)
    {
      var st := StateFor(id);
      var currentSet;
      currentSet, entered := Sort(st.zones, current);
      exited := FindLeft(st.zones, currentSet);
      Store(id, st, currentSet, timestamp, now, Accept(tracking, id, timestamp, current, exited, now));
    }

    /** The worker takes the changes in hand. */
    ghost method Take(w: nat, t: Tracking, id: string, timestamp: real, current: seq<Zone>, exited: seq<Zone>,
                      now: real)
      requires Mirrored() && Inv(t, Balance(), clean) && Free(w) && !Outdated(t.values, id, timestamp)
      requires LeftZones(ZonesOf(t.values, id), NamesOf(current), exited)
      requires tracking == Accept(t, id, timestamp, current, exited, now)
      modifies this`hands, this`clean
      ensures Valid() && hands == old(hands)[w := Catch(|NewZones(ZonesOf(t.values, id), current)|, |exited|)]
      ensures clean == (old(clean) && NewIdsDistinct(ZonesOf(t.values, id), current))
    {
      var caught := Catch(|NewZones(ZonesOf(t.values, id), current)|, |exited|);
      NetWith(hands, w, caught);
      hands, clean := hands[w := caught], clean && NewIdsDistinct(ZonesOf(t.values, id), current);
      AcceptKeepsInv(t, old(Balance()), old(clean), id, timestamp, current, exited, now, tracking, Balance(), clean);
    }

    method AcceptSample(ghost w: nat, id: string, timestamp: real, current: seq<Zone>, now: real)
      returns (entered: seq<Zone>, exited: seq<Zone>)
      requires Valid() && Free(w) && !Outdated(tracking.values, id, timestamp)
      modifies this`state, this`tracking, this`hands, this`clean, state.Values
      ensures Valid() && unchanged(`enteredTotal, `exitedTotal)
      ensures entered == NewZones(ZonesOf(old(tracking).values, id), current)
      ensures LeftZones(ZonesOf(old(tracking).values, id), NamesOf(current), exited)
      ensures tracking == Accept(old(tracking), id, timestamp, current, exited, now)
      ensures hands == old(hands)[w := Catch(|entered|, |exited|)]
      ensures clean == (old(clean) && NewIdsDistinct(ZonesOf(old(tracking).values, id), current))
    {
      ghost var t := tracking;
      entered, exited := StoreChanges(id, timestamp, current, now);
      Take(w, t, id, timestamp, current, exited, now);
    }

    /** The rest of diffZones once it has pruned. */
    method Diff(ghost w: nat, id: string, timestamp: real, current: seq<Zone>, now: real) returns (entered: seq<Zone>,
                exited: seq<Zone>)
      requires Valid() && Free(w)
      modifies this`state, this`tracking, this`hands, this`clean, state.Values
      ensures Valid() && unchanged(`enteredTotal, `exitedTotal)
      ensures Checked(old(tracking), tracking, id, timestamp, current, now, entered, exited)
      ensures clean == (old(clean) && (Outdated(old(tracking).values, id, timestamp)
        || NewIdsDistinct(ZonesOf(old(tracking).values, id), current)))
      ensures hands == old(hands)[w := Catch(|entered|, |exited|)]
    {
      if id in state {
        assert Holds(state[id], tracking.values[id]);
        if timestamp <= state[id].lastTimestamp {
          Refresh(id, now);
          return [], [];
        }
      }
      entered, exited := AcceptSample(w, id, timestamp, current, now);
    }

    /** The tracking after diffZones has pruned. */
    ghost predicate PrunedFrom(before: Tracking, wasDue: bool, now: real, after: Tracking) {
      && after.values == (if wasDue then Live(before.values, now) else before.values)
      && (!wasDue ==> after == before)
    }

    /** One locked section. The events are those of the change, and an outdated sample makes none. */
    method DiffZones(ghost w: nat, id: string, timestamp: real, current: seq<Zone>, now: real)
      returns (entered: seq<Zone>, exited: seq<Zone>, ghost pruned: Tracking)
      requires Valid() && Free(w)
      modifies this`state, this`tracking, this`lastPrune, this`hands, this`clean, state.Values
      ensures Valid() && unchanged(`enteredTotal, `exitedTotal)
      ensures PrunedFrom(old(tracking), old(Due(now)), now, pruned)
      ensures Checked(pruned, tracking, id, timestamp, current, now, entered, exited)
      ensures clean == (old(clean) && (Outdated(pruned.values, id, timestamp)
        || NewIdsDistinct(ZonesOf(pruned.values, id), current)))
      ensures hands == old(hands)[w := Catch(|entered|, |exited|)]
    {
      Prune(now);
      pruned := tracking;
      entered, exited := Diff(w, id, timestamp, current, now);
    }

    /** A worker adds what it has in hand, first the zones entered and then those left. */
    method AddEntered(ghost w: nat, n: nat)
      requires Valid() && w < |hands| && n == hands[w].entered
      modifies this`enteredTotal, this`hands
      ensures Valid() && enteredTotal == old(enteredTotal) + n && hands == old(hands)[w := old(hands[w]).(entered := 0)]
    {
      NetWith(hands, w, hands[w].(entered := 0));
      enteredTotal, hands := enteredTotal + n, hands[w := hands[w].(entered := 0)];
    }

    method AddExited(ghost w: nat, n: nat)
      requires Valid() && w < |hands| && n == hands[w].exited
      modifies this`exitedTotal, this`hands
      ensures Valid() && exitedTotal == old(exitedTotal) + n && hands == old(hands)[w := old(hands[w]).(exited := 0)]
    {
      NetWith(hands, w, hands[w].(exited := 0));
      exitedTotal, hands := exitedTotal + n, hands[w := hands[w].(exited := 0)];
    }

    method Settle(ghost w: nat, entered: nat, exited: nat)
      requires Valid() && w < |hands| && hands[w] == Catch(entered, exited)
      modifies this`enteredTotal, this`exitedTotal, this`hands
      ensures Valid() && hands == old(hands)[w := NOTHING]
      ensures enteredTotal == old(enteredTotal) + entered && exitedTotal == old(exitedTotal) + exited
    {
      AddEntered(w, entered);
      AddExited(w, exited);
    }

    /** However the sections of the workers interleave: whenever all of them are between two samples,
        the zones entered are those left, those the drones are in and those discarded by pruning. */
    lemma TotalsBalance()
      requires Valid() && clean && forall w :: 0 <= w < |hands| ==> Free(w)
      ensures enteredTotal - exitedTotal == |Memberships(tracking.values)| + tracking.discarded
    {
      forall w | 0 <= w < |hands|
        ensures hands[w] == NOTHING
      {
        assert Free(w);
      }
      NetOfNothing(hands);
    }

    /** A hostile sample, checked and counted. */
    method Check(ghost w: nat, id: string, timestamp: real, zones: seq<Zone>, now: real)
      returns (entered: seq<Zone>, exited: seq<Zone>, ghost pruned: Tracking)
      requires Valid() && Free(w)
      modifies this`state, this`tracking, this`lastPrune, this`hands, this`clean, this`enteredTotal, this`exitedTotal,
        state.Values
      ensures Valid() && hands == old(hands)
      ensures enteredTotal == old(enteredTotal) + |entered| && exitedTotal == old(exitedTotal) + |exited|
      ensures PrunedFrom(old(tracking), old(Due(now)), now, pruned)
      ensures Checked(pruned, tracking, id, timestamp, zones, now, entered, exited)
    {
      entered, exited, pruned := DiffZones(w, id, timestamp, zones, now);
      Settle(w, |entered|, |exited|);
    }

    /** One sample from start to end, when nobody interrupts: nothing stays in hand. */
    method Process(ghost w: nat, id: string, timestamp: real, isFriendly: bool, zones: seq<Zone>, now: real)
      returns (entered: seq<Zone>, exited: seq<Zone>, ghost pruned: Tracking)
      requires Valid() && Free(w)
      modifies this, state.Values
      ensures Valid() && hands == old(hands)
      ensures enteredTotal == old(enteredTotal) + |entered| && exitedTotal == old(exitedTotal) + |exited|
      ensures friendlyTotal == old(friendlyTotal) + if isFriendly then 1 else 0
      ensures if isFriendly then tracking == old(tracking) && entered == [] == exited
              else PrunedFrom(old(tracking), old(Due(now)), now, pruned)
                   && Checked(pruned, tracking, id, timestamp, zones, now, entered, exited)
    {
      if isFriendly {
        friendlyTotal := friendlyTotal + 1;
        return [], [], tracking;
      }
      entered, exited, pruned := Check(w, id, timestamp, zones, now);
    }

    // ---- Alarms ----

    method Raise(alarms: map<int, nat>, zones: set<int>) returns (raised: map<int, nat>)
      ensures forall z :: Count(raised, z) == Count(alarms, z) + if z in zones then 1 else 0
      ensures (forall z :: z in alarms ==> alarms[z] > 0) ==> forall z :: z in raised ==> raised[z] > 0
    {
      raised := alarms;
      var remaining := zones;
      while remaining != {}
        invariant remaining <= zones
        invariant forall z :: Count(raised, z) == Count(alarms, z) + if z in zones && z !in remaining then 1 else 0
        invariant (forall z :: z in alarms ==> alarms[z] > 0) ==> forall z :: z in raised ==> raised[z] > 0
      {
        var z := Sets.Pick(remaining);
        remaining := remaining - {z};
        raised := raised[z := Count(raised, z) + 1];
      }
    }

    /** For each zone, how many drones seen within the window are in it; no zone without any. */
    method CountAlarms(now: real) returns (alarms: map<int, nat>)
      requires Mirrored()
      ensures forall z :: Count(alarms, z) == |Alarming(tracking.values, now, z)|
      ensures forall z :: z in alarms ==> alarms[z] > 0
    {
      alarms := map[];
      var remaining := state.Keys;
      ghost var values := tracking.values;
      AlarmEnds(values, now);
      while remaining != {}
        invariant remaining <= state.Keys
        invariant forall z :: Count(alarms, z) == |AlarmingAmong(values, values.Keys - remaining, now, z)|
        invariant forall z :: z in alarms ==> alarms[z] > 0
      {
        var id :| id in remaining;
        AlarmStep(values, values.Keys - remaining, values.Keys - (remaining - {id}), now, id);
        remaining := remaining - {id};
        assert Holds(state[id], values[id]);
        if now - state[id].lastSeen <= ALARM_ACTIVE_WINDOW {
          alarms := Raise(alarms, state[id].zones.Keys);
        }
      }
      assert values.Keys - remaining == values.Keys;
    }

    method ActiveAlarms(now: real) returns (alarms: map<int, nat>)
      requires Valid()
      modifies this`state, this`tracking, this`lastPrune
      ensures Valid()
      ensures tracking.values == if old(Due(now)) then Live(old(tracking).values, now) else old(tracking).values
      ensures forall z :: Count(alarms, z) == |Alarming(tracking.values, now, z)|
      ensures forall z :: z in alarms ==> alarms[z] > 0
      ensures forall z :: z in alarms <==> InAlarm(tracking.values, now, z)
    {
      Prune(now);
      alarms := CountAlarms(now);
      forall z
        ensures z in alarms <==> InAlarm(tracking.values, now, z)
      {
        InAlarmIff(tracking.values, now, z);
        assert Count(alarms, z) == |Alarming(tracking.values, now, z)|;
      }
    }
  }

  /** Some drone in the zone was seen in the last 6 s. */
  ghost predicate InAlarm(values: map<string, DroneValue>, now: real, zone: int) {
    exists id :: id in values && zone in values[id].zones && values[id].lastSeen + 6.0 >= now
  }

  lemma InAlarmIff(values: map<string, DroneValue>, now: real, zone: int)
    ensures InAlarm(values, now, zone) <==> |Alarming(values, now, zone)| > 0
  {
    AlarmingMeans(values, now, zone);
    if |Alarming(values, now, zone)| > 0 {
      var id := Sets.Some(Alarming(values, now, zone));
    }
    if id :| id in values && zone in values[id].zones && values[id].lastSeen + 6.0 >= now {
      assert id in Alarming(values, now, zone);
    }
  }

  ghost function AlarmingAmong(values: map<string, DroneValue>, seen: set<string>, now: real, zone: int): set<string> {
    set id | id in Alarming(values, now, zone) && id in seen
  }

  lemma AlarmStep(values: map<string, DroneValue>, seen: set<string>, seen': set<string>, now: real, id: string)
    requires id in values && id !in seen && seen' == seen + {id}
    ensures forall z :: |AlarmingAmong(values, seen', now, z)|
                     == |AlarmingAmong(values, seen, now, z)| + if id in Alarming(values, now, z) then 1 else 0
  {
    forall z
      ensures |AlarmingAmong(values, seen', now, z)|
           == |AlarmingAmong(values, seen, now, z)| + if id in Alarming(values, now, z) then 1 else 0
    {
      var before := AlarmingAmong(values, seen, now, z);
      assert AlarmingAmong(values, seen', now, z) == if id in Alarming(values, now, z) then before + {id} else before;
    }
  }

  lemma AlarmEnds(values: map<string, DroneValue>, now: real)
    ensures forall z :: AlarmingAmong(values, values.Keys - values.Keys, now, z) == {}
    ensures forall z :: AlarmingAmong(values, values.Keys, now, z) == Alarming(values, now, z)
  {
  }
}
