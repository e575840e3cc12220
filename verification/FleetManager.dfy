// The mutable manager of internal/fleet: records behind pointers, updated in place under one
// lock. Every lock-held section is proved equal to a step of the value model in Fleet.dfy.
module FleetManager {
  import opened Plane
  import opened Fleet
  import opened FleetSafety
  import Ids

  class DroneRecord {
    const id: string
    const model: string
    const base: Waypoint
    const firmware: string
    var status: DroneStatus
    var battery: real
    var latitude: real
    var longitude: real
    var missionID: string

    function Value(): Drone
      reads this
    {
      Drone(id, model, status, battery, base, Waypoint(latitude, longitude), firmware, missionID)
    }

    constructor (d: Drone)
      ensures Value() == d
    {
      id, model, base, firmware := d.id, d.model, d.base, d.firmware;
      status, battery, missionID := d.status, d.battery, d.missionID;
      latitude, longitude := d.position.latitude, d.position.longitude;
    }
  }

  class MissionRecord {
    const id: string
    const name: string
    const droneID: string
    const waypoints: seq<Waypoint>
    var state: MissionState
    var progress: nat

    function Value(): Mission
      reads this
    {
      Mission(id, name, droneID, waypoints, state, progress)
    }

    constructor (m: Mission)
      ensures Value() == m
    {
      id, name, droneID, waypoints := m.id, m.name, m.droneID, m.waypoints;
      state, progress := m.state, m.progress;
    }
  }

  // ---- One iteration of the tick loop, on values ----

  function TickOne(h: (real, real) -> real, f: FleetState, id: string): FleetState
    requires id in f.drones
  {
    var d := f.drones[id];
    match d.status
    case EnRoute =>
      if d.missionID in f.missions then
        var a := Advance(h, d, f.missions[d.missionID]);
        f.(drones := f.drones[id := a.drone], missions := f.missions[d.missionID := a.mission],
           completed := f.completed + if a.changed && a.mission.state.Completed? then 1 else 0,
           aborted := f.aborted + if a.changed && a.mission.state.Aborted? then 1 else 0)
      else f.(drones := f.drones[id := d.(status := Returning)])
    case Holding =>
      var f' := f.(drones := f.drones[id := Hover(d)]);
      if Hover(d).status.Returning? && d.missionID in f.missions && f.missions[d.missionID].state.Paused? then
        f'.(missions := f.missions[d.missionID := f.missions[d.missionID].(state := Aborted)], aborted := f.aborted + 1)
      else f'
    case Returning => f.(drones := f.drones[id := ReturnHome(h, d)])
    case Charging => f.(drones := f.drones[id := Charge(d)])
    case _ => f
  }

  /** The missions one iteration reports as changed. */
  function ChangedBy(h: (real, real) -> real, f: FleetState, id: string): seq<Mission>
    requires id in f.drones
  {
    var d := f.drones[id];
    if d.missionID !in f.missions then []
    else
      var m := f.missions[d.missionID];
      if d.status.EnRoute? && Advance(h, d, m).changed then [Advance(h, d, m).mission]
      else if d.status.Holding? && Hover(d).status.Returning? && m.state.Paused? then [m.(state := Aborted)]
      else []
  }

  /** The ended missions whose drone has had its turn. */
  ghost function EndedOutside(h: (real, real) -> real, f: FleetState, s: MissionState,
                              remaining: set<string>): set<string> {
    set mid | mid in Ended(h, f, s) && f.missions[mid].droneID !in remaining
  }

  /** The fleet in the middle of a tick that has still to serve the remaining drones. */
  ghost function MidTick(h: (real, real) -> real, f: FleetState, remaining: set<string>): FleetState {
    FleetState(
      map id | id in f.drones :: if id in remaining then f.drones[id] else TickDrone(h, f, f.drones[id]),
      map mid | mid in f.missions ::
        if f.missions[mid].droneID in remaining then f.missions[mid] else TickMission(h, f, f.missions[mid]),
      f.nextID,
      f.completed + |EndedOutside(h, f, Completed, remaining)|,
      f.aborted + |EndedOutside(h, f, Aborted, remaining)|)
  }

  lemma TickMissionWithoutDrone(h: (real, real) -> real, f: FleetState, m: Mission)
    requires m.droneID !in f.drones
    ensures TickMission(h, f, m) == m
  {
  }

  lemma MidTickStart(h: (real, real) -> real, f: FleetState)
    ensures AllEndedOutside(h, f, f.drones.Keys) == {}
    ensures MidTick(h, f, f.drones.Keys) == f
  {
    forall mid | mid in f.missions && f.missions[mid].droneID !in f.drones
      ensures TickMission(h, f, f.missions[mid]) == f.missions[mid]
    {
      TickMissionWithoutDrone(h, f, f.missions[mid]);
    }
    assert EndedOutside(h, f, Completed, f.drones.Keys) == {};
    assert EndedOutside(h, f, Aborted, f.drones.Keys) == {};
    assert MidTick(h, f, f.drones.Keys).drones == f.drones;
    assert MidTick(h, f, f.drones.Keys).missions == f.missions;
  }

  lemma MidTickEnd(h: (real, real) -> real, f: FleetState)
    ensures MidTick(h, f, {}) == Tick(h, f)
    ensures AllEndedOutside(h, f, {}) == Ended(h, f, Completed) + Ended(h, f, Aborted)
  {
    assert EndedOutside(h, f, Completed, {}) == Ended(h, f, Completed);
    assert EndedOutside(h, f, Aborted, {}) == Ended(h, f, Aborted);
    assert MidTick(h, f, {}).drones == Tick(h, f).drones;
    assert MidTick(h, f, {}).missions == Tick(h, f).missions;
  }

  /** A mission is ended by the turn of its own drone only. */
  lemma EndedOutsideStep(h: (real, real) -> real, f: FleetState, s: MissionState, remaining: set<string>, id: string)
    requires Inv(h, f) && id in remaining && id in f.drones
    requires s.Completed? || s.Aborted?
    ensures var mid := f.drones[id].missionID;
      EndedOutside(h, f, s, remaining - {id})
        == EndedOutside(h, f, s, remaining) +
           (if mid in Ended(h, f, s) && f.missions[mid].droneID == id then {mid} else {})
  {
    forall m | m in f.missions && f.missions[m].droneID == id && m != f.drones[id].missionID
      ensures m !in Ended(h, f, s)
    {
      assert MissionInv(f, m);
      TickMissionCases(h, f, m);
    }
  }

  /** The turn of one drone, in terms of the fleet before the tick. */
  ghost function Turn(h: (real, real) -> real, f: FleetState, f0: FleetState, id: string): FleetState
    requires id in f.drones
  {
    var d, mid := f.drones[id], f.drones[id].missionID;
    var moved := f0.(drones := f0.drones[id := TickDrone(h, f, d)]);
    if mid in f.missions && Flies(f, id, mid) then
      var m' := TickMission(h, f, f.missions[mid]);
      moved.(missions := f0.missions[mid := m'],
             completed := f0.completed + if m'.state.Completed? then 1 else 0,
             aborted := f0.aborted + if m'.state.Aborted? then 1 else 0)
    else moved
  }

  lemma OnlyFlownMissionsChange(h: (real, real) -> real, f: FleetState, m: string)
    requires Inv(h, f) && m in f.missions
    requires f.missions[m].droneID in f.drones
    requires !(m == f.drones[f.missions[m].droneID].missionID && Flies(f, f.missions[m].droneID, m))
    ensures TickMission(h, f, f.missions[m]) == f.missions[m]
  {
    assert MissionInv(f, m);
    TickMissionCases(h, f, m);
  }

  lemma MidTickMissions(h: (real, real) -> real, f: FleetState, remaining: set<string>, id: string)
    requires Inv(h, f) && id in remaining && remaining <= f.drones.Keys
    ensures MidTick(h, f, remaining - {id}).missions == Turn(h, f, MidTick(h, f, remaining), id).missions
  {
    var mid := f.drones[id].missionID;
    forall m | m in f.missions && f.missions[m].droneID == id && !(m == mid && Flies(f, id, mid))
      ensures TickMission(h, f, f.missions[m]) == f.missions[m]
    {
      OnlyFlownMissionsChange(h, f, m);
    }
  }

  lemma MidTickCount(h: (real, real) -> real, f: FleetState, s: MissionState, remaining: set<string>, id: string)
    requires Inv(h, f) && id in remaining && remaining <= f.drones.Keys
    requires s.Completed? || s.Aborted?
    ensures var mid := f.drones[id].missionID;
      |EndedOutside(h, f, s, remaining - {id})| == |EndedOutside(h, f, s, remaining)|
        + (if mid in f.missions && Flies(f, id, mid) && TickMission(h, f, f.missions[mid]).state == s then 1 else 0)
  {
    var mid := f.drones[id].missionID;
    EndedOutsideStep(h, f, s, remaining, id);
    if mid in f.missions && f.missions[mid].droneID == id && !Flies(f, id, mid) {
      OnlyFlownMissionsChange(h, f, mid);
    }
  }

  lemma MidTickTurn(h: (real, real) -> real, f: FleetState, remaining: set<string>, id: string)
    requires Inv(h, f) && id in remaining && remaining <= f.drones.Keys
    ensures MidTick(h, f, remaining - {id}) == Turn(h, f, MidTick(h, f, remaining), id)
  {
    MidTickCount(h, f, Completed, remaining, id);
    MidTickCount(h, f, Aborted, remaining, id);
    MidTickMissions(h, f, remaining, id);
    assert MidTick(h, f, remaining - {id}).drones == Turn(h, f, MidTick(h, f, remaining), id).drones;
  }

  lemma TurnReports(h: (real, real) -> real, f: FleetState, remaining: set<string>, id: string)
    requires Inv(h, f) && id in remaining && remaining <= f.drones.Keys
    ensures var mid := f.drones[id].missionID;
      ChangedBy(h, MidTick(h, f, remaining), id)
        == if mid in f.missions && Flies(f, id, mid) && !TickMission(h, f, f.missions[mid]).state.InProgress()
           then [TickMission(h, f, f.missions[mid])] else []
  {
    var d := f.drones[id];
    var f0 := MidTick(h, f, remaining);
    assert DroneInv(h, f, id) && f0.drones[id] == d;
    if d.status.EnRoute? || d.status.Holding? {
      var m := f.missions[d.missionID];
      assert f0.missions[d.missionID] == m;
      TickMissionCases(h, f, d.missionID);
      if d.status.EnRoute? { AdvanceMovesBoth(h, d, m); }
    }
  }

  ghost function AllEndedOutside(h: (real, real) -> real, f: FleetState, remaining: set<string>): set<string> {
    EndedOutside(h, f, Completed, remaining) + EndedOutside(h, f, Aborted, remaining)
  }

  /** A flown mission ends in the tick exactly when it leaves the in-progress states. */
  lemma FlownMissionEnds(h: (real, real) -> real, f: FleetState, mid: string)
    requires Inv(h, f) && mid in f.missions && f.missions[mid].state.InProgress()
    ensures var m' := TickMission(h, f, f.missions[mid]);
      && m'.id == mid
      && (mid in Ended(h, f, Completed) <==> m'.state.Completed?)
      && (mid in Ended(h, f, Aborted) <==> m'.state.Aborted?)
      && (m'.state.InProgress() <==> !m'.state.Completed? && !m'.state.Aborted?)
  {
    assert MissionInv(f, mid);
    TickMissionCases(h, f, mid);
    if f.missions[mid].state.Active? { AdvanceMovesBoth(h, f.drones[f.missions[mid].droneID], f.missions[mid]); }
  }

  lemma EndedByTurn(h: (real, real) -> real, f: FleetState, remaining: set<string>, id: string)
    requires Inv(h, f) && id in remaining && remaining <= f.drones.Keys
    ensures var mid := f.drones[id].missionID;
      AllEndedOutside(h, f, remaining - {id}) == AllEndedOutside(h, f, remaining)
        + (if mid in f.missions && Flies(f, id, mid)
          && (mid in Ended(h, f, Completed) || mid in Ended(h, f, Aborted)) then {mid} else {})
  {
    var mid := f.drones[id].missionID;
    EndedOutsideStep(h, f, Completed, remaining, id);
    EndedOutsideStep(h, f, Aborted, remaining, id);
    if mid in f.missions && f.missions[mid].droneID == id && !Flies(f, id, mid) {
      OnlyFlownMissionsChange(h, f, mid);
    }
  }

  lemma TurnReportsWhatEnds(h: (real, real) -> real, f: FleetState, remaining: set<string>, id: string)
    requires Inv(h, f) && id in remaining && remaining <= f.drones.Keys
    ensures var mid, more := f.drones[id].missionID, ChangedBy(h, MidTick(h, f, remaining), id);
      if more == [] then AllEndedOutside(h, f, remaining - {id}) == AllEndedOutside(h, f, remaining)
      else
        && mid in f.missions && more == [TickMission(h, f, f.missions[mid])] && more[0].id == mid
        && f.missions[mid].droneID == id
        && AllEndedOutside(h, f, remaining - {id}) == AllEndedOutside(h, f, remaining) + {mid}
  {
    var mid := f.drones[id].missionID;
    TurnReports(h, f, remaining, id);
    EndedByTurn(h, f, remaining, id);
    if mid in f.missions && Flies(f, id, mid) {
      FlownMissionEnds(h, f, mid);
    }
  }

  /** A report of ended missions: each of them once, in its final state. */
  ghost predicate Reports(h: (real, real) -> real, f: FleetState, changed: seq<Mission>, ended: set<string>) {
    && (forall i :: 0 <= i < |changed| ==>
        changed[i].id in f.missions && changed[i] == TickMission(h, f, f.missions[changed[i].id]))
    && (forall i, j :: 0 <= i < j < |changed| ==> changed[i].id != changed[j].id)
    && (forall i :: 0 <= i < |changed| ==> changed[i].id in ended)
    && (forall mid :: mid in ended ==> exists i :: 0 <= i < |changed| && changed[i].id == mid)
  }

  lemma ReportsStep(h: (real, real) -> real, f: FleetState, changed: seq<Mission>, ended: set<string>, m: Mission)
    requires Reports(h, f, changed, ended)
    requires m.id in f.missions && m == TickMission(h, f, f.missions[m.id]) && m.id !in ended
    ensures Reports(h, f, changed + [m], ended + {m.id})
  {
    var longer := changed + [m];
    assert longer[|changed|] == m;
    forall mid | mid in ended ensures exists i :: 0 <= i < |longer| && longer[i].id == mid {
      var i :| 0 <= i < |changed| && changed[i].id == mid;
      assert longer[i].id == mid;
    }
  }

  lemma TickOneTurn(h: (real, real) -> real, f: FleetState, remaining: set<string>, id: string)
    requires Inv(h, f) && id in remaining && remaining <= f.drones.Keys
    ensures TickOne(h, MidTick(h, f, remaining), id) == Turn(h, f, MidTick(h, f, remaining), id)
  {
    var d := f.drones[id];
    var f0 := MidTick(h, f, remaining);
    assert DroneInv(h, f, id) && f0.drones[id] == d;
    if d.status.EnRoute? || d.status.Holding? {
      var m := f.missions[d.missionID];
      assert f0.missions[d.missionID] == m;
      TickMissionCases(h, f, d.missionID);
      if d.status.EnRoute? { AdvanceMovesBoth(h, d, m); }
    }
  }

  /** The turn of one drone, whichever it is, takes one mid-tick fleet to the next. */
  lemma TickOneAdvances(h: (real, real) -> real, f: FleetState, remaining: set<string>, id: string)
    requires Inv(h, f) && id in remaining && remaining <= f.drones.Keys
    ensures id in MidTick(h, f, remaining).drones
    ensures TickOne(h, MidTick(h, f, remaining), id) == MidTick(h, f, remaining - {id})
  {
    MidTickTurn(h, f, remaining, id);
    TickOneTurn(h, f, remaining, id);
  }

  /** What a turn adds to a report. */
  lemma ReportGrows(h: (real, real) -> real, f: FleetState, changed: seq<Mission>, ended: set<string>,
                    more: seq<Mission>, ended': set<string>)
    requires Reports(h, f, changed, ended)
    requires if more == [] then ended' == ended else
      && more == [more[0]] && more[0].id in f.missions && more[0] == TickMission(h, f, f.missions[more[0].id])
      && more[0].id !in ended && ended' == ended + {more[0].id}
    ensures Reports(h, f, changed + more, ended')
  {
    if more == [] {
      assert changed + more == changed;
    } else {
      ReportsStep(h, f, changed, ended, more[0]);
    }
  }

  /** The loop of tick, one turn further: state and report together. */
  lemma TurnAdvances(h: (real, real) -> real, f: FleetState, remaining: set<string>, id: string, changed: seq<Mission>)
    requires Inv(h, f) && id in remaining && remaining <= f.drones.Keys
    requires Reports(h, f, changed, AllEndedOutside(h, f, remaining))
    ensures id in MidTick(h, f, remaining).drones
    ensures TickOne(h, MidTick(h, f, remaining), id) == MidTick(h, f, remaining - {id})
    ensures Reports(h, f, changed + ChangedBy(h, MidTick(h, f, remaining), id), AllEndedOutside(h, f, remaining - {id}))
  {
    TickOneAdvances(h, f, remaining, id);
    TurnReportsWhatEnds(h, f, remaining, id);
    ReportGrows(h, f, changed, AllEndedOutside(h, f, remaining), ChangedBy(h, MidTick(h, f, remaining), id),
                AllEndedOutside(h, f, remaining - {id}));
  }

  // ---- The manager ----

  ghost predicate DroneIs(r: DroneRecord, v: Drone)
    reads r
  {
    r.Value() == v
  }

  ghost predicate MissionIs(r: MissionRecord, v: Mission)
    reads r
  {
    r.Value() == v
  }

  class Manager {
    const hypot: (real, real) -> real
    var drones: map<string, DroneRecord>
    var missions: map<string, MissionRecord>
    var nextID: int
    var completedTotal: int
    var abortedTotal: int

    /** What the records hold. */
    ghost var droneValues: map<string, Drone>
    ghost var missionValues: map<string, Mission>

    ghost function State(): FleetState
      reads this
    {
      FleetState(droneValues, missionValues, nextID, completedTotal, abortedTotal)
    }

    /** Every key has a record of its own, and the values say what the records hold. */
    ghost predicate DronesMirrored()
      reads this`drones, this`droneValues, drones.Values
    {
      && droneValues.Keys == drones.Keys
      && (forall i, j :: i in drones && j in drones && i != j ==> drones[i] != drones[j])
      && (forall i {:trigger DroneIs(drones[i], droneValues[i])} :: i in drones ==> DroneIs(drones[i], droneValues[i]))
    }

    ghost predicate MissionsMirrored()
      reads this`missions, this`missionValues, missions.Values
    {
      && missionValues.Keys == missions.Keys
      && (forall i, j :: i in missions && j in missions && i != j ==> missions[i] != missions[j])
      && (forall m {:trigger MissionIs(missions[m], missionValues[m])} :: m in missions ==>
        MissionIs(missions[m], missionValues[m]))
    }

    ghost predicate Mirrored()
      reads this`drones, this`missions, this`droneValues, this`missionValues, drones.Values, missions.Values
    {
      DronesMirrored() && MissionsMirrored()
    }

    /** As Mirrored, except that the values need not say yet what one drone and one mission hold. */
    ghost predicate MirroredBut(id: string, mid: string)
      reads this`drones, this`missions, this`droneValues, this`missionValues, drones.Values, missions.Values
    {
      && droneValues.Keys == drones.Keys && missionValues.Keys == missions.Keys
      && (forall i, j :: i in drones && j in drones && i != j ==> drones[i] != drones[j])
      && (forall i, j :: i in missions && j in missions && i != j ==> missions[i] != missions[j])
      && (forall i {:trigger DroneIs(drones[i], droneValues[i])} :: i in drones && i != id ==>
        DroneIs(drones[i], droneValues[i]))
      && (forall m {:trigger MissionIs(missions[m], missionValues[m])} :: m in missions && m != mid ==>
        MissionIs(missions[m], missionValues[m]))
    }

    ghost predicate Valid()
      reads this, drones.Values, missions.Values
    {
      Mirrored() && IsHypot(hypot) && Inv(hypot, State())
    }

    constructor (hypot: (real, real) -> real)
      requires IsHypot(hypot)
      ensures Valid() && this.hypot == hypot
      ensures State() == FleetState(map[], map[], 0, 0, 0)
      ensures fresh(drones.Values) && fresh(missions.Values)
    {
      this.hypot := hypot;
      drones, missions, nextID, completedTotal, abortedTotal := map[], map[], 0, 0, 0;
      droneValues, missionValues := map[], map[];
    }

    /** Brings the values up to date after one drone and one mission have changed. */
    ghost method Mirror(id: string, mid: string)
      requires MirroredBut(id, mid) && id in drones
      modifies this`droneValues, this`missionValues
      ensures Mirrored()
      ensures droneValues == old(droneValues)[id := drones[id].Value()]
      ensures missionValues == if mid in missions then old(missionValues)[mid := missions[mid].Value()]
        else old(missionValues)
    {
      droneValues := droneValues[id := drones[id].Value()];
      missionValues := if mid in missions then missionValues[mid := missions[mid].Value()] else missionValues;
      forall i | i in drones
        ensures DroneIs(drones[i], droneValues[i])
      {
        assert i != id ==> old(DroneIs(drones[i], droneValues[i]));
      }
      forall m | m in missions
        ensures MissionIs(missions[m], missionValues[m])
      {
        assert m != mid ==> old(MissionIs(missions[m], missionValues[m]));
      }
    }

    method StoreDrone(d: Drone)
      requires DronesMirrored()
      modifies this`drones, this`droneValues
      ensures DronesMirrored() && droneValues == old(droneValues)[d.id := d]
      ensures fresh(drones.Values - old(drones.Values))
    {
      var stored := new DroneRecord(d);
      drones, droneValues := drones[d.id := stored], droneValues[d.id := d];
      forall i | i in drones
        ensures DroneIs(drones[i], droneValues[i])
      {
        assert i != d.id ==> old(DroneIs(drones[i], droneValues[i]));
      }

    }

    method StoreMission(m: Mission)
      requires MissionsMirrored()
      modifies this`missions, this`missionValues
      ensures MissionsMirrored() && missionValues == old(missionValues)[m.id := m]
      ensures fresh(missions.Values - old(missions.Values))
    {
      var stored := new MissionRecord(m);
      missions, missionValues := missions[m.id := stored], missionValues[m.id := m];
      forall i | i in missions
        ensures MissionIs(missions[i], missionValues[i])
      {
        assert i != m.id ==> old(MissionIs(missions[i], missionValues[i]));
      }

    }

    method AddDrone(d: Drone) returns (reply: Reply)
      requires Valid()
      modifies this`drones, this`droneValues
      ensures Valid() && State() == Fleet.AddDrone(old(State()), d).fleet
      ensures reply == Fleet.AddDrone(old(State()), d).reply
      ensures fresh(drones.Values - old(drones.Values))
    {
      AddDroneKeepsInv(hypot, State(), d);
      if d.id == "" || d.model == "" {
        return Refused(InvalidDrone);
      }
      var parked := d.(status := Idle, battery := FULL_BATTERY, position := d.base, missionID := "");
      if d.id in drones {
        return Refused(DroneExists);
      }
      StoreDrone(parked);
      reply := Accepted;
    }

    method AdvanceMission(drone: DroneRecord, mission: MissionRecord) returns (missionChanged: bool)
      modifies drone, mission, this`completedTotal, this`abortedTotal
      ensures var a := Advance(hypot, old(drone.Value()), old(mission.Value()));
        && drone.Value() == a.drone && mission.Value() == a.mission && missionChanged == a.changed
        && completedTotal == old(completedTotal) + (if a.changed && a.mission.state.Completed? then 1 else 0)
        && abortedTotal == old(abortedTotal) + (if a.changed && a.mission.state.Aborted? then 1 else 0)
    {
      drone.battery := ClampBattery(drone.battery - DRAIN_PER_TICK);
      if drone.battery <= LOW_BATTERY {
        mission.state := Aborted;
        drone.status := Returning;
        abortedTotal := abortedTotal + 1;
        return true;
      }
      if mission.progress >= |mission.waypoints| {
        mission.state := Completed;
        drone.status := Returning;
        completedTotal := completedTotal + 1;
        return true;
      }
      var target := mission.waypoints[mission.progress];
      var move := MoveToward(hypot, Waypoint(drone.latitude, drone.longitude), target);
      drone.latitude, drone.longitude := move.position.latitude, move.position.longitude;
      if move.reached {
        mission.progress := mission.progress + 1;
        if mission.progress >= |mission.waypoints| {
          mission.state := Completed;
          drone.status := Returning;
          completedTotal := completedTotal + 1;
          return true;
        }
      }
      return false;
    }

    method ReturnHome(drone: DroneRecord)
      modifies drone
      ensures drone.Value() == Fleet.ReturnHome(hypot, old(drone.Value()))
    {
      drone.battery := ClampBattery(drone.battery - HOVER_DRAIN);
      var move := MoveToward(hypot, Waypoint(drone.latitude, drone.longitude), drone.base);
      drone.latitude, drone.longitude := move.position.latitude, move.position.longitude;
      if move.reached {
        drone.missionID := "";
        if drone.battery >= FULL_BATTERY {
          drone.status := Idle;
        } else {
          drone.status := Charging;
        }
      }
    }

    /** The en-route branch of the loop. */
    method ServeEnRoute(id: string) returns (changed: seq<Mission>)
      requires Mirrored() && id in drones && drones[id].status.EnRoute?
      modifies drones.Values, missions.Values, this`droneValues, this`missionValues, this`completedTotal,
        this`abortedTotal
      ensures unchanged(`drones, `missions) && Mirrored() && id in old(droneValues)
      ensures changed == ChangedBy(hypot, old(State()), id)
      ensures State() == TickOne(hypot, old(State()), id)
    {
      changed := [];
      var drone := drones[id];
      assert DroneIs(drone, droneValues[id]);
      var mid := drone.missionID;
      if mid in missions {
        var mission := missions[mid];
        assert MissionIs(mission, missionValues[mid]);
        var done := AdvanceMission(drone, mission);
        if done { changed := [mission.Value()]; }
      } else {
        drone.status := Returning;
      }
      Mirror(id, mid);
    }

    /** A holding drone turns for home when its battery is low, and aborts its mission if that is paused. */
    method HoldDrone(drone: DroneRecord, mission: MissionRecord?) returns (changed: seq<Mission>)
      modifies drone, mission, this`abortedTotal
      ensures drone.Value() == Hover(old(drone.Value()))
      ensures var aborts := Hover(old(drone.Value())).status.Returning? && mission != null
        && old(mission.state).Paused?;
        && (mission != null ==> mission.Value() == if aborts then old(mission.Value()).(state := Aborted)
          else old(mission.Value()))
        && abortedTotal == old(abortedTotal) + (if aborts then 1 else 0)
        && changed == if aborts then [mission.Value()] else []
      requires drone.status.Holding?
    {
      changed := [];
      drone.battery := ClampBattery(drone.battery - HOVER_DRAIN);
      if drone.battery <= LOW_BATTERY {
        if mission != null && mission.state.Paused? {
          mission.state := Aborted;
          abortedTotal := abortedTotal + 1;
          changed := [mission.Value()];
        }
        drone.status := Returning;
      }
    }

    /** The holding branch. */
    method ServeHolding(id: string) returns (changed: seq<Mission>)
      requires Mirrored() && id in drones && drones[id].status.Holding?
      modifies drones.Values, missions.Values, this`droneValues, this`missionValues, this`abortedTotal
      ensures unchanged(`drones, `missions) && Mirrored() && id in old(droneValues)
      ensures changed == ChangedBy(hypot, old(State()), id)
      ensures State() == TickOne(hypot, old(State()), id)
    {
      var drone := drones[id];
      assert DroneIs(drone, droneValues[id]);
      var mid := drone.missionID;
      if mid in missions {
        assert MissionIs(missions[mid], missionValues[mid]);
        changed := HoldDrone(drone, missions[mid]);
      } else {
        changed := HoldDrone(drone, null);
      }
      Mirror(id, mid);
    }

    method ChargeDrone(drone: DroneRecord)
      modifies drone
      ensures drone.Value() == Charge(old(drone.Value()))
    {
      drone.battery := ClampBattery(drone.battery + CHARGE_PER_TICK);
      if drone.battery >= FULL_BATTERY {
        drone.battery := FULL_BATTERY;
        drone.status := Idle;
      }
    }

    /** The other branches: nothing but the drone changes. */
    method ServeAlone(id: string)
      requires Mirrored() && id in drones && (drones[id].status.Returning? || drones[id].status.Charging?)
      modifies drones[id], this`droneValues, this`missionValues
      ensures Mirrored() && id in old(droneValues) && unchanged(`missionValues)
      ensures droneValues == old(droneValues)[id := if old(droneValues)[id].status.Returning?
        then Fleet.ReturnHome(hypot, old(droneValues)[id]) else Charge(old(droneValues)[id])]
    {
      assert DroneIs(drones[id], droneValues[id]);
      ghost var before := missionValues;
      if drones[id].status.Returning? {
        ReturnHome(drones[id]);
      } else {
        ChargeDrone(drones[id]);
      }
      droneValues := droneValues[id := drones[id].Value()];
      forall i | i in drones
        ensures DroneIs(drones[i], droneValues[i])
      {
        assert i != id ==> old(DroneIs(drones[i], droneValues[i]));
      }

    }

    /** One iteration of the loop in tick. */
    method ServeDrone(id: string) returns (changed: seq<Mission>)
      requires Mirrored() && id in drones
      modifies drones.Values, missions.Values, this`droneValues, this`missionValues, this`completedTotal,
        this`abortedTotal
      ensures unchanged(`drones, `missions) && Mirrored() && id in old(droneValues)
      ensures changed == ChangedBy(hypot, old(State()), id)
      ensures State() == TickOne(hypot, old(State()), id)
    {
      changed := [];
      assert DroneIs(drones[id], droneValues[id]);
      match drones[id].status {
        case EnRoute =>
          changed := ServeEnRoute(id);
        case Holding =>
          changed := ServeHolding(id);
        case Returning =>
          ServeAlone(id);
        case Charging =>
          ServeAlone(id);
        case _ =>
      }
    }

    /** The loop may visit the drones in any order; the outcome is the same. */
    method Tick() returns (changed: seq<Mission>)
      requires Valid()
      modifies drones.Values, missions.Values, this`droneValues, this`missionValues, this`completedTotal,
        this`abortedTotal
      ensures Valid() && State() == Fleet.Tick(hypot, old(State())) && unchanged(`drones, `missions)
      ensures Reports(hypot, old(State()), changed,
                      Ended(hypot, old(State()), Completed) + Ended(hypot, old(State()), Aborted))
    {
      TickKeepsInv(hypot, State());
      changed := TickLocked();
    }

    method TickLocked() returns (changed: seq<Mission>)
      requires Mirrored() && Inv(hypot, State())
      modifies drones.Values, missions.Values, this`droneValues, this`missionValues, this`completedTotal,
        this`abortedTotal
      ensures Mirrored() && State() == Fleet.Tick(hypot, old(State())) && unchanged(`drones, `missions)
      ensures Reports(hypot, old(State()), changed,
                      Ended(hypot, old(State()), Completed) + Ended(hypot, old(State()), Aborted))
    {
      changed := [];
      ghost var before := State();
      var remaining := drones.Keys;
      MidTickStart(hypot, before);
      while remaining != {}
        invariant remaining <= drones.Keys && drones.Keys == before.drones.Keys
        invariant unchanged(`drones, `missions) && Mirrored()
        invariant State() == MidTick(hypot, before, remaining)
        invariant Reports(hypot, before, changed, AllEndedOutside(hypot, before, remaining))
        decreases remaining
      {
        var id :| id in remaining;
        TurnAdvances(hypot, before, remaining, id, changed);
        var more := ServeDrone(id);
        changed := changed + more;
        remaining := remaining - {id};
      }
      MidTickEnd(hypot, before);
    }

    /** Stored records are added in place of those with the same identifier; the first Load of a new
        manager makes it valid. */
    method Load(storedDrones: seq<Drone>, storedMissions: seq<Mission>)
      requires Mirrored()
      modifies this`drones, this`missions, this`nextID, this`droneValues, this`missionValues
      ensures Mirrored() && State() == LoadInto(old(State()), storedDrones, storedMissions)
      ensures fresh(drones.Values - old(drones.Values)) && fresh(missions.Values - old(missions.Values))
      ensures IsHypot(hypot) && old(State()) == FleetState(map[], map[], 0, 0, 0) ==>
        Valid() && State() == Fleet.Load(storedDrones, storedMissions)
    {
      LoadStoredDrones(storedDrones);
      LoadStoredMissions(storedMissions);
      if IsHypot(hypot) {
        LoadEstablishesInv(hypot, storedDrones, storedMissions);
      }
    }

    method LoadStoredDrones(storedDrones: seq<Drone>)
      requires DronesMirrored()
      modifies this`drones, this`droneValues
      ensures DronesMirrored() && droneValues == old(droneValues) + LoadDrones(storedDrones)
      ensures fresh(drones.Values - old(drones.Values))
    {
      ghost var before := droneValues;
      for i := 0 to |storedDrones|
        invariant DronesMirrored() && fresh(drones.Values - old(drones.Values))
        invariant droneValues == before + LoadDrones(storedDrones[..i])
      {
        LoadNext(storedDrones, i, before);
        StoreDrone(Parked(storedDrones[i]));
      }
      assert storedDrones[..|storedDrones|] == storedDrones;
    }

    method LoadStoredMissions(storedMissions: seq<Mission>)
      requires MissionsMirrored()
      modifies this`missions, this`missionValues, this`nextID
      ensures MissionsMirrored() && missionValues == old(missionValues) + LoadMissions(storedMissions)
        && nextID == MaxSeq(storedMissions)
      ensures fresh(missions.Values - old(missions.Values))
    {
      var maxSeq := 0;
      ghost var before := missionValues;
      for i := 0 to |storedMissions|
        invariant MissionsMirrored() && fresh(missions.Values - old(missions.Values))
        invariant missionValues == before + LoadMissions(storedMissions[..i]) && maxSeq == MaxSeq(storedMissions[..i])
      {
        LoadNextMission(storedMissions, i, before);
        StoreMission(Grounded(storedMissions[i]));
        var seqNo := MissionSeq(storedMissions[i].id);
        if seqNo > maxSeq {
          maxSeq := seqNo;
        }
      }
      assert storedMissions[..|storedMissions|] == storedMissions;
      nextID := maxSeq;
    }

    method FindOpenMission(id: string) returns (open: bool)
      requires Mirrored()
      ensures open == HasOpenMission(State(), id)
    {
      var unseen := missions.Keys;
      while unseen != {}
        invariant unseen <= missions.Keys
        invariant forall mid :: mid in missionValues.Keys - unseen && missionValues[mid].droneID == id ==>
          missionValues[mid].state.Completed? || missionValues[mid].state.Aborted?
        decreases unseen
      {
        var mid :| mid in unseen;
        var mission := missions[mid];
        assert MissionIs(mission, missionValues[mid]);
        if mission.droneID == id && mission.state != Completed && mission.state != Aborted {
          return true;
        }
        unseen := unseen - {mid};
      }
      return false;
    }

    method DropDrone(id: string)
      requires DronesMirrored() && id in drones
      modifies this`drones, this`droneValues
      ensures DronesMirrored() && droneValues == old(droneValues) - {id}
    {
      drones, droneValues := drones - {id}, droneValues - {id};
      assert forall i :: i in drones ==> old(DroneIs(drones[i], droneValues[i]));

    }

    method DropMission(mid: string)
      requires MissionsMirrored() && mid in missions
      modifies this`missions, this`missionValues
      ensures MissionsMirrored() && missionValues == old(missionValues) - {mid}
    {
      missions, missionValues := missions - {mid}, missionValues - {mid};

      assert forall m :: m in missions ==> old(MissionIs(missions[m], missionValues[m]));
    }

    method RemoveDrone(id: string) returns (reply: Reply)
      requires Valid()
      modifies this`drones, this`droneValues
      ensures Valid() && State() == Fleet.RemoveDrone(old(State()), id).fleet
      ensures reply == Fleet.RemoveDrone(old(State()), id).reply
    {
      RemoveDroneKeepsInv(hypot, State(), id);
      if id !in drones {
        return Refused(DroneNotFound);
      }
      assert DroneIs(drones[id], droneValues[id]);
      if drones[id].status.InFlight() {
        return Refused(DroneBusy);
      }
      var open := FindOpenMission(id);
      if open {
        return Refused(BadTransition);
      }
      DropDrone(id);
      reply := Accepted;
    }

    /** The first lock-held section of CreateMission. */
    method CheckMission(name: string, droneID: string, waypoints: seq<Waypoint>) returns (reply: Reply)
      requires Valid()
      ensures reply == Fleet.CheckMission(State(), name, droneID, waypoints)
    {
      if name == "" || droneID == "" || |waypoints| == 0 {
        return Refused(InvalidMission);
      }
      if droneID !in drones {
        return Refused(DroneNotFound);
      }
      return Accepted;
    }

    /** The second one, after the zone guard has been asked outside the lock. */
    method CommitMission(name: string, droneID: string, waypoints: seq<Waypoint>) returns (m: Mission)
      requires Valid() && nextID < Ids.MAX_INT64
      modifies this`missions, this`missionValues, this`nextID
      ensures Valid() && State() == Fleet.CommitMission(old(State()), name, droneID, waypoints)
      ensures m.id !in old(missions) && m.id in State().missions && State().missions[m.id] == m
      ensures fresh(missions.Values - old(missions.Values))
    {
      CommitMissionKeepsInv(hypot, State(), name, droneID, waypoints);
      MissionIDIsFresh(hypot, State());
      nextID := Ids.AddOneInt64(nextID);
      var id := MissionID(nextID);
      m := Mission(id, name, droneID, waypoints, Planned, 0);
      StoreMission(m);
    }

    method DeleteMission(mid: string) returns (reply: Reply)
      requires Valid()
      modifies this`missions, this`missionValues
      ensures Valid() && State() == Fleet.DeleteMission(old(State()), mid).fleet
      ensures reply == Fleet.DeleteMission(old(State()), mid).reply
    {
      DeleteMissionKeepsInv(hypot, State(), mid);
      if mid !in missions {
        return Refused(MissionNotFound);
      }
      assert MissionIs(missions[mid], missionValues[mid]);
      if missions[mid].state.InProgress() {
        return Refused(BadTransition);
      }
      DropMission(mid);
      reply := Accepted;
    }

    /** Launch, Pause, Resume and Abort share this frame: look both records up, then let the
        command refuse or change them. */
    method MutateMission(c: MissionCommand, mid: string) returns (reply: Reply)
      requires Valid()
      modifies drones.Values, missions.Values, this`droneValues, this`missionValues, this`abortedTotal
      ensures Valid() && unchanged(`drones, `missions)
      ensures State() == Fleet.MutateMission(old(State()), c, mid).fleet
      ensures reply == Fleet.MutateMission(old(State()), c, mid).reply
    {
      MutateMissionKeepsInv(hypot, State(), c, mid);
      reply := MutateMissionLocked(c, mid);
    }

    method MutateMissionLocked(c: MissionCommand, mid: string) returns (reply: Reply)
      requires Mirrored()
      modifies drones.Values, missions.Values, this`droneValues, this`missionValues, this`abortedTotal
      ensures Mirrored() && unchanged(`drones, `missions)
      ensures State() == Fleet.MutateMission(old(State()), c, mid).fleet
      ensures reply == Fleet.MutateMission(old(State()), c, mid).reply
    {
      if mid !in missions {
        return Refused(MissionNotFound);
      }
      var mission := missions[mid];
      assert MissionIs(mission, missionValues[mid]);
      if mission.droneID !in drones {
        return Refused(DroneNotFound);
      }
      reply := MutatePair(c, mid, mission.droneID);
      assert droneValues == Fleet.MutateMission(old(State()), c, mid).fleet.drones;
      assert missionValues == Fleet.MutateMission(old(State()), c, mid).fleet.missions;
    }

    /** The command on the mission mid and the drone id. */
    method MutatePair(c: MissionCommand, mid: string, id: string) returns (reply: Reply)
      requires Mirrored() && mid in missions && id in drones
      modifies missions[mid], drones[id], this`droneValues, this`missionValues, this`abortedTotal
      ensures Mirrored() && mid in old(missionValues) && id in old(droneValues)
      ensures match ApplyMission(c, old(missionValues)[mid], old(droneValues)[id])
        case Rejected(e) =>
          && reply == Refused(e) && abortedTotal == old(abortedTotal)
          && droneValues == old(droneValues) && missionValues == old(missionValues)
        case Mutated(m, d, aborts) =>
          && reply == Accepted && abortedTotal == old(abortedTotal) + aborts
          && droneValues == old(droneValues)[id := d] && missionValues == old(missionValues)[mid := m]
    {
      assert MissionIs(missions[mid], missionValues[mid]) && DroneIs(drones[id], droneValues[id]);
      reply := ApplyTo(c, missions[mid], drones[id]);
      Mirror(id, mid);
    }

    method ApplyTo(c: MissionCommand, mission: MissionRecord, drone: DroneRecord) returns (reply: Reply)
      modifies mission, drone, this`abortedTotal
      ensures Did(c, mission, drone, reply)
    {
      match c {
        case Launch => reply := Launch(mission, drone);
        case Pause => reply := Pause(mission, drone);
        case Resume => reply := Resume(mission, drone);
        case Abort => reply := Abort(mission, drone);
      }
    }

    /** A command on two records does what its value form says, or leaves both alone. */
    twostate predicate Did(c: MissionCommand, mission: MissionRecord, drone: DroneRecord, reply: Reply)
      reads this, mission, drone
    {
      match ApplyMission(c, old(mission.Value()), old(drone.Value()))
      case Rejected(e) =>
        && reply == Refused(e) && mission.Value() == old(mission.Value()) && drone.Value() == old(drone.Value())
        && abortedTotal == old(abortedTotal)
      case Mutated(m, d, aborts) =>
        && reply == Accepted && mission.Value() == m && drone.Value() == d && abortedTotal == old(abortedTotal) + aborts
    }

    method Launch(mission: MissionRecord, drone: DroneRecord) returns (reply: Reply)
      modifies mission, drone
      ensures Did(MissionCommand.Launch, mission, drone, reply)
    {
      if mission.state != Planned && mission.state != Aborted && mission.state != Completed {
        return Refused(BadTransition);
      }
      if drone.status.InFlight() {
        return Refused(DroneBusy);
      }
      if drone.battery <= LOW_BATTERY {
        return Refused(BatteryLow);
      }
      mission.state := Active;
      mission.progress := 0;
      drone.status := EnRoute;
      drone.missionID := mission.id;
      return Accepted;
    }

    method Pause(mission: MissionRecord, drone: DroneRecord) returns (reply: Reply)
      modifies mission, drone
      ensures Did(MissionCommand.Pause, mission, drone, reply)
    {
      if mission.state != Active {
        return Refused(BadTransition);
      }
      mission.state := Paused;
      if drone.status == EnRoute {
        drone.status := Holding;
      }
      return Accepted;
    }

    method Resume(mission: MissionRecord, drone: DroneRecord) returns (reply: Reply)
      modifies mission, drone
      ensures Did(MissionCommand.Resume, mission, drone, reply)
    {
      if mission.state != Paused {
        return Refused(BadTransition);
      }
      mission.state := Active;
      if drone.status == Holding {
        drone.status := EnRoute;
      }
      return Accepted;
    }

    method Abort(mission: MissionRecord, drone: DroneRecord) returns (reply: Reply)
      modifies mission, drone, this`abortedTotal
      ensures Did(MissionCommand.Abort, mission, drone, reply)
    {
      if mission.state != Active && mission.state != Paused {
        return Refused(BadTransition);
      }
      mission.state := Aborted;
      drone.status := Returning;
      abortedTotal := abortedTotal + 1;
      return Accepted;
    }

    /** What Recall does once it holds the drone and, if there is one, the mission it flies. */
    method TurnBack(drone: DroneRecord, mission: MissionRecord?)
      modifies drone, mission, this`abortedTotal
      ensures drone.Value() == old(drone.Value()).(status := Returning)
      ensures var aborts := mission != null && old(mission.state).InProgress();
        && (mission != null ==> mission.Value() == if aborts then old(mission.Value()).(state := Aborted)
          else old(mission.Value()))
        && abortedTotal == old(abortedTotal) + (if aborts then 1 else 0)
    {
      if mission != null && mission.state.InProgress() {
        mission.state := Aborted;
        abortedTotal := abortedTotal + 1;
      }
      drone.status := Returning;
    }

    method Recall(id: string) returns (reply: Reply)
      requires Valid()
      modifies drones.Values, missions.Values, this`droneValues, this`missionValues, this`abortedTotal
      ensures Valid() && unchanged(`drones, `missions)
      ensures State() == Fleet.Recall(old(State()), id).fleet
      ensures reply == Fleet.Recall(old(State()), id).reply
    {
      RecallKeepsInv(hypot, State(), id);
      reply := RecallLocked(id);
    }

    method RecallLocked(id: string) returns (reply: Reply)
      requires Mirrored()
      modifies drones.Values, missions.Values, this`droneValues, this`missionValues, this`abortedTotal
      ensures Mirrored() && unchanged(`drones, `missions)
      ensures State() == Fleet.Recall(old(State()), id).fleet
      ensures reply == Fleet.Recall(old(State()), id).reply
    {
      if id !in drones {
        return Refused(DroneNotFound);
      }
      var drone := drones[id];
      assert DroneIs(drone, droneValues[id]);
      if !drone.status.InFlight() {
        return Refused(BadTransition);
      }
      var mid := drone.missionID;
      if mid in missions {
        assert MissionIs(missions[mid], missionValues[mid]);
        TurnBack(drone, missions[mid]);
      } else {
        TurnBack(drone, null);
      }
      reply := Accepted;
      Mirror(id, mid);
    }
  }
}
