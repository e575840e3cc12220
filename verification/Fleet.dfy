// The own-fleet state machine of internal/fleet as a function on values: one step per
// lock-held section of the manager. FleetManager.dfy proves the mutable manager against it.
module Fleet {
  import opened Plane
  import Ids

  const STEP_DEGREES := 0.01
  const DRAIN_PER_TICK := 1.5
  const HOVER_DRAIN := 0.3
  const CHARGE_PER_TICK := 5.0
  const LOW_BATTERY := 20.0
  const FULL_BATTERY := 100.0

  datatype DroneStatus = Idle | EnRoute | Holding | Returning | Charging | Maintenance | Offline
  {
    predicate InFlight() { EnRoute? || Holding? || Returning? }
  }

  datatype MissionState = Planned | Active | Paused | Completed | Aborted
  {
    predicate InProgress() { Active? || Paused? }
  }

  datatype Waypoint = Waypoint(latitude: real, longitude: real)

  datatype Drone = Drone(id: string, model: string, status: DroneStatus, battery: real,
                         base: Waypoint, position: Waypoint, firmware: string, missionID: string)

  datatype Mission = Mission(id: string, name: string, droneID: string, waypoints: seq<Waypoint>,
                             state: MissionState, progress: nat)

  datatype FleetState = FleetState(drones: map<string, Drone>, missions: map<string, Mission>,
                                   nextID: int, completed: int, aborted: int)

  datatype FleetError = DroneNotFound | MissionNotFound | DroneExists | DroneBusy | InvalidDrone
    | InvalidMission | BatteryLow | BadTransition

  datatype Reply = Accepted | Refused(error: FleetError)

  datatype Step = Step(fleet: FleetState, reply: Reply)

  function Dist(h: (real, real) -> real, a: Waypoint, b: Waypoint): real {
    h(b.latitude - a.latitude, b.longitude - a.longitude)
  }

  function ClampBattery(v: real): real {
    if v < 0.0 then 0.0 else if v > FULL_BATTERY then FULL_BATTERY else v
  }

  datatype Move = Move(position: Waypoint, reached: bool)

  function MoveToward(h: (real, real) -> real, from: Waypoint, target: Waypoint): Move {
    var dLat := target.latitude - from.latitude;
    var dLon := target.longitude - from.longitude;
    var dist := h(dLat, dLon);
    if dist <= STEP_DEGREES || dist == 0.0 then Move(target, true)
    else
      var ratio := STEP_DEGREES / dist;
      Move(Waypoint(from.latitude + dLat * ratio, from.longitude + dLon * ratio), false)
  }

  // ---- One drone, one tick ----

  datatype Advanced = Advanced(drone: Drone, mission: Mission, changed: bool)

  /** advanceMission: the drone and its mission after one en-route tick. */
  function Advance(h: (real, real) -> real, d: Drone, m: Mission): Advanced {
    var drained := d.(battery := ClampBattery(d.battery - DRAIN_PER_TICK));
    if drained.battery <= LOW_BATTERY then
      Advanced(drained.(status := Returning), m.(state := Aborted), true)
    else if m.progress >= |m.waypoints| then
      Advanced(drained.(status := Returning), m.(state := Completed), true)
    else
      var move := MoveToward(h, d.position, m.waypoints[m.progress]);
      var moved := drained.(position := move.position);
      if move.reached then
        var next := m.(progress := m.progress + 1);
        if next.progress >= |m.waypoints| then
          Advanced(moved.(status := Returning), next.(state := Completed), true)
        else Advanced(moved, next, false)
      else Advanced(moved, m, false)
  }

  function Hover(d: Drone): Drone {
    var drained := d.(battery := ClampBattery(d.battery - HOVER_DRAIN));
    if drained.battery <= LOW_BATTERY then drained.(status := Returning) else drained
  }

  function ReturnHome(h: (real, real) -> real, d: Drone): Drone {
    var move := MoveToward(h, d.position, d.base);
    var moved := d.(battery := ClampBattery(d.battery - HOVER_DRAIN), position := move.position);
    if move.reached then
      moved.(missionID := "", status := if moved.battery >= FULL_BATTERY then Idle else Charging)
    else moved
  }

  function Charge(d: Drone): Drone {
    var charged := d.(battery := ClampBattery(d.battery + CHARGE_PER_TICK));
    if charged.battery >= FULL_BATTERY then charged.(battery := FULL_BATTERY, status := Idle) else charged
  }

  function TickDrone(h: (real, real) -> real, f: FleetState, d: Drone): Drone {
    match d.status
    case EnRoute =>
      if d.missionID in f.missions then Advance(h, d, f.missions[d.missionID]).drone
      else d.(status := Returning)
    case Holding => Hover(d)
    case Returning => ReturnHome(h, d)
    case Charging => Charge(d)
    case _ => d
  }

  /** What the tick of its own drone does to a mission. */
  function TickMission(h: (real, real) -> real, f: FleetState, m: Mission): Mission {
    if m.droneID in f.drones && f.drones[m.droneID].missionID == m.id then
      var d := f.drones[m.droneID];
      if d.status.EnRoute? then Advance(h, d, m).mission
      else if d.status.Holding? && m.state.Paused? && Hover(d).status.Returning? then m.(state := Aborted)
      else m
    else m
  }

  function InProgress(f: FleetState): set<string> {
    set mid | mid in f.missions && f.missions[mid].state.InProgress()
  }

  /** The missions whose state the tick turns into s. */
  function Ended(h: (real, real) -> real, f: FleetState, s: MissionState): set<string> {
    set mid | mid in f.missions && f.missions[mid].state != s && TickMission(h, f, f.missions[mid]).state == s
  }

  function Tick(h: (real, real) -> real, f: FleetState): FleetState {
    FleetState(
      map id | id in f.drones :: TickDrone(h, f, f.drones[id]),
      map mid | mid in f.missions :: TickMission(h, f, f.missions[mid]),
      f.nextID,
      f.completed + |Ended(h, f, Completed)|,
      f.aborted + |Ended(h, f, Aborted)|)
  }

  // ---- Commands ----

  function Parked(d: Drone): Drone {
    d.(status := Idle, battery := FULL_BATTERY, position := d.base, missionID := "")
  }

  function AddDrone(f: FleetState, d: Drone): Step {
    if d.id == "" || d.model == "" then Step(f, Refused(InvalidDrone))
    else if d.id in f.drones then Step(f, Refused(DroneExists))
    else Step(f.(drones := f.drones[d.id := Parked(d)]), Accepted)
  }

  predicate HasOpenMission(f: FleetState, droneID: string) {
    exists mid :: mid in f.missions && f.missions[mid].droneID == droneID
      && !f.missions[mid].state.Completed? && !f.missions[mid].state.Aborted?
  }

  function RemoveDrone(f: FleetState, id: string): Step {
    if id !in f.drones then Step(f, Refused(DroneNotFound))
    else if f.drones[id].status.InFlight() then Step(f, Refused(DroneBusy))
    else if HasOpenMission(f, id) then Step(f, Refused(BadTransition))
    else Step(f.(drones := f.drones - {id}), Accepted)
  }

  function MissionID(n: int): string { Ids.SequenceID("mission", n) }

  /** The first lock-held section of CreateMission only looks. */
  function CheckMission(f: FleetState, name: string, droneID: string, waypoints: seq<Waypoint>): Reply {
    if name == "" || droneID == "" || waypoints == [] then Refused(InvalidMission)
    else if droneID !in f.drones then Refused(DroneNotFound)
    else Accepted
  }

  /** The second one stores; the drone may have been removed in between. */
  function CommitMission(f: FleetState, name: string, droneID: string, waypoints: seq<Waypoint>): FleetState {
    var n := Ids.AddOneInt64(f.nextID);
    f.(nextID := n, missions := f.missions[MissionID(n) := Mission(MissionID(n), name, droneID, waypoints, Planned, 0)])
  }

  function DeleteMission(f: FleetState, mid: string): Step {
    if mid !in f.missions then Step(f, Refused(MissionNotFound))
    else if f.missions[mid].state.InProgress() then Step(f, Refused(BadTransition))
    else Step(f.(missions := f.missions - {mid}), Accepted)
  }

  datatype Mutation = Mutated(mission: Mission, drone: Drone, aborts: int) | Rejected(error: FleetError)

  function ApplyLaunch(m: Mission, d: Drone): Mutation {
    if !m.state.Planned? && !m.state.Aborted? && !m.state.Completed? then Rejected(BadTransition)
    else if d.status.InFlight() then Rejected(DroneBusy)
    else if d.battery <= LOW_BATTERY then Rejected(BatteryLow)
    else Mutated(m.(state := Active, progress := 0), d.(status := EnRoute, missionID := m.id), 0)
  }

  function ApplyPause(m: Mission, d: Drone): Mutation {
    if !m.state.Active? then Rejected(BadTransition)
    else Mutated(m.(state := Paused), if d.status.EnRoute? then d.(status := Holding) else d, 0)
  }

  function ApplyResume(m: Mission, d: Drone): Mutation {
    if !m.state.Paused? then Rejected(BadTransition)
    else Mutated(m.(state := Active), if d.status.Holding? then d.(status := EnRoute) else d, 0)
  }

  function ApplyAbort(m: Mission, d: Drone): Mutation {
    if !m.state.Active? && !m.state.Paused? then Rejected(BadTransition)
    else Mutated(m.(state := Aborted), d.(status := Returning), 1)
  }

  datatype MissionCommand = Launch | Pause | Resume | Abort

  function ApplyMission(c: MissionCommand, m: Mission, d: Drone): Mutation {
    match c
    case Launch => ApplyLaunch(m, d)
    case Pause => ApplyPause(m, d)
    case Resume => ApplyResume(m, d)
    case Abort => ApplyAbort(m, d)
  }

  function MutateMission(f: FleetState, c: MissionCommand, mid: string): Step {
    if mid !in f.missions then Step(f, Refused(MissionNotFound))
    else
      var m := f.missions[mid];
      if m.droneID !in f.drones then Step(f, Refused(DroneNotFound))
      else match ApplyMission(c, m, f.drones[m.droneID])
        case Rejected(e) => Step(f, Refused(e))
        case Mutated(m', d', aborts) =>
          Step(f.(missions := f.missions[mid := m'], drones := f.drones[m.droneID := d'],
                  aborted := f.aborted + aborts), Accepted)
  }

  function Recall(f: FleetState, id: string): Step {
    if id !in f.drones then Step(f, Refused(DroneNotFound))
    else
      var d := f.drones[id];
      if !d.status.InFlight() then Step(f, Refused(BadTransition))
      else
        var f' := f.(drones := f.drones[id := d.(status := Returning)]);
        if d.missionID in f.missions && f.missions[d.missionID].state.InProgress() then
          Step(f'.(missions := f.missions[d.missionID := f.missions[d.missionID].(state := Aborted)],
                   aborted := f.aborted + 1), Accepted)
        else Step(f', Accepted)
  }

  datatype Command =
    | AddDroneCmd(drone: Drone)
    | RemoveDroneCmd(id: string)
    | CommitMissionCmd(name: string, droneID: string, waypoints: seq<Waypoint>)
    | DeleteMissionCmd(mid: string)
    | MissionCmd(command: MissionCommand, mid: string)
    | RecallCmd(id: string)
    | TickCmd

  function Apply(h: (real, real) -> real, f: FleetState, c: Command): FleetState {
    match c
    case AddDroneCmd(d) => AddDrone(f, d).fleet
    case RemoveDroneCmd(id) => RemoveDrone(f, id).fleet
    case CommitMissionCmd(name, droneID, waypoints) =>
      if name == "" || droneID == "" || waypoints == [] then f else CommitMission(f, name, droneID, waypoints)
    case DeleteMissionCmd(mid) => DeleteMission(f, mid).fleet
    case MissionCmd(mc, mid) => MutateMission(f, mc, mid).fleet
    case RecallCmd(id) => Recall(f, id).fleet
    case TickCmd => Tick(h, f)
  }

  /** Any interleaving of commands and ticks. */
  function Run(h: (real, real) -> real, f: FleetState, cmds: seq<Command>): FleetState
    decreases |cmds|
  {
    if cmds == [] then f else Run(h, Apply(h, f, cmds[0]), cmds[1..])
  }

  // ---- Start-up ----

  function LoadDrones(stored: seq<Drone>): map<string, Drone> {
    if stored == [] then map[]
    else
      var d := stored[|stored| - 1];
      LoadDrones(stored[..|stored| - 1])[d.id := Parked(d)]
  }

  function Grounded(m: Mission): Mission {
    if m.state.InProgress() then m.(state := Planned, progress := 0) else m
  }

  function LoadMissions(stored: seq<Mission>): map<string, Mission> {
    if stored == [] then map[]
    else
      var m := stored[|stored| - 1];
      LoadMissions(stored[..|stored| - 1])[m.id := Grounded(m)]
  }

  function MissionSeq(id: string): int { Ids.ScanSequence("mission", id) }

  function MaxSeq(stored: seq<Mission>): (n: int)
    ensures 0 <= n <= Ids.MAX_INT64
    ensures forall i :: 0 <= i < |stored| ==> MissionSeq(stored[i].id) <= n
  {
    if stored == [] then 0
    else
      var rest := MaxSeq(stored[..|stored| - 1]);
      var seqNo := MissionSeq(stored[|stored| - 1].id);
      if seqNo > rest then seqNo else rest
  }

  /** The next stored record takes the place of what had its identifier. */
  lemma LoadNext(stored: seq<Drone>, i: nat, before: map<string, Drone>)
    requires i < |stored|
    ensures before + LoadDrones(stored[..i + 1]) ==
      (before + LoadDrones(stored[..i]))[stored[i].id := Parked(stored[i])]
  {
    assert stored[..i + 1][..i] == stored[..i];
  }

  lemma LoadNextMission(stored: seq<Mission>, i: nat, before: map<string, Mission>)
    requires i < |stored|
    ensures before + LoadMissions(stored[..i + 1]) ==
      (before + LoadMissions(stored[..i]))[stored[i].id := Grounded(stored[i])]
    ensures MaxSeq(stored[..i + 1])
      == if MissionSeq(stored[i].id) > MaxSeq(stored[..i]) then MissionSeq(stored[i].id) else MaxSeq(stored[..i])
  {
    assert stored[..i + 1][..i] == stored[..i];
  }

  /** What Load makes of a manager: stored records replace those with the same identifier. */
  function LoadInto(f: FleetState, drones: seq<Drone>, missions: seq<Mission>): FleetState {
    f.(drones := f.drones + LoadDrones(drones), missions := f.missions + LoadMissions(missions),
      nextID := MaxSeq(missions))
  }

  /** Load on a new manager, as the fleet service calls it once before serving. */
  function Load(drones: seq<Drone>, missions: seq<Mission>): FleetState {
    LoadInto(FleetState(map[], map[], 0, 0, 0), drones, missions)
  }
}
