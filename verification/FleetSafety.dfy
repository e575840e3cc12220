// What every step of the fleet keeps, and what follows for whole runs.
module FleetSafety {
  import opened Plane
  import opened Fleet
  import Ids

  // ---- moveToward ----

  /** A step that does not arrive shortens the way by exactly one step and stays on the line. */
  lemma MoveTowardShortens(h: (real, real) -> real, from: Waypoint, target: Waypoint)
    requires IsHypot(h)
    ensures var move := MoveToward(h, from, target);
      && (move.reached ==> move.position == target && Dist(h, from, target) <= STEP_DEGREES)
      && (!move.reached ==> Dist(h, move.position, target) == Dist(h, from, target) - STEP_DEGREES > 0.0)
      && (!move.reached ==> Dist(h, move.position, from) == STEP_DEGREES)
  {
    var x, y := target.latitude - from.latitude, target.longitude - from.longitude;
    var dist := h(x, y);
    assert HypotAt(h, x, y);
    if dist > STEP_DEGREES {
      var p := MoveToward(h, from, target).position;
      var ratio := STEP_DEGREES / dist;
      RatioOfStep(dist);
      var ahead, aside := target.latitude - p.latitude, target.longitude - p.longitude;
      assert HypotAt(h, ahead, aside) && HypotAt(h, -x, -y);
      HypotScales(h, x, y, 1.0 - ratio, ahead, aside);
      var back, away := from.latitude - p.latitude, from.longitude - p.longitude;
      assert HypotAt(h, back, away);
      HypotSymmetric(h, x, y);
      HypotScales(h, -x, -y, ratio, back, away);
    }
  }

  lemma RatioOfStep(dist: real)
    requires dist > STEP_DEGREES
    ensures var ratio := STEP_DEGREES / dist;
      0.0 < ratio < 1.0 && ratio * dist == STEP_DEGREES && (1.0 - ratio) * dist == dist - STEP_DEGREES
  {
    var ratio := STEP_DEGREES / dist;
    assert ratio * dist == STEP_DEGREES;
    if ratio >= 1.0 { ProductMonotone(1.0, ratio, dist); }
  }

  /** No step, whatever its target, takes a drone more than one step further from a third point. */
  lemma MoveTowardDrift(h: (real, real) -> real, from: Waypoint, target: Waypoint, base: Waypoint)
    requires IsHypot(h)
    ensures Dist(h, MoveToward(h, from, target).position, base) <= Dist(h, from, base) + STEP_DEGREES
  {
    var p := MoveToward(h, from, target).position;
    MoveTowardShortens(h, from, target);
    var ux, uy := from.latitude - p.latitude, from.longitude - p.longitude;
    var vx, vy := base.latitude - from.latitude, base.longitude - from.longitude;
    assert HypotAt(h, ux, uy) && HypotAt(h, vx, vy) && HypotAt(h, ux + vx, uy + vy);
    TriangleInequality(h, ux, uy, vx, vy);
    assert ux + vx == base.latitude - p.latitude && uy + vy == base.longitude - p.longitude;
    assert HypotAt(h, -ux, -uy);
    HypotSymmetric(h, ux, uy);
  }

  // ---- The energy budget of one drone ----

  /** On the way out a drone has burnt at least 150 charge per degree it is away from home; on the
      way back it burns 30 per degree and keeps a reserve. */
  ghost predicate Budget(h: (real, real) -> real, d: Drone) {
    match d.status
    case Idle => d.position == d.base && d.battery == FULL_BATTERY
    case Charging => d.position == d.base && 2.2 < d.battery <= FULL_BATTERY
    case EnRoute => OutboundBudget(h, d)
    case Holding => OutboundBudget(h, d)
    case Returning =>
      && d.battery <= FULL_BATTERY && d.battery - 30.0 * Dist(h, d.position, d.base) > 2.5
      && 150.0 * Dist(h, d.position, d.base) <= FULL_BATTERY - LOW_BATTERY
    case _ => false
  }

  ghost predicate OutboundBudget(h: (real, real) -> real, d: Drone) {
    LOW_BATTERY < d.battery <= FULL_BATTERY && 150.0 * Dist(h, d.position, d.base) <= FULL_BATTERY - d.battery
  }

  lemma DistNonNegative(h: (real, real) -> real, a: Waypoint, b: Waypoint)
    requires IsHypot(h)
    ensures Dist(h, a, b) >= 0.0
    ensures a == b ==> Dist(h, a, b) == 0.0
  {
    assert HypotAt(h, b.latitude - a.latitude, b.longitude - a.longitude);
    if a == b { HypotOfZero(h, b.latitude - a.latitude, b.longitude - a.longitude); }
  }

  /** A drone within budget never runs flat. */
  lemma BudgetMeansCharge(h: (real, real) -> real, d: Drone)
    requires IsHypot(h) && Budget(h, d)
    ensures 2.2 < d.battery <= FULL_BATTERY
  {
    DistNonNegative(h, d.position, d.base);
  }

  lemma AdvanceKeepsBudget(h: (real, real) -> real, d: Drone, m: Mission)
    requires IsHypot(h) && OutboundBudget(h, d) && d.status.EnRoute?
    ensures Budget(h, Advance(h, d, m).drone)
    ensures Advance(h, d, m).drone.battery == d.battery - DRAIN_PER_TICK
  {
    DistNonNegative(h, d.position, d.base);
    if m.progress < |m.waypoints| {
      MoveTowardDrift(h, d.position, m.waypoints[m.progress], d.base);
    }
  }

  lemma HoverKeepsBudget(h: (real, real) -> real, d: Drone)
    requires IsHypot(h) && OutboundBudget(h, d) && d.status.Holding?
    ensures Budget(h, Hover(d))
    ensures Hover(d).battery == d.battery - HOVER_DRAIN
  {
    DistNonNegative(h, d.position, d.base);
  }

  lemma ReturnKeepsBudget(h: (real, real) -> real, d: Drone)
    requires IsHypot(h) && Budget(h, d) && d.status.Returning?
    ensures Budget(h, ReturnHome(h, d))
    ensures ReturnHome(h, d).battery == d.battery - HOVER_DRAIN
    ensures ReturnHome(h, d).status.Returning? || ReturnHome(h, d).status.Charging?
    ensures ReturnHome(h, d).status.Returning? ==>
      Dist(h, ReturnHome(h, d).position, d.base) == Dist(h, d.position, d.base) - STEP_DEGREES
  {
    DistNonNegative(h, d.position, d.base);
    MoveTowardShortens(h, d.position, d.base);
  }

  /** Turning round anywhere within the outbound budget leaves enough to get home. */
  lemma TurningRoundKeepsBudget(h: (real, real) -> real, d: Drone)
    requires IsHypot(h) && Budget(h, d) && d.status.InFlight()
    ensures Budget(h, d.(status := Returning))
  {
    DistNonNegative(h, d.position, d.base);
  }

  lemma TickKeepsBudget(h: (real, real) -> real, f: FleetState, d: Drone)
    requires IsHypot(h) && Budget(h, d)
    ensures Budget(h, TickDrone(h, f, d))
  {
    match d.status
    case EnRoute =>
      if d.missionID in f.missions {
        AdvanceKeepsBudget(h, d, f.missions[d.missionID]);
      } else {
        TurningRoundKeepsBudget(h, d);
      }
    case Holding => HoverKeepsBudget(h, d);
    case Returning => ReturnKeepsBudget(h, d);
    case _ =>
  }

  // ---- The fleet invariant ----

  /** Drone id flies mission mid: en-route while it is active, holding while it is paused. */
  ghost predicate Flies(f: FleetState, id: string, mid: string) {
    && id in f.drones && mid in f.missions
    && f.drones[id].missionID == mid && f.missions[mid].droneID == id
    && ((f.drones[id].status.EnRoute? && f.missions[mid].state.Active?)
        || (f.drones[id].status.Holding? && f.missions[mid].state.Paused?))
  }

  ghost predicate DroneInv(h: (real, real) -> real, f: FleetState, id: string)
    requires id in f.drones
  {
    var d := f.drones[id];
    && d.id == id && Budget(h, d)
    && (d.status.InFlight() && d.missionID in f.missions ==> f.missions[d.missionID].droneID == id)
    && MissionSeq(d.missionID) <= f.nextID
    && (d.status.EnRoute? || d.status.Holding? ==> Flies(f, id, d.missionID))
  }

  ghost predicate MissionInv(f: FleetState, mid: string)
    requires mid in f.missions
  {
    var m := f.missions[mid];
    && m.id == mid
    && (m.state.InProgress() ==> Flies(f, m.droneID, mid))
    && MissionSeq(mid) <= f.nextID
  }

  ghost predicate Inv(h: (real, real) -> real, f: FleetState) {
    && 0 <= f.nextID <= Ids.MAX_INT64
    && (forall id {:trigger DroneInv(h, f, id)} :: id in f.drones ==> DroneInv(h, f, id))
    && (forall mid {:trigger MissionInv(f, mid)} :: mid in f.missions ==> MissionInv(f, mid))
  }

  /** Both directions of the link between the two maps. */
  lemma ActiveIffEnRoute(h: (real, real) -> real, f: FleetState, mid: string)
    requires Inv(h, f) && mid in f.missions
    ensures f.missions[mid].state.Active? <==>
      exists id :: id in f.drones && f.drones[id].status.EnRoute? && f.drones[id].missionID == mid
    ensures f.missions[mid].state.Paused? <==>
      exists id :: id in f.drones && f.drones[id].status.Holding? && f.drones[id].missionID == mid
    ensures forall id | id in f.drones && (f.drones[id].status.EnRoute? || f.drones[id].status.Holding?) ::
      f.drones[id].missionID == mid ==> id == f.missions[mid].droneID
  {
    assert MissionInv(f, mid);
    forall id | id in f.drones ensures DroneInv(h, f, id) {}
  }

  /** Hence a drone never has two missions in progress. */
  lemma OneMissionPerDrone(h: (real, real) -> real, f: FleetState, m: string, n: string)
    requires Inv(h, f) && m in f.missions && n in f.missions
    requires f.missions[m].state.InProgress() && f.missions[n].state.InProgress()
    requires f.missions[m].droneID == f.missions[n].droneID
    ensures m == n
  {
    assert MissionInv(f, m) && MissionInv(f, n);
  }

  // ---- Start-up ----

  lemma {:induction false} LoadedDronesParked(stored: seq<Drone>)
    ensures forall id :: id in LoadDrones(stored) ==>
      var d := LoadDrones(stored)[id]; d == Parked(d) && d.id == id
  {
    if stored != [] { LoadedDronesParked(stored[..|stored| - 1]); }
  }

  lemma {:induction false} LoadedMissionsGrounded(stored: seq<Mission>)
    ensures forall mid :: mid in LoadMissions(stored) ==>
      var m := LoadMissions(stored)[mid]; m.id == mid && !m.state.InProgress() && MissionSeq(mid) <= MaxSeq(stored)
  {
    if stored != [] { LoadedMissionsGrounded(stored[..|stored| - 1]); }
  }

  /** Whatever the store holds, the loaded fleet is consistent. */
  lemma LoadEstablishesInv(h: (real, real) -> real, drones: seq<Drone>, missions: seq<Mission>)
    ensures Inv(h, Load(drones, missions)) && InProgress(Load(drones, missions)) == {}
  {
    LoadedDronesParked(drones);
    assert MissionSeq("") == 0;
    LoadedMissionsGrounded(missions);
  }

  // ---- Commands ----

  lemma AddDroneKeepsInv(h: (real, real) -> real, f: FleetState, d: Drone)
    requires Inv(h, f)
    ensures Inv(h, AddDrone(f, d).fleet) && InProgress(AddDrone(f, d).fleet) == InProgress(f)
  {
    var f' := AddDrone(f, d).fleet;
    forall id | id in f'.drones ensures DroneInv(h, f', id) {
      if id in f.drones { assert DroneInv(h, f, id); }
    }
    forall mid | mid in f'.missions ensures MissionInv(f', mid) { assert MissionInv(f, mid); }
  }

  lemma RemoveDroneKeepsInv(h: (real, real) -> real, f: FleetState, id: string)
    requires Inv(h, f)
    ensures Inv(h, RemoveDrone(f, id).fleet) && InProgress(RemoveDrone(f, id).fleet) == InProgress(f)
  {
    var f' := RemoveDrone(f, id).fleet;
    forall i | i in f'.drones ensures DroneInv(h, f', i) { assert DroneInv(h, f, i); }
    forall mid | mid in f'.missions ensures MissionInv(f', mid) { assert MissionInv(f, mid); }
  }

  /** The identifier CreateMission picks is not in use, short of the last int64. */
  lemma MissionIDIsFresh(h: (real, real) -> real, f: FleetState)
    requires Inv(h, f) && f.nextID < Ids.MAX_INT64
    ensures MissionID(Ids.AddOneInt64(f.nextID)) !in f.missions
    ensures MissionSeq(MissionID(Ids.AddOneInt64(f.nextID))) == f.nextID + 1
  {
    var mid := MissionID(f.nextID + 1);
    Ids.SequenceRoundTrip("mission", f.nextID + 1);
    assert mid in f.missions ==> MissionInv(f, mid);
  }

  lemma CommitMissionKeepsInv(h: (real, real) -> real, f: FleetState, name: string, droneID: string, ws: seq<Waypoint>)
    requires Inv(h, f) && f.nextID < Ids.MAX_INT64
    ensures Inv(h, CommitMission(f, name, droneID, ws))
      && InProgress(CommitMission(f, name, droneID, ws)) == InProgress(f)
  {
    var f' := CommitMission(f, name, droneID, ws);
    MissionIDIsFresh(h, f);
    forall id | id in f'.drones ensures DroneInv(h, f', id) { assert DroneInv(h, f, id); }
    forall mid | mid in f'.missions ensures MissionInv(f', mid) {
      if mid in f.missions { assert MissionInv(f, mid); }
    }
  }

  lemma DeleteMissionKeepsInv(h: (real, real) -> real, f: FleetState, mid: string)
    requires Inv(h, f)
    ensures Inv(h, DeleteMission(f, mid).fleet) && InProgress(DeleteMission(f, mid).fleet) == InProgress(f)
  {
    var f' := DeleteMission(f, mid).fleet;
    forall id | id in f'.drones ensures DroneInv(h, f', id) { assert DroneInv(h, f, id); }
    forall m | m in f'.missions ensures MissionInv(f', m) { assert MissionInv(f, m); }
  }

  predicate Launches(f: FleetState, c: Command) {
    c.MissionCmd? && c.command.Launch? && MutateMission(f, c.command, c.mid).reply.Accepted?
  }

  /** Changing one mission together with its drone, and nothing else of the two maps. */
  ghost predicate PairUpdate(f: FleetState, mid: string, m': Mission, d': Drone, f': FleetState) {
    && mid in f.missions && f.missions[mid].droneID in f.drones
    && m'.id == mid && m'.droneID == f.missions[mid].droneID == d'.id
    && f'.missions == f.missions[mid := m'] && f'.drones == f.drones[d'.id := d'] && f'.nextID == f.nextID
  }

  lemma WithOrWithout(s: set<string>, x: string)
    ensures |s + {x}| == |s| + (if x in s then 0 else 1) && |s - {x}| == |s| - (if x in s then 1 else 0)
  {
    if x in s { assert s + {x} == s; } else { assert s - {x} == s; }
  }

  lemma PairUpdateKeepsInv(h: (real, real) -> real, f: FleetState, mid: string, m': Mission, d': Drone, f': FleetState)
    requires Inv(h, f) && PairUpdate(f, mid, m', d', f') && Budget(h, d')
    requires f.drones[d'.id].status.EnRoute? || f.drones[d'.id].status.Holding? ==> f.drones[d'.id].missionID == mid
    requires d'.missionID == mid || (d'.missionID == f.drones[d'.id].missionID
      && d'.status.InFlight() == f.drones[d'.id].status.InFlight())
    requires m'.state.InProgress() || d'.status.EnRoute? || d'.status.Holding? ==> Flies(f', d'.id, mid)
    ensures Inv(h, f')
    ensures InProgress(f') == if m'.state.InProgress() then InProgress(f) + {mid} else InProgress(f) - {mid}
  {
    assert MissionInv(f, mid);
    forall i | i in f'.drones ensures DroneInv(h, f', i) {
      assert DroneInv(h, f, i);
    }
    forall m | m in f'.missions ensures MissionInv(f', m) {
      if m != mid { assert MissionInv(f, m); }
    }
  }

  lemma PairUpdateCounts(f: FleetState, mid: string, m': Mission, f': FleetState)
    requires mid in f.missions
    requires InProgress(f') == if m'.state.InProgress() then InProgress(f) + {mid} else InProgress(f) - {mid}
    ensures |InProgress(f')| == |InProgress(f)| + (if m'.state.InProgress() then 1 else 0)
                                                - (if f.missions[mid].state.InProgress() then 1 else 0)
  {
    WithOrWithout(InProgress(f), mid);
  }

  lemma MutationKeepsBudget(h: (real, real) -> real, f: FleetState, c: MissionCommand, mid: string)
    requires IsHypot(h) && Inv(h, f) && mid in f.missions && f.missions[mid].droneID in f.drones
    ensures var d := f.drones[f.missions[mid].droneID];
      var r := ApplyMission(c, f.missions[mid], d);
      r.Mutated? ==> Budget(h, r.drone) && (d.status.EnRoute? || d.status.Holding? ==> d.missionID == mid)
  {
    var d := f.drones[f.missions[mid].droneID];
    assert DroneInv(h, f, f.missions[mid].droneID) && MissionInv(f, mid);
    DistNonNegative(h, d.position, d.base);
    if c.Abort? && d.status.InFlight() { TurningRoundKeepsBudget(h, d); }
  }

  lemma MutateMissionKeepsInv(h: (real, real) -> real, f: FleetState, c: MissionCommand, mid: string)
    requires IsHypot(h) && Inv(h, f)
    ensures Inv(h, MutateMission(f, c, mid).fleet)
    ensures var f' := MutateMission(f, c, mid).fleet;
      f'.completed == f.completed && f'.aborted - f.aborted + |InProgress(f')|
        == |InProgress(f)| + (if Launches(f, MissionCmd(c, mid)) then 1 else 0)
  {
    var step := MutateMission(f, c, mid);
    if step.reply.Accepted? {
      var m := f.missions[mid];
      var r := ApplyMission(c, m, f.drones[m.droneID]);
      assert DroneInv(h, f, m.droneID) && MissionInv(f, mid);
      MutationKeepsBudget(h, f, c, mid);
      PairUpdateKeepsInv(h, f, mid, r.mission, r.drone, step.fleet);
      PairUpdateCounts(f, mid, r.mission, step.fleet);
    }
  }

  lemma RecallKeepsInv(h: (real, real) -> real, f: FleetState, id: string)
    requires IsHypot(h) && Inv(h, f)
    ensures Inv(h, Recall(f, id).fleet)
    ensures var f' := Recall(f, id).fleet;
      f'.completed == f.completed && f'.aborted - f.aborted + |InProgress(f')| == |InProgress(f)|
  {
    var step := Recall(f, id);
    if step.reply.Accepted? {
      var d := f.drones[id];
      assert DroneInv(h, f, id);
      TurningRoundKeepsBudget(h, d);
      if d.missionID in f.missions && f.missions[d.missionID].state.InProgress() {
        var mid := d.missionID;
        assert MissionInv(f, mid);
        PairUpdateKeepsInv(h, f, mid, f.missions[mid].(state := Aborted), d.(status := Returning), step.fleet);
        PairUpdateCounts(f, mid, f.missions[mid].(state := Aborted), step.fleet);
      } else {
        assert step.fleet == f;
      }
    }
  }

  // ---- Ticks ----

  lemma AdvanceMovesBoth(h: (real, real) -> real, d: Drone, m: Mission)
    requires d.status.EnRoute? && m.state.Active?
    ensures var a := Advance(h, d, m);
      && a.drone == d.(status := a.drone.status, battery := a.drone.battery, position := a.drone.position)
      && a.mission == m.(state := a.mission.state, progress := a.mission.progress)
      && ((a.drone.status.EnRoute? && a.mission.state.Active?)
          || (a.drone.status.Returning? && (a.mission.state.Aborted? || a.mission.state.Completed?)))
      && (a.changed <==> !a.mission.state.Active?)
  {
  }

  /** The tick touches a mission only through the drone that flies it. */
  lemma TickMissionCases(h: (real, real) -> real, f: FleetState, mid: string)
    requires Inv(h, f) && mid in f.missions
    ensures var m := f.missions[mid];
      && (!m.state.InProgress() ==> TickMission(h, f, m) == m)
      && (m.state.InProgress() ==> m.droneID in f.drones)
      && (m.state.Active? ==>
            var a := Advance(h, f.drones[m.droneID], m);
            TickDrone(h, f, f.drones[m.droneID]) == a.drone && TickMission(h, f, m) == a.mission)
      && (m.state.Paused? ==>
            var hovered := Hover(f.drones[m.droneID]);
            TickDrone(h, f, f.drones[m.droneID]) == hovered
            && TickMission(h, f, m) == if hovered.status.Returning? then m.(state := Aborted) else m)
  {
    var m := f.missions[mid];
    assert MissionInv(f, mid);
    if m.droneID in f.drones { assert DroneInv(h, f, m.droneID); }
  }

  lemma TickKeepsMission(h: (real, real) -> real, f: FleetState, mid: string)
    requires Inv(h, f) && mid in f.missions
    ensures MissionInv(Tick(h, f), mid)
  {
    var m := f.missions[mid];
    assert MissionInv(f, mid);
    TickMissionCases(h, f, mid);
    if m.state.Active? { AdvanceMovesBoth(h, f.drones[m.droneID], m); }
  }

  lemma TickKeepsDrone(h: (real, real) -> real, f: FleetState, id: string)
    requires IsHypot(h) && Inv(h, f) && id in f.drones
    ensures DroneInv(h, Tick(h, f), id)
  {
    var d := f.drones[id];
    assert DroneInv(h, f, id);
    TickKeepsBudget(h, f, d);
    if d.missionID in f.missions {
      TickMissionCases(h, f, d.missionID);
      if d.status.EnRoute? { AdvanceMovesBoth(h, d, f.missions[d.missionID]); }
      assert TickMission(h, f, f.missions[d.missionID]).droneID == f.missions[d.missionID].droneID;
    }
  }

  lemma TickKeepsInv(h: (real, real) -> real, f: FleetState)
    requires IsHypot(h) && Inv(h, f)
    ensures Inv(h, Tick(h, f))
    ensures Tick(h, f).completed - f.completed + Tick(h, f).aborted - f.aborted + |InProgress(Tick(h, f))| ==
      |InProgress(f)|
  {
    var f' := Tick(h, f);
    forall id | id in f'.drones ensures DroneInv(h, f', id) { TickKeepsDrone(h, f, id); }
    forall mid | mid in f'.missions ensures MissionInv(f', mid) { TickKeepsMission(h, f, mid); }
    TickEndsMissions(h, f);
    var c, a := Ended(h, f, Completed), Ended(h, f, Aborted);
    assert |InProgress(f)| == |InProgress(f) - c - a| + |c| + |a|;
  }

  /** Each in-progress mission stays so, completes or is aborted; no other mission counts as ended. */
  lemma TickEndsMissions(h: (real, real) -> real, f: FleetState)
    requires Inv(h, f)
    ensures var c, a := Ended(h, f, Completed), Ended(h, f, Aborted);
      c !! a && c + a <= InProgress(f) && InProgress(Tick(h, f)) == InProgress(f) - c - a
  {
    var c, a := Ended(h, f, Completed), Ended(h, f, Aborted);
    forall mid | mid in f.missions
      ensures mid in c || mid in a ==> mid in InProgress(f)
      ensures mid in InProgress(Tick(h, f)) <==> mid in InProgress(f) && mid !in c && mid !in a
    {
      TickMissionCases(h, f, mid);
      if f.missions[mid].state.Active? {
        assert MissionInv(f, mid);
        AdvanceMovesBoth(h, f.drones[f.missions[mid].droneID], f.missions[mid]);
      }
    }
  }

  // ---- Whole runs ----

  /** How many missions the commands create: only these use up mission numbers. */
  function Commits(cmds: seq<Command>): nat {
    if cmds == [] then 0 else (if cmds[0].CommitMissionCmd? then 1 else 0) + Commits(cmds[1..])
  }

  lemma ApplyKeepsInv(h: (real, real) -> real, f: FleetState, c: Command)
    requires IsHypot(h) && Inv(h, f) && f.nextID + Commits([c]) <= Ids.MAX_INT64
    ensures Inv(h, Apply(h, f, c)) && Apply(h, f, c).nextID <= f.nextID + Commits([c])
    ensures var f' := Apply(h, f, c);
      f'.completed + f'.aborted + |InProgress(f')|
        == f.completed + f.aborted + |InProgress(f)| + (if Launches(f, c) then 1 else 0)
  {
    match c
    case AddDroneCmd(d) => AddDroneKeepsInv(h, f, d);
    case RemoveDroneCmd(id) => RemoveDroneKeepsInv(h, f, id);
    case CommitMissionCmd(name, droneID, waypoints) => CommitMissionKeepsInv(h, f, name, droneID, waypoints);
    case DeleteMissionCmd(mid) => DeleteMissionKeepsInv(h, f, mid);
    case MissionCmd(mc, mid) => MutateMissionKeepsInv(h, f, mc, mid);
    case RecallCmd(id) => RecallKeepsInv(h, f, id);
    case TickCmd => TickKeepsInv(h, f);
  }

  function LaunchCount(h: (real, real) -> real, f: FleetState, cmds: seq<Command>): nat
    decreases |cmds|
  {
    if cmds == [] then 0
    else (if Launches(f, cmds[0]) then 1 else 0) + LaunchCount(h, Apply(h, f, cmds[0]), cmds[1..])
  }

  lemma {:induction false} RunKeepsInv(h: (real, real) -> real, f: FleetState, cmds: seq<Command>)
    requires IsHypot(h) && Inv(h, f) && f.nextID + Commits(cmds) <= Ids.MAX_INT64
    ensures Inv(h, Run(h, f, cmds))
    ensures var f' := Run(h, f, cmds);
      f'.completed + f'.aborted + |InProgress(f')|
        == f.completed + f.aborted + |InProgress(f)| + LaunchCount(h, f, cmds)
    decreases |cmds|
  {
    if cmds != [] {
      ApplyKeepsInv(h, f, cmds[0]);
      RunKeepsInv(h, Apply(h, f, cmds[0]), cmds[1..]);
    }
  }

  /** From any stored fleet and under any commands and ticks, no drone ever has 2.2 charge or less:
      the clamp at zero never acts, and whatever is airborne can get home. */
  lemma NoDroneRunsFlat(h: (real, real) -> real, drones: seq<Drone>, missions: seq<Mission>, cmds: seq<Command>,
                        id: string)
    requires IsHypot(h) && MaxSeq(missions) + Commits(cmds) <= Ids.MAX_INT64
    requires id in Run(h, Load(drones, missions), cmds).drones
    ensures var d := Run(h, Load(drones, missions), cmds).drones[id];
      && 2.2 < d.battery <= FULL_BATTERY
      && 30.0 * Dist(h, d.position, d.base) < d.battery
      && (d.status.InFlight() || d.position == d.base)
  {
    LoadEstablishesInv(h, drones, missions);
    RunKeepsInv(h, Load(drones, missions), cmds);
    var f := Run(h, Load(drones, missions), cmds);
    assert DroneInv(h, f, id);
    BudgetMeansCharge(h, f.drones[id]);
    DistNonNegative(h, f.drones[id].position, f.drones[id].base);
  }

  /** Every launch is accounted for: completed, aborted or still in progress. */
  lemma LaunchesAreAccountedFor(h: (real, real) -> real, drones: seq<Drone>, missions: seq<Mission>, cmds: seq<Command>)
    requires IsHypot(h) && MaxSeq(missions) + Commits(cmds) <= Ids.MAX_INT64
    ensures var f := Run(h, Load(drones, missions), cmds);
      LaunchCount(h, Load(drones, missions), cmds) == f.completed + f.aborted + |InProgress(f)|
  {
    LoadEstablishesInv(h, drones, missions);
    RunKeepsInv(h, Load(drones, missions), cmds);
  }

  // ---- Bounded sorties ----

  function Ticks(cmds: seq<Command>): nat {
    if cmds == [] then 0 else (if cmds[0].TickCmd? then 1 else 0) + Ticks(cmds[1..])
  }

  ghost predicate AirborneThroughout(h: (real, real) -> real, f: FleetState, id: string, cmds: seq<Command>)
    decreases |cmds|
  {
    && id in f.drones && f.drones[id].status.InFlight()
    && (cmds != [] ==> AirborneThroughout(h, Apply(h, f, cmds[0]), id, cmds[1..]))
  }

  /** How many more ticks a drone can stay airborne. */
  function Endurance(h: (real, real) -> real, d: Drone): real {
    if d.status.Returning? then 100.0 * Dist(h, d.position, d.base)
    else (d.battery - LOW_BATTERY) / HOVER_DRAIN + 54.34
  }

  lemma StepUsesEndurance(h: (real, real) -> real, f: FleetState, c: Command, id: string)
    requires IsHypot(h) && Inv(h, f)
    requires id in f.drones && f.drones[id].status.InFlight()
    requires id in Apply(h, f, c).drones && Apply(h, f, c).drones[id].status.InFlight()
    ensures var before, after := Endurance(h, f.drones[id]), Endurance(h, Apply(h, f, c).drones[id]);
      0.0 <= after <= before - (if c.TickCmd? then 1.0 else 0.0)
  {
    var d := f.drones[id];
    assert DroneInv(h, f, id);
    DistNonNegative(h, d.position, d.base);
    match c
    case TickCmd =>
      match d.status {
        case EnRoute =>
          AdvanceKeepsBudget(h, d, f.missions[d.missionID]);
          var d' := Advance(h, d, f.missions[d.missionID]).drone;
          DistNonNegative(h, d'.position, d'.base);
        case Holding => HoverKeepsBudget(h, d);
        case Returning =>
          ReturnKeepsBudget(h, d);
          DistNonNegative(h, ReturnHome(h, d).position, d.base);
      }
    case MissionCmd(mc, mid) =>
    case _ =>
  }

  lemma {:induction false} AirborneTicksBounded(h: (real, real) -> real, f: FleetState, id: string, cmds: seq<Command>)
    requires IsHypot(h) && Inv(h, f) && f.nextID + Commits(cmds) <= Ids.MAX_INT64
    requires AirborneThroughout(h, f, id, cmds)
    ensures Ticks(cmds) as real <= Endurance(h, f.drones[id])
    decreases |cmds|
  {
    if cmds == [] {
      assert DroneInv(h, f, id);
      DistNonNegative(h, f.drones[id].position, f.drones[id].base);
    } else {
      ApplyKeepsInv(h, f, cmds[0]);
      StepUsesEndurance(h, f, cmds[0], id);
      AirborneTicksBounded(h, Apply(h, f, cmds[0]), id, cmds[1..]);
    }
  }

  /** Whatever commands arrive, no drone survives more than 321 ticks without landing. */
  lemma SortiesAreBounded(h: (real, real) -> real, f: FleetState, id: string, cmds: seq<Command>)
    requires IsHypot(h) && Inv(h, f) && f.nextID + Commits(cmds) <= Ids.MAX_INT64
    requires AirborneThroughout(h, f, id, cmds)
    ensures Ticks(cmds) <= 321
  {
    AirborneTicksBounded(h, f, id, cmds);
    assert DroneInv(h, f, id);
    var d := f.drones[id];
    DistNonNegative(h, d.position, d.base);
    assert Endurance(h, d) < 322.0;
  }

  /** The mission is in progress, and active if so asked, before, between and after the commands. */
  ghost predicate FliesThroughout(h: (real, real) -> real, f: FleetState, mid: string, neverPaused: bool,
                                  cmds: seq<Command>)
    decreases |cmds|
  {
    && mid in f.missions && f.missions[mid].state.InProgress() && (neverPaused ==> f.missions[mid].state.Active?)
    && (cmds != [] ==> FliesThroughout(h, Apply(h, f, cmds[0]), mid, neverPaused, cmds[1..]))
  }

  function Drain(neverPaused: bool): real {
    if neverPaused then DRAIN_PER_TICK else HOVER_DRAIN
  }

  /** Commands leave a mission's drone and that drone's battery alone. */
  lemma CommandKeepsBattery(h: (real, real) -> real, f: FleetState, mid: string, c: Command)
    requires Inv(h, f) && f.nextID + Commits([c]) <= Ids.MAX_INT64 && !c.TickCmd?
    requires mid in f.missions && f.missions[mid].state.InProgress() && mid in Apply(h, f, c).missions
    ensures Apply(h, f, c).missions[mid].droneID == f.missions[mid].droneID
    ensures f.missions[mid].droneID in f.drones && f.missions[mid].droneID in Apply(h, f, c).drones
    ensures Apply(h, f, c).drones[f.missions[mid].droneID].battery == f.drones[f.missions[mid].droneID].battery
  {
    assert MissionInv(f, mid);
    match c
    case CommitMissionCmd(_, _, _) => MissionIDIsFresh(h, f);
    case MissionCmd(_, m) =>
      assert m in f.missions ==> MissionInv(f, m);
    case _ =>
  }

  /** While a mission stays in progress, each tick drains its drone. */
  lemma TickDrainsFlyer(h: (real, real) -> real, f: FleetState, mid: string)
    requires IsHypot(h) && Inv(h, f) && mid in f.missions && f.missions[mid].state.InProgress()
    ensures var id := f.missions[mid].droneID;
      && id in f.drones && Tick(h, f).missions[mid].droneID == id
      && Tick(h, f).drones[id].battery == f.drones[id].battery - Drain(f.missions[mid].state.Active?)
  {
    assert MissionInv(f, mid);
    var d := f.drones[f.missions[mid].droneID];
    assert DroneInv(h, f, f.missions[mid].droneID);
    TickMissionCases(h, f, mid);
    if d.status.EnRoute? {
      AdvanceKeepsBudget(h, d, f.missions[mid]);
      AdvanceMovesBoth(h, d, f.missions[mid]);
    } else {
      HoverKeepsBudget(h, d);
    }
  }

  /** The charge left, above the low mark, on the drone that flies the mission. */
  ghost function Reserve(f: FleetState, mid: string): real {
    if mid in f.missions && f.missions[mid].droneID in f.drones then
      f.drones[f.missions[mid].droneID].battery - LOW_BATTERY
    else 0.0
  }

  lemma StepUsesReserve(h: (real, real) -> real, f: FleetState, mid: string, c: Command)
    requires IsHypot(h) && Inv(h, f) && f.nextID + Commits([c]) <= Ids.MAX_INT64
    requires mid in f.missions && f.missions[mid].state.InProgress() && mid in Apply(h, f, c).missions
    ensures Reserve(Apply(h, f, c), mid)
         == Reserve(f, mid) - (if c.TickCmd? then Drain(f.missions[mid].state.Active?) else 0.0)
  {
    if c.TickCmd? { TickDrainsFlyer(h, f, mid); } else { CommandKeepsBattery(h, f, mid, c); }
  }

  lemma ReservePositive(h: (real, real) -> real, f: FleetState, mid: string)
    requires Inv(h, f) && mid in f.missions && f.missions[mid].state.InProgress()
    ensures 0.0 < Reserve(f, mid) <= FULL_BATTERY - LOW_BATTERY
  {
    assert MissionInv(f, mid);
    assert DroneInv(h, f, f.missions[mid].droneID);
  }

  lemma {:induction false} TicksUseReserve(h: (real, real) -> real, f: FleetState, mid: string, neverPaused: bool,
                                           cmds: seq<Command>)
    requires IsHypot(h) && Inv(h, f) && f.nextID + Commits(cmds) <= Ids.MAX_INT64
    requires FliesThroughout(h, f, mid, neverPaused, cmds)
    ensures Reserve(f, mid) > (if neverPaused then DRAIN_PER_TICK else HOVER_DRAIN) * Ticks(cmds) as real
    decreases |cmds|
  {
    if cmds == [] {
      ReservePositive(h, f, mid);
    } else {
      var c, f' := cmds[0], Apply(h, f, cmds[0]);
      ApplyKeepsInv(h, f, c);
      assert FliesThroughout(h, f', mid, neverPaused, cmds[1..]);
      StepUsesReserve(h, f, mid, c);
      TicksUseReserve(h, f', mid, neverPaused, cmds[1..]);
    }
  }

  /** A launched mission ends within 267 ticks, and within 54 if it is never paused. */
  lemma MissionsAreBounded(h: (real, real) -> real, f: FleetState, mid: string, cmds: seq<Command>)
    requires IsHypot(h) && Inv(h, f) && f.nextID + Commits(cmds) <= Ids.MAX_INT64
    ensures FliesThroughout(h, f, mid, false, cmds) ==> Ticks(cmds) <= 266
    ensures FliesThroughout(h, f, mid, true, cmds) ==> Ticks(cmds) <= 53
  {
    if FliesThroughout(h, f, mid, false, cmds) {
      TicksUseReserve(h, f, mid, false, cmds);
      ReservePositive(h, f, mid);
    }
    if FliesThroughout(h, f, mid, true, cmds) {
      TicksUseReserve(h, f, mid, true, cmds);
      ReservePositive(h, f, mid);
    }
  }

  // ---- Where the guarantees stop ----

  /** The roll-back of AddDrone deletes whatever is stored under the identifier. */
  function RollBackDrone(f: FleetState, id: string): FleetState {
    f.(drones := f.drones - {id})
  }

  /** The roll-back of CreateMission likewise. */
  function RollBackMission(f: FleetState, mid: string): FleetState {
    f.(missions := f.missions - {mid})
  }

  /** A failed AddDrone leaves the fleet consistent exactly when the drone has not been sent on a mission meanwhile. */
  lemma RollBackDroneKeepsInvIff(h: (real, real) -> real, f: FleetState, id: string)
    requires Inv(h, f) && id in f.drones
    ensures Inv(h, RollBackDrone(f, id)) <==> !(f.drones[id].status.EnRoute? || f.drones[id].status.Holding?)
  {
    var f' := RollBackDrone(f, id);
    assert DroneInv(h, f, id);
    if f.drones[id].status.EnRoute? || f.drones[id].status.Holding? {
      assert !MissionInv(f', f.drones[id].missionID);
    } else {
      forall i | i in f'.drones ensures DroneInv(h, f', i) { assert DroneInv(h, f, i); }
      forall mid | mid in f'.missions ensures MissionInv(f', mid) { assert MissionInv(f, mid); }
    }
  }

  /** A failed CreateMission leaves it consistent exactly when the mission has not been launched meanwhile. */
  lemma RollBackMissionKeepsInvIff(h: (real, real) -> real, f: FleetState, mid: string)
    requires Inv(h, f) && mid in f.missions
    ensures Inv(h, RollBackMission(f, mid)) <==> !f.missions[mid].state.InProgress()
  {
    var f' := RollBackMission(f, mid);
    assert MissionInv(f, mid);
    if f.missions[mid].state.InProgress() {
      assert !DroneInv(h, f', f.missions[mid].droneID);
    } else {
      forall i | i in f'.drones ensures DroneInv(h, f', i) { assert DroneInv(h, f, i); }
      forall m | m in f'.missions ensures MissionInv(f', m) { assert MissionInv(f, m); }
    }
  }

  /** A launch that comes between adding a drone and the failure of its save. */
  function LaunchInBetween(d: Drone, name: string, w: Waypoint): seq<Command> {
    [AddDroneCmd(d), CommitMissionCmd(name, d.id, [w]), MissionCmd(Launch, MissionID(1))]
  }

  lemma LaunchedInBetween(h: (real, real) -> real, d: Drone, name: string, w: Waypoint)
    requires IsHypot(h) && d.id != "" && d.model != "" && name != ""
    ensures var f := Run(h, Load([], []), LaunchInBetween(d, name, w));
      && Inv(h, f) && d.id in f.drones && f.drones[d.id].status.EnRoute?
      && MissionID(1) in f.missions && f.missions[MissionID(1)].state.Active?
  {
    var cmds, f0 := LaunchInBetween(d, name, w), Load([], []);
    LoadEstablishesInv(h, [], []);
    var f1 := Apply(h, f0, cmds[0]);
    ApplyKeepsInv(h, f0, cmds[0]);
    var f2 := Apply(h, f1, cmds[1]);
    ApplyKeepsInv(h, f1, cmds[1]);
    ApplyKeepsInv(h, f2, cmds[2]);
    assert Run(h, f2, cmds[2..]) == Apply(h, f2, cmds[2]);
    assert Run(h, f1, cmds[1..]) == Run(h, f2, cmds[2..]);
  }

  /** From an empty store, any drone and any mission of one waypoint: the service can get to where
      either roll-back leaves an active mission without its drone, or a flying drone without its mission. */
  lemma RollBackCanBreakInv(h: (real, real) -> real, d: Drone, name: string, w: Waypoint)
    requires IsHypot(h) && d.id != "" && d.model != "" && name != ""
    ensures var f := Run(h, Load([], []), LaunchInBetween(d, name, w));
      && Inv(h, f) && !Inv(h, RollBackDrone(f, d.id)) && !Inv(h, RollBackMission(f, MissionID(1)))
  {
    LaunchedInBetween(h, d, name, w);
    var f := Run(h, Load([], []), LaunchInBetween(d, name, w));
    RollBackDroneKeepsInvIff(h, f, d.id);
    RollBackMissionKeepsInvIff(h, f, MissionID(1));
  }

  /** After Load, the next mission identifier is new for a store exactly when its largest number is
      not the last int64, or the identifier the counter then wraps round to is not taken. */
  lemma NextMissionIDIsNewIff(stored: seq<Mission>)
    ensures MissionID(Ids.AddOneInt64(MaxSeq(stored))) !in LoadMissions(stored) <==>
      MaxSeq(stored) < Ids.MAX_INT64 || forall i :: 0 <= i < |stored| ==> stored[i].id != MissionID(Ids.MIN_INT64)
  {
    if MaxSeq(stored) < Ids.MAX_INT64 {
      NextMissionIDIsNew(stored);
    } else {
      LoadedIdentifiers(stored, MissionID(Ids.MIN_INT64));
    }
  }

  lemma NextMissionIDIsNew(stored: seq<Mission>)
    requires MaxSeq(stored) < Ids.MAX_INT64
    ensures MissionID(Ids.AddOneInt64(MaxSeq(stored))) !in LoadMissions(stored)
  {
    Ids.SequenceRoundTrip("mission", MaxSeq(stored) + 1);
    LoadedMissionsGrounded(stored);
  }

  lemma {:induction false} LoadedIdentifiers(stored: seq<Mission>, mid: string)
    ensures mid in LoadMissions(stored) <==> exists i :: 0 <= i < |stored| && stored[i].id == mid
  {
    if stored != [] {
      var rest := stored[..|stored| - 1];
      LoadedIdentifiers(rest, mid);
      assert forall i :: 0 <= i < |rest| ==> rest[i] == stored[i];
    }
  }

  /** So it is new whatever the store holds exactly when the largest number is not the last int64. */
  lemma NextMissionIDIsAlwaysNewIff(n: nat)
    requires n <= Ids.MAX_INT64
    ensures n < Ids.MAX_INT64 <==>
      forall stored: seq<Mission> | MaxSeq(stored) == n :: MissionID(Ids.AddOneInt64(n)) !in LoadMissions(stored)
  {
    forall stored: seq<Mission> | MaxSeq(stored) == n
      ensures n < Ids.MAX_INT64 ==> MissionID(Ids.AddOneInt64(n)) !in LoadMissions(stored)
    {
      NextMissionIDIsNewIff(stored);
    }
    if n == Ids.MAX_INT64 {
      var stored := WrappingStore(n);
    }
  }

  /** A store on which the counter wraps round onto an identifier that is taken. */
  lemma WrappingStore(n: nat) returns (stored: seq<Mission>)
    requires n == Ids.MAX_INT64
    ensures MaxSeq(stored) == n && MissionID(Ids.AddOneInt64(n)) in LoadMissions(stored)
  {
    Ids.SequenceRoundTrip("mission", n);
    var taken := MissionID(Ids.AddOneInt64(n));
    var first := [Mission(MissionID(n), "last", "drone", [], Planned, 0)];
    assert first[..0] == [];
    assert MaxSeq(first) == n;
    stored := first + [Mission(taken, "wrapped", "drone", [], Planned, 0)];
    assert stored[..1] == first;
  }
}
