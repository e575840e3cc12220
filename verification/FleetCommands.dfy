// What the commands of the fleet answer, for every fleet that its invariant allows, and what undoes what.
module FleetCommands {
  import opened Plane
  import opened Fleet
  import opened FleetSafety
  import Ids

  /** The drone is not in the air. */
  predicate OnGround(d: Drone) {
    d.status != EnRoute && d.status != Holding && d.status != Returning
  }

  /** Neither completed nor aborted. */
  predicate IsOpen(m: Mission) {
    m.state == Planned || m.state == Active || m.state == Paused
  }

  // ---- Missions ----

  /** A mission can be launched exactly if it is not in progress, and its drone is there, on the ground
      and above the low mark. */
  lemma LaunchAcceptedIff(h: (real, real) -> real, f: FleetState, mid: string)
    requires Inv(h, f)
    ensures MutateMission(f, Launch, mid).reply.Accepted? <==>
      && mid in f.missions && f.missions[mid].state != Active && f.missions[mid].state != Paused
      && f.missions[mid].droneID in f.drones && OnGround(f.drones[f.missions[mid].droneID])
      && f.drones[f.missions[mid].droneID].battery > 20.0
    ensures MutateMission(f, Launch, mid).reply == Refused(BatteryLow) ==>
      && mid in f.missions && f.missions[mid].droneID in f.drones && f.drones[f.missions[mid].droneID].battery <= 20.0
    ensures MutateMission(f, Launch, mid).reply == Refused(DroneBusy) ==>
      mid in f.missions && f.missions[mid].droneID in f.drones && !OnGround(f.drones[f.missions[mid].droneID])
  {
  }

  /** An active mission can be paused and nothing else can; a paused one resumed; both aborted. */
  lemma OthersAcceptedIff(h: (real, real) -> real, f: FleetState, mid: string)
    requires Inv(h, f)
    ensures MutateMission(f, Pause, mid).reply.Accepted? <==> mid in f.missions && f.missions[mid].state == Active
    ensures MutateMission(f, Resume, mid).reply.Accepted? <==> mid in f.missions && f.missions[mid].state == Paused
    ensures MutateMission(f, Abort, mid).reply.Accepted? <==>
      mid in f.missions && (f.missions[mid].state == Active || f.missions[mid].state == Paused)
    ensures forall c: MissionCommand ::
      MutateMission(f, c, mid).reply == Refused(MissionNotFound) <==> mid !in f.missions
  {
    if mid in f.missions { assert MissionInv(f, mid); }
  }

  /** Between a pause and the next tick nothing is lost: resuming brings back the very fleet. */
  lemma ResumeUndoesPause(h: (real, real) -> real, f: FleetState, mid: string)
    requires Inv(h, f) && mid in f.missions && f.missions[mid].state == Active
    ensures var paused := MutateMission(f, Pause, mid).fleet;
      && mid in paused.missions && paused.missions[mid] == f.missions[mid].(state := Paused)
      && f.missions[mid].droneID in f.drones
      && paused.drones == f.drones[f.missions[mid].droneID := f.drones[f.missions[mid].droneID].(status := Holding)]
      && MutateMission(paused, Resume, mid).fleet == f
  {
    assert MissionInv(f, mid);
    var id := f.missions[mid].droneID;
    var paused := MutateMission(f, Pause, mid).fleet;
    var resumed := MutateMission(paused, Resume, mid).fleet;
    assert resumed.missions == f.missions[mid := f.missions[mid]] == f.missions;
    assert resumed.drones == f.drones[id := f.drones[id]] == f.drones;
  }

  /** Aborting a mission and recalling its drone come to the same fleet. */
  lemma AbortIsRecall(h: (real, real) -> real, f: FleetState, mid: string)
    requires Inv(h, f) && mid in f.missions && f.missions[mid].state.InProgress()
    ensures var id := f.missions[mid].droneID;
      && id in f.drones && MutateMission(f, Abort, mid).fleet == Recall(f, id).fleet
      && Recall(f, id).reply.Accepted? && Recall(f, id).fleet.drones[id] == f.drones[id].(status := Returning)
      && Recall(f, id).fleet.missions[mid] == f.missions[mid].(state := Aborted)
      && Recall(f, id).fleet.aborted == f.aborted + 1
  {
    assert MissionInv(f, mid);
  }

  /** A drone can be recalled exactly if it is in the air. */
  lemma RecallAcceptedIff(f: FleetState, id: string)
    ensures Recall(f, id).reply.Accepted? <==> id in f.drones && !OnGround(f.drones[id])
    ensures Recall(f, id).reply == Refused(DroneNotFound) <==> id !in f.drones
    ensures Recall(f, id).reply.Accepted? ==> Recall(f, id).fleet.drones[id].status == Returning
  {
  }

  // ---- Coming and going ----

  /** A drone can be added exactly if it has a name of its own and a model; then it stands on its base,
      fully charged and ready. */
  lemma AddAcceptedIff(f: FleetState, d: Drone)
    ensures AddDrone(f, d).reply.Accepted? <==> d.id != "" && d.model != "" && d.id !in f.drones
    ensures AddDrone(f, d).reply == Refused(DroneExists) <==> d.id != "" && d.model != "" && d.id in f.drones
    ensures AddDrone(f, d).reply.Accepted? ==>
      var added := AddDrone(f, d).fleet.drones;
      && added.Keys == f.drones.Keys + {d.id} && (forall i :: i in f.drones ==> added[i] == f.drones[i])
      && added[d.id].status == Idle && added[d.id].battery == 100.0 && added[d.id].missionID == ""
      && added[d.id].position == added[d.id].base == d.base && added[d.id].model == d.model
      && added[d.id].firmware == d.firmware && added[d.id].id == d.id
    ensures !AddDrone(f, d).reply.Accepted? ==> AddDrone(f, d).fleet == f
  {
  }

  /** A drone can be removed exactly if it is there, on the ground, and every mission of its is over. */
  lemma RemoveAcceptedIff(f: FleetState, id: string)
    ensures RemoveDrone(f, id).reply.Accepted? <==>
      && id in f.drones && OnGround(f.drones[id])
      && forall mid :: mid in f.missions && f.missions[mid].droneID == id ==>
           f.missions[mid].state == Completed || f.missions[mid].state == Aborted
    ensures RemoveDrone(f, id).reply == Refused(DroneNotFound) <==> id !in f.drones
    ensures RemoveDrone(f, id).reply == Refused(DroneBusy) <==> id in f.drones && !OnGround(f.drones[id])
    ensures RemoveDrone(f, id).reply.Accepted? ==> RemoveDrone(f, id).fleet == f.(drones := f.drones - {id})
    ensures !RemoveDrone(f, id).reply.Accepted? ==> RemoveDrone(f, id).fleet == f
  {
  }

  /** Removing a drone that was just added brings back the fleet, unless missions were waiting for it. */
  lemma RemoveUndoesAdd(f: FleetState, d: Drone)
    requires AddDrone(f, d).reply.Accepted?
    ensures RemoveDrone(AddDrone(f, d).fleet, d.id).fleet == f <==>
      forall mid :: mid in f.missions && f.missions[mid].droneID == d.id ==> !IsOpen(f.missions[mid])
  {
    var added := AddDrone(f, d).fleet;
    RemoveAcceptedIff(added, d.id);
    assert added.drones - {d.id} == f.drones;
  }

  /** A mission can be deleted exactly if it is there and not in progress. */
  lemma DeleteAcceptedIff(f: FleetState, mid: string)
    ensures DeleteMission(f, mid).reply.Accepted? <==>
      mid in f.missions && f.missions[mid].state != Active && f.missions[mid].state != Paused
    ensures DeleteMission(f, mid).reply.Accepted? ==> DeleteMission(f, mid).fleet == f.(missions := f.missions - {mid})
    ensures !DeleteMission(f, mid).reply.Accepted? ==> DeleteMission(f, mid).fleet == f
  {
  }

  /** A mission can be created exactly if it has a name, a drone that is there when this is looked up, and
      somewhere to go; one that is stored always has the first and the last. */
  lemma CreateAcceptedIff(h: (real, real) -> real, f: FleetState, name: string, droneID: string, ws: seq<Waypoint>)
    requires Inv(h, f) && f.nextID < Ids.MAX_INT64
    ensures CheckMission(f, name, droneID, ws) == Accepted <==>
      name != "" && droneID != "" && |ws| > 0 && droneID in f.drones
    ensures CheckMission(f, name, droneID, ws) == Refused(InvalidMission) <==> name == "" || droneID == "" || |ws| == 0
    ensures var created := Apply(h, f, CommitMissionCmd(name, droneID, ws)).missions;
      created.Keys != f.missions.Keys <==> name != "" && droneID != "" && |ws| > 0
  {
    MissionIDIsFresh(h, f);
    assert MissionID(Ids.AddOneInt64(f.nextID)) in CommitMission(f, name, droneID, ws).missions;
  }

  /** Deleting a mission that was just created leaves nothing of it but its number. */
  lemma DeleteUndoesCommit(h: (real, real) -> real, f: FleetState, name: string, droneID: string, ws: seq<Waypoint>)
    requires Inv(h, f) && f.nextID < Ids.MAX_INT64
    ensures var created, mid := CommitMission(f, name, droneID, ws), MissionID(f.nextID + 1);
      && created.missions.Keys == f.missions.Keys + {mid} && mid !in f.missions
      && created.missions[mid].waypoints == ws && created.missions[mid].droneID == droneID
      && created.missions[mid].name == name && created.missions[mid].state == Planned
      && DeleteMission(created, mid) == Step(f.(nextID := f.nextID + 1), Accepted)
  {
    MissionIDIsFresh(h, f);
    assert CommitMission(f, name, droneID, ws).missions - {MissionID(f.nextID + 1)} == f.missions;
  }

  // ---- Open missions keep their drone ----

  /** The mission is there and open before, between and after the commands. */
  ghost predicate OpenThroughout(h: (real, real) -> real, f: FleetState, mid: string, cmds: seq<Command>)
    decreases |cmds|
  {
    && mid in f.missions && IsOpen(f.missions[mid])
    && (cmds != [] ==> OpenThroughout(h, Apply(h, f, cmds[0]), mid, cmds[1..]))
  }

  lemma StepKeepsMissionsDrone(h: (real, real) -> real, f: FleetState, mid: string, c: Command)
    requires Inv(h, f) && f.nextID + Commits([c]) <= Ids.MAX_INT64
    requires mid in f.missions && IsOpen(f.missions[mid]) && f.missions[mid].droneID in f.drones
    requires mid in Apply(h, f, c).missions
    ensures Apply(h, f, c).missions[mid].droneID == f.missions[mid].droneID
    ensures f.missions[mid].droneID in Apply(h, f, c).drones
  {
    match c
    case RemoveDroneCmd(id) => RemoveAcceptedIff(f, id);
    case CommitMissionCmd(_, _, _) => MissionIDIsFresh(h, f);
    case MissionCmd(mc, m) =>
      if m in f.missions && f.missions[m].droneID in f.drones {
        assert MissionInv(f, m);
        assert DroneInv(h, f, f.missions[m].droneID);
      }
    case TickCmd => TickMissionCases(h, f, mid);
    case _ =>
  }

  /** Whatever commands come in: as long as a mission is open, its drone is not taken away from it. */
  lemma {:induction false} OpenMissionKeepsDrone(h: (real, real) -> real, f: FleetState, mid: string,
                                                 cmds: seq<Command>)
    requires IsHypot(h) && Inv(h, f) && f.nextID + Commits(cmds) <= Ids.MAX_INT64
    requires OpenThroughout(h, f, mid, cmds) && f.missions[mid].droneID in f.drones
    ensures var f' := Run(h, f, cmds);
      && mid in f'.missions && f'.missions[mid].droneID == f.missions[mid].droneID
      && f.missions[mid].droneID in f'.drones
    decreases |cmds|
  {
    if cmds != [] {
      ApplyKeepsInv(h, f, cmds[0]);
      StepKeepsMissionsDrone(h, f, mid, cmds[0]);
      OpenMissionKeepsDrone(h, Apply(h, f, cmds[0]), mid, cmds[1..]);
    }
  }

  // ---- Start-up ----

  /** No later record in the store has the identifier of the i-th one. */
  predicate LastOfItsName(stored: seq<Mission>, i: nat) {
    i < |stored| && forall j :: i < j < |stored| ==> stored[j].id != stored[i].id
  }

  /** A restart forgets how far a mission had got, and nothing else about missions: one that was active or
      paused is planned again, and the history of the others is kept. */
  lemma {:induction false} LoadKeepsHistory(stored: seq<Mission>, i: nat)
    requires LastOfItsName(stored, i)
    ensures stored[i].id in LoadMissions(stored)
    ensures var m, loaded := stored[i], LoadMissions(stored)[stored[i].id];
      if m.state == Active || m.state == Paused
      then loaded == Mission(m.id, m.name, m.droneID, m.waypoints, Planned, 0)
      else loaded == m
  {
    var rest := stored[..|stored| - 1];
    if i < |stored| - 1 {
      assert forall j :: i < j < |rest| ==> rest[j] == stored[j];
      LoadKeepsHistory(rest, i);
    }
  }

  predicate LastDroneOfItsName(stored: seq<Drone>, i: nat) {
    i < |stored| && forall j :: i < j < |stored| ==> stored[j].id != stored[i].id
  }

  /** Drones come back on their base, charged, idle and without a mission. */
  lemma {:induction false} LoadParksDrones(stored: seq<Drone>, i: nat)
    requires LastDroneOfItsName(stored, i)
    ensures stored[i].id in LoadDrones(stored)
    ensures var d := stored[i];
      LoadDrones(stored)[d.id] == Drone(d.id, d.model, Idle, 100.0, d.base, d.base, d.firmware, "")
  {
    var rest := stored[..|stored| - 1];
    if i < |stored| - 1 {
      assert forall j :: i < j < |rest| ==> rest[j] == stored[j];
      LoadParksDrones(rest, i);
    }
  }
}
