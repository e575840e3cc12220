// What a mission does for whoever launched it: its drone flies to the waypoints, one after the other
// and none left out, and only then does the mission count as completed.
module FleetItinerary {
  import opened Plane
  import opened Fleet
  import opened FleetSafety
  import Ids

  // ---- One tick ----

  /** One tick on the way. Below the low mark nothing but the abort happens. Otherwise the drone either
      gets a step closer to the next waypoint, or to it, and only in the second case is it ticked off. */
  lemma AdvanceVisits(h: (real, real) -> real, d: Drone, m: Mission)
    requires IsHypot(h) && d.status.EnRoute? && m.state.Active? && m.progress <= |m.waypoints| && d.battery <= 100.0
    ensures var a := Advance(h, d, m);
      && (a.mission.state.Aborted? <==> d.battery - 1.5 <= 20.0)
      && (a.mission.state.Completed? <==> d.battery - 1.5 > 20.0 && a.mission.progress == |m.waypoints|)
      && (a.mission.progress != m.progress ==>
            && a.mission.progress == m.progress + 1 <= |m.waypoints|
            && a.drone.position == m.waypoints[m.progress] && Dist(h, d.position, m.waypoints[m.progress]) <= 0.01)
      && (a.mission.progress == m.progress < |m.waypoints| && a.mission.state.Active? ==>
            && 0.0 < Dist(h, a.drone.position, m.waypoints[m.progress])
                   == Dist(h, d.position, m.waypoints[m.progress]) - 0.01
            && Dist(h, a.drone.position, d.position) == 0.01)
      && (a.mission.progress == m.progress && !a.mission.state.Active? ==> a.drone.position == d.position)
      && a.mission.waypoints == m.waypoints
  {
    if m.progress < |m.waypoints| {
      MoveTowardShortens(h, d.position, m.waypoints[m.progress]);
    }
  }

  /** One tick of a drone that holds: it stays where it is, and turns back, giving its mission up, exactly
      when this tick takes it to the low mark. */
  lemma HoldingLasts(h: (real, real) -> real, f: FleetState, mid: string)
    requires Inv(h, f) && mid in f.missions && f.missions[mid].state.Paused?
    ensures var m, m' := f.missions[mid], Tick(h, f).missions[mid];
      && m.droneID in f.drones
      && var d, d' := f.drones[m.droneID], Tick(h, f).drones[m.droneID];
      && d'.position == d.position && d'.battery == d.battery - 0.3 && m'.progress == m.progress
      && (if d.battery - 0.3 > 20.0 then d'.status == Holding && m'.state == Paused
          else d'.status == Returning && m'.state == Aborted)
  {
    assert MissionInv(f, mid);
    assert DroneInv(h, f, f.missions[mid].droneID);
    TickMissionCases(h, f, mid);
  }

  /** What a command or a tick can do to a mission in progress: progress stays, or grows by one when
      the drone stands on the next waypoint. It is completed when no waypoint is left, and not before. */
  ghost predicate Progresses(f: FleetState, f': FleetState, mid: string)
    requires mid in f.missions && f.missions[mid].droneID in f.drones
  {
    var m, id := f.missions[mid], f.missions[mid].droneID;
    && mid in f'.missions && id in f'.drones
    && f'.missions[mid].droneID == id && f'.missions[mid].waypoints == m.waypoints
    && (f'.missions[mid].progress == m.progress
        || (f'.missions[mid].progress == m.progress + 1 <= |m.waypoints|
            && f'.drones[id].position == m.waypoints[m.progress]))
    && (f'.missions[mid].state.Completed? ==> f'.missions[mid].progress == |m.waypoints|)
  }

  lemma TickProgresses(h: (real, real) -> real, f: FleetState, mid: string)
    requires IsHypot(h) && Inv(h, f) && mid in f.missions && f.missions[mid].state.InProgress()
    requires f.missions[mid].progress <= |f.missions[mid].waypoints|
    ensures f.missions[mid].droneID in f.drones && Progresses(f, Tick(h, f), mid)
  {
    assert MissionInv(f, mid);
    var m, id := f.missions[mid], f.missions[mid].droneID;
    assert DroneInv(h, f, id);
    TickMissionCases(h, f, mid);
    if m.state.Active? { AdvanceVisits(h, f.drones[id], m); }
  }

  lemma CommandProgresses(h: (real, real) -> real, f: FleetState, mid: string, c: Command)
    requires IsHypot(h) && Inv(h, f) && f.nextID + Commits([c]) <= Ids.MAX_INT64 && !c.TickCmd?
    requires mid in f.missions && f.missions[mid].state.InProgress()
    ensures f.missions[mid].droneID in f.drones && Progresses(f, Apply(h, f, c), mid)
    ensures Apply(h, f, c).missions[mid].progress == f.missions[mid].progress
    ensures !Apply(h, f, c).missions[mid].state.Completed?
  {
    assert MissionInv(f, mid);
    assert DroneInv(h, f, f.missions[mid].droneID);
    match c
    case CommitMissionCmd(_, _, _) => MissionIDIsFresh(h, f);
    case RemoveDroneCmd(id) =>
    case MissionCmd(_, m) =>
    case _ =>
  }

  lemma StepProgresses(h: (real, real) -> real, f: FleetState, mid: string, c: Command)
    requires IsHypot(h) && Inv(h, f) && f.nextID + Commits([c]) <= Ids.MAX_INT64
    requires mid in f.missions && f.missions[mid].state.InProgress()
    requires f.missions[mid].progress <= |f.missions[mid].waypoints|
    ensures f.missions[mid].droneID in f.drones && Progresses(f, Apply(h, f, c), mid)
  {
    if c.TickCmd? { TickProgresses(h, f, mid); } else { CommandProgresses(h, f, mid, c); }
  }

  // ---- Whole missions ----

  /** The mission is in progress until the last of the commands, which completes it. */
  ghost predicate CompletedBy(h: (real, real) -> real, f: FleetState, mid: string, cmds: seq<Command>)
    decreases |cmds|
  {
    && mid in f.missions
    && if cmds == [] then f.missions[mid].state.Completed?
       else f.missions[mid].state.InProgress() && CompletedBy(h, Apply(h, f, cmds[0]), mid, cmds[1..])
  }

  /** at[k] commands after the start the drone stands on the k-th of these waypoints; and the times increase. */
  ghost predicate Visits(h: (real, real) -> real, f: FleetState, id: string, ws: seq<Waypoint>, cmds: seq<Command>,
                         at: seq<nat>) {
    && |at| == |ws|
    && (forall j, k :: 0 <= j < k < |at| ==> at[j] < at[k])
    && (forall k {:trigger at[k]} :: 0 <= k < |at| ==> StandsOn(h, f, id, ws[k], cmds, at[k]))
  }

  ghost predicate StandsOn(h: (real, real) -> real, f: FleetState, id: string, w: Waypoint, cmds: seq<Command>,
                           n: nat) {
    0 < n <= |cmds| && id in Run(h, f, cmds[..n]).drones && Run(h, f, cmds[..n]).drones[id].position == w
  }

  /** A command later, the same moments are one command further away. */
  lemma Later(h: (real, real) -> real, f: FleetState, id: string, w: Waypoint, cmds: seq<Command>, n: nat)
    requires cmds != [] && StandsOn(h, Apply(h, f, cmds[0]), id, w, cmds[1..], n)
    ensures StandsOn(h, f, id, w, cmds, n + 1)
  {
    assert cmds[..n + 1][1..] == cmds[1..][..n];
  }

  lemma Now(h: (real, real) -> real, f: FleetState, id: string, w: Waypoint, cmds: seq<Command>)
    requires cmds != [] && id in Apply(h, f, cmds[0]).drones && Apply(h, f, cmds[0]).drones[id].position == w
    ensures StandsOn(h, f, id, w, cmds, 1)
  {
    assert Run(h, f, cmds[..1]) == Run(h, Apply(h, f, cmds[0]), []);
  }

  lemma AllLater(h: (real, real) -> real, f: FleetState, id: string, ws: seq<Waypoint>, cmds: seq<Command>,
                 at: seq<nat>) returns (at': seq<nat>)
    requires cmds != [] && Visits(h, Apply(h, f, cmds[0]), id, ws, cmds[1..], at)
    ensures Visits(h, f, id, ws, cmds, at') && forall k :: 0 <= k < |at'| ==> at'[k] > 1
  {
    at' := seq(|at|, k requires 0 <= k < |at| => at[k] + 1);
    forall k | 0 <= k < |at'|
      ensures StandsOn(h, f, id, ws[k], cmds, at'[k]) && at'[k] > 1
    {
      Later(h, f, id, ws[k], cmds, at[k]);
    }
  }

  lemma First(h: (real, real) -> real, f: FleetState, id: string, ws: seq<Waypoint>, cmds: seq<Command>,
              at: seq<nat>) returns (at': seq<nat>)
    requires cmds != [] && ws != [] && StandsOn(h, f, id, ws[0], cmds, 1)
    requires Visits(h, f, id, ws[1..], cmds, at) && forall k :: 0 <= k < |at| ==> at[k] > 1
    ensures Visits(h, f, id, ws, cmds, at')
  {
    at' := [1] + at;
    forall k | 0 <= k < |at'|
      ensures StandsOn(h, f, id, ws[k], cmds, at'[k])
    {
      if k > 0 { assert at'[k] == at[k - 1] && ws[1..][k - 1] == ws[k]; }
    }
  }

  /** From any moment of a mission on, what is left of the waypoints is visited in order. */
  lemma {:induction false} RestIsVisited(h: (real, real) -> real, f: FleetState, mid: string, cmds: seq<Command>)
    returns (at: seq<nat>)
    requires IsHypot(h) && Inv(h, f) && f.nextID + Commits(cmds) <= Ids.MAX_INT64
    requires CompletedBy(h, f, mid, cmds) && f.missions[mid].progress <= |f.missions[mid].waypoints|
    requires cmds == [] ==> f.missions[mid].progress == |f.missions[mid].waypoints|
    ensures Visits(h, f, f.missions[mid].droneID, f.missions[mid].waypoints[f.missions[mid].progress..], cmds, at)
    decreases |cmds|
  {
    var m, id := f.missions[mid], f.missions[mid].droneID;
    if cmds == [] {
      at := [];
    } else {
      var f' := Apply(h, f, cmds[0]);
      ApplyKeepsInv(h, f, cmds[0]);
      StepProgresses(h, f, mid, cmds[0]);
      var later := RestIsVisited(h, f', mid, cmds[1..]);
      at := AllLater(h, f, id, m.waypoints[f'.missions[mid].progress..], cmds, later);
      if f'.missions[mid].progress != m.progress {
        Now(h, f, id, m.waypoints[m.progress], cmds);
        assert m.waypoints[m.progress..][1..] == m.waypoints[m.progress + 1..];
        at := First(h, f, id, m.waypoints[m.progress..], cmds, at);
      }
    }
  }

  /** Whatever else happens in the meantime: between a launch and the completion of the mission its drone
      has stood on every one of the waypoints, in their order. */
  lemma WaypointsAreVisitedInOrder(h: (real, real) -> real, f: FleetState, mid: string, cmds: seq<Command>)
    returns (at: seq<nat>)
    requires IsHypot(h) && Inv(h, f) && f.nextID + Commits(cmds) <= Ids.MAX_INT64
    requires Launches(f, MissionCmd(Launch, mid))
    requires CompletedBy(h, Apply(h, f, MissionCmd(Launch, mid)), mid, cmds)
    ensures mid in f.missions
    ensures Visits(h, Apply(h, f, MissionCmd(Launch, mid)), f.missions[mid].droneID, f.missions[mid].waypoints, cmds,
                   at)
  {
    var launched := Apply(h, f, MissionCmd(Launch, mid));
    ApplyKeepsInv(h, f, MissionCmd(Launch, mid));
    at := RestIsVisited(h, launched, mid, cmds);
    assert f.missions[mid].waypoints[0..] == f.missions[mid].waypoints;
  }

  lemma {:induction false} RestTakesTicks(h: (real, real) -> real, f: FleetState, mid: string, cmds: seq<Command>)
    requires IsHypot(h) && Inv(h, f) && f.nextID + Commits(cmds) <= Ids.MAX_INT64
    requires CompletedBy(h, f, mid, cmds) && f.missions[mid].progress <= |f.missions[mid].waypoints|
    requires cmds == [] ==> f.missions[mid].progress == |f.missions[mid].waypoints|
    ensures |f.missions[mid].waypoints| - f.missions[mid].progress <= Ticks(cmds)
    decreases |cmds|
  {
    if cmds != [] {
      ApplyKeepsInv(h, f, cmds[0]);
      StepProgresses(h, f, mid, cmds[0]);
      if !cmds[0].TickCmd? { CommandProgresses(h, f, mid, cmds[0]); }
      RestTakesTicks(h, Apply(h, f, cmds[0]), mid, cmds[1..]);
    }
  }

  /** So a mission of n waypoints takes at least n ticks. */
  lemma MissionTakesTicks(h: (real, real) -> real, f: FleetState, mid: string, cmds: seq<Command>)
    requires IsHypot(h) && Inv(h, f) && f.nextID + Commits(cmds) <= Ids.MAX_INT64
    requires Launches(f, MissionCmd(Launch, mid))
    requires CompletedBy(h, Apply(h, f, MissionCmd(Launch, mid)), mid, cmds)
    ensures mid in f.missions && |f.missions[mid].waypoints| <= Ticks(cmds)
  {
    ApplyKeepsInv(h, f, MissionCmd(Launch, mid));
    RestTakesTicks(h, Apply(h, f, MissionCmd(Launch, mid)), mid, cmds);
  }

  // ---- On the ground again ----

  ghost predicate ChargesThroughout(h: (real, real) -> real, f: FleetState, id: string, cmds: seq<Command>)
    decreases |cmds|
  {
    && id in f.drones && f.drones[id].status.Charging?
    && (cmds != [] ==> ChargesThroughout(h, Apply(h, f, cmds[0]), id, cmds[1..]))
  }

  /** A tick adds 5 to the charge, up to 100; with that the drone is idle, and not before. */
  lemma TickCharges(h: (real, real) -> real, f: FleetState, id: string)
    requires id in f.drones && f.drones[id].status.Charging? && 0.0 <= f.drones[id].battery <= 100.0
    ensures var d, d' := f.drones[id], Tick(h, f).drones[id];
      && d'.battery == (if d.battery >= 95.0 then 100.0 else d.battery + 5.0)
      && d' == d.(battery := d'.battery, status := if d.battery >= 95.0 then Idle else Charging)
  {
  }

  lemma CommandLeavesCharge(h: (real, real) -> real, f: FleetState, id: string, c: Command)
    requires Inv(h, f) && id in f.drones && f.drones[id].status.Charging? && !c.TickCmd?
    requires id in Apply(h, f, c).drones && Apply(h, f, c).drones[id].status.Charging?
    ensures Apply(h, f, c).drones[id].battery == f.drones[id].battery
  {
    match c
    case MissionCmd(mc, mid) =>
    case _ =>
  }

  lemma {:induction false} ChargeAfter(h: (real, real) -> real, f: FleetState, id: string, cmds: seq<Command>)
    requires IsHypot(h) && Inv(h, f) && f.nextID + Commits(cmds) <= Ids.MAX_INT64
    requires ChargesThroughout(h, f, id, cmds)
    ensures f.drones[id].battery + 5.0 * Ticks(cmds) as real < 100.0 || Ticks(cmds) == 0
    decreases |cmds|
  {
    if cmds != [] {
      var c := cmds[0];
      assert DroneInv(h, f, id);
      ApplyKeepsInv(h, f, c);
      ChargeAfter(h, Apply(h, f, c), id, cmds[1..]);
      if c.TickCmd? { TickCharges(h, f, id); } else { CommandLeavesCharge(h, f, id, c); }
    }
  }

  /** A drone that has landed and is left alone is ready after at most twenty ticks. */
  lemma ChargingIsBounded(h: (real, real) -> real, f: FleetState, id: string, cmds: seq<Command>)
    requires IsHypot(h) && Inv(h, f) && f.nextID + Commits(cmds) <= Ids.MAX_INT64
    requires ChargesThroughout(h, f, id, cmds)
    ensures Ticks(cmds) <= 19
  {
    ChargeAfter(h, f, id, cmds);
    assert DroneInv(h, f, id);
  }
}
