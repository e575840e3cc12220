# Drone monitoring services: a verified model

A Dafny model of the services behind a drone monitor: the command and control of one's own fleet, the
fusion of station tracks, the clustering of targets into swarms, alert zones, the replay of recordings
and the ingest pipeline. It states what these services are for as theorems over all inputs and over all
interleavings of commands, ticks and workers, and proves them.

`dafny verify dfyconfig.toml` checks the whole project.

## How the model is built

Code that changes state in place is modelled in place: records and tracks are objects behind references,
maps of references are fields that methods reassign, arrays are arrays, and loops over Go maps visit the
keys in an arbitrary order. Each such method is proved equal to a function, or to a relation, on values,
and the long-range properties are proved about those. Where a class carries a ghost field
(`droneValues`, `values`, `swarms`, `tracking`, `shown`), the field says what the objects hold and every method
keeps it so.

A section under a lock is one step. Long-running protocols (`Replay`, `Ingest`) are step systems: a step
is one locked section, one atomic operation or one channel operation, and a run is any sequence of steps. The
start of a replay is three steps, because it reads statuses that change under locks of their own.

| file | what it holds |
|---|---|
| `Plane.dfy`, `Ids.dfy`, `Sets.dfy`, `Graph.dfy` | what is assumed of hypot and sqrt; numbered identifiers; counting; connectivity and disjoint sets |
| `Fleet.dfy`, `FleetSafety.dfy`, `FleetCommands.dfy`, `FleetItinerary.dfy`, `FleetManager.dfy` | the fleet on values, its invariants over all runs, what the commands answer and undo, how a mission visits its waypoints, and the manager that changes records in place |
| `AxisFilter.dfy`, `Kalman.dfy`, `FilterMeaning.dfy` | the filter along one axis and its laws; the 4x4 in-place program, proved to be two of them; in which sense predictions and updates are right |
| `FuserState.dfy`, `FuserWindow.dfy`, `FuserBlindSpot.dfy`, `FuserHistory.dfy`, `Fuser.dfy`, `FuserReports.dfy`, `FuserShards.dfy` | a shard on values, when its grid search is complete, what it can miss otherwise, what it keeps over time, the shard with its tracks behind pointers, what its reports say, and all shards together |
| `Cluster.dfy`, `ClusterBlindSpot.dfy`, `Swarm.dfy`, `SwarmReports.dfy` | grid-bucketed union-find, the clusters it misses near the poles, the identity of swarms over time, and what they say about the drones |
| `EvenOdd.dfy`, `ZoneIndex.dfy` | the even-odd rule and its geometry; the index with its bounding boxes |
| `ZoneEvents.dfy`, `ZoneChecker.dfy` | the events one sample causes, and the checker that tracks every drone |
| `Replay.dfy`, `ReplayOrder.dfy`, `ReplayTiming.dfy`, `ReplayPlayer.dfy`, `ReplayManager.dfy` | replays as a step system; which ones are dropped; when samples go out; the player loop; the registry, and a player at work in it |
| `Ingest.dfy`, `IngestHistory.dfy` | submitters, workers and closers around the bounded queue; what the counters count and what becomes of a submission |

## What is assumed

Coordinates, distances, times and filter entries are exact reals. `math.Hypot` is any function whose value
is the non-negative root of the sum of the squares, `math.Sqrt` likewise; theorems are for all such
functions. `math.Cos` of a latitude in degrees is any function at all; where a theorem needs its value at a
latitude to be positive or at least 0.1, it says so. (`FuserState.OffPoles` asks a positive value at the latitude
of a resolved sample, which validation has confined to -90 to 90.) Clocks, the answers of stores, publishers
and zone guards, and the order in which a map yields its keys are arbitrary.

## What turned out to hold only under a condition

Each of these is proved in both directions, with the code as it is. Where the code can fail, a lemma gives an input
or a run of the service on which it does.

* The roll-back of a drone that could not be stored deletes it whatever it does by then. It leaves the fleet
  consistent exactly when the drone is not on a mission (`FleetSafety.RollBackDroneKeepsInvIff`); likewise for
  missions (`FleetSafety.RollBackMissionKeepsInvIff`). From an empty store three commands lead to where either
  fails (`FleetSafety.RollBackCanBreakInv`).
* After `Load` the next mission identifier is new exactly when the largest stored number is not the last int64,
  or the identifier the counter wraps round to is not stored (`FleetSafety.NextMissionIDIsNewIff`).
* The clusters of valid points on a latitude come out right, whatever the points and for every minimal size of 2 or
  more, exactly when the cosine of the latitude is at least 0.1 in absolute value, the clamp in `longitudeCellSpan`
  (`ClusterBlindSpot.ClustersCompleteIff`; for single pairs `ClusterBlindSpot.WindowCompleteIff`). That it must be is
  for a radius of which ten fit into 180 degrees of a meridian. Below the clamp there is for every minimal size a list
  of valid points that are one cluster and of which the search makes none (`ClusterBlindSpot.ClusterIsMissed`).
* The candidate window of the fuser is sized by the sample's latitude, its gate by the track's. At two given
  latitudes grid search and linear scan agree in every shard exactly when the squared row distance plus the squared
  reach of the span at the track's latitude is at least 1 (`FuserBlindSpot.SearchCompleteIff`); that it must be is for
  windows that go less than once round the globe. It is not just north of 60 degrees, where the span jumps: with the
  default gates one shard, after two valid samples, overlooks a track that fits (`FuserBlindSpot.DefaultsOverlook`).
* Zone events balance, and each is news, exactly when the index lists no zone twice that the drone is entering
  (`ZoneEvents.DiffBalances`, `ZoneEvents.DiffIsFaithful`); an index of features with different identifiers
  never does (`ZoneChecker.IndexListsOnce`).
* A pruning of the replay registry drops older replays than the ended ones it keeps exactly when each replay that has
  ended since its status was read has at most twenty newer ones among those whose status said ended
  (`ReplayOrder.OldestGoIff`); `ReplayOrder.OldestCanStay` is a run in which one has more.

## Model

| member | source | states |
|---|---|---|
| Ids.SequenceRoundTrip | internal/fleet/manager.go:499-505 | scanning "mission-%d" and trimming "replay-" give back the number that "%03d" formatted, for every non-negative int64 |
| Ids.NumberIsPadded | internal/fleet/manager.go:202 | the formatted number is the digit string with that value, of at least three digits, with leading zeros only to fill these up |
| Ids.ScanStopsAfterDigits | internal/fleet/manager.go:499-505 | scanning takes an optional sign and digits and does not mind what follows; a number that is no int64 counts as 0 |
| Ids.SequenceInjective | internal/fleet/manager.go:202 | different sequence numbers never format to the same identifier |
| Ids.NextIsFresh | internal/fusion/fuser.go:180 | the identifier of the next number is none of those a counter has handed out |
| Plane.TriangleInequality | internal/fleet/manager.go:478-487 | hypot obeys the triangle inequality, derived from its defining equation |
| Graph.DisjointSets.Find | internal/geofence/cluster.go:30-36 | find returns the root of the element's tree, and path compression moves no element to another tree; it terminates |
| Graph.DisjointSets.Union | internal/geofence/cluster.go:37-42 | union moves every element of the second tree to the first, and no other |
| Graph.LabelConstantOnComponents | internal/geofence/cluster.go:26-60 | a labelling that agrees along every link agrees on everything a path connects |
| FleetSafety.MoveTowardShortens | internal/fleet/manager.go:478-487 | a step that does not arrive shortens the distance by exactly stepDegrees and lands stepDegrees away; one that arrives ends on the target |
| FleetSafety.MoveTowardDrift | internal/fleet/manager.go:478-487 | no step, whatever its target, takes a drone more than stepDegrees further from its base |
| FleetSafety.AdvanceKeepsBudget | internal/fleet/manager.go:435-462 | an en-route tick keeps at least 150 charge burnt per degree from base, in all its outcomes |
| FleetSafety.ReturnKeepsBudget | internal/fleet/manager.go:464-476 | a tick on the way home keeps more than 30 charge per degree still to go, in reserve |
| FleetSafety.LoadEstablishesInv | internal/fleet/manager.go:75-108 | whatever the store holds, the loaded fleet satisfies the cross-map invariant with nothing in progress |
| FleetSafety.ActiveIffEnRoute | internal/fleet/manager.go:236-291 | a mission is active iff its own drone and no other is en-route with it, paused iff that drone is holding with it |
| FleetSafety.OneMissionPerDrone | internal/fleet/manager.go:236-253 | no drone has two missions in progress |
| FleetSafety.RemoveDroneKeepsInv | internal/fleet/manager.go:157-180 | removing a drone never orphans a mission in progress |
| FleetSafety.DeleteMissionKeepsInv | internal/fleet/manager.go:217-234 | deleting a mission never orphans a flying drone |
| FleetSafety.MutateMissionKeepsInv | internal/fleet/manager.go:293-316 | launch, pause, resume and abort keep the cross-map and energy invariant, and count exactly what they end or begin |
| FleetSafety.RecallKeepsInv | internal/fleet/manager.go:318-346 | recalling from any position within budget leaves enough charge to get home, and aborts at most the flown mission |
| FleetSafety.TickKeepsInv | internal/fleet/manager.go:398-433 | a tick keeps the invariant, and what leaves the in-progress missions is what the two totals gain |
| FleetSafety.RunKeepsInv | internal/fleet/manager.go:130-433 | every sequence of commands and ticks keeps the invariant and the mission accounting |
| FleetItinerary.AdvanceVisits | internal/fleet/manager.go:435-462 | an en-route tick aborts exactly at 21.5 charge or less; otherwise it brings the drone 0.01 degrees closer to the next waypoint, or onto it, and only then raises the progress, by one; the mission is completed exactly when that was the last |
| FleetItinerary.HoldingLasts | internal/fleet/manager.go:412-421 | a holding tick costs 0.3 and moves nothing; the drone turns back, giving up its mission, exactly when that leaves 20 or less |
| FleetItinerary.WaypointsAreVisitedInOrder | internal/fleet/manager.go:236-253 | from an accepted launch to the completion of the mission, under any commands, its drone has stood on waypoint 0, 1, .., n-1 in that order |
| FleetItinerary.MissionTakesTicks | internal/fleet/manager.go:435-462 | a mission of n waypoints completes after at least n ticks |
| FleetItinerary.ChargingIsBounded | internal/fleet/manager.go:424-429 | whatever commands arrive, a drone charges for at most 19 ticks and is idle with the next |
| FleetCommands.LaunchAcceptedIff | internal/fleet/manager.go:236-253 | accepted iff the mission is not in progress and its drone exists, is on the ground and has more than 20 charge |
| FleetCommands.OthersAcceptedIff | internal/fleet/manager.go:255-291 | in a consistent fleet pause is accepted iff the mission is active, resume iff it is paused, abort iff either |
| FleetCommands.ResumeUndoesPause | internal/fleet/manager.go:255-279 | resuming right after a pause brings back the very fleet |
| FleetCommands.AbortIsRecall | internal/fleet/manager.go:281-335 | aborting a mission in progress and recalling its drone lead to the same fleet |
| FleetCommands.RecallAcceptedIff | internal/fleet/manager.go:318-335 | accepted iff the drone exists and is in the air; then it is returning |
| FleetCommands.AddAcceptedIff | internal/fleet/manager.go:130-147 | accepted iff identifier and model are given and the identifier is new; then the drone stands on its base, idle and full, and the others are as they were |
| FleetCommands.RemoveAcceptedIff | internal/fleet/manager.go:157-175 | accepted iff the drone exists, is on the ground and all its missions are completed or aborted |
| FleetCommands.RemoveUndoesAdd | internal/fleet/manager.go:130-175 | removing a drone that was just added brings back the fleet iff no open mission names it |
| FleetCommands.CreateAcceptedIff | internal/fleet/manager.go:182-206 | the check passes iff name, drone identifier and a waypoint are given and the drone exists; a mission is stored iff the first three are |
| FleetCommands.DeleteAcceptedIff | internal/fleet/manager.go:217-229 | accepted iff the mission exists and is not in progress |
| FleetCommands.DeleteUndoesCommit | internal/fleet/manager.go:201-229 | deleting a mission that was just created leaves nothing of it but its number |
| FleetCommands.OpenMissionKeepsDrone | internal/fleet/manager.go:157-175 | under any commands and ticks, a mission that stays open keeps its drone |
| FleetCommands.LoadKeepsHistory | internal/fleet/manager.go:84-107 | a loaded mission is the last stored one of its identifier, planned again from the start if it was in progress and otherwise unchanged |
| FleetCommands.LoadParksDrones | internal/fleet/manager.go:84-94 | a loaded drone is the last stored one of its identifier, on its base, idle, full and without a mission |
| FleetSafety.NoDroneRunsFlat | internal/fleet/manager.go:398-497 | from any store and under any interleaving of commands and ticks, every battery stays above 2.2 and above what the way home costs; what is not airborne is at base |
| FleetSafety.LaunchesAreAccountedFor | internal/fleet/manager.go:247-290 | at all times launches = completed + aborted + in progress |
| FleetSafety.SortiesAreBounded | internal/fleet/manager.go:402-487 | whatever commands arrive, no drone is airborne for more than 321 consecutive ticks |
| FleetSafety.MissionsAreBounded | internal/fleet/manager.go:435-448 | a mission is in progress for at most 266 further ticks, and 53 if it is never paused |
| FleetSafety.MissionIDIsFresh | internal/fleet/manager.go:201-206 | in every reachable fleet the next mission identifier is not in the map |
| FleetSafety.NextMissionIDIsNewIff | internal/fleet/manager.go:84-107 | after Load the next mission identifier is new for a given store iff its largest number is below MaxInt64 or the wrapped identifier is not stored |
| FleetSafety.NextMissionIDIsAlwaysNewIff | internal/fleet/manager.go:84-107 | it is new for every store with the same largest number iff that is below MaxInt64 |
| FleetSafety.RollBackDroneKeepsInvIff | internal/fleet/manager.go:148-153 | the roll-back keeps the invariant iff the drone is neither en-route nor holding |
| FleetSafety.RollBackMissionKeepsInvIff | internal/fleet/manager.go:208-213 | the roll-back keeps the invariant iff the mission is not in progress |
| FleetSafety.RollBackCanBreakInv | internal/fleet/manager.go:130-153 | adding a drone, creating its mission and launching it, all before a save fails, leads from an empty store to a fleet that either roll-back leaves inconsistent |
| FleetManager.Manager.AddDrone | internal/fleet/manager.go:130-147 | the records change as the value model says; a new record is stored for a new identifier only |
| FleetManager.Manager.RemoveDrone | internal/fleet/manager.go:157-175 | as the value model: refused in flight or with an open mission, otherwise only this drone goes |
| FleetManager.Manager.CommitMission | internal/fleet/manager.go:201-206 | the new mission is stored under an identifier that was free |
| FleetManager.Manager.DeleteMission | internal/fleet/manager.go:217-229 | as the value model: refused in progress, otherwise only this mission goes |
| FleetManager.Manager.MutateMission | internal/fleet/manager.go:293-310 | looking both records up and changing them in place is the value model's command, with its replies |
| FleetManager.Manager.Recall | internal/fleet/manager.go:318-338 | as the value model, with its replies |
| FleetManager.Manager.AdvanceMission | internal/fleet/manager.go:435-462 | the two records and the two totals change as one value-model advance (AdvanceVisits says what that is) |
| FleetManager.TickOneAdvances | internal/fleet/manager.go:402-431 | the turn of any one remaining drone takes one mid-tick fleet to the next, whichever drone it is |
| FleetManager.Manager.Tick | internal/fleet/manager.go:398-433 | the loop over the map, in any order, ends in the one state of the value model and reports each ended mission once (what it does to missions over a run: WaypointsAreVisitedInOrder) |
| FleetManager.Manager.Load | internal/fleet/manager.go:84-107 | on any manager the two loops and the maximum of the stored numbers are the value model's LoadInto; on a new one they make it valid |
| AxisFilter.PredictKeepsPositive | internal/fusion/kalman.go:50-86 | a prediction keeps the covariance positive definite, for any time step and acceleration variance |
| AxisFilter.UpdateKeepsPositive | internal/fusion/kalman.go:105-143 | an update keeps it positive definite, makes neither variance larger, and leaves the position variance below that of the measurement |
| AxisFilter.UpdateStaysOnSegment | internal/fusion/kalman.go:105-130 | the new position lies strictly between the predicted and the measured one |
| AxisFilter.UpdateStaysOnPlanarSegment | internal/fusion/kalman.go:105-130 | in the plane the new position divides the segment from the predicted to the measured position in the ratio of the two variances, the same on both axes |
| AxisFilter.UpdatesCombine | internal/fusion/kalman.go:105-143 | two measurements of one instant act as their precision-weighted mean with the harmonic variance |
| AxisFilter.FuseAllIsMean | internal/fusion/kalman.go:105-143 | n measurements of one instant act as their mean with the variance divided by n |
| AxisFilter.FusionOrderIrrelevant | internal/fusion/kalman.go:105-143 | the order in which measurements of one instant are fused does not matter |
| AxisFilter.RunVarianceBounded | internal/fusion/kalman.go:105-143 | over any sequence of predictions and updates the position variance stays positive and at most that of one measurement |
| AxisFilter.RunCovarianceIndependentOfMeasurements | internal/fusion/kalman.go:50-143 | the covariance depends on when was measured, not on what |
| FilterMeaning.PredictionIsCapped | internal/fusion/kalman.go:50-60 | a prediction follows the velocity for the elapsed time, for 30 s at most and never backwards; after a longer gap it is the prediction for 30 s |
| FilterMeaning.PredictedVariance | internal/fusion/kalman.go:62-85 | the variance of any combination of position and velocity after t is that of what they were before plus q times the square of what an acceleration adds to them |
| FilterMeaning.UpdateIsTheFusion | internal/fusion/kalman.go:105-143 | the update is the one estimate whose information (inverse covariance, and that times the state) is the sum of what was known and the measurement's |
| FilterMeaning.InformationDetermines | internal/fusion/kalman.go:105-143 | two estimates with the same information are equal |
| FilterMeaning.UpdateIsBestCompromise | internal/fusion/kalman.go:105-143 | of all positions the updated one, and no other, disagrees least with prediction and measurement, each weighed by its variance |
| FilterMeaning.DistanceIsLeastDisagreement | internal/fusion/kalman.go:88-103 | the distance by which tracks are chosen is that least disagreement |
| FilterMeaning.QualityAtLeastIff | internal/telemetry/telemetry.go:54-63 | a quality is at least n iff the uncertainty is at most 5 m for each point missing from 100 |
| Kalman.PredictionIsPerAxis | internal/fusion/kalman.go:60-86 | F P F' + Q of two uncoupled axes is two predictions of one axis, with the same blocks and nothing across |
| Kalman.BlockIsPositiveDefinite | internal/fusion/kalman.go:23-36 | the 4x4 covariance is symmetric and v' P v > 0 for every non-zero v |
| Kalman.Propagate | internal/fusion/kalman.go:50-86 | for any state and covariance, the in-place loops compute F s and F P F' + Q for the elapsed time, for 30 s when it is longer, and nothing when it is not positive |
| Kalman.InnovationDistance | internal/fusion/kalman.go:88-103 | the guard against a singular innovation is dead, and the distance is the squared residual over its variance |
| Kalman.FuseMeasurement | internal/fusion/kalman.go:105-139 | the guard is dead, and the gain, state and covariance loops amount to one update on each axis |
| Kalman.KalmanFilter.MahalanobisSquared | internal/fusion/kalman.go:88-103 | the distance of a measurement from the filter predicted to its time |
| Kalman.KalmanFilter.Update | internal/fusion/kalman.go:105-143 | the filter stays two uncoupled positive definite axes, each predicted and updated, with position variance at most that of a measurement |
| Kalman.QualityAtLeast71 | internal/telemetry/telemetry.go:54-63 | with the default 100 m noise the quality derived from a stored covariance is at least 71 |
| Kalman.GeoRoundTrip | internal/fusion/kalman.go:38-48 | toGeo undoes toLocal |
| FuserState.IndexesDetermined | internal/fusion/fuser.go:83-91 | byObservation and grid are functions of the tracks: two coherent shards with the same tracks are equal |
| FuserState.StationExclusive | internal/fusion/fuser.go:255-262 | no local track is held by two live tracks, and no live track holds two local tracks of one station |
| FuserState.TouchKeepsInv | internal/fusion/fuser.go:158-164 | a sample that joins a track keeps all indexes coherent and the stations exclusive |
| FuserState.AddKeepsInv | internal/fusion/fuser.go:180-191 | a new track has a name no live track has, and keeps the shard coherent |
| FuserState.DropKeepsInv | internal/fusion/fuser.go:306-312 | dropping a track leaves no trace of it in the indexes, and no empty bucket |
| FuserState.ResolveKeepsShardsApart | internal/fusion/fuser.go:75-91 | whichever shard resolves next, no track name is ever live in two shards |
| FuserWindow.GateWithinWindow | internal/fusion/fuser.go:194-210 | a position inside the gate lies in the searched window when the window condition holds |
| FuserWindow.WindowExact | internal/fusion/fuser.go:364-380 | at two given latitudes the window misses no valid position inside the coarse gate iff the condition on the latitudes holds (only if: for windows less than once round the globe) |
| FuserWindow.WideEnough | internal/fusion/fuser.go:364-374 | the condition holds when the span times the cosine at the track's latitude is at least 1 |
| FuserWindow.GridSearchIsLinearScan | internal/fusion/fuser.go:194-222 | under that condition the candidates of the window are exactly the tracks of the shard inside both gates and unseen by the station |
| FuserWindow.NearestInWindowIsNearest | internal/fusion/fuser.go:194-222 | so the nearest candidate of the window is a nearest one of the whole shard, and there is no candidate iff no track of the shard is admitted |
| FuserBlindSpot.SearchCompleteIff | internal/fusion/fuser.go:194-222 | at two given latitudes no shard that satisfies the invariant misses a track that fits both gates iff the condition on the latitudes holds, for every chi-squared gate (only if: for windows less than once round the globe) |
| FuserBlindSpot.TrackIsOverlooked | internal/fusion/fuser.go:194-222 | where the condition fails, and for configurations whose chi-squared gate is not the narrower one, a shard made by one valid sample has a track that fits a second valid one and is no candidate for it |
| FuserBlindSpot.DefaultGatesAreWide | internal/fusion/fuser.go:39-50 | the default gates are of that kind, and their window goes less than once round the globe |
| FuserBlindSpot.NorthOfSixty | internal/fusion/fuser.go:364-374 | the condition fails for a sample on 60 degrees and tracks a little north of it, for any cosine that is a half there and falls by 0.01 a degree |
| FuserBlindSpot.DefaultsOverlook | internal/fusion/fuser.go:141-222 | with the default gates there are two such samples, in the cell of one shard |
| FuserHistory.NameIsKept | internal/fusion/fuser.go:150-192 | two samples under one key less than a TTL apart are answered with the same track, whatever samples and sweeps come in between |
| FuserHistory.NameIsKeptThroughout | internal/fusion/fuser.go:150-192 | so a target that a station keeps reporting keeps its name for as long as it does |
| FuserHistory.SweepForgets | internal/fusion/fuser.go:296-314 | after a sweep exactly the tracks updated within the TTL are left |
| FuserHistory.JoinsWithinGates | internal/fusion/fuser.go:194-222 | a sample joins a track it did not belong to only if its station had not seen the track, it is within the gate radius in metres, its squared residual within the gate times its variance, and no candidate nearer |
| FuserHistory.GatedIsOutsideSpread | internal/fusion/fuser.go:208-218 | what is counted as gated is unseen by the station and within the radius, but its residual is not |
| FuserHistory.StartsAtSample | internal/fusion/fuser.go:180-191 | a new track is at its sample, at rest, with the noise variance in its position and 60 m/s in its velocity |
| FuserHistory.StartsOrMerges | internal/fusion/fuser.go:168-192 | a sample under a key of no track either starts a track or counts as merged, and another one neither |
| Fuser.AltitudeSumWith | internal/fusion/fuser.go:274-291 | the sum of the fresh altitudes does not depend on the order of the map |
| Fuser.Blend | internal/fusion/fuser.go:264-294 | the altitude is the mean of the fresh observations, the confidence their largest, the squawk one of theirs if any has one |
| Fuser.Shard.BestCandidate | internal/fusion/fuser.go:194-222 | the result is an unseen track of minimal distance among those of the window inside both gates, or there is none; the gated count grows by the tracks only the second gate kept out |
| Fuser.Shard.TrackFor | internal/fusion/fuser.go:168-192 | a known key keeps its track, else the nearest candidate takes it, else a new track starts; the stale-entry branch is dead |
| Fuser.Shard.Reindex | internal/fusion/fuser.go:224-233 | the track ends up in the bucket of the cell of its new position and nowhere else |
| Fuser.Shard.RemoveFromGrid | internal/fusion/fuser.go:244-253 | the name leaves its bucket, and an emptied bucket leaves the grid |
| Fuser.Shard.Prune | internal/fusion/fuser.go:296-314 | when a quarter of the TTL has passed, exactly the tracks updated less than a TTL ago stay, unchanged, in any loop order, and the indexes follow; before that nothing changes |
| Fuser.Shard.Resolve | internal/fusion/fuser.go:150-166 | after pruning, exactly one track takes the sample by these rules, everything else is unchanged, the shard stays coherent, the report blends the fresh observations, among them this one, and its quality is at least 71 for noise up to 100 m; the other track objects are the old ones, and a new track and its filter are new objects; a key held by a track updated within the TTL is answered with that track; a new track is reported where its sample was, at rest; started plus merged grows by one for a key of no track; the gated count by those only the second gate kept out |
| Fuser.Shard.Sweep | internal/fusion/fuser.go:329-337 | exactly the tracks updated less than a TTL ago stay, at once |
| FuserReports.OnlyRecentCount | internal/fusion/fuser.go:274-291 | two tracks with the same observations of the merge window are reported with the same altitude and confidence, whatever older ones they have |
| FuserReports.AltitudeBetween | internal/fusion/fuser.go:274-293 | the reported altitude lies among those of the window |
| FuserReports.ReportMeans | internal/fusion/fuser.go:264-273 | place, speed and quality of a report in terms of the estimate: metres from its origin, the length of its velocity, and at least n iff the two variances together are at most the square of 5 m per missing point |
| FuserShards.ShardedFuser.constructor | internal/fusion/fuser.go:93-132 | a new fuser has the given number of valid, empty shards that share one counter |
| FuserShards.ShardedFuser.Resolve | internal/fusion/fuser.go:141-166 | whichever shard resolves a sample, all shards stay valid, no two share a track, a filter or a name, and the other shards do not change |
| Cluster.NearReaches | internal/geofence/cluster.go:44-58 | a point within the radius lies within one row and the span of columns |
| Cluster.WindowMissesNoPair | internal/geofence/cluster.go:44-60 | with all cosines at least 0.1 the grid search sees exactly the pairs of the all-pairs search |
| ClusterBlindSpot.WindowCompleteIff | internal/geofence/cluster.go:85-101 | the search around a valid point of a latitude finds every valid point within the radius iff the cosine there is at least 0.1 in absolute value (only if: when ten radii fit into 180 degrees) |
| ClusterBlindSpot.MissedPair | internal/geofence/cluster.go:44-60 | below that clamp there are two valid points of the latitude within the radius, more than ten columns apart |
| ClusterBlindSpot.ClusterIsMissed | internal/geofence/cluster.go:26-73 | below it there is, for every minimal size from 2, a list of valid points with a cluster in the all-pairs graph, from which the search can only produce the empty list |
| ClusterBlindSpot.ClustersCompleteIff | internal/geofence/cluster.go:15-74 | for all lists of valid points of a latitude the clusters of the search are those of the all-pairs graph iff the cosine there is at least 0.1 in absolute value (only if: likewise) |
| Cluster.ComponentsUnique | internal/geofence/cluster.go:62-73 | the specification of the clusters fixes them up to the order in which they are listed |
| Cluster.JoinAll | internal/geofence/cluster.go:26-60 | after the scan two points are in one tree iff a path of pairs within the window and the radius connects them |
| Cluster.ClusterPoints | internal/geofence/cluster.go:15-74 | the clusters are exactly the components of at least minSize points, each listed once and ascending; with all cosines at least 0.1, of the all-pairs graph |
| Swarm.IdentityIsStable | internal/geofence/swarm.go:174-193 | a cluster that overlaps just one old swarm, which overlaps no other cluster, continues it |
| Swarm.EvaluatedAssigns | internal/geofence/swarm.go:136-193 | the names an evaluation hands out follow that rule, whatever the loop orders |
| Swarm.SwarmLivesOn | internal/geofence/swarm.go:136-172 | so after an evaluation that swarm has its old name and date, and the members of its cluster |
| Swarm.DissolvedOnlyWhenOutbid | internal/geofence/swarm.go:174-193 | an old swarm goes only if every cluster sharing a member with it continues one it shares at least as many with |
| Swarm.NamesAreDistinct | internal/geofence/swarm.go:136-164 | no two clusters of one evaluation get the same swarm |
| Swarm.EvaluationKeepsInv | internal/geofence/swarm.go:123-172 | the active swarms have disjoint members of at least minSize, names handed out once, and detected = active + dissolved |
| Swarm.SwarmDetector.Match | internal/geofence/swarm.go:174-193 | the unclaimed active swarm with the largest positive overlap, or none if none overlaps, in any loop order |
| Swarm.SwarmDetector.Prune | internal/geofence/swarm.go:195-202 | exactly the positions seen within the TTL stay, unchanged |
| Swarm.SwarmDetector.Evaluate | internal/geofence/swarm.go:123-172 | the swarms after it are the clusters of the positions seen within the TTL, one each; each has at least minSize members, lies at the mean of their positions, and keeps its date if it goes on and has the present one if it is new |
| Swarm.TotalWith | internal/geofence/swarm.go:138-143 | the sum over the members does not depend on the order of the map |
| Swarm.CentroidIsMean | internal/geofence/swarm.go:138-162 | what the loop over a cluster computes is the mean of its members' latitudes and of their longitudes |
| Swarm.CentreIsAmongMembers | internal/geofence/swarm.go:161-162 | in every box that holds all members lies the centre |
| SwarmReports.NeighboursShareSwarm | internal/geofence/swarm.go:123-164 | away from the poles, who is within the radius of a member of a swarm is a member |
| SwarmReports.CrowdIsSwarm | internal/geofence/swarm.go:123-164 | where a drone has minSize tracked drones within its radius, itself included, there is a swarm with all of them |
| EvenOdd.PointInPolygon | internal/geofence/zoneindex.go:117-130 | the toggling loops decide whether an odd number of edges cross the eastward ray |
| EvenOdd.CrossesIffSide | internal/geofence/zoneindex.go:123-124 | the division-based edge test holds iff the point lies to the left of a northward edge or to the right of a southward one |
| EvenOdd.RotationIrrelevant | internal/geofence/zoneindex.go:120 | the answer does not depend on the vertex a ring starts at |
| EvenOdd.ClosingVertexIrrelevant | internal/geofence/zoneindex.go:120 | nor on whether the first vertex is repeated at the end |
| EvenOdd.DirectionIrrelevant | internal/geofence/zoneindex.go:120-124 | nor on the direction of the ring |
| EvenOdd.ChordSplits | internal/geofence/zoneindex.go:117-130 | cut along a chord, a point is inside the whole iff it is inside exactly one piece |
| EvenOdd.RingIsFan | internal/geofence/zoneindex.go:117-130 | a point is inside a ring iff it is inside an odd number of the triangles of its fan |
| EvenOdd.TriangleIsItsInterior | internal/geofence/zoneindex.go:117-130 | for a triangle, every strictly interior point is inside and every strictly exterior one outside |
| EvenOdd.RectangleIsHalfOpen | internal/geofence/zoneindex.go:117-130 | a rectangle takes its southern and western border and leaves the others to its neighbours |
| ZoneIndex.BoundsOf | internal/geofence/zoneindex.go:80-98 | the box holds every vertex, and each side lies at a vertex or at its initial value |
| ZoneIndex.BoundsUnique | internal/geofence/zoneindex.go:80-98 | only one box does |
| ZoneIndex.OutsideBoxOutsideRing | internal/geofence/zoneindex.go:103-106 | no ring contains a point outside a box that holds its vertices: to the west by the parity of straddling edges, elsewhere because no edge crosses |
| ZoneIndex.NewZoneIndex | internal/geofence/zoneindex.go:41-78 | made iff every geometry is a polygon or a multi-polygon, with one entry for each feature in order and its box; otherwise the name of the first feature whose geometry is of another type or cannot be decoded |
| ZoneIndex.Containing | internal/geofence/zoneindex.go:100-115 | for every point and every list of features the answer is that of the same filter without the box |
| ZoneIndex.MatchingIsFilter | internal/geofence/zoneindex.go:100-115 | the answer lists the zones of exactly the features that cover the point, in their order, each once for each such feature |
| ZoneIndex.ContainedIff | internal/geofence/zoneindex.go:57-78 | a zone is in the answer iff some feature of its, a polygon or one of several polygons, covers the point |
| ZoneIndex.HolesAreOutside | internal/geofence/zoneindex.go:117-130 | a point is inside a polygon with separate holes iff it is inside the first ring and in no hole |
| ZoneEvents.EnteredCount | internal/geofence/zonechecker.go:197-203 | as many zones are entered as the set gains iff no new zone is listed twice, and otherwise more |
| ZoneEvents.NewZonesExact | internal/geofence/zonechecker.go:197-203 | entered are the zones of the sample whose identifiers the drone was not in |
| ZoneEvents.NamesOfLast | internal/geofence/zonechecker.go:197-199 | a zone is remembered under the last name the sample gives |
| ZoneEvents.DiffBalances | internal/geofence/zonechecker.go:197-210 | entered minus exited is the growth of the zone set iff no new zone is listed twice |
| ZoneEvents.ConsistentAlternates | internal/geofence/zonechecker.go:180-214 | in a stream of news the events of each zone alternate, beginning with entering, and tell whether one is inside |
| ZoneEvents.DiffIsFaithful | internal/geofence/zonechecker.go:180-214 | the events of a sample take a listener from the old zone set to the new one, and are all news iff no new zone is listed twice |
| ZoneChecker.IndexListsOnce | internal/geofence/zoneindex.go:100-115 | an index of features with different identifiers never lists a zone twice |
| ZoneChecker.AcceptedTimesIncrease | internal/geofence/zonechecker.go:192-195 | in every valid checker the timestamps accepted from a drone since it was first tracked strictly increase |
| ZoneChecker.AcceptedIffNewer | internal/geofence/zonechecker.go:192-213 | a sample is accepted iff it is newer than all those accepted since; another one makes no events and leaves the zones |
| ZoneChecker.ReporterIsSeen | internal/geofence/zonechecker.go:187-213 | whoever reports has been seen now; a newer sample puts it into exactly the zones it lists, an outdated one leaves them, and nobody else is touched |
| ZoneChecker.EventsAlternate | internal/geofence/zonechecker.go:180-226 | for every tracked drone and zone, the events since it was first tracked alternate and end inside iff the drone is inside |
| ZoneChecker.AcceptKeepsInv | internal/geofence/zonechecker.go:180-214 | an accepted sample keeps the logs faithful and the totals balanced with memberships and discards |
| ZoneChecker.ZoneChecker.DiffZones | internal/geofence/zonechecker.go:180-214 | prune, then either an outdated sample that only refreshes, or exactly the difference of the zone sets |
| ZoneChecker.ZoneChecker.Prune | internal/geofence/zonechecker.go:216-226 | once 10 s have passed since the last time, exactly the drones seen in the last 60 s stay, and logs and totals stay balanced; before that nothing changes |
| ZoneChecker.ZoneChecker.AddEntered | internal/geofence/zonechecker.go:135 | a worker adds what it took out of diffZones, once; likewise for what was left |
| ZoneChecker.ZoneChecker.TotalsBalance | internal/geofence/zonechecker.go:121-226 | however the sections of any number of workers interleave: when none has anything in hand, entered minus exited = memberships + those discarded by pruning |
| ZoneChecker.ZoneChecker.Process | internal/geofence/zonechecker.go:121-136 | one sample from start to end: friendly ones change only their own total; the others add what they entered and left |
| ZoneChecker.ZoneChecker.ActiveAlarms | internal/geofence/zonechecker.go:163-178 | the zones with a drone seen in the last 6 s, each with the number of such drones |
| Replay.UnpausedTicksBounded | internal/replay/manager.go:213-251 | in every interleaving, however a run is paused and its speed changed, it takes at most one unpaused tick per 5 ms of recording, and one more |
| Replay.RunsAreFaithful | internal/replay/manager.go:222-254 | in every interleaving the k-th publication is of sample k, not before the cursor, the sum of the unpaused ticks, reaches its offset; a run has ended iff it is not running; completed means all went out, failed and cancelled that not all did; the cursor is the scaled time of the unpaused ticks, and a waiting run has sent all that is due |
| Replay.SumIsScaledTime | internal/replay/manager.go:245-249 | a cursor is 50 ms times the sum of the speeds of its ticks, less at most a nanosecond for each |
| ReplayTiming.SpeedIsObeyed | internal/replay/manager.go:245-249 | in every interleaving these speeds are the last legal ones asked for, or the first, at the ticks at which no pause was last asked for |
| ReplayTiming.SamplesGoOutInTime | internal/replay/manager.go:222-249 | in every interleaving sample k of a history in time order goes out after the first unpaused ticks by which the scaled time reaches its offset, and no later |
| ReplayTiming.EndsForAReason | internal/replay/manager.go:222-244 | a run is cancelled only if that was asked for and fails only if a sample was not accepted |
| Replay.EndedIsFinal | internal/replay/manager.go:78-116 | once a run has ended, no further steps of players and callers change its status or what it has sent |
| Replay.PruningDropsOldest | internal/replay/manager.go:317-333 | pruning keeps twenty finished runs, or all if fewer, and drops only older ones |
| ReplayOrder.DroppedAreOldest | internal/replay/manager.go:317-333 | in every interleaving what a pruning drops has ended, and is older than every run that stays and was not running when it was looked at |
| ReplayOrder.OldestGoIff | internal/replay/manager.go:317-333 | in every interleaving, whatever statuses were seen: every dropped run is older than every ended one that stays iff each run that has ended since it was seen running has at most twenty newer ones among those seen as ended |
| ReplayOrder.OldestCanStay | internal/replay/manager.go:317-333 | a run of the system in which a newer run is dropped than one that has ended and stays |
| Replay.RegistryIsBounded | internal/replay/manager.go:157-356 | in every interleaving, with statuses changing while a start reads them: at most maxConcurrent run, the registry holds at most twenty more (one more still while it is being pruned), no running one is dropped, and the counter is the sum of what all runs published |
| ReplayPlayer.Play | internal/replay/manager.go:213-254 | with callers before every step of the player, what it publishes is the beginning of the history in order, under the replay's name; it is a run of the step system to an ended state, and counts what it publishes; what has gone out is what is due on the scaled clock, with only the name prefixed and the time replaced |
| ReplayManager.Registry.PruneFinished | internal/replay/manager.go:317-333 | collecting, sorting by number and deleting leaves the running ones and the twenty newest finished ones |
| ReplayManager.Registry.Start | internal/replay/manager.go:157-199 | accepted iff range, speed and history are good and there is room; the registry then shows what the three steps of the system make of it, with the new run under a new identifier |
| ReplayManager.Registry.CatchUp | internal/replay/manager.go:62-116 | when one record of a registry has moved on by any sequence of steps, the system that takes these steps is what the registry shows, and its total grows by what the record has published meanwhile |
| ReplayManager.Registry.Play | internal/replay/manager.go:197-254 | the player of a replay that Start has added, with callers before each of its steps, leaves a valid registry in which the replay has ended (unless the ticks ran out); the system has taken exactly its steps, and the total grows by what it publishes |
| ReplayManager.Registry.Bounded | internal/replay/manager.go:317-356 | a valid registry has at most maxConcurrent running replays and lists at most twenty more |
| ReplayManager.Registry.SetSpeed | internal/replay/manager.go:278-292 | the step of the system, or the reply that tells why not |
| ReplayManager.Registry.SetPaused | internal/replay/manager.go:294-305 | likewise |
| ReplayManager.Registry.Cancel | internal/replay/manager.go:267-276 | likewise |
| Ingest.RunKeepsInv | internal/usecase/ingest.go:142-243 | in every interleaving received = rejected + dropped + published + failed + queued + in workers' hands + in submitters' |
| Ingest.NeverSendsOnClosed | internal/usecase/ingest.go:193-223 | whoever is about to send finds the queue open |
| Ingest.ClosedOnlyOnce | internal/usecase/ingest.go:283-293 | in every interleaving and however often Shutdown is called, the queue is closed at most once, and whoever is about to close it finds it open |
| Ingest.ShutdownBalances | internal/usecase/ingest.go:283-293 | once the workers are back, received = rejected + dropped + published + failed + queued, and nothing is queued if one of them was not cancelled |
| Ingest.LastKnownIsNewest | internal/usecase/ingest.go:225-243 | once a sample has been stored, the map never again holds an older one of its drone |
| Ingest.LastKnownIsTheNewest | internal/usecase/ingest.go:225-243 | at every moment the last known sample is a submitted one and the newest of all that went through the CAS loop |
| IngestHistory.AnswersAreCounted | internal/usecase/ingest.go:142-157 | published counts the samples the publisher took from a worker, failed those it refused |
| IngestHistory.OutcomesAreCounted | internal/usecase/ingest.go:193-222 | in every interleaving rejected and dropped count the submissions that ended so, and received these, the accepted ones and those under way |
| IngestHistory.FirstInFirstOut | internal/usecase/ingest.go:147-150 | in every interleaving the samples accepted are, in order, those taken by workers followed by those queued |
| IngestHistory.DroppedIffFull | internal/usecase/ingest.go:216-222 | a submission is dropped iff the queue is full when it sends |
| IngestHistory.NothingDroppedWithRoom | internal/usecase/ingest.go:216-222 | with no more submissions than places none is dropped, whatever the workers do |
| IngestHistory.SubmissionAlone | internal/usecase/ingest.go:189-243 | an uninterrupted submission is refused after a shutdown, as invalid, or for a full queue, and otherwise joins the end of the queue; it is counted as that, and replaces the last known sample iff it is newer |

## Left out

- Transport and storage: gRPC, NATS, SQL, HTTP, tracing, metrics, configuration and logging. Stores and publishers are answers from outside; a store that fails is modelled only by the two roll-back theorems.
- The zone guard of CreateMission runs between two locked sections; the model has the two sections and lets anything happen in between. Apart from the checks of the first section its refusals change nothing.
- Floating-point rounding, NaN and infinities; a filter made at a latitude where the cosine is exactly zero, as in exact reals it is at the poles, or with zero measurement noise, which the configuration excludes.
- Counters other than the mission number do not wrap; runs create at most as many missions as there are numbers left, except in FleetSafety.NextMissionIDIsNewIff, which says what happens when there are none.
- Unicode spaces before the number in a stored mission identifier; the model of Sscanf skips blanks and tabs.
- Samples without a station, which the fuser passes through unchanged.
- The choice of a shard by hashing the coarse cell, and the continuity of a target that crosses into another shard.
- Swarm.SwarmDetector.Evaluate: the members of a swarm are a set; the sorted list made from it for display is not modelled.
- The decoding of GeoJSON: a geometry is decoded, of an unsupported type, or undecodable. The periodic swap of the index.
- Vertices with fewer than two coordinates, on which the index code would fail.
- ReplayManager.Registry.PruneFinished: the library sort is an insertion sort here; only its result matters.
- ReplayManager.Registry.Start: nobody else moves while this method runs; that statuses may change in between is in the step system. The history query is outside.
- ReplayManager.Registry.Play: only this replay and its callers move while it plays; several players at once are in the step system.
- Ingest.LastKnownIsTheNewest: without eviction of stale entries, whose Delete after a stale read may remove a newer entry.
- A submission whose context has already ended is refused before it takes the lock and counts as nothing; the steps begin after that.
- Ingest is modelled as steps on values rather than as objects, because every step of it may be interleaved with any other; a send that hands over directly to a waiting worker on an unbuffered queue is not among the steps.
- The anomaly detector, the classifier, the simulator, retention, caches, the broadcast hub and the web front end.
