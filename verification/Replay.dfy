// Replays of recorded telemetry, internal/replay/manager.go, as a system of steps: each step is
// one locked section, one atomic add or one answer from outside, of the manager or of one player,
// and any number of players and callers may interleave them. Start is three steps: it holds the
// manager's lock, but the statuses it reads may change between one reading and the next.
module Replay {
  import Sets

  const MIN_SPEED := 0.1
  const MAX_SPEED := 1000.0
  const DEFAULT_SPEED := 10.0
  const MAX_FINISHED_RUNS := 20
  const REPLAY_TICK := 50_000_000.0
  const SLOWEST_ADVANCE := 5_000_000

  datatype State = Running | Completed | Cancelled | Failed

  /** Where a player is in its loop: about to publish the next sample if it is due, about to add a
      published one to its status, about to add it to the total, waiting for a tick, through with all
      samples, or returned. */
  datatype Phase = Publishing | Tallying | Counting | Waiting | Finishing | Ended

  /** A publication: which sample of the history went out, and where the cursor stood. */
  datatype Sent = Sent(index: nat, cursor: int)

  /** A replay: its status, and the locals of its player. offsets are the distances of the samples
      from the first one; sent is what went out, speeds the speed of each tick that was not paused.
      Times are in nanoseconds. */
  datatype Run = Run(offsets: seq<int>, state: State, speed: real, paused: bool, cancelled: bool, published: nat,
                     phase: Phase, i: nat, cursor: int, sent: seq<Sent>, speeds: seq<real>)

  /** A Start that holds the lock: counting the running replays, or pruning after it has added one.
      running are those that ran when it began to look. */
  datatype Starter = NoStarter | Looking(offsets: seq<int>, speed: real, running: set<nat>) | Pruning(running: set<nat>)

  datatype System = System(runs: map<nat, Run>, kept: set<nat>, nextID: nat, samplesReplayed: nat, maxConcurrent: nat,
    starter: Starter)

  /** What can happen to one run: the calls, then the steps of its player. */
  datatype Action =
    | SetSpeed(speed: real)
    | SetPaused(paused: bool)
    | Cancel
    | Publish(ok: bool)
    | Tally
    | Count
    | Rest
    | Tick
    | Notice
    | Finish

  /** seen are the replays that a Start has found running, each at its own moment. */
  datatype Step =
    | Begin(offsets: seq<int>, speed: real)
    | Admit(seen: set<nat>)
    | Prune(seen: set<nat>)
    | Close
    | On(id: nat, action: Action)

  /** time.Duration(float64(replayTick) * speed) */
  function Advance(speed: real): int {
    (REPLAY_TICK * speed).Floor
  }

  predicate LegalSpeed(speed: real) {
    MIN_SPEED <= speed <= MAX_SPEED
  }

  // ---- One run ----

  /** The next sample is due. */
  predicate IsDue(r: Run) {
    r.i < |r.offsets| && r.offsets[r.i] <= r.cursor
  }

  /** Only a running replay changes state. */
  function SetState(r: Run, state: State): Run {
    if r.state.Running? then r.(state := state) else r
  }

  function DoPublish(r: Run, ok: bool): Run {
    if !(r.phase.Publishing? && IsDue(r)) then r
    else if !ok then SetState(r, Failed).(phase := Ended)
    else r.(phase := Tallying, sent := r.sent + [Sent(r.i, r.cursor)])
  }

  function DoTally(r: Run): Run {
    if r.phase.Tallying? then r.(published := r.published + 1, phase := Counting) else r
  }

  function DoCount(r: Run): Run {
    if r.phase.Counting? then r.(i := r.i + 1, phase := Publishing) else r
  }

  /** The inner loop ends: wait for a tick, unless there is nothing left. */
  function DoRest(r: Run): Run {
    if !r.phase.Publishing? || IsDue(r) then r
    else r.(phase := if r.i < |r.offsets| then Waiting else Finishing)
  }

  function DoTick(r: Run): Run {
    if !r.phase.Waiting? then r
    else if r.paused then r.(phase := Publishing)
    else r.(cursor := r.cursor + Advance(r.speed), speeds := r.speeds + [r.speed], phase := Publishing)
  }

  function DoNotice(r: Run): Run {
    if r.phase.Waiting? && r.cancelled then SetState(r, Cancelled).(phase := Ended) else r
  }

  function DoFinish(r: Run): Run {
    if r.phase.Finishing? then SetState(r, Completed).(phase := Ended) else r
  }

  function Sum(speeds: seq<real>): int {
    if speeds == [] then 0 else Sum(speeds[..|speeds| - 1]) + Advance(speeds[|speeds| - 1])
  }

  /** The speeds of some ticks, added up as they are. */
  function Plain(speeds: seq<real>): real {
    if speeds == [] then 0.0 else Plain(speeds[..|speeds| - 1]) + speeds[|speeds| - 1]
  }

  /** A tick is worth 50 ms at the speed that is set, and what is lost to whole nanoseconds is less than one
      for each tick. */
  lemma {:induction false} SumIsScaledTime(speeds: seq<real>)
    ensures 50_000_000.0 * Plain(speeds) - |speeds| as real <= Sum(speeds) as real <= 50_000_000.0 * Plain(speeds)
  {
    if speeds != [] {
      SumIsScaledTime(speeds[..|speeds| - 1]);
      var x := 50_000_000.0 * speeds[|speeds| - 1];
      assert x - 1.0 < x.Floor as real <= x;
    }
  }

  /** Publication k was of sample k, not before its time. */
  predicate InOrder(r: Run, k: nat) {
    k < |r.sent| && k < |r.offsets| && r.sent[k].index == k && r.offsets[k] <= r.sent[k].cursor <= r.cursor
  }

  /** What holds of a run at every moment. */
  ghost predicate RunInv(r: Run) {
    && r.i <= |r.offsets|
    && |r.sent| == r.i + (if r.phase.Tallying? || r.phase.Counting? then 1 else 0)
    && r.published == r.i + (if r.phase.Counting? then 1 else 0)
    && (r.phase.Tallying? || r.phase.Counting? ==> r.i < |r.offsets|)
    && (forall k {:trigger InOrder(r, k)} :: 0 <= k < |r.sent| ==> InOrder(r, k))
    && LegalSpeed(r.speed) && (forall k :: 0 <= k < |r.speeds| ==> LegalSpeed(r.speeds[k]))
    && r.cursor == Sum(r.speeds)
    && (r.state.Running? <==> !r.phase.Ended?)
    && (r.state.Completed? ==> r.published == |r.offsets|)
    && (r.state.Failed? || r.state.Cancelled? ==> r.published < |r.offsets|)
    && (r.phase.Finishing? ==> r.i == |r.offsets|)
    && (r.phase.Waiting? ==> r.i < |r.offsets| && r.cursor < r.offsets[r.i])
    && (r.speeds != [] ==> exists k :: 0 <= k < |r.offsets| && Sum(r.speeds[..|r.speeds| - 1]) < r.offsets[k])
  }

  lemma AdvanceIsForward(speed: real)
    requires LegalSpeed(speed)
    ensures Advance(speed) >= SLOWEST_ADVANCE
  {
    assert REPLAY_TICK * speed >= 5_000_000.0;
  }

  /** What has gone out stays in order as long as no cursor falls back. */
  lemma StillInOrder(r: Run, r': Run)
    requires r'.offsets == r.offsets && r'.cursor >= r.cursor
    requires r'.sent == r.sent || (IsDue(r) && r.i == |r.sent| && r'.sent == r.sent + [Sent(r.i, r.cursor)])
    requires forall k {:trigger InOrder(r, k)} :: 0 <= k < |r.sent| ==> InOrder(r, k)
    ensures forall k {:trigger InOrder(r', k)} :: 0 <= k < |r'.sent| ==> InOrder(r', k)
  {
    forall k | 0 <= k < |r'.sent|
      ensures InOrder(r', k)
    {
      assert k < |r.sent| ==> InOrder(r, k);
    }
  }

  // The player's own steps.

  lemma PublishKeepsRunInv(r: Run, ok: bool)
    requires RunInv(r)
    ensures RunInv(DoPublish(r, ok))
  {
    StillInOrder(r, DoPublish(r, ok));
  }

  lemma CountingKeepsRunInv(r: Run)
    requires RunInv(r)
    ensures RunInv(DoTally(r)) && RunInv(DoCount(r))
  {
    StillInOrder(r, DoTally(r));
    StillInOrder(r, DoCount(r));
  }

  lemma RestKeepsRunInv(r: Run)
    requires RunInv(r)
    ensures RunInv(DoRest(r))
  {
    StillInOrder(r, DoRest(r));
  }

  lemma EndingKeepsRunInv(r: Run)
    requires RunInv(r)
    ensures RunInv(DoNotice(r)) && RunInv(DoFinish(r))
  {
    StillInOrder(r, DoNotice(r));
    StillInOrder(r, DoFinish(r));
  }

  lemma TickKeepsRunInv(r: Run)
    requires RunInv(r)
    ensures RunInv(DoTick(r))
  {
    var r' := DoTick(r);
    if r.phase.Waiting? && !r.paused {
      AdvanceIsForward(r.speed);
      assert r'.speeds[..|r'.speeds| - 1] == r.speeds;
    }
    StillInOrder(r, r');
  }

  /** What callers may do to a run. */
  lemma CallersKeepRunInv(r: Run, speed: real, paused: bool)
    requires RunInv(r) && LegalSpeed(speed)
    ensures RunInv(if r.state.Running? then r.(speed := speed) else r)
    ensures RunInv(if r.state.Running? then r.(paused := paused) else r)
    ensures RunInv(r.(cancelled := true))
  {
    StillInOrder(r, r.(speed := speed));
    StillInOrder(r, r.(paused := paused));
    StillInOrder(r, r.(cancelled := true));
  }

  lemma {:induction false} SumAtLeast(speeds: seq<real>)
    requires forall k :: 0 <= k < |speeds| ==> LegalSpeed(speeds[k])
    ensures Sum(speeds) >= SLOWEST_ADVANCE * |speeds|
  {
    if speeds != [] {
      SumAtLeast(speeds[..|speeds| - 1]);
      AdvanceIsForward(speeds[|speeds| - 1]);
    }
  }

  // ---- The registry ----

  function RunningOnes(runs: map<nat, Run>): set<nat> {
    set n | n in runs && runs[n].state.Running?
  }

  ghost function Least(s: set<nat>): (n: nat)
    requires s != {}
    ensures n in s && forall m :: m in s ==> n <= m
  {
    LeastExists(s);
    var n :| n in s && forall m :: m in s ==> n <= m;
    n
  }

  lemma {:induction false} LeastExists(s: set<nat>)
    requires s != {}
    ensures exists n :: n in s && forall m :: m in s ==> n <= m
  {
    var x := Sets.Some(s);
    var rest := s - {x};
    if rest != {} {
      LeastExists(rest);
      var n :| n in rest && forall m :: m in rest ==> n <= m;
      var least := if n < x then n else x;
      assert least in s;
      forall m | m in s
        ensures least <= m
      {
        if m != x { assert m in rest; }
      }
    } else {
      assert s == {x};
    }
  }

  function Newer(finished: set<nat>, n: nat): set<nat> {
    set m | m in finished && m > n
  }

  /** The finished runs that pruning leaves. */
  function KeepNewest(finished: set<nat>): set<nat> {
    set n | n in finished && |Newer(finished, n)| < MAX_FINISHED_RUNS
  }

  lemma FewAreAllKept(finished: set<nat>)
    requires |finished| <= MAX_FINISHED_RUNS
    ensures KeepNewest(finished) == finished
  {
    forall n | n in finished
      ensures |Newer(finished, n)| < MAX_FINISHED_RUNS
    {
      Sets.SubsetSize(Newer(finished, n), finished - {n});
    }
  }

  lemma LeastIsDropped(finished: set<nat>, least: nat)
    requires |finished| > MAX_FINISHED_RUNS && least in finished && forall m :: m in finished ==> least <= m
    ensures KeepNewest(finished) == KeepNewest(finished - {least})
  {
    assert Newer(finished, least) == finished - {least};
    forall n | n in finished && n != least
      ensures Newer(finished, n) == Newer(finished - {least}, n)
    {
    }
  }

  lemma {:induction false} KeptCount(finished: set<nat>)
    ensures |KeepNewest(finished)| == if |finished| <= MAX_FINISHED_RUNS then |finished| else MAX_FINISHED_RUNS
    decreases |finished|
  {
    if |finished| <= MAX_FINISHED_RUNS {
      FewAreAllKept(finished);
    } else {
      assert finished != {};
      var least := Least(finished);
      LeastIsDropped(finished, least);
      KeptCount(finished - {least});
    }
  }

  /** Pruning keeps as many finished runs as it may, and every one it drops is older than every one it keeps. */
  lemma PruningDropsOldest(finished: set<nat>)
    ensures KeepNewest(finished) <= finished
    ensures |KeepNewest(finished)| == if |finished| <= MAX_FINISHED_RUNS then |finished| else MAX_FINISHED_RUNS
    ensures forall d, k :: d in finished - KeepNewest(finished) && k in KeepNewest(finished) ==> d < k
  {
    KeptCount(finished);
    forall d, k | d in finished - KeepNewest(finished) && k in KeepNewest(finished)
      ensures d < k
    {
      if k <= d { Sets.SubsetSize(Newer(finished, d), Newer(finished, k)); }
    }
  }

  function NewRun(offsets: seq<int>, speed: real): Run {
    Run(offsets, Running, speed, false, false, 0, Publishing, 0, 0, [], [])
  }

  /** The speed a request asks for. */
  function Requested(speed: real): real {
    if speed == 0.0 then DEFAULT_SPEED else speed
  }

  /** Start has found the request good and taken the lock. */
  function DoBegin(s: System, offsets: seq<int>, speed: real): System {
    if s.starter.NoStarter? && LegalSpeed(Requested(speed)) && offsets != []
    then s.(starter := Looking(offsets, Requested(speed), RunningOnes(s.runs)))
    else s
  }

  /** What reading the statuses one after the other can have found: whoever still runs, and nobody who
      did not run at the beginning. */
  predicate CanSee(s: System, seen: set<nat>)
    requires !s.starter.NoStarter?
  {
    RunningOnes(s.runs) <= seen <= s.starter.running
  }

  /** All statuses are read; a new run is added if there is room. */
  function DoAdmit(s: System, seen: set<nat>): System {
    if !(s.starter.Looking? && CanSee(s, seen)) then s
    else if |seen| >= s.maxConcurrent then s.(starter := NoStarter)
    else
      var id := s.nextID + 1;
      var runs := s.runs[id := NewRun(s.starter.offsets, s.starter.speed)];
      s.(runs := runs, nextID := id, kept := s.kept + {id}, starter := Pruning(RunningOnes(runs)))
  }

  /** What pruning leaves of the registry: those it has seen running, and the newest others. */
  function Registry(kept: set<nat>, seen: set<nat>): set<nat> {
    kept * seen + KeepNewest(kept - seen)
  }

  /** The statuses are read once more; then the oldest finished runs are dropped, and the lock released. */
  function DoPrune(s: System, seen: set<nat>): System {
    if s.starter.Pruning? && CanSee(s, seen) then s.(kept := Registry(s.kept, seen), starter := NoStarter) else s
  }

  /** A run after an action. A caller may have looked the run up before it was dropped. */
  function Act(r: Run, action: Action): Run {
    match action
    case SetSpeed(speed) => if LegalSpeed(speed) && r.state.Running? then r.(speed := speed) else r
    case SetPaused(paused) => if r.state.Running? then r.(paused := paused) else r
    case Cancel => r.(cancelled := true)
    case Publish(ok) => DoPublish(r, ok)
    case Tally => DoTally(r)
    case Count => DoCount(r)
    case Rest => DoRest(r)
    case Tick => DoTick(r)
    case Notice => DoNotice(r)
    case Finish => DoFinish(r)
  }

  /** How many samples the action adds to the counter. */
  function Adds(r: Run, action: Action): nat {
    if action.Count? && r.phase.Counting? then 1 else 0
  }

  function DoAct(s: System, id: nat, action: Action): System {
    if id !in s.runs then s
    else s.(runs := s.runs[id := Act(s.runs[id], action)],
      samplesReplayed := s.samplesReplayed + Adds(s.runs[id], action))
  }

  function DoClose(s: System): System {
    s.(runs := map n | n in s.runs :: s.runs[n].(cancelled := true))
  }

  function Apply(s: System, step: Step): System {
    match step
    case Begin(offsets, speed) => DoBegin(s, offsets, speed)
    case Admit(seen) => DoAdmit(s, seen)
    case Prune(seen) => DoPrune(s, seen)
    case Close => DoClose(s)
    case On(id, action) => DoAct(s, id, action)
  }

  /** Published samples, except one that is still to be counted. */
  function Counted(r: Run): int {
    r.published - if r.phase.Counting? then 1 else 0
  }

  function CountedAt(runs: map<nat, Run>, n: nat): int {
    if n in runs then Counted(runs[n]) else 0
  }

  function Total(runs: map<nat, Run>, n: nat): int {
    if n == 0 then 0 else Total(runs, n - 1) + CountedAt(runs, n)
  }

  ghost predicate AllGood(runs: map<nat, Run>) {
    forall n {:trigger RunInv(runs[n])} :: n in runs ==> RunInv(runs[n])
  }

  /** While one Start is pruning, there may be one more run than afterwards. */
  ghost predicate StarterInv(s: System) {
    && RunningOnes(s.runs) <= s.kept
    && |RunningOnes(s.runs)| <= s.maxConcurrent
    && |s.kept| <= s.maxConcurrent + MAX_FINISHED_RUNS + (if s.starter.Pruning? then 1 else 0)
    && (!s.starter.NoStarter? ==>
        RunningOnes(s.runs) <= s.starter.running <= s.kept && |s.starter.running| <= s.maxConcurrent)
    && (s.starter.Looking? ==> LegalSpeed(s.starter.speed) && s.starter.offsets != [])
  }

  ghost predicate Inv(s: System) {
    && (forall n :: n in s.runs <==> 1 <= n <= s.nextID)
    && AllGood(s.runs) && StarterInv(s) && s.kept <= s.runs.Keys
    && s.samplesReplayed == Total(s.runs, s.nextID)
  }

  lemma {:induction false} TotalWith(runs: map<nat, Run>, id: nat, r: Run, n: nat)
    requires id in runs
    ensures Total(runs[id := r], n) == Total(runs, n) + if 1 <= id <= n then Counted(r) - Counted(runs[id]) else 0
  {
    if n > 0 { TotalWith(runs, id, r, n - 1); }
  }

  lemma {:induction false} TotalSame(runs: map<nat, Run>, other: map<nat, Run>, n: nat)
    requires forall k :: 1 <= k <= n ==> CountedAt(runs, k) == CountedAt(other, k)
    ensures Total(runs, n) == Total(other, n)
  {
    if n > 0 { TotalSame(runs, other, n - 1); }
  }

  lemma ActKeepsRunInv(r: Run, action: Action)
    requires RunInv(r)
    ensures RunInv(Act(r, action))
  {
    match action
    case SetSpeed(speed) => if LegalSpeed(speed) { CallersKeepRunInv(r, speed, false); }
    case SetPaused(paused) => CallersKeepRunInv(r, r.speed, paused);
    case Cancel => CallersKeepRunInv(r, r.speed, false);
    case Publish(ok) => PublishKeepsRunInv(r, ok);
    case Tally => CountingKeepsRunInv(r);
    case Count => CountingKeepsRunInv(r);
    case Rest => RestKeepsRunInv(r);
    case Tick => TickKeepsRunInv(r);
    case _ => EndingKeepsRunInv(r);
  }

  lemma ActCounts(r: Run, action: Action)
    ensures Act(r, action).state.Running? ==> r.state.Running?
    ensures Counted(Act(r, action)) == Counted(r) + Adds(r, action)
  {
  }

  /** Runs end, and otherwise nothing changes for the registry. */
  lemma FewerRunning(s: System, s': System)
    requires StarterInv(s) && RunningOnes(s'.runs) <= RunningOnes(s.runs)
    requires s'.kept == s.kept && s'.maxConcurrent == s.maxConcurrent && s'.starter == s.starter
    ensures StarterInv(s')
  {
    Sets.SubsetSize(RunningOnes(s'.runs), RunningOnes(s.runs));
  }

  lemma AllGoodWith(runs: map<nat, Run>, id: nat, r: Run)
    requires AllGood(runs) && RunInv(r)
    ensures AllGood(runs[id := r])
  {
    var runs' := runs[id := r];
    forall n | n in runs'
      ensures RunInv(runs'[n])
    {
      assert n != id ==> RunInv(runs[n]);
    }
  }

  lemma ActKeepsInv(s: System, id: nat, action: Action)
    requires Inv(s) && id in s.runs
    ensures Inv(DoAct(s, id, action))
  {
    var r, r' := s.runs[id], Act(s.runs[id], action);
    assert RunInv(r);
    ActKeepsRunInv(r, action);
    ActCounts(r, action);
    TotalWith(s.runs, id, r', s.nextID);
    AllGoodWith(s.runs, id, r');
    FewerRunning(s, DoAct(s, id, action));
  }

  lemma CloseKeepsInv(s: System)
    requires Inv(s)
    ensures Inv(DoClose(s))
  {
    var s' := DoClose(s);
    assert AllGood(s'.runs) by {
      forall n | n in s'.runs
        ensures RunInv(s'.runs[n])
      {
        assert RunInv(s.runs[n]);
        CallersKeepRunInv(s.runs[n], s.runs[n].speed, false);
      }
    }
    TotalSame(s.runs, s'.runs, s.nextID);
    FewerRunning(s, s');
  }

  lemma NewRunGood(offsets: seq<int>, speed: real)
    requires LegalSpeed(speed) && offsets != []
    ensures RunInv(NewRun(offsets, speed)) && Counted(NewRun(offsets, speed)) == 0
  {
  }

  lemma RunningWith(runs: map<nat, Run>, id: nat, r: Run)
    requires id !in runs && r.state.Running?
    ensures RunningOnes(runs[id := r]) == RunningOnes(runs) + {id}
  {
  }

  lemma {:induction false} TotalBefore(runs: map<nat, Run>, id: nat, r: Run, n: nat)
    requires n < id
    ensures Total(runs[id := r], n) == Total(runs, n)
  {
    if n > 0 { TotalBefore(runs, id, r, n - 1); }
  }

  lemma RegistryBounded(kept: set<nat>, seen: set<nat>, most: nat)
    requires seen <= kept && |seen| <= most
    ensures seen <= Registry(kept, seen) <= kept
    ensures |Registry(kept, seen)| <= most + MAX_FINISHED_RUNS
  {
    PruningDropsOldest(kept - seen);
    assert kept * seen == seen;
  }

  lemma AdmittedStarterInv(s: System, seen: set<nat>, id: nat, r: Run, s': System)
    requires StarterInv(s) && s.starter.Looking? && CanSee(s, seen) && |seen| < s.maxConcurrent
    requires id !in s.runs && r.state.Running? && s'.runs == s.runs[id := r]
    requires s'.kept == s.kept + {id} && s'.maxConcurrent == s.maxConcurrent
      && s'.starter == Pruning(RunningOnes(s'.runs))
    ensures StarterInv(s')
  {
    RunningWith(s.runs, id, r);
    Sets.SubsetSize(RunningOnes(s.runs), seen);
  }

  lemma AdmitKeepsInv(s: System, seen: set<nat>)
    requires Inv(s)
    ensures Inv(DoAdmit(s, seen))
  {
    if s.starter.Looking? && CanSee(s, seen) && |seen| < s.maxConcurrent {
      var id, r, s' := s.nextID + 1, NewRun(s.starter.offsets, s.starter.speed), DoAdmit(s, seen);
      NewRunGood(s.starter.offsets, s.starter.speed);
      AdmittedStarterInv(s, seen, id, r, s');
      AllGoodWith(s.runs, id, r);
      TotalBefore(s.runs, id, r, s.nextID);
      assert CountedAt(s'.runs, id) == 0;
    }
  }

  lemma PruneKeepsInv(s: System, seen: set<nat>)
    requires Inv(s)
    ensures Inv(DoPrune(s, seen))
  {
    if s.starter.Pruning? && CanSee(s, seen) {
      Sets.SubsetSize(seen, s.starter.running);
      RegistryBounded(s.kept, seen, s.maxConcurrent);
    }
  }

  lemma StepKeepsInv(s: System, step: Step)
    requires Inv(s)
    ensures Inv(Apply(s, step)) && Apply(s, step).maxConcurrent == s.maxConcurrent
  {
    match step
    case Begin(offsets, speed) =>
    case Admit(seen) => AdmitKeepsInv(s, seen);
    case Prune(seen) => PruneKeepsInv(s, seen);
    case Close => CloseKeepsInv(s);
    case On(id, action) => if id in s.runs { ActKeepsInv(s, id, action); }
  }

  function RunAll(s: System, steps: seq<Step>): System {
    if steps == [] then s else Apply(RunAll(s, steps[..|steps| - 1]), steps[|steps| - 1])
  }

  lemma RunAllMore(s: System, steps: seq<Step>, step: Step)
    ensures RunAll(s, steps + [step]) == Apply(RunAll(s, steps), step)
  {
    assert (steps + [step])[..|steps|] == steps;
  }

  function Empty(maxConcurrent: nat): System {
    System(map[], {}, 0, 0, maxConcurrent, NoStarter)
  }

  /** The system after any steps. */
  function After(maxConcurrent: nat, steps: seq<Step>): System {
    RunAll(Empty(maxConcurrent), steps)
  }

  /** In every run of the system, whatever the interleaving: never more than maxConcurrent replays
      run, the registry never holds more than twenty besides (and one while a Start is pruning), it
      never drops a running one, and the counter of replayed samples is the sum of what all replays
      ever started have published. */
  lemma {:induction false} RegistryIsBounded(maxConcurrent: nat, steps: seq<Step>)
    ensures var s := After(maxConcurrent, steps);
      && Inv(s) && s.maxConcurrent == maxConcurrent
      && |RunningOnes(s.runs)| <= maxConcurrent
      && |s.kept| <= maxConcurrent + MAX_FINISHED_RUNS + (if s.starter.Pruning? then 1 else 0)
      && RunningOnes(s.runs) <= s.kept && s.samplesReplayed == Total(s.runs, s.nextID)
  {
    if steps == [] {
      assert RunningOnes(Empty(maxConcurrent).runs) == {};
    } else {
      RegistryIsBounded(maxConcurrent, steps[..|steps| - 1]);
      StepKeepsInv(After(maxConcurrent, steps[..|steps| - 1]), steps[|steps| - 1]);
    }
  }

  /** In every interleaving the samples sent are a prefix of the history, in order, each once its time
      has come on a cursor that only unpaused ticks move; at most the last one is not in the status
      yet; and the state of an ended run tells whether all of them went out. */
  lemma RunsAreFaithful(maxConcurrent: nat, steps: seq<Step>, n: nat)
    requires n in After(maxConcurrent, steps).runs
    ensures var r := After(maxConcurrent, steps).runs[n];
      && r.published <= |r.sent| <= |r.offsets| && |r.sent| <= r.published + 1
      && (forall k :: 0 <= k < |r.sent| ==> r.sent[k].index == k && r.offsets[k] <= r.sent[k].cursor <= r.cursor)
      && r.cursor == Sum(r.speeds)
      && 50_000_000.0 * Plain(r.speeds) - |r.speeds| as real <= r.cursor as real <= 50_000_000.0 * Plain(r.speeds)
      && (r.phase.Waiting? ==> |r.sent| < |r.offsets| && r.cursor < r.offsets[|r.sent|])
      && (r.state.Running? <==> !r.phase.Ended?)
      && (r.state.Completed? ==> r.published == |r.sent| == |r.offsets|)
      && (r.state.Failed? || r.state.Cancelled? ==> r.published == |r.sent| < |r.offsets|)
  {
    var r := After(maxConcurrent, steps).runs[n];
    RegistryIsBounded(maxConcurrent, steps);
    assert RunInv(r);
    SumIsScaledTime(r.speeds);
    forall k | 0 <= k < |r.sent|
      ensures r.sent[k].index == k && r.offsets[k] <= r.sent[k].cursor <= r.cursor
    {
      assert InOrder(r, k);
    }
  }

  /** However a run is slowed down, sped up or paused, it takes at most one tick that is not paused
      for every 5 ms of its recording, and one more. */
  lemma UnpausedTicksBounded(maxConcurrent: nat, steps: seq<Step>, n: nat, longest: int)
    requires n in After(maxConcurrent, steps).runs
    requires forall k :: 0 <= k < |After(maxConcurrent, steps).runs[n].offsets| ==>
      After(maxConcurrent, steps).runs[n].offsets[k] <= longest
    ensures var speeds := After(maxConcurrent, steps).runs[n].speeds;
      speeds != [] ==> SLOWEST_ADVANCE * (|speeds| - 1) < longest
  {
    var r := After(maxConcurrent, steps).runs[n];
    RegistryIsBounded(maxConcurrent, steps);
    assert RunInv(r);
    if r.speeds != [] {
      SumAtLeast(r.speeds[..|r.speeds| - 1]);
    }
  }

  /** All that can still change about a run that has ended is its being cancelled. */
  ghost predicate StaysEnded(r: Run, r': Run) {
    RunInv(r) && !r.state.Running? ==> r' == r.(cancelled := r'.cancelled)
  }

  lemma ActStaysEnded(r: Run, action: Action)
    ensures StaysEnded(r, Act(r, action))
  {
  }

  /** Once a replay has ended, no further steps of the system change its status. */
  lemma {:induction false} EndedIsFinal(s: System, steps: seq<Step>, n: nat)
    requires Inv(s) && n in s.runs
    ensures Inv(RunAll(s, steps)) && n in RunAll(s, steps).runs
    ensures !s.runs[n].state.Running? ==>
      RunAll(s, steps).runs[n] == s.runs[n].(cancelled := RunAll(s, steps).runs[n].cancelled)
  {
    if steps != [] {
      var before, step := RunAll(s, steps[..|steps| - 1]), steps[|steps| - 1];
      EndedIsFinal(s, steps[..|steps| - 1], n);
      StepKeepsInv(before, step);
      assert RunInv(before.runs[n]);
      StepStaysEnded(before, step, n);
    }
  }

  lemma StepStaysEnded(s: System, step: Step, n: nat)
    requires Inv(s) && n in s.runs
    ensures n in Apply(s, step).runs && StaysEnded(s.runs[n], Apply(s, step).runs[n])
  {
    if step.On? && step.id == n {
      ActStaysEnded(s.runs[n], step.action);
    }
  }
}
