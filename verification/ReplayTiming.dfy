// When a replay sends what: as soon as the scaled time has come, where the scale is the speed that was
// last asked for.
module ReplayTiming {
  import opened Replay
  import opened ReplayPlayer

  // ---- What was done to one run ----

  /** What a step of the system does to run n. */
  function ActionsAt(step: Step, n: nat): seq<Action> {
    match step
    case On(id, action) => if id == n then [action] else []
    case Close => [Action.Cancel]
    case _ => []
  }

  /** What has been done to run n since it was added. */
  function TraceOf(maxConcurrent: nat, steps: seq<Step>, n: nat): seq<Action> {
    if steps == [] then []
    else
      var before, last := steps[..|steps| - 1], steps[|steps| - 1];
      if n in After(maxConcurrent, before).runs then TraceOf(maxConcurrent, before, n) + ActionsAt(last, n) else []
  }

  lemma ActNoneOrOne(r: Run, action: Action)
    ensures ActAll(r, []) == r && ActAll(r, [action]) == Act(r, action)
  {
    assert [action][..0] == [];
  }

  lemma StepOnRun(s: System, step: Step, n: nat)
    requires n in s.runs && Inv(s)
    ensures n in Apply(s, step).runs && Apply(s, step).runs[n] == ActAll(s.runs[n], ActionsAt(step, n))
  {
    match step
    case On(id, action) => ActNoneOrOne(s.runs[n], action);
    case _ => ActNoneOrOne(s.runs[n], Action.Cancel);
  }

  lemma StepAddsRun(s: System, step: Step, n: nat)
    requires n !in s.runs && Inv(s) && n in Apply(s, step).runs
    ensures s.starter.Looking? && Apply(s, step).runs[n] == NewRun(s.starter.offsets, s.starter.speed)
  {
  }

  /** Every run is what its trace has made of a new one. */
  lemma {:induction false} RunHasTrace(maxConcurrent: nat, steps: seq<Step>, n: nat)
    returns (offsets: seq<int>, speed: real)
    requires n in After(maxConcurrent, steps).runs
    ensures After(maxConcurrent, steps).runs[n] == ActAll(NewRun(offsets, speed), TraceOf(maxConcurrent, steps, n))
    ensures LegalSpeed(speed) && offsets != []
  {
    var before, last := steps[..|steps| - 1], steps[|steps| - 1];
    var s := After(maxConcurrent, before);
    RegistryIsBounded(maxConcurrent, before);
    if n in s.runs {
      offsets, speed := RunHasTrace(maxConcurrent, before, n);
      StepOnRun(s, last, n);
      ActMore(NewRun(offsets, speed), TraceOf(maxConcurrent, before, n), ActionsAt(last, n));
    } else {
      offsets, speed := s.starter.offsets, s.starter.speed;
      StepAddsRun(s, last, n);
    }
  }

  // ---- Which speed a tick has ----

  /** The last legal speed that was asked for, or the first one. */
  function LastSpeed(first: real, actions: seq<Action>): real {
    if actions == [] then first
    else
      var last := actions[|actions| - 1];
      if last.SetSpeed? && 0.1 <= last.speed <= 1000.0 then last.speed
      else LastSpeed(first, actions[..|actions| - 1])
  }

  /** Whether a pause was the last that was asked for. */
  predicate LastPaused(actions: seq<Action>) {
    actions != []
    && var last := actions[|actions| - 1];
      if last.SetPaused? then last.paused else LastPaused(actions[..|actions| - 1])
  }

  /** The speeds in force at the ticks that were waited for and not paused. */
  function SpeedsAsked(r: Run, actions: seq<Action>): seq<real> {
    if actions == [] then []
    else
      var before := actions[..|actions| - 1];
      SpeedsAsked(r, before)
      + if actions[|actions| - 1].Tick? && ActAll(r, before).phase.Waiting? && !LastPaused(before)
        then [LastSpeed(r.speed, before)] else []
  }

  lemma ActSetsStatus(r: Run, action: Action)
    requires Act(r, action).state.Running?
    ensures r.state.Running?
    ensures Act(r, action).speed == if action.SetSpeed? && 0.1 <= action.speed <= 1000.0 then action.speed else r.speed
    ensures Act(r, action).paused == if action.SetPaused? then action.paused else r.paused
  {
  }

  lemma ActTicks(r: Run, action: Action)
    ensures Act(r, action).speeds ==
      r.speeds + if action.Tick? && r.phase.Waiting? && !r.paused then [r.speed] else []
  {
  }

  /** While a run goes on, its speed and its pause are those last asked for. */
  lemma {:induction false} StatusIsLastAsked(first: Run, actions: seq<Action>)
    requires RunInv(first) && !first.paused
    ensures var r := ActAll(first, actions);
      && RunInv(r)
      && (r.state.Running? ==> r.speed == LastSpeed(first.speed, actions) && r.paused == LastPaused(actions))
  {
    if actions != [] {
      var before, last := actions[..|actions| - 1], actions[|actions| - 1];
      StatusIsLastAsked(first, before);
      var r := ActAll(first, before);
      ActKeepsRunInv(r, last);
      if Act(r, last).state.Running? { ActSetsStatus(r, last); }
    }
  }

  lemma {:induction false} TicksHaveSpeedsAsked(first: Run, actions: seq<Action>)
    requires RunInv(first) && !first.paused && first.speeds == []
    ensures ActAll(first, actions).speeds == SpeedsAsked(first, actions)
  {
    if actions != [] {
      var before, last := actions[..|actions| - 1], actions[|actions| - 1];
      TicksHaveSpeedsAsked(first, before);
      StatusIsLastAsked(first, before);
      ActTicks(ActAll(first, before), last);
    }
  }

  /** In every interleaving the cursor of a run is the time of its ticks, each scaled by the speed that was
      last asked for, or that it was started with; and a tick counts unless a pause was last asked for. */
  lemma SpeedIsObeyed(maxConcurrent: nat, steps: seq<Step>, n: nat) returns (offsets: seq<int>, speed: real)
    requires n in After(maxConcurrent, steps).runs
    ensures LegalSpeed(speed) && offsets == After(maxConcurrent, steps).runs[n].offsets
    ensures var r, asked := After(maxConcurrent, steps).runs[n],
                            SpeedsAsked(NewRun(offsets, speed), TraceOf(maxConcurrent, steps, n));
      && r.speeds == asked
      && 50_000_000.0 * Plain(asked) - |asked| as real <= r.cursor as real <= 50_000_000.0 * Plain(asked)
  {
    offsets, speed := RunHasTrace(maxConcurrent, steps, n);
    NewRunGood(offsets, speed);
    TicksHaveSpeedsAsked(NewRun(offsets, speed), TraceOf(maxConcurrent, steps, n));
    ActAllKeepsOffsets(NewRun(offsets, speed), TraceOf(maxConcurrent, steps, n));
    RunsAreFaithful(maxConcurrent, steps, n);
  }

  // ---- Why a run ends ----

  lemma {:induction false} ReasonsGiven(first: Run, actions: seq<Action>)
    requires RunInv(first) && first.state.Running? && !first.cancelled
    ensures var r := ActAll(first, actions);
      && (r.cancelled <==> Action.Cancel in actions)
      && (r.state.Cancelled? ==> Action.Cancel in actions)
      && (r.state.Failed? ==> Publish(false) in actions)
  {
    if actions != [] {
      var before, last := actions[..|actions| - 1], actions[|actions| - 1];
      ReasonsGiven(first, before);
      assert actions == before + [last];
    }
  }

  /** In every interleaving: a run is cancelled only if somebody has asked for it, and fails only if a sample
      was not accepted. */
  lemma EndsForAReason(maxConcurrent: nat, steps: seq<Step>, n: nat)
    requires n in After(maxConcurrent, steps).runs
    ensures var r, trace := After(maxConcurrent, steps).runs[n], TraceOf(maxConcurrent, steps, n);
      && (r.state.Cancelled? ==> Action.Cancel in trace)
      && (r.state.Failed? ==> Publish(false) in trace)
  {
    var offsets, speed := RunHasTrace(maxConcurrent, steps, n);
    NewRunGood(offsets, speed);
    ReasonsGiven(NewRun(offsets, speed), TraceOf(maxConcurrent, steps, n));
  }

  // ---- When a sample goes out ----

  predicate InTime(offsets: seq<int>) {
    forall j, k :: 0 <= j < k < |offsets| ==> offsets[j] <= offsets[k]
  }

  /** After m ticks the cursor had reached the sample's time, and after one less it had not. */
  predicate AfterTicks(r: Run, k: nat, m: nat) {
    && k < |r.sent| && k < |r.offsets| && m <= |r.speeds|
    && r.sent[k].cursor == Sum(r.speeds[..m]) && r.offsets[k] <= Sum(r.speeds[..m])
    && (m > 0 ==> Sum(r.speeds[..m - 1]) < r.offsets[k])
  }

  ghost predicate Prompt(r: Run, k: nat) {
    exists m: nat :: AfterTicks(r, k, m)
  }

  /** Before the last tick nothing that is still to be sent was due. */
  ghost predicate NoneOverdue(r: Run) {
    r.speeds != [] ==> forall j :: r.i <= j < |r.offsets| ==> Sum(r.speeds[..|r.speeds| - 1]) < r.offsets[j]
  }

  ghost predicate PromptInv(r: Run) {
    && RunInv(r) && NoneOverdue(r)
    && (forall k {:trigger Prompt(r, k)} :: 0 <= k < |r.sent| ==> Prompt(r, k))
  }

  lemma StillPrompt(r: Run, r': Run, k: nat)
    requires k < |r.sent| && Prompt(r, k) && r'.offsets == r.offsets
    requires r.sent <= r'.sent && r.speeds <= r'.speeds
    ensures Prompt(r', k)
  {
    var m: nat :| AfterTicks(r, k, m);
    assert r'.speeds[..m] == r.speeds[..m] && (m > 0 ==> r'.speeds[..m - 1] == r.speeds[..m - 1]);
    assert AfterTicks(r', k, m);
  }

  lemma ActGrows(r: Run, action: Action)
    ensures r.sent <= Act(r, action).sent && r.speeds <= Act(r, action).speeds && Act(r, action).offsets == r.offsets
    ensures Act(r, action).i >= r.i && |Act(r, action).sent| <= |r.sent| + 1
  {
  }

  lemma PublishIsPrompt(r: Run, ok: bool)
    requires PromptInv(r) && |DoPublish(r, ok).sent| > |r.sent|
    ensures Prompt(DoPublish(r, ok), |r.sent|)
  {
    var r' := DoPublish(r, ok);
    assert r.speeds[..|r.speeds|] == r.speeds;
    assert AfterTicks(r', |r.sent|, |r.speeds|);
  }

  /** A tick finds a player that waits for a time still to come. */
  lemma WaitingForAll(r: Run, speeds: seq<real>, speed: real)
    requires PromptInv(r) && InTime(r.offsets) && r.phase.Waiting? && speeds == r.speeds + [speed]
    ensures forall j :: r.i <= j < |r.offsets| ==> Sum(speeds[..|speeds| - 1]) < r.offsets[j]
  {
    assert speeds[..|speeds| - 1] == r.speeds;
  }

  lemma TickOverduesNone(r: Run, action: Action)
    requires PromptInv(r) && InTime(r.offsets)
    ensures NoneOverdue(Act(r, action))
  {
    ActTicks(r, action);
    ActGrows(r, action);
    if action.Tick? && r.phase.Waiting? && !r.paused { WaitingForAll(r, Act(r, action).speeds, r.speed); }
  }

  lemma ActKeepsPromptInv(r: Run, action: Action)
    requires PromptInv(r) && InTime(r.offsets)
    ensures PromptInv(Act(r, action))
  {
    var r' := Act(r, action);
    ActKeepsRunInv(r, action);
    ActGrows(r, action);
    TickOverduesNone(r, action);
    forall k | 0 <= k < |r'.sent|
      ensures Prompt(r', k)
    {
      if k < |r.sent| {
        StillPrompt(r, r', k);
      } else {
        PublishIsPrompt(r, action.ok);
      }
    }
  }

  lemma {:induction false} AlwaysPrompt(offsets: seq<int>, speed: real, actions: seq<Action>)
    requires LegalSpeed(speed) && offsets != [] && InTime(offsets)
    ensures PromptInv(ActAll(NewRun(offsets, speed), actions))
    ensures ActAll(NewRun(offsets, speed), actions).offsets == offsets
  {
    if actions == [] {
      NewRunGood(offsets, speed);
    } else {
      AlwaysPrompt(offsets, speed, actions[..|actions| - 1]);
      ActKeepsPromptInv(ActAll(NewRun(offsets, speed), actions[..|actions| - 1]), actions[|actions| - 1]);
      ActKeepsOffsets(ActAll(NewRun(offsets, speed), actions[..|actions| - 1]), actions[|actions| - 1]);
    }
  }

  /** In every interleaving: sample k of a history in time order goes out after the first m unpaused ticks by
      which the scaled time has reached its offset, and after no more of them. */
  lemma SamplesGoOutInTime(maxConcurrent: nat, steps: seq<Step>, n: nat, k: nat) returns (m: nat)
    requires n in After(maxConcurrent, steps).runs && InTime(After(maxConcurrent, steps).runs[n].offsets)
    requires k < |After(maxConcurrent, steps).runs[n].sent|
    ensures var r := After(maxConcurrent, steps).runs[n];
      && m <= |r.speeds| && k < |r.offsets| && r.sent[k].index == k
      && r.offsets[k] as real <= 50_000_000.0 * Plain(r.speeds[..m])
      && (m > 0 ==> 50_000_000.0 * Plain(r.speeds[..m - 1]) - (m - 1) as real < r.offsets[k] as real)
  {
    var r := After(maxConcurrent, steps).runs[n];
    RunsAreFaithful(maxConcurrent, steps, n);
    var offsets, speed := RunHasTrace(maxConcurrent, steps, n);
    ActAllKeepsOffsets(NewRun(offsets, speed), TraceOf(maxConcurrent, steps, n));
    AlwaysPrompt(offsets, speed, TraceOf(maxConcurrent, steps, n));
    assert Prompt(r, k);
    m :| AfterTicks(r, k, m);
    SumIsScaledTime(r.speeds[..m]);
    if m > 0 { SumIsScaledTime(r.speeds[..m - 1]); }
  }
}
