// Which replays a full registry drops: not always the oldest, since a replay may end between the
// reading of its status and the pruning.
module ReplayOrder {
  import opened Replay
  import Sets

  // ---- In which order runs are dropped ----

  /** The runs that a pruning drops. */
  function Dropped(s: System, seen: set<nat>): set<nat> {
    s.kept - DoPrune(s, seen).kept
  }

  /** In every interleaving: what a pruning drops has ended, and is older than every run that stays,
      unless that one was still running when its status was read. */
  lemma DroppedAreOldest(maxConcurrent: nat, steps: seq<Step>, seen: set<nat>, dropped: nat, left: nat)
    requires dropped in Dropped(After(maxConcurrent, steps), seen)
    requires left in DoPrune(After(maxConcurrent, steps), seen).kept && left !in seen
    ensures dropped in After(maxConcurrent, steps).runs && !After(maxConcurrent, steps).runs[dropped].state.Running?
    ensures dropped < left
  {
    var s := After(maxConcurrent, steps);
    RegistryIsBounded(maxConcurrent, steps);
    PruningDropsOldest(s.kept - seen);
    assert dropped in s.kept - seen - KeepNewest(s.kept - seen) && left in KeepNewest(s.kept - seen);
  }

  /** Every run that is dropped is older than every ended one that stays. */
  ghost predicate OldestGo(s: System, seen: set<nat>) {
    forall d, l :: d in Dropped(s, seen) && l in DoPrune(s, seen).kept - RunningOnes(s.runs) ==> d < l
  }

  /** One of those that are too many is newer than l exactly if more than twenty are. */
  lemma TooManyNewer(finished: set<nat>, l: nat)
    ensures (exists d :: d in finished - KeepNewest(finished) && d > l) <==> |Newer(finished, l)| > MAX_FINISHED_RUNS
  {
    var newer := Newer(finished, l);
    if d :| d in finished - KeepNewest(finished) && d > l {
      Sets.SubsetSize(Newer(finished, d) + {d}, newer);
    }
    if |newer| > MAX_FINISHED_RUNS {
      var d := Least(newer);
      assert Newer(finished, d) == newer - {d};
      assert d in finished - KeepNewest(finished);
    }
  }

  /** Before a pruning: each run that has ended since its status was read has at most twenty newer ones
      among those that were seen to have ended. */
  ghost predicate LateEndersAreRecent(s: System, seen: set<nat>) {
    forall l :: l in seen - RunningOnes(s.runs) ==> |Newer(s.kept - seen, l)| <= MAX_FINISHED_RUNS
  }

  lemma DroppedIs(maxConcurrent: nat, steps: seq<Step>, seen: set<nat>)
    requires var s := After(maxConcurrent, steps); s.starter.Pruning? && CanSee(s, seen)
    ensures var s := After(maxConcurrent, steps);
      && Dropped(s, seen) == s.kept - seen - KeepNewest(s.kept - seen) && seen <= DoPrune(s, seen).kept
  {
    RegistryIsBounded(maxConcurrent, steps);
    RegistryBounded(After(maxConcurrent, steps).kept, seen, |seen|);
  }

  lemma OldestGoMeans(maxConcurrent: nat, steps: seq<Step>, seen: set<nat>)
    requires var s := After(maxConcurrent, steps); s.starter.Pruning? && CanSee(s, seen)
    ensures var s := After(maxConcurrent, steps);
      OldestGo(s, seen) <==> forall d, l :: d in Dropped(s, seen) && l in seen - RunningOnes(s.runs) ==> d < l
  {
    var s := After(maxConcurrent, steps);
    DroppedIs(maxConcurrent, steps, seen);
    if OldestGo(s, seen) {
      forall d, l | d in Dropped(s, seen) && l in seen - RunningOnes(s.runs)
        ensures d < l
      {
        assert l in DoPrune(s, seen).kept - RunningOnes(s.runs);
      }
    } else {
      var d, l :| d in Dropped(s, seen) && l in DoPrune(s, seen).kept - RunningOnes(s.runs) && d >= l;
      if l !in seen { DroppedAreOldest(maxConcurrent, steps, seen, d, l); }
      assert l in seen - RunningOnes(s.runs);
    }
  }

  /** Exactly then the order of age is kept. */
  lemma OldestGoIff(maxConcurrent: nat, steps: seq<Step>, seen: set<nat>)
    requires var s := After(maxConcurrent, steps); s.starter.Pruning? && CanSee(s, seen)
    ensures OldestGo(After(maxConcurrent, steps), seen) <==> LateEndersAreRecent(After(maxConcurrent, steps), seen)
  {
    var s := After(maxConcurrent, steps);
    var finished := s.kept - seen;
    DroppedIs(maxConcurrent, steps, seen);
    OldestGoMeans(maxConcurrent, steps, seen);
    forall l | l in seen - RunningOnes(s.runs)
      ensures (forall d :: d in Dropped(s, seen) ==> d < l) <==> |Newer(finished, l)| <= MAX_FINISHED_RUNS
    {
      TooManyNewer(finished, l);
      assert l !in Dropped(s, seen);
      assert forall d :: d in Dropped(s, seen) <==> d in finished - KeepNewest(finished);
    }
  }

  // ---- A pruning that does not drop the oldest ----

  /** A run of one sample that fails at once. */
  const BRIEF := [0]

  function FailedRun(): Run {
    NewRun(BRIEF, 1.0).(state := Failed, phase := Ended)
  }

  /** Run 1 is running, those after it up to n have failed. */
  function OneRunning(n: nat): map<nat, Run>
    requires n >= 1
  {
    if n == 1 then map[1 := NewRun(BRIEF, 1.0)] else OneRunning(n - 1)[n := FailedRun()]
  }

  function UpTo(n: nat): (ns: set<nat>)
    ensures forall k :: k in ns <==> 1 <= k <= n
  {
    if n == 0 then {} else UpTo(n - 1) + {n}
  }

  lemma {:induction false} UpToSize(n: nat)
    ensures |UpTo(n)| == n
  {
    if n > 0 { UpToSize(n - 1); }
  }

  function Failures(n: nat): System
    requires n >= 1
  {
    System(OneRunning(n), UpTo(n), n, 0, 2, NoStarter)
  }

  lemma {:induction false} OneRunningIs(n: nat)
    requires n >= 1
    ensures OneRunning(n).Keys == UpTo(n) && RunningOnes(OneRunning(n)) == {1} && OneRunning(n)[1] == NewRun(BRIEF, 1.0)
  {
    if n > 1 { OneRunningIs(n - 1); }
  }

  function StartAndFail(n: nat): seq<Step> {
    [Begin(BRIEF, 1.0), Admit({1}), Prune({1, n}), On(n, Publish(false))]
  }

  function FailuresUpTo(n: nat): seq<Step>
    requires n >= 1
  {
    if n == 1 then [Begin(BRIEF, 1.0), Admit({}), Prune({1})] else FailuresUpTo(n - 1) + StartAndFail(n)
  }

  function NewAndRunning(n: nat): map<nat, Run>
    requires n >= 2
  {
    OneRunning(n - 1)[n := NewRun(BRIEF, 1.0)]
  }

  // The four steps of one more replay that is started, has room, and fails at once.

  function Begun(runs: map<nat, Run>, kept: set<nat>, n: nat): System {
    System(runs, kept, n, 0, 2, Looking(BRIEF, 1.0, {1}))
  }

  function Added(runs: map<nat, Run>, kept: set<nat>, n: nat): System {
    System(runs, kept, n, 0, 2, Pruning({1, n}))
  }

  lemma BeginNext(n: nat)
    requires n >= 2
    ensures Apply(Failures(n - 1), Begin(BRIEF, 1.0)) == Begun(OneRunning(n - 1), UpTo(n - 1), n - 1)
  {
    OneRunningIs(n - 1);
  }

  lemma NewRunning(n: nat)
    requires n >= 2
    ensures n !in OneRunning(n - 1) && RunningOnes(OneRunning(n - 1)) == {1} && RunningOnes(NewAndRunning(n)) == {1, n}
    ensures NewAndRunning(n)[1] == NewRun(BRIEF, 1.0) == NewAndRunning(n)[n]
  {
    OneRunningIs(n - 1);
    RunningWith(OneRunning(n - 1), n, NewRun(BRIEF, 1.0));
  }

  lemma AdmitNext(n: nat)
    requires n >= 2
    ensures Apply(Begun(OneRunning(n - 1), UpTo(n - 1), n - 1), Admit({1})) == Added(NewAndRunning(n), UpTo(n), n)
  {
    var runs, kept, runs', kept' := OneRunning(n - 1), UpTo(n - 1), NewAndRunning(n), UpTo(n);
    NewRunning(n);
    AdmitAdds(runs, kept, runs', kept', n);
  }

  lemma AdmitAdds(runs: map<nat, Run>, kept: set<nat>, runs': map<nat, Run>, kept': set<nat>, n: nat)
    requires n >= 2 && runs' == runs[n := NewRun(BRIEF, 1.0)] && kept' == kept + {n}
    requires RunningOnes(runs) == {1} && RunningOnes(runs') == {1, n}
    ensures Apply(Begun(runs, kept, n - 1), Admit({1})) == Added(runs', kept', n)
  {
    assert CanSee(Begun(runs, kept, n - 1), {1});
  }

  lemma PruneNext(n: nat)
    requires 2 <= n <= 22
    ensures Apply(Added(NewAndRunning(n), UpTo(n), n), Prune({1, n}))
      == System(NewAndRunning(n), UpTo(n), n, 0, 2, NoStarter)
  {
    NewRunning(n);
    OthersKept(n);
  }

  lemma Without(s: set<nat>, x: nat)
    requires x in s
    ensures |s - {x}| == |s| - 1
  {
  }

  lemma OthersKept(n: nat)
    requires 2 <= n <= 22
    ensures Registry(UpTo(n), {1, n}) == UpTo(n)
  {
    UpToSize(n);
    Without(UpTo(n), 1);
    Without(UpTo(n) - {1}, n);
    var others := UpTo(n) - {1, n};
    assert others == UpTo(n) - {1} - {n};
    FewAreAllKept(others);
    assert UpTo(n) * {1, n} + others == UpTo(n);
  }

  lemma FailNext(n: nat)
    requires n >= 2
    ensures Apply(System(NewAndRunning(n), UpTo(n), n, 0, 2, NoStarter), On(n, Publish(false))) == Failures(n)
  {
    assert Act(NewRun(BRIEF, 1.0), Publish(false)) == FailedRun();
    assert NewAndRunning(n)[n := FailedRun()] == OneRunning(n);
  }

  /** The steps up to where the new one is added. */
  lemma AddedAfter(steps: seq<Step>, n: nat)
    requires n >= 2 && After(2, steps) == Failures(n - 1)
    ensures After(2, steps + [Begin(BRIEF, 1.0)] + [Admit({1})]) == Added(NewAndRunning(n), UpTo(n), n)
  {
    RunAllMore(Empty(2), steps, Begin(BRIEF, 1.0));
    BeginNext(n);
    RunAllMore(Empty(2), steps + [Begin(BRIEF, 1.0)], Admit({1}));
    AdmitNext(n);
  }

  lemma SameSteps(before: seq<Step>, n: nat)
    ensures before + StartAndFail(n) ==
      before + [Begin(BRIEF, 1.0)] + [Admit({1})] + [Prune({1, n})] + [On(n, Publish(false))]
  {
  }

  lemma {:induction false} FailuresReached(n: nat)
    requires 1 <= n <= 22
    ensures After(2, FailuresUpTo(n)) == Failures(n)
  {
    if n == 1 {
      FirstStart();
    } else {
      var before := FailuresUpTo(n - 1);
      FailuresReached(n - 1);
      AddedAfter(before, n);
      var added := before + [Begin(BRIEF, 1.0)] + [Admit({1})];
      RunAllMore(Empty(2), added, Prune({1, n}));
      PruneNext(n);
      RunAllMore(Empty(2), added + [Prune({1, n})], On(n, Publish(false)));
      FailNext(n);
      SameSteps(before, n);
    }
  }

  lemma FirstStart()
    ensures After(2, FailuresUpTo(1)) == Failures(1)
  {
    var none: seq<Step> := [];
    RunAllMore(Empty(2), none, Begin(BRIEF, 1.0));
    RunAllMore(Empty(2), none + [Begin(BRIEF, 1.0)], Admit({}));
    RunAllMore(Empty(2), none + [Begin(BRIEF, 1.0)] + [Admit({})], Prune({1}));
    assert FailuresUpTo(1) == none + [Begin(BRIEF, 1.0)] + [Admit({})] + [Prune({1})];
    FirstSteps();
  }

  lemma FirstSteps()
    ensures Apply(Apply(Apply(Empty(2), Begin(BRIEF, 1.0)), Admit({})), Prune({1})) == Failures(1)
  {
    var begun := Apply(Empty(2), Begin(BRIEF, 1.0));
    assert begun.starter == Looking(BRIEF, 1.0, {});
    var admitted := Apply(begun, Admit({}));
    assert admitted.runs == OneRunning(1) && admitted.kept == {1};
    assert RunningOnes(admitted.runs) == {1};
    FewAreAllKept({});
    assert {1} - {1} == {};
    assert Registry({1}, {1}) == {1};
  }

  /** With room for two: run 1 is running, 21 later ones have failed, and another one is started. Its
      pruning reads that run 1 is running; then run 1 fails; and run 2 is dropped, but run 1 stays. */
  lemma OldestCanStay()
    ensures exists steps: seq<Step>, seen: set<nat> ::
      var s := After(2, steps); s.starter.Pruning? && CanSee(s, seen) && !OldestGo(s, seen)
  {
    FailuresReached(22);
    OldestStays(FailuresUpTo(22), 23);
  }

  lemma OldestStays(before: seq<Step>, n: nat)
    requires n >= 23 && After(2, before) == Failures(n - 1)
    ensures exists steps: seq<Step>, seen: set<nat> ::
      var s := After(2, steps); s.starter.Pruning? && CanSee(s, seen) && !OldestGo(s, seen)
  {
    var added := before + [Begin(BRIEF, 1.0)] + [Admit({1})];
    AddedAfter(before, n);
    RunAllMore(Empty(2), added, On(1, Publish(false)));
    FirstFails(n);
    LeftBehind(Added(NewAndRunning(n)[1 := FailedRun()], UpTo(n), n), n);
    assert After(2, added + [On(1, Publish(false))]) == Added(NewAndRunning(n)[1 := FailedRun()], UpTo(n), n);
  }

  lemma LeftBehind(s: System, n: nat)
    requires n >= 23 && s.kept == UpTo(n) && s.starter == Pruning({1, n}) && RunningOnes(s.runs) == {n}
    ensures CanSee(s, {1, n}) && !OldestGo(s, {1, n})
  {
    UpToSize(n);
    SecondIsDropped(UpTo(n), n);
    assert 2 in Dropped(s, {1, n}) && 1 in DoPrune(s, {1, n}).kept - RunningOnes(s.runs);
  }

  lemma FirstFails(n: nat)
    requires n >= 2
    ensures Apply(Added(NewAndRunning(n), UpTo(n), n), On(1, Publish(false)))
      == Added(NewAndRunning(n)[1 := FailedRun()], UpTo(n), n)
    ensures RunningOnes(NewAndRunning(n)[1 := FailedRun()]) == {n}
  {
    NewRunning(n);
    assert Act(NewRun(BRIEF, 1.0), Publish(false)) == FailedRun();
    RunningWithout(NewAndRunning(n), 1, FailedRun());
    assert {1, n} - {1} == {n};
  }

  lemma RunningWithout(runs: map<nat, Run>, id: nat, r: Run)
    requires !r.state.Running?
    ensures RunningOnes(runs[id := r]) == RunningOnes(runs) - {id}
  {
  }

  lemma SecondIsDropped(kept: set<nat>, n: nat)
    requires n >= 23 && |kept| == n && 1 in kept && 2 in kept && n in kept && forall k :: k in kept ==> k >= 1
    ensures 2 !in Registry(kept, {1, n}) && 1 in Registry(kept, {1, n})
  {
    Without(kept, 1);
    Without(kept - {1}, 2);
    Without(kept - {1} - {2}, n);
    assert Newer(kept - {1, n}, 2) == kept - {1} - {2} - {n};
  }
}
