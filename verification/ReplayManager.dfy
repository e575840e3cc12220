// The registry of replays of internal/replay/manager.go under the manager's lock. With its players it
// is proved to take steps of Replay.dfy.
module ReplayManager {
  import opened Replay
  import opened ReplayPlayer
  import opened Sets
  import Ids

  // ---- Names and numbers ----

  /** replaySeq */
  function SeqOf(id: string): int {
    Ids.TrimSequence("replay", id)
  }

  predicate Named(id: string) {
    SeqOf(id) >= 1 && id == Ids.SequenceID("replay", SeqOf(id))
  }

  function NumberOf(id: string): nat {
    if SeqOf(id) >= 0 then SeqOf(id) else 0
  }

  function Numbers(ids: set<string>): set<nat> {
    set id | id in ids :: NumberOf(id)
  }

  lemma NameRoundTrip(n: nat)
    requires 1 <= n <= Ids.MAX_INT64
    ensures Named(Ids.SequenceID("replay", n)) && NumberOf(Ids.SequenceID("replay", n)) == n
  {
    Ids.SequenceRoundTrip("replay", n);
  }

  /** The name of a run with its number, which is what the comparison looks at. */
  datatype Entry = Entry(id: string, number: nat)

  function NumbersIn(es: seq<Entry>): (ns: seq<nat>)
    ensures |ns| == |es| && forall i :: 0 <= i < |es| ==> ns[i] == es[i].number
  {
    seq(|es|, i requires 0 <= i < |es| => es[i].number)
  }

  /** What slices.SortFunc leaves: the same entries, in the order of their numbers. */
  method SortBySeq(es: seq<Entry>) returns (sorted: seq<Entry>)
    requires forall i, j :: 0 <= i < j < |es| ==> es[i].number != es[j].number
    ensures (forall e :: e in sorted <==> e in es) && |sorted| == |es|
    ensures Ascending(NumbersIn(sorted))
  {
    sorted := [];
    for k := 0 to |es|
      invariant |sorted| == k && (forall e :: e in sorted <==> e in es[..k])
      invariant Ascending(NumbersIn(sorted))
    {
      forall i | 0 <= i < |sorted|
        ensures sorted[i].number != es[k].number
      {
        assert sorted[i] in es[..k];
      }
      sorted := Insert(sorted, es[k]);
      assert es[..k + 1] == es[..k] + [es[k]];
    }
    assert es[..|es|] == es;
  }

  method Insert(sorted: seq<Entry>, e: Entry) returns (more: seq<Entry>)
    requires Ascending(NumbersIn(sorted)) && forall i :: 0 <= i < |sorted| ==> sorted[i].number != e.number
    ensures |more| == |sorted| + 1 && (forall x :: x in more <==> x in sorted || x == e)
    ensures Ascending(NumbersIn(more))
  {
    var k := 0;
    while k < |sorted| && sorted[k].number < e.number
      invariant k <= |sorted| && forall i :: 0 <= i < k ==> sorted[i].number < e.number
    {
      k := k + 1;
    }
    more := sorted[..k] + [e] + sorted[k..];
    forall i | k <= i < |sorted|
      ensures sorted[i].number > e.number
    {
      assert NumbersIn(sorted)[k] <= NumbersIn(sorted)[i];
    }
    InsertedAscending(sorted, e, k, more);
    assert sorted == sorted[..k] + sorted[k..];
  }

  lemma InsertedAscending(sorted: seq<Entry>, e: Entry, k: nat, more: seq<Entry>)
    requires k <= |sorted| && more == sorted[..k] + [e] + sorted[k..] && Ascending(NumbersIn(sorted))
    requires forall i :: 0 <= i < k ==> sorted[i].number < e.number
    requires forall i :: k <= i < |sorted| ==> sorted[i].number > e.number
    ensures Ascending(NumbersIn(more))
  {
    var ns, before := NumbersIn(more), NumbersIn(sorted);
    forall i | 0 <= i < |ns|
      ensures ns[i] == if i < k then before[i] else if i == k then e.number else before[i - 1]
    {
    }
  }

  /** In an ascending list of more than twenty, all but the last twenty are dropped. */
  lemma LastTwentyStay(ns: seq<nat>, j: nat)
    requires Ascending(ns) && j < |ns|
    ensures ns[j] in KeepNewest(Elements(ns)) <==> |ns| - j <= MAX_FINISHED_RUNS
  {
    var rest := ns[j + 1..];
    AscendingSize(rest);
    forall m
      ensures m in Newer(Elements(ns), ns[j]) <==> m in Elements(rest)
    {
      if m in Newer(Elements(ns), ns[j]) {
        var i :| 0 <= i < |ns| && ns[i] == m;
        assert i > j;
        assert rest[i - j - 1] == m;
      }
      if m in Elements(rest) {
        var i :| 0 <= i < |rest| && rest[i] == m;
        assert ns[i + j + 1] == m;
      }
    }
    assert Newer(Elements(ns), ns[j]) == Elements(rest);
    assert ns[j] in Elements(ns);
  }

  /** The runs that are listed as finished, each once. */
  ghost predicate Lists(es: seq<Entry>, ids: set<string>) {
    && (forall e :: e in es ==> e.id in ids && e.number == NumberOf(e.id))
    && (forall id :: id in ids ==> Entry(id, NumberOf(id)) in es)
    && (forall i, j :: 0 <= i < j < |es| ==> es[i].number != es[j].number)
  }

  lemma ListsNumbers(es: seq<Entry>, ids: set<string>)
    requires Lists(es, ids)
    ensures Elements(NumbersIn(es)) == Numbers(ids)
  {
    forall n
      ensures n in Elements(NumbersIn(es)) <==> n in Numbers(ids)
    {
      if n in Elements(NumbersIn(es)) {
        var i :| 0 <= i < |es| && NumbersIn(es)[i] == n;
        assert es[i] in es;
      }
      if n in Numbers(ids) {
        var id :| id in ids && NumberOf(id) == n;
        var i :| 0 <= i < |es| && es[i] == Entry(id, NumberOf(id));
        assert NumbersIn(es)[i] == n;
      }
    }
  }

  lemma SortedLists(es: seq<Entry>, sorted: seq<Entry>, ids: set<string>)
    requires Lists(es, ids) && (forall e :: e in sorted <==> e in es) && Ascending(NumbersIn(sorted))
    ensures Lists(sorted, ids)
  {
    forall i, j | 0 <= i < j < |sorted|
      ensures sorted[i].number != sorted[j].number
    {
      assert NumbersIn(sorted)[i] < NumbersIn(sorted)[j];
    }
  }

  /** An entry of the sorted list stays if and only if its number is among the twenty newest. */
  lemma SortedEntryStays(sorted: seq<Entry>, ids: set<string>, j: nat)
    requires Lists(sorted, ids) && Ascending(NumbersIn(sorted)) && j < |sorted|
    ensures sorted[j].number in KeepNewest(Numbers(ids)) <==> |sorted| - j <= MAX_FINISHED_RUNS
  {
    ListsNumbers(sorted, ids);
    LastTwentyStay(NumbersIn(sorted), j);
  }

  function Name(n: nat): string {
    Ids.SequenceID("replay", n)
  }

  function NamesOf(ns: set<nat>): set<string> {
    set n | n in ns :: Name(n)
  }

  lemma {:induction false} NamesSize(ns: set<nat>)
    ensures |NamesOf(ns)| == |ns|
  {
    if ns != {} {
      var n := Sets.Some(ns);
      NamesSize(ns - {n});
      if Name(n) in NamesOf(ns - {n}) {
        var m :| m in ns - {n} && Name(m) == Name(n);
        Ids.SequenceInjective("replay", m, n);
      }
      assert NamesOf(ns) == NamesOf(ns - {n}) + {Name(n)};
    }
  }

  lemma NumbersOfNames(ns: set<nat>)
    requires forall n :: n in ns ==> 1 <= n <= Ids.MAX_INT64
    ensures Numbers(NamesOf(ns)) == ns
    ensures forall id :: id in NamesOf(ns) ==> Named(id) && NumberOf(id) in ns
  {
    forall n | n in ns
      ensures NumberOf(Name(n)) == n && Named(Name(n))
    {
      NameRoundTrip(n);
    }
    forall n
      ensures n in Numbers(NamesOf(ns)) <==> n in ns
    {
      if n in ns { assert Name(n) in NamesOf(ns); }
    }
  }

  datatype CallReply = Done | NotFound | NotRunning | BadSpeed

  // ---- What the registry shows, on values ----

  ghost predicate Displayed(shown: map<string, Run>, s: System, n: nat) {
    n in s.runs && Name(n) in shown && shown[Name(n)] == s.runs[n]
  }

  /** The kept runs of the system, under their names. */
  ghost predicate Displays(shown: map<string, Run>, s: System) {
    && shown.Keys == NamesOf(s.kept)
    && forall n {:trigger Displayed(shown, s, n)} :: n in s.kept ==> Displayed(shown, s, n)
  }

  function FinishedIn(shown: map<string, Run>): set<string> {
    set id | id in shown && !shown[id].state.Running?
  }

  function Staying(shown: map<string, Run>, finished: set<string>): map<string, Run> {
    map id | id in shown && Stays(finished, id) :: shown[id]
  }

  /** The names and numbers of the runs that are kept, and of those that have finished. */
  lemma Numbered(shown: map<string, Run>, s: System)
    requires Displays(shown, s) && Inv(s) && s.nextID <= Ids.MAX_INT64
    ensures forall id :: id in shown ==> Named(id) && NumberOf(id) in s.kept && NumberOf(id) <= s.nextID
    ensures FinishedIn(shown) == NamesOf(s.kept - RunningOnes(s.runs))
    ensures Numbers(FinishedIn(shown)) == s.kept - RunningOnes(s.runs)
    ensures |shown.Keys - FinishedIn(shown)| == |RunningOnes(s.runs)| && |shown| == |s.kept|
  {
    NumbersOfNames(s.kept);
    NumbersOfNames(s.kept - RunningOnes(s.runs));
    NamesSize(RunningOnes(s.runs));
    NamesSize(s.kept);
    forall n | n in s.kept
      ensures Name(n) in FinishedIn(shown) <==> n !in RunningOnes(s.runs)
    {
      assert Displayed(shown, s, n);
    }
    FinishedNames(shown, s);
  }

  lemma FinishedNames(shown: map<string, Run>, s: System)
    requires Displays(shown, s) && RunningOnes(s.runs) <= s.kept
    requires forall n :: n in s.kept ==> (Name(n) in FinishedIn(shown) <==> n !in RunningOnes(s.runs))
    ensures FinishedIn(shown) == NamesOf(s.kept - RunningOnes(s.runs))
    ensures shown.Keys - FinishedIn(shown) == NamesOf(RunningOnes(s.runs))
  {
    forall id | id in shown
      ensures id in FinishedIn(shown) <==> id in NamesOf(s.kept - RunningOnes(s.runs))
      ensures id !in FinishedIn(shown) <==> id in NamesOf(RunningOnes(s.runs))
    {
      var n :| n in s.kept && Name(n) == id;
      forall m | m in s.kept && Name(m) == id
        ensures m == n
      {
        Ids.SequenceInjective("replay", m, n);
      }
    }
  }

  lemma NumberFor(shown: map<string, Run>, s: System, id: string) returns (n: nat)
    requires Displays(shown, s) && Inv(s) && s.nextID <= Ids.MAX_INT64 && id in shown
    ensures n == NumberOf(id) && n in s.kept && Name(n) == id && Displayed(shown, s, n)
  {
    n :| n in s.kept && Name(n) == id;
    NameRoundTrip(n);
    assert Displayed(shown, s, n);
  }

  lemma GoodRun(shown: map<string, Run>, s: System, id: string)
    requires Displays(shown, s) && Inv(s) && id in shown
    ensures RunInv(shown[id])
  {
    var n :| n in s.kept && Name(n) == id;
    assert Displayed(shown, s, n) && RunInv(s.runs[n]);
  }

  lemma DisplaysAct(shown: map<string, Run>, s: System, n: nat, action: Action)
    requires Displays(shown, s) && Inv(s) && n in s.kept
    ensures Name(n) in shown && Displays(shown[Name(n) := Act(shown[Name(n)], action)], Apply(s, On(n, action)))
  {
    assert Displayed(shown, s, n);
    var shown', s' := shown[Name(n) := Act(shown[Name(n)], action)], Apply(s, On(n, action));
    forall k | k in s'.kept
      ensures Displayed(shown', s', k)
    {
      assert Displayed(shown, s, k);
      if Name(k) == Name(n) { Ids.SequenceInjective("replay", k, n); }
    }
  }

  /** The system after the first two steps of a Start, when there is room and nobody else moves. */
  ghost function Added(s: System, asked: real, offsets: seq<int>): (s': System)
    requires Inv(s) && s.starter.NoStarter? && |RunningOnes(s.runs)| < s.maxConcurrent
    requires LegalSpeed(Requested(asked)) && offsets != []
    ensures s' == DoAdmit(DoBegin(s, offsets, asked), RunningOnes(s.runs)) && Inv(s')
    ensures s'.runs == s.runs[s.nextID + 1 := NewRun(offsets, Requested(asked))] && s'.kept == s.kept + {s.nextID + 1}
    ensures s'.nextID == s.nextID + 1 && s'.starter == Pruning(RunningOnes(s'.runs))
      && s'.maxConcurrent == s.maxConcurrent
  {
    StepKeepsInv(s, Begin(offsets, asked));
    StepKeepsInv(DoBegin(s, offsets, asked), Admit(RunningOnes(s.runs)));
    DoAdmit(DoBegin(s, offsets, asked), RunningOnes(s.runs))
  }

  /** And after all three. */
  ghost function Started(s: System, offsets: seq<int>, speed: real): System {
    var s' := DoAdmit(DoBegin(s, offsets, speed), RunningOnes(s.runs));
    DoPrune(s', RunningOnes(s'.runs))
  }

  lemma NameIsNew(shown: map<string, Run>, s: System, n: nat)
    requires Displays(shown, s) && Inv(s) && n == s.nextID + 1
    ensures Name(n) !in shown
  {
    if Name(n) in NamesOf(s.kept) {
      var m :| m in s.kept && Name(m) == Name(n);
      Ids.SequenceInjective("replay", m, n);
    }
  }

  lemma NamesWith(ns: set<nat>, n: nat)
    ensures NamesOf(ns + {n}) == NamesOf(ns) + {Name(n)}
  {
  }

  lemma DisplaysWith(shown: map<string, Run>, s: System, s': System, n: nat, id: string, r: Run)
    requires Displays(shown, s) && id == Name(n) && id !in shown
    requires s'.kept == s.kept + {n} && s'.runs == s.runs[n := r]
    ensures Displays(shown[id := r], s')
  {
    NamesWith(s.kept, n);
    forall k | k in s'.kept
      ensures Displayed(shown[id := r], s', k)
    {
      if k != n {
        assert Displayed(shown, s, k);
      }
    }
  }

  lemma StaysIffKept(shown: map<string, Run>, s: System, n: nat)
    requires Displays(shown, s) && Inv(s) && s.starter == Pruning(RunningOnes(s.runs)) && s.nextID <= Ids.MAX_INT64
      && n in s.kept
    ensures Stays(FinishedIn(shown), Name(n)) <==> n in DoPrune(s, RunningOnes(s.runs)).kept
    ensures n in RunningOnes(s.runs) ==> n in DoPrune(s, RunningOnes(s.runs)).kept
  {
    Numbered(shown, s);
    assert Displayed(shown, s, n);
    NameRoundTrip(n);
    StaysByNumber(FinishedIn(shown), s.kept, RunningOnes(s.runs), Name(n), n);
    assert CanSee(s, RunningOnes(s.runs));
  }

  lemma StaysByNumber(finished: set<string>, kept: set<nat>, running: set<nat>, id: string, n: nat)
    requires n in kept && NumberOf(id) == n && Numbers(finished) == kept - running
      && (id in finished <==> n !in running)
    ensures Stays(finished, id) <==> n in Replay.Registry(kept, running)
    ensures n in running ==> n in Replay.Registry(kept, running)
  {
  }

  /** What stays by name is what stays by number. */
  lemma DisplaysPruned(shown: map<string, Run>, s: System)
    requires Displays(shown, s) && Inv(s) && s.starter == Pruning(RunningOnes(s.runs)) && s.nextID <= Ids.MAX_INT64
    ensures Displays(Staying(shown, FinishedIn(shown)), DoPrune(s, RunningOnes(s.runs)))
    ensures forall n :: n in RunningOnes(s.runs) ==> Name(n) in Staying(shown, FinishedIn(shown))
  {
    var s', finished := DoPrune(s, RunningOnes(s.runs)), FinishedIn(shown);
    forall n | n in s.kept
      ensures Stays(finished, Name(n)) <==> n in s'.kept
      ensures n in RunningOnes(s.runs) ==> n in s'.kept
    {
      StaysIffKept(shown, s, n);
    }
    StayingDisplays(shown, s, s', finished);
  }

  lemma StayingDisplays(shown: map<string, Run>, s: System, s': System, finished: set<string>)
    requires Displays(shown, s) && s'.runs == s.runs && s'.kept <= s.kept
    requires forall n :: n in s.kept ==> (Stays(finished, Name(n)) <==> n in s'.kept)
    ensures Displays(Staying(shown, finished), s')
    ensures forall n :: n in s'.kept ==> Name(n) in Staying(shown, finished)
  {
    StayingNames(shown, s, s', finished);
    forall n | n in s'.kept
      ensures Displayed(Staying(shown, finished), s', n)
    {
      assert Displayed(shown, s, n);
    }
  }

  /** The registry on values when no Start is under way. */
  ghost predicate AtRest(shown: map<string, Run>, s: System, maxConcurrent: nat, nextID: nat) {
    Displays(shown, s) && Inv(s) && s.starter.NoStarter? && s.maxConcurrent == maxConcurrent
      && s.nextID == nextID <= Ids.MAX_INT64
  }

  lemma ActAtRest(shown: map<string, Run>, s: System, maxConcurrent: nat, nextID: nat, id: string, action: Action)
    requires AtRest(shown, s, maxConcurrent, nextID) && id in shown
    ensures AtRest(shown[id := Act(shown[id], action)], Apply(s, On(NumberOf(id), action)), maxConcurrent, nextID)
  {
    var n := NumberFor(shown, s, id);
    DisplaysAct(shown, s, n, action);
    StepKeepsInv(s, On(n, action));
  }

  /** The steps of the system that these actions on run n are. */
  function StepsOf(n: nat, actions: seq<Action>): (steps: seq<Step>)
    ensures |steps| == |actions| && forall k :: 0 <= k < |steps| ==> steps[k] == On(n, actions[k])
  {
    seq(|actions|, k requires 0 <= k < |actions| => On(n, actions[k]))
  }

  lemma OneStep(s: System, n: nat, action: Action)
    ensures RunAll(s, StepsOf(n, [action])) == Apply(s, On(n, action))
  {
    assert StepsOf(n, [action]) == [] + [On(n, action)];
    RunAllMore(s, [], On(n, action));
  }

  lemma {:induction false} ActAllAtRest(shown: map<string, Run>, s: System, maxConcurrent: nat, nextID: nat,
                                        id: string, actions: seq<Action>)
    requires AtRest(shown, s, maxConcurrent, nextID) && id in shown
    ensures StaysAtRest(shown, s, maxConcurrent, nextID, id, ActAll(shown[id], actions),
      RunAll(s, StepsOf(NumberOf(id), actions)))
  {
    if actions == [] {
      assert shown[id := shown[id]] == shown;
    } else {
      var before, action := actions[..|actions| - 1], actions[|actions| - 1];
      ActAllAtRest(shown, s, maxConcurrent, nextID, id, before);
      StaysAtRestWith(shown, s, maxConcurrent, nextID, id, before, action);
      assert actions == before + [action];
    }
  }

  /** The run with this identifier has become r, the system s', and nobody else has changed. */
  ghost predicate StaysAtRest(shown: map<string, Run>, s: System, maxConcurrent: nat, nextID: nat, id: string, r: Run,
                              s': System)
    requires id in shown
  {
    && AtRest(shown[id := r], s', maxConcurrent, nextID)
    && s'.samplesReplayed - s.samplesReplayed == Counted(r) - Counted(shown[id])
  }

  lemma StaysAtRestWith(shown: map<string, Run>, s: System, maxConcurrent: nat, nextID: nat, id: string,
                        actions: seq<Action>, action: Action)
    requires id in shown
    requires StaysAtRest(shown, s, maxConcurrent, nextID, id, ActAll(shown[id], actions),
      RunAll(s, StepsOf(NumberOf(id), actions)))
    ensures StaysAtRest(shown, s, maxConcurrent, nextID, id, ActAll(shown[id], actions + [action]),
      RunAll(s, StepsOf(NumberOf(id), actions + [action])))
  {
    MoreSteps(shown[id], s, NumberOf(id), actions, action);
    OneMoreAtRest(shown, RunAll(s, StepsOf(NumberOf(id), actions)), maxConcurrent, nextID, id,
      ActAll(shown[id], actions), action);
  }

  lemma MoreSteps(r: Run, s: System, n: nat, actions: seq<Action>, action: Action)
    ensures ActAll(r, actions + [action]) == Act(ActAll(r, actions), action)
    ensures RunAll(s, StepsOf(n, actions + [action])) == Apply(RunAll(s, StepsOf(n, actions)), On(n, action))
  {
    ActOnce(r, actions, action);
    assert StepsOf(n, actions + [action]) == StepsOf(n, actions) + [On(n, action)];
    RunAllMore(s, StepsOf(n, actions), On(n, action));
  }

  lemma OneMoreAtRest(shown: map<string, Run>, s: System, maxConcurrent: nat, nextID: nat, id: string, r: Run,
                      action: Action)
    requires id in shown && AtRest(shown[id := r], s, maxConcurrent, nextID)
    ensures AtRest(shown[id := Act(r, action)], Apply(s, On(NumberOf(id), action)), maxConcurrent, nextID)
    ensures Apply(s, On(NumberOf(id), action)).samplesReplayed - s.samplesReplayed ==
      Counted(Act(r, action)) - Counted(r)
  {
    ActAtRest(shown[id := r], s, maxConcurrent, nextID, id, action);
    ActCountsAtRest(shown[id := r], s, maxConcurrent, nextID, id, action);
    assert shown[id := r][id := Act(r, action)] == shown[id := Act(r, action)];
  }

  lemma ActCountsAtRest(shown: map<string, Run>, s: System, maxConcurrent: nat, nextID: nat, id: string, action: Action)
    requires AtRest(shown, s, maxConcurrent, nextID) && id in shown
    ensures Apply(s, On(NumberOf(id), action)).samplesReplayed - s.samplesReplayed ==
      Counted(Act(shown[id], action)) - Counted(shown[id])
  {
    var n := NumberFor(shown, s, id);
    ActCounts(shown[id], action);
  }

  /** The registry on values when a new run, number n, has been added and nothing pruned yet. */
  ghost predicate JustAdded(shown: map<string, Run>, s: System, maxConcurrent: nat, n: nat) {
    && Displays(shown, s) && Inv(s) && s.starter == Pruning(RunningOnes(s.runs)) && n in RunningOnes(s.runs)
    && s.maxConcurrent == maxConcurrent && s.nextID == n <= Ids.MAX_INT64
  }

  lemma AddNew(shown: map<string, Run>, s: System, maxConcurrent: nat, last: nat, n: nat, asked: real,
               offsets: seq<int>) returns (added: System)
    requires AtRest(shown, s, maxConcurrent, last) && n == last + 1 <= Ids.MAX_INT64
      && |RunningOnes(s.runs)| < maxConcurrent
    requires LegalSpeed(Requested(asked)) && offsets != []
    ensures Name(n) !in shown && JustAdded(shown[Name(n) := NewRun(offsets, Requested(asked))], added, maxConcurrent, n)
    ensures DoPrune(added, RunningOnes(added.runs)) == Started(s, offsets, asked)
  {
    NameIsNew(shown, s, n);
    added := Added(s, asked, offsets);
    DisplaysWith(shown, s, added, n, Name(n), NewRun(offsets, Requested(asked)));
    assert added.runs[n].state.Running?;
  }

  lemma PrunedAtRest(shown: map<string, Run>, s: System, maxConcurrent: nat, nextID: nat)
    requires JustAdded(shown, s, maxConcurrent, nextID)
    ensures AtRest(Staying(shown, FinishedIn(shown)), DoPrune(s, RunningOnes(s.runs)), maxConcurrent, nextID)
    ensures Name(nextID) in Staying(shown, FinishedIn(shown))
  {
    DisplaysPruned(shown, s);
    PruneKeepsInv(s, RunningOnes(s.runs));
    assert CanSee(s, RunningOnes(s.runs));
  }

  /** All of a Start on values: the registry is at rest again, and the new run is in it. */
  lemma StartSettles(shown: map<string, Run>, s: System, maxConcurrent: nat, last: nat, n: nat, asked: real,
                     offsets: seq<int>)
    returns (pruned: System)
    requires AtRest(shown, s, maxConcurrent, last) && n == last + 1 <= Ids.MAX_INT64
      && |RunningOnes(s.runs)| < maxConcurrent
    requires LegalSpeed(Requested(asked)) && offsets != []
    ensures Name(n) !in shown && pruned == Started(s, offsets, asked)
    ensures var shown' := shown[Name(n) := NewRun(offsets, Requested(asked))];
      && AtRest(Staying(shown', FinishedIn(shown')), pruned, maxConcurrent, n)
        && Name(n) in Staying(shown', FinishedIn(shown'))
      && forall id :: id in shown' ==> Named(id) && NumberOf(id) <= n
  {
    var added := AddNew(shown, s, maxConcurrent, last, n, asked, offsets);
    GoodNames(shown[Name(n) := NewRun(offsets, Requested(asked))], added, maxConcurrent, n);
    PrunedAtRest(shown[Name(n) := NewRun(offsets, Requested(asked))], added, maxConcurrent, n);
    pruned := DoPrune(added, RunningOnes(added.runs));
  }

  lemma GoodNames(shown: map<string, Run>, s: System, maxConcurrent: nat, nextID: nat)
    requires JustAdded(shown, s, maxConcurrent, nextID)
    ensures forall id :: id in shown ==> Named(id) && NumberOf(id) <= nextID
  {
    Numbered(shown, s);
  }

  lemma StayingNames(shown: map<string, Run>, s: System, s': System, finished: set<string>)
    requires Displays(shown, s) && s'.kept <= s.kept && forall n :: n in s.kept ==>
      (Stays(finished, Name(n)) <==> n in s'.kept)
    ensures Staying(shown, finished).Keys == NamesOf(s'.kept)
  {
    forall id
      ensures id in Staying(shown, finished) <==> id in NamesOf(s'.kept)
    {
      if id in Staying(shown, finished) {
        assert id in NamesOf(s.kept);
      }
    }
  }

  class Registry {
    const maxConcurrent: nat
    var runs: map<string, RunRecord>
    var nextID: nat

    /** The runs on values, and the system of which they are the kept ones. */
    ghost var shown: map<string, Run>
    ghost var system: System

    ghost predicate Shows(id: string)
      reads this`runs, this`shown, runs.Values
    {
      id in runs && id in shown && runs[id].Linked() && runs[id].run == shown[id]
    }

    ghost predicate Mirrored()
      reads this`runs, this`shown, runs.Values
    {
      && shown.Keys == runs.Keys
      && (forall i, j :: i in runs && j in runs && i != j ==> runs[i] != runs[j])
      && (forall id {:trigger Shows(id)} :: id in runs ==> Shows(id))
    }

    ghost predicate Valid()
      reads this, runs.Values
    {
      Mirrored() && AtRest(shown, system, maxConcurrent, nextID)
    }

    ghost predicate WellNamed()
      reads this
    {
      && nextID <= Ids.MAX_INT64
      && (forall id {:trigger Named(id)} :: id in runs ==> Named(id) && NumberOf(id) <= nextID)
    }

    ghost function Finished(): set<string>
      reads this, runs.Values
    {
      set id | id in runs && !runs[id].state.Running?
    }

    lemma FinishedShown()
      requires Mirrored()
      ensures Finished() == FinishedIn(shown)
    {
      forall id | id in runs
        ensures runs[id].state == shown[id].state
      {
        assert Shows(id);
      }
    }

    /** At most maxConcurrent replays run, and at most twenty more are listed. */
    lemma Bounded()
      requires Valid()
      ensures |runs.Keys - Finished()| <= maxConcurrent && |runs| <= maxConcurrent + MAX_FINISHED_RUNS
    {
      FinishedShown();
      Numbered(shown, system);
    }

    constructor (maxConcurrent: nat)
      ensures Valid() && runs == map[] && nextID == 0
      ensures this.maxConcurrent == if maxConcurrent < 1 then 4 else maxConcurrent
      ensures system == Empty(this.maxConcurrent)
    {
      var most := if maxConcurrent < 1 then 4 else maxConcurrent;
      this.maxConcurrent := most;
      runs, nextID := map[], 0;
      shown, system := map[], Empty(most);
      new;
      RegistryIsBounded(most, []);
    }

    method CountRunning() returns (count: nat)
      ensures count == |runs.Keys - Finished()|
    {
      count := 0;
      var remaining := runs.Keys;
      while remaining != {}
        invariant remaining <= runs.Keys
        invariant count == |(runs.Keys - Finished()) - remaining|
      {
        var id :| id in remaining;
        ghost var counted := (runs.Keys - Finished()) - remaining;
        remaining := remaining - {id};
        assert (runs.Keys - Finished()) - remaining == if runs[id].state.Running? then counted + {id} else counted;
        if runs[id].state.Running? {
          count := count + 1;
        }
      }
      assert (runs.Keys - Finished()) - remaining == runs.Keys - Finished();
    }

    method ListFinished() returns (es: seq<Entry>)
      requires WellNamed()
      ensures Lists(es, Finished())
    {
      es := [];
      var remaining := runs.Keys;
      ghost var listed: set<string> := {};
      while remaining != {}
        invariant remaining <= runs.Keys && listed == Finished() - remaining && Lists(es, listed)
      {
        var id :| id in remaining;
        remaining := remaining - {id};
        if !runs[id].state.Running? {
          EntryIsNew(es, listed, id);
          es := es + [Entry(id, NumberOf(id))];
          listed := listed + {id};
        }
      }
    }

    lemma EntryIsNew(es: seq<Entry>, listed: set<string>, id: string)
      requires WellNamed() && Lists(es, listed) && listed <= runs.Keys && id in runs && id !in listed
      ensures Lists(es + [Entry(id, NumberOf(id))], listed + {id})
    {
      forall i | 0 <= i < |es|
        ensures es[i].number != NumberOf(id)
      {
        assert es[i] in es && Named(es[i].id) && Named(id);
      }
    }

    method DropFirst(sorted: seq<Entry>, drop: nat)
      requires drop <= |sorted|
      modifies this`runs
      ensures forall id :: id in runs <==> id in old(runs) && !Among(sorted, drop, id)
      ensures forall id :: id in runs ==> runs[id] == old(runs)[id]
    {
      for k := 0 to drop
        invariant forall id :: id in runs <==> id in old(runs) && !Among(sorted, k, id)
        invariant forall id :: id in runs ==> runs[id] == old(runs)[id]
      {
        runs := runs - {sorted[k].id};
      }
    }

    /** Running replays stay; of the finished ones, those with the twenty highest numbers. */
    method PruneFinished()
      requires WellNamed() && Mirrored()
      modifies this`runs, this`shown
      ensures Mirrored() && shown == Staying(old(shown), old(Finished()))
      ensures forall id :: id in runs ==> id in old(runs) && runs[id] == old(runs)[id]
    {
      var finished := ListFinished();
      ghost var ids := Finished();
      var sorted := SortBySeq(finished);
      SortedLists(finished, sorted, ids);
      var drop := if |sorted| <= MAX_FINISHED_RUNS then 0 else |sorted| - MAX_FINISHED_RUNS;
      DroppedOrKept(sorted, ids, drop);
      DropFirst(sorted, drop);
      shown := Staying(shown, ids);
      forall id | id in runs
        ensures Shows(id)
      {
        assert old(Shows(id));
      }
    }

    // ---- The calls ----

    /** As Mirrored, except that the record of one run has taken more steps, of its player or for callers. */
    ghost predicate AheadBy(id: string, actions: seq<Action>)
      reads this`runs, this`shown, runs.Values
    {
      && shown.Keys == runs.Keys && id in runs
      && (forall i, j :: i in runs && j in runs && i != j ==> runs[i] != runs[j])
      && (forall i {:trigger Shows(i)} :: i in runs && i != id ==> Shows(i))
      && runs[id].Linked() && runs[id].run == ActAll(shown[id], actions)
    }

    /** The system takes these steps. */
    ghost method CatchUp(id: string, actions: seq<Action>)
      requires AtRest(shown, system, maxConcurrent, nextID) && AheadBy(id, actions)
      modifies this`shown, this`system
      ensures Valid() && system == RunAll(old(system), StepsOf(NumberOf(id), actions))
      ensures system.samplesReplayed - old(system).samplesReplayed == Counted(runs[id].run) - Counted(old(shown)[id])
    {
      ActAllAtRest(shown, system, maxConcurrent, nextID, id, actions);
      system := RunAll(system, StepsOf(NumberOf(id), actions));
      CatchUpShown(id, actions);
    }

    ghost method CatchUpShown(id: string, actions: seq<Action>)
      requires AheadBy(id, actions)
      modifies this`shown
      ensures Mirrored() && id in old(shown) && shown == old(shown)[id := ActAll(old(shown)[id], actions)]
    {
      shown := shown[id := ActAll(shown[id], actions)];
      forall i | i in runs
        ensures Shows(i)
      {
        assert i != id ==> old(Shows(i));
      }
    }

    /** The same for one step. */
    ghost method Follow(id: string, action: Action)
      requires AtRest(shown, system, maxConcurrent, nextID) && AheadBy(id, [action])
      modifies this`shown, this`system
      ensures Valid() && system == Apply(old(system), On(NumberOf(id), action))
    {
      OneStep(system, NumberOf(id), action);
      CatchUp(id, [action]);
    }

    /** When only that record has changed. */
    twostate lemma OthersShown(id: string)
      requires old(Mirrored()) && id in runs && unchanged(`runs, `shown)
      requires forall i :: i in runs && i != id ==> unchanged(runs[i])
      ensures forall i {:trigger Shows(i)} :: i in runs && i != id ==> Shows(i)
    {
      forall i | i in runs && i != id
        ensures Shows(i)
      {
        assert old(Shows(i));
      }
    }

    method SetSpeed(id: string, speed: real) returns (reply: CallReply)
      requires Valid()
      modifies this`shown, this`system, runs.Values
      ensures Valid()
      ensures reply == BadSpeed <==> !(0.1 <= speed <= 1000.0)
      ensures reply == if !LegalSpeed(speed) then BadSpeed else if id !in runs then NotFound
        else if old(runs[id].state.Running?) then Done else NotRunning
      ensures system ==
        if LegalSpeed(speed) && id in runs then Apply(old(system), On(NumberOf(id), Action.SetSpeed(speed)))
        else old(system)
    {
      if speed < MIN_SPEED || speed > MAX_SPEED {
        return BadSpeed;
      }
      if id !in runs {
        return NotFound;
      }
      assert Shows(id);
      GoodRun(shown, system, id);
      var ok := runs[id].SetSpeed(speed);
      OthersShown(id);
      Follow(id, Action.SetSpeed(speed));
      return if ok then Done else NotRunning;
    }

    method SetPaused(id: string, paused: bool) returns (reply: CallReply)
      requires Valid()
      modifies this`shown, this`system, runs.Values
      ensures Valid()
      ensures reply == if id !in runs then NotFound else if old(runs[id].state.Running?) then Done else NotRunning
      ensures system == if id in runs then Apply(old(system), On(NumberOf(id), Action.SetPaused(paused)))
        else old(system)
    {
      if id !in runs {
        return NotFound;
      }
      assert Shows(id);
      GoodRun(shown, system, id);
      var ok := runs[id].SetPaused(paused);
      OthersShown(id);
      Follow(id, Action.SetPaused(paused));
      return if ok then Done else NotRunning;
    }

    method Cancel(id: string) returns (reply: CallReply)
      requires Valid()
      modifies this`shown, this`system, runs.Values
      ensures Valid() && reply == if id in runs then Done else NotFound
      ensures system == if id in runs then Apply(old(system), On(NumberOf(id), Action.Cancel)) else old(system)
    {
      if id !in runs {
        return NotFound;
      }
      assert Shows(id);
      GoodRun(shown, system, id);
      runs[id].RequestCancel();
      OthersShown(id);
      Follow(id, Action.Cancel);
      return Done;
    }

    // ---- A player of the registry ----

    /** The player of a new run, to its end or the last of the ticks: the registry is valid again, with
        that run further on, and its total is the system's. */
    method Play(id: string, counter: Counter, w: World, samples: seq<Sample>, ticks: nat) returns (out: seq<Sample>)
      requires Valid() && id in runs && samples != [] && LegalWorld(w)
      requires runs[id].run == runs[id].first == NewRun(OffsetsOf(samples), runs[id].speed)
      modifies runs[id], counter, this`shown, this`system
      ensures Valid() && old(runs[id].trace) <= runs[id].trace
      ensures system == RunAll(old(system), StepsOf(NumberOf(id), runs[id].trace[|old(runs[id].trace)|..]))
      ensures id in Finished() || (runs[id].run.phase.Waiting? && |runs[id].run.speeds| <= ticks)
      ensures Echoes(runs[id].id, samples, out) && |out| == runs[id].published
      ensures counter.samplesReplayed == old(counter.samplesReplayed) + |out|
      ensures system.samplesReplayed == old(system).samplesReplayed + |out|
    {
      var active := runs[id];
      ghost var before, r := active.trace, active.run;
      assert Shows(id);
      GoodRun(shown, system, id);
      out := ReplayPlayer.Play(active, counter, w, samples, ticks);
      OthersShown(id);
      ghost var actions := active.trace[|before|..];
      assert active.trace == before + actions;
      ActMore(active.first, before, actions);
      CatchUp(id, actions);
      assert Shows(id);
    }

    // ---- Start ----

    /** A new run, if the request is good and there is room for one more; then the registry is pruned. */
    method Start(validRange: bool, speed: real, samples: seq<Sample>) returns (reply: StartReply)
      requires Valid() && nextID < Ids.MAX_INT64
      modifies this`runs, this`nextID, this`shown, this`system
      ensures Valid()
      ensures reply == Verdict(validRange, speed, |samples|, |old(RunningOnes(system.runs))|, maxConcurrent,
        Name(old(nextID) + 1))
      ensures !reply.Accepted? ==> runs == old(runs) && nextID == old(nextID) && system == old(system)
      ensures reply.Accepted? ==>
        && system == Started(old(system), OffsetsOf(samples), speed)
        && reply.id in runs && reply.id !in old(runs) && fresh(runs[reply.id])
        && runs[reply.id].Valid() && runs[reply.id].run == runs[reply.id].first ==
          NewRun(OffsetsOf(samples), Requested(speed))
        && runs[reply.id].speed == (if speed == 0.0 then 10.0 else speed)
        && (forall id :: id in runs && id != reply.id ==> id in old(runs) && runs[id] == old(runs)[id])
    {
      reply := Judge(validRange, speed, samples);
      if reply.Accepted? {
        var requested := if speed == 0.0 then DEFAULT_SPEED else speed;
        assert requested == Requested(speed) && LegalSpeed(requested) && samples != [];
        assert reply.id == Name(nextID + 1) && |RunningOnes(system.runs)| < maxConcurrent;
        StartRun(reply.id, samples, requested, speed);
      }
    }

    /** Whether a new run is to be added, and under which name. */
    method Judge(validRange: bool, speed: real, samples: seq<Sample>) returns (reply: StartReply)
      requires Valid()
      ensures reply == Verdict(validRange, speed, |samples|, |RunningOnes(system.runs)|, maxConcurrent,
        Name(nextID + 1))
    {
      if !validRange {
        return Refused(InvalidRange);
      }
      var requested := if speed == 0.0 then DEFAULT_SPEED else speed;
      if requested < MIN_SPEED || requested > MAX_SPEED {
        return Refused(InvalidSpeed);
      }
      if |samples| == 0 {
        return Refused(NoHistory);
      }
      var room := HasRoom();
      reply := if room then Accepted(Name(nextID + 1)) else Refused(TooManyReplays);
    }

    /** The rest of Start. */
    method StartRun(id: string, samples: seq<Sample>, requested: real, ghost speed: real)
      requires Valid() && nextID < Ids.MAX_INT64 && |RunningOnes(system.runs)| < maxConcurrent && id == Name(nextID + 1)
      requires requested == Requested(speed) && LegalSpeed(requested) && samples != []
      modifies this`runs, this`nextID, this`shown, this`system
      ensures Valid() && nextID == old(nextID) + 1 && system == Started(old(system), OffsetsOf(samples), speed)
      ensures id in runs && id !in old(runs) && fresh(runs[id])
      ensures runs[id].Valid() && runs[id].run == runs[id].first == NewRun(OffsetsOf(samples), requested)
      ensures forall other :: other in runs && other != id ==> other in old(runs) && runs[other] == old(runs)[other]
    {
      ghost var pruned := StartSettles(shown, system, maxConcurrent, nextID, nextID + 1, speed, OffsetsOf(samples));
      Launch(id, |samples|, requested, OffsetsOf(samples), pruned);
    }

    method HasRoom() returns (room: bool)
      requires Valid()
      ensures room == (|RunningOnes(system.runs)| < maxConcurrent)
    {
      var count := CountRunning();
      FinishedShown();
      Numbered(shown, system);
      room := count < maxConcurrent;
    }

    /** The new run is added, the oldest finished ones go, and the system has made its three steps. */
    method Launch(id: string, total: nat, speed: real, ghost offsets: seq<int>, ghost pruned: System)
      requires Mirrored() && id !in runs && LegalSpeed(speed) && offsets != [] && total == |offsets|
        && nextID < Ids.MAX_INT64
      requires AtRest(Staying(shown[id := NewRun(offsets, speed)], FinishedIn(shown[id := NewRun(offsets, speed)])),
        pruned, maxConcurrent, nextID + 1)
      requires id in Staying(shown[id := NewRun(offsets, speed)], FinishedIn(shown[id := NewRun(offsets, speed)]))
      requires forall other :: other in shown[id := NewRun(offsets, speed)] ==>
        Named(other) && NumberOf(other) <= nextID + 1
      modifies this`runs, this`nextID, this`shown, this`system
      ensures Valid() && nextID == old(nextID) + 1 && system == pruned
      ensures id in runs && fresh(runs[id]) && runs[id].Valid()
        && runs[id].run == runs[id].first == NewRun(offsets, speed)
      ensures forall other :: other in runs && other != id ==> other in old(runs) && runs[other] == old(runs)[other]
    {
      Register(id, total, speed, offsets);
      PruneAdded(pruned);
    }

    /** The new run is added. */
    method Register(id: string, total: nat, speed: real, ghost offsets: seq<int>)
      requires Mirrored() && id !in runs && LegalSpeed(speed) && offsets != [] && total == |offsets|
      modifies this`runs, this`nextID, this`shown
      ensures Mirrored() && nextID == old(nextID) + 1
      ensures shown == old(shown)[id := NewRun(offsets, speed)]
      ensures id in runs && fresh(runs[id]) && runs[id].Valid()
        && runs[id].run == runs[id].first == NewRun(offsets, speed)
      ensures runs == old(runs)[id := runs[id]]
    {
      nextID := nextID + 1;
      var record := new RunRecord(id, total, speed, offsets);
      runs, shown := runs[id := record], shown[id := NewRun(offsets, speed)];
      forall other | other in runs
        ensures Shows(other)
      {
        assert other != id ==> old(Shows(other));
      }
    }

    method PruneShown()
      requires WellNamed() && Mirrored()
      modifies this`runs, this`shown
      ensures Mirrored() && shown == Staying(old(shown), FinishedIn(old(shown)))
      ensures forall id :: id in runs ==> id in old(runs) && runs[id] == old(runs)[id]
    {
      FinishedShown();
      PruneFinished();
    }

    /** The oldest finished runs go, and the Start is over. */
    method PruneAdded(ghost pruned: System)
      requires Mirrored() && WellNamed() && AtRest(Staying(shown, FinishedIn(shown)), pruned, maxConcurrent, nextID)
      modifies this`runs, this`shown, this`system
      ensures Valid() && system == pruned && runs.Keys == Staying(old(shown), FinishedIn(old(shown))).Keys
      ensures forall id :: id in runs ==> id in old(runs) && runs[id] == old(runs)[id]
    {
      PruneShown();
      system := pruned;
    }
  }

  datatype StartError = InvalidRange | InvalidSpeed | NoHistory | TooManyReplays

  datatype StartReply = Accepted(id: string) | Refused(error: StartError)

  /** The reply to a request, in the order of the checks. */
  function Verdict(validRange: bool, speed: real, total: nat, running: nat, maxConcurrent: nat,
                   id: string): (reply: StartReply)
    ensures reply.Accepted? <==>
      validRange && (speed == 0.0 || 0.1 <= speed <= 1000.0) && total > 0 && running < maxConcurrent
    ensures reply.Accepted? ==> LegalSpeed(Requested(speed))
    ensures reply.Accepted? ==> reply.id == id
    ensures reply == Refused(TooManyReplays) <==>
      validRange && LegalSpeed(Requested(speed)) && total > 0 && running >= maxConcurrent
    ensures reply == Refused(NoHistory) <==> validRange && LegalSpeed(Requested(speed)) && total == 0
    ensures reply == Refused(InvalidSpeed) <==> validRange && speed != 0.0 && !(0.1 <= speed <= 1000.0)
  {
    if !validRange then Refused(InvalidRange)
    else if !LegalSpeed(Requested(speed)) then Refused(InvalidSpeed)
    else if total == 0 then Refused(NoHistory)
    else if running >= maxConcurrent then Refused(TooManyReplays)
    else Accepted(id)
  }

  predicate Among(sorted: seq<Entry>, k: nat, id: string)
    requires k <= |sorted|
  {
    exists i :: 0 <= i < k && sorted[i].id == id
  }

  /** Pruning leaves the run, when these are the finished ones. */
  predicate Stays(finished: set<string>, id: string) {
    id !in finished || NumberOf(id) in KeepNewest(Numbers(finished))
  }

  lemma DroppedOrKept(sorted: seq<Entry>, ids: set<string>, drop: nat)
    requires Lists(sorted, ids) && Ascending(NumbersIn(sorted))
    requires drop == if |sorted| <= MAX_FINISHED_RUNS then 0 else |sorted| - MAX_FINISHED_RUNS
    ensures forall id :: Among(sorted, drop, id) <==> !Stays(ids, id)
  {
    forall id
      ensures Among(sorted, drop, id) <==> !Stays(ids, id)
    {
      if id in ids {
        var j :| 0 <= j < |sorted| && sorted[j] == Entry(id, NumberOf(id));
        SortedEntryStays(sorted, ids, j);
      }
      if i :| 0 <= i < drop && sorted[i].id == id {
        assert sorted[i] in sorted;
        SortedEntryStays(sorted, ids, i);
      }
    }
  }
}
