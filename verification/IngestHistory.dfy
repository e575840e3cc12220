// What the ingest pipeline has done by any moment: what each counter counts, in which order samples leave
// the queue, and what becomes of a submission.
module IngestHistory {
  import opened Ingest
  import Sets

  /** The state after all but the last step. */
  function Before(s: System, steps: seq<Step>): System
    requires steps != []
  {
    RunAll(s, steps[..|steps| - 1])
  }

  // ---- What the counters of the workers count ----

  /** A worker with a sample in hand gets this answer from the publisher. */
  predicate Answered(s: System, step: Step, ok: bool) {
    step.Publish? && step.ok == ok && step.w in s.workers && s.workers[step.w].Holding?
  }

  function Answers(s: System, steps: seq<Step>, ok: bool): nat {
    if steps == [] then 0
    else Answers(s, steps[..|steps| - 1], ok) + if Answered(Before(s, steps), steps[|steps| - 1], ok) then 1 else 0
  }

  lemma StepCounts(s: System, step: Step)
    ensures Apply(s, step).n.published == s.n.published + if Answered(s, step, true) then 1 else 0
    ensures Apply(s, step).n.failed == s.n.failed + if Answered(s, step, false) then 1 else 0
  {
  }

  /** Published are the samples the publisher has taken, failed those it has refused. */
  lemma {:induction false} AnswersAreCounted(s: System, steps: seq<Step>)
    ensures RunAll(s, steps).n.published == s.n.published + Answers(s, steps, true)
    ensures RunAll(s, steps).n.failed == s.n.failed + Answers(s, steps, false)
  {
    if steps != [] {
      AnswersAreCounted(s, steps[..|steps| - 1]);
      StepCounts(Before(s, steps), steps[|steps| - 1]);
    }
  }

  // ---- What the counters of the submitters count ----

  /** The submissions that have come to this end. */
  function Ones(s: System, outcome: Outcome): set<nat> {
    set i | i in s.submitters && s.submitters[i].phase == Left(outcome)
  }

  /** The submissions that were counted as received. */
  ghost predicate OutcomesCounted(s: System) {
    && s.n.rejected == |Ones(s, Invalid)| && s.n.dropped == |Ones(s, QueueFull)|
    && s.n.received == |Ones(s, Accepted)| + s.n.rejected + s.n.dropped + |Flying(s.submitters)|
  }

  lemma OnesWith(s: System, s': System, id: nat, v: Submitter, outcome: Outcome)
    requires s'.submitters == s.submitters[id := v] && (id in s.submitters ==> !s.submitters[id].phase.Left?)
    ensures |Ones(s', outcome)| == |Ones(s, outcome)| + if v.phase == Left(outcome) then 1 else 0
  {
    assert Ones(s', outcome) == Ones(s, outcome) + if v.phase == Left(outcome) then {id} else {};
  }

  /** One submitter moves on. */
  lemma SubmitterCounts(s: System, s': System, id: nat, v: Submitter)
    requires OutcomesCounted(s) && s'.submitters == s.submitters[id := v]
    requires id in s.submitters ==> !s.submitters[id].phase.Left?
    requires s'.n.rejected == s.n.rejected + if v.phase == Left(Invalid) then 1 else 0
    requires s'.n.dropped == s.n.dropped + if v.phase == Left(QueueFull) then 1 else 0
    requires s'.n.received - s.n.received
      == (if InFlight(v) || v.phase == Left(Accepted) || v.phase == Left(Invalid) || v.phase == Left(QueueFull)
          then 1 else 0) - (if id in s.submitters && InFlight(s.submitters[id]) then 1 else 0)
    ensures OutcomesCounted(s')
  {
    OnesWith(s, s', id, v, Invalid);
    OnesWith(s, s', id, v, QueueFull);
    OnesWith(s, s', id, v, Accepted);
    FlyingWith(s.submitters, id, v);
  }

  lemma OthersCount(s: System, s': System)
    requires OutcomesCounted(s) && s'.submitters == s.submitters
    requires s'.n.received == s.n.received && s'.n.rejected == s.n.rejected && s'.n.dropped == s.n.dropped
    ensures OutcomesCounted(s')
  {
    assert Ones(s', Invalid) == Ones(s, Invalid) && Ones(s', QueueFull) == Ones(s, QueueFull);
    assert Ones(s', Accepted) == Ones(s, Accepted);
  }

  /** Calls and the lock. */
  lemma EnteringCounts(s: System, step: Step)
    requires OutcomesCounted(s) && (step.Call? || step.Acquire? || step.Receive?)
    ensures OutcomesCounted(SubmitterStep(s, step))
  {
    var s' := SubmitterStep(s, step);
    if s' == s { OthersCount(s, s'); } else { SubmitterCounts(s, s', step.id, s'.submitters[step.id]); }
  }

  /** The map of last known samples. */
  lemma LoadCounts(s: System, step: Step)
    requires OutcomesCounted(s) && step.Load?
    ensures OutcomesCounted(SubmitterStep(s, step))
  {
    var s' := SubmitterStep(s, step);
    if s' == s { OthersCount(s, s'); } else { SubmitterCounts(s, s', step.id, s'.submitters[step.id]); }
  }

  lemma SwapCounts(s: System, step: Step)
    requires OutcomesCounted(s) && step.Swap?
    ensures OutcomesCounted(SubmitterStep(s, step))
  {
    var s' := SubmitterStep(s, step);
    if s' == s { OthersCount(s, s'); } else { SubmitterCounts(s, s', step.id, s'.submitters[step.id]); }
  }

  lemma LeavingCounts(s: System, step: Step)
    requires OutcomesCounted(s) && (step.Validate? || step.Send?)
    ensures OutcomesCounted(SubmitterStep(s, step))
  {
    var s' := SubmitterStep(s, step);
    if s' == s { OthersCount(s, s'); } else { SubmitterCounts(s, s', step.id, s'.submitters[step.id]); }
  }

  lemma UnaffectedCounts(s: System, step: Step)
    requires OutcomesCounted(s) && !step.Call? && !step.Acquire? && !step.Receive? && !step.Validate?
    requires !step.Load? && !step.Swap? && !step.Send?
    ensures OutcomesCounted(Apply(s, step))
  {
    OthersCount(s, Apply(s, step));
  }

  lemma StepKeepsCounted(s: System, step: Step)
    requires OutcomesCounted(s)
    ensures OutcomesCounted(Apply(s, step))
  {
    match step
    case Call(_, _) => EnteringCounts(s, step);
    case Acquire(_) => EnteringCounts(s, step);
    case Receive(_) => EnteringCounts(s, step);
    case Validate(_, _, _) => LeavingCounts(s, step);
    case Load(_) => LoadCounts(s, step);
    case Swap(_, _) => SwapCounts(s, step);
    case Send(_) => LeavingCounts(s, step);
    case _ => UnaffectedCounts(s, step);
  }

  /** At every moment: rejected are the submissions that ended as invalid, dropped those that found the queue
      full, and received is these, the accepted ones and those still under way. */
  lemma {:induction false} OutcomesAreCounted(workers: nat, capacity: nat, steps: seq<Step>)
    ensures OutcomesCounted(RunAll(Start(workers, capacity), steps))
  {
    if steps == [] {
      var s := Start(workers, capacity);
      assert Ones(s, Invalid) == {} && Ones(s, QueueFull) == {} && Ones(s, Accepted) == {};
      assert Flying(s.submitters) == {};
    } else {
      OutcomesAreCounted(workers, capacity, steps[..|steps| - 1]);
      StepKeepsCounted(Before(Start(workers, capacity), steps), steps[|steps| - 1]);
    }
  }

  // ---- The queue ----

  /** The step by which a submission is accepted. */
  predicate Admits(s: System, step: Step) {
    step.Send? && InPhase(s, step.id, Sending) && InPhase(Apply(s, step), step.id, Left(Accepted))
  }

  /** The samples accepted so far, in order. */
  function AcceptedSoFar(s: System, steps: seq<Step>): seq<Sample> {
    if steps == [] then []
    else
      var before, last := Before(s, steps), steps[|steps| - 1];
      AcceptedSoFar(s, steps[..|steps| - 1]) + if Admits(before, last) then [before.submitters[last.id].sample] else []
  }

  /** The step by which a worker gets a sample in hand. */
  predicate Hands(s: System, step: Step) {
    && step.Take? && step.w in s.workers && !s.workers[step.w].Holding?
    && step.w in Apply(s, step).workers && Apply(s, step).workers[step.w].Holding?
  }

  /** The samples that workers have taken in hand so far, in order. */
  function TakenSoFar(s: System, steps: seq<Step>): seq<Sample> {
    if steps == [] then []
    else
      var before, last := Before(s, steps), steps[|steps| - 1];
      TakenSoFar(s, steps[..|steps| - 1])
      + if Hands(before, last) then [Apply(before, last).workers[last.w].sample] else []
  }

  lemma QueueMoves(s: System, step: Step)
    ensures Hands(s, step) ==>
      && s.queue != [] && Apply(s, step).queue == s.queue[1..]
      && Apply(s, step).workers[step.w].sample == s.queue[0]
    ensures Admits(s, step) ==> Apply(s, step).queue == s.queue + [s.submitters[step.id].sample]
    ensures !Hands(s, step) && !Admits(s, step) ==> Apply(s, step).queue == s.queue
  {
  }

  /** First in, first out: what has been accepted is what has been taken, followed by what is queued. */
  lemma {:induction false} FirstInFirstOut(workers: nat, capacity: nat, steps: seq<Step>)
    ensures var s := Start(workers, capacity);
      AcceptedSoFar(s, steps) == TakenSoFar(s, steps) + RunAll(s, steps).queue
  {
    var s := Start(workers, capacity);
    if steps != [] {
      FirstInFirstOut(workers, capacity, steps[..|steps| - 1]);
      var before, last := Before(s, steps), steps[|steps| - 1];
      QueueMoves(before, last);
      if Hands(before, last) { assert before.queue == [before.queue[0]] + before.queue[1..]; }
    }
  }

  /** A submission is dropped exactly if the queue is full, and otherwise accepted. */
  lemma DroppedIffFull(s: System, id: nat)
    requires Inv(s) && InPhase(s, id, Sending)
    ensures InPhase(Apply(s, Send(id)), id, Left(QueueFull)) <==> |s.queue| == s.capacity
    ensures InPhase(Apply(s, Send(id)), id, Left(Accepted)) <==> |s.queue| < s.capacity
  {
  }

  function Calls(steps: seq<Step>): nat {
    if steps == [] then 0 else Calls(steps[..|steps| - 1]) + if steps[|steps| - 1].Call? then 1 else 0
  }

  /** Not more queued than accepted, and nothing dropped. */
  ghost predicate Roomy(s: System, calls: nat) {
    |s.queue| <= |Ones(s, Accepted)| && Ones(s, QueueFull) == {} && |s.submitters| <= calls
  }

  lemma SendHasRoom(s: System, id: nat, calls: nat)
    requires Roomy(s, calls) && calls <= s.capacity && InPhase(s, id, Sending)
    ensures |s.queue| < s.capacity
  {
    assert Ones(s, Accepted) <= s.submitters.Keys - {id};
    Sets.SubsetSize(Ones(s, Accepted), s.submitters.Keys - {id});
    assert |s.submitters.Keys| == |s.submitters|;
  }

  lemma SubmitterKeepsRoomy(s: System, s': System, id: nat, v: Submitter, calls: nat)
    requires Roomy(s, calls) && s'.submitters == s.submitters[id := v] && v.phase != Left(QueueFull)
    requires id in s.submitters ==> !s.submitters[id].phase.Left?
    requires |s'.queue| <= |s.queue| + if v.phase == Left(Accepted) then 1 else 0
    ensures Roomy(s', calls + if id in s.submitters then 0 else 1)
  {
    OnesWith(s, s', id, v, Accepted);
    OnesWith(s, s', id, v, QueueFull);
    assert s'.submitters.Keys == s.submitters.Keys + {id};
    assert |s'.submitters.Keys| == |s'.submitters| && |s.submitters.Keys| == |s.submitters|;
  }

  lemma OthersKeepRoomy(s: System, s': System, calls: nat)
    requires Roomy(s, calls) && s'.submitters == s.submitters && |s'.queue| <= |s.queue|
    ensures Roomy(s', calls)
  {
    assert Ones(s', Accepted) == Ones(s, Accepted) && Ones(s', QueueFull) == Ones(s, QueueFull);
  }

  lemma SendKeepsRoomy(s: System, id: nat, calls: nat)
    requires Roomy(s, calls) && calls <= s.capacity && InPhase(s, id, Sending)
    ensures Roomy(DoSend(s, id), calls)
  {
    SendHasRoom(s, id, calls);
    SubmitterKeepsRoomy(s, DoSend(s, id), id, DoSend(s, id).submitters[id], calls);
  }

  /** Any other step of a submitter leaves the queue alone. */
  lemma OtherStepKeepsRoomy(s: System, step: Step, calls: nat)
    requires Roomy(s, calls) && !step.Send? && SubmitterStep(s, step) != s
    ensures Roomy(SubmitterStep(s, step), calls + if step.Call? then 1 else 0)
  {
    SubmitterKeepsRoomy(s, SubmitterStep(s, step), step.id, SubmitterStep(s, step).submitters[step.id], calls);
  }

  lemma CapacityStays(s: System, step: Step)
    ensures Apply(s, step).capacity == s.capacity
    ensures Apply(s, step) == SubmitterStep(s, step)
      || (Apply(s, step).submitters == s.submitters && |Apply(s, step).queue| <= |s.queue|)
    ensures step.Call? ==> Apply(s, step) == SubmitterStep(s, step)
  {
  }

  lemma StepKeepsRoomy(s: System, step: Step, calls: nat)
    requires Roomy(s, calls) && calls <= s.capacity
    ensures Roomy(Apply(s, step), calls + if step.Call? then 1 else 0) && Apply(s, step).capacity == s.capacity
  {
    var s' := Apply(s, step);
    CapacityStays(s, step);
    if s' == SubmitterStep(s, step) && s' != s {
      if step.Send? { SendKeepsRoomy(s, step.id, calls); } else { OtherStepKeepsRoomy(s, step, calls); }
    } else {
      OthersKeepRoomy(s, s', calls);
    }
  }

  lemma {:induction false} StaysRoomy(workers: nat, capacity: nat, steps: seq<Step>)
    requires Calls(steps) <= capacity
    ensures var s := RunAll(Start(workers, capacity), steps);
      Roomy(s, Calls(steps)) && s.capacity == capacity
  {
    var s := Start(workers, capacity);
    if steps == [] {
      assert Ones(s, Accepted) == {} && Ones(s, QueueFull) == {};
    } else {
      StaysRoomy(workers, capacity, steps[..|steps| - 1]);
      StepKeepsRoomy(Before(s, steps), steps[|steps| - 1], Calls(steps[..|steps| - 1]));
    }
  }

  /** As long as there are no more submissions than places in the queue, none is dropped, whatever the workers do. */
  lemma NothingDroppedWithRoom(workers: nat, capacity: nat, steps: seq<Step>)
    requires Calls(steps) <= capacity
    ensures RunAll(Start(workers, capacity), steps).n.dropped == 0
  {
    StaysRoomy(workers, capacity, steps);
    OutcomesAreCounted(workers, capacity, steps);
  }

  // ---- A submission that nobody interrupts ----

  /** All steps of a Submit; those that its way does not lead through do nothing. */
  function Submission(id: nat, sample: Sample, valid: bool, resolved: Sample, storedAt: int): seq<Step> {
    [Call(id, sample), Acquire(id), Receive(id), Validate(id, valid, resolved), Load(id), Swap(id, storedAt), Send(id)]
  }

  /** The sample is the first one of its drone, or newer than the known one. */
  predicate IsNews(last: map<string, Entry>, sample: Sample) {
    sample.droneID in last ==> sample.timestamp > last[sample.droneID].sample.timestamp
  }

  function OutcomeOf(s: System, valid: bool): Outcome {
    if s.closed then ShutDown else if !valid then Invalid else if |s.queue| == s.capacity then QueueFull else Accepted
  }

  /** What a submission from start to end comes to. */
  ghost predicate Submitted(s: System, s': System, id: nat, valid: bool, resolved: Sample, storedAt: int) {
    var outcome := OutcomeOf(s, valid);
    && InPhase(s', id, Left(outcome))
    && s'.queue == (if outcome.Accepted? then s.queue + [resolved] else s.queue)
    && s'.last == (if !s.closed && valid && IsNews(s.last, resolved)
                   then s.last[resolved.droneID := Entry(resolved, storedAt)] else s.last)
    && s'.n == s.n.(received := s.n.received + if s.closed then 0 else 1,
                    rejected := s.n.rejected + if outcome.Invalid? then 1 else 0,
                    dropped := s.n.dropped + if outcome.QueueFull? then 1 else 0)
  }

  lemma RunMore(s: System, steps: seq<Step>, step: Step)
    ensures RunAll(s, steps + [step]) == Apply(RunAll(s, steps), step)
  {
    assert (steps + [step])[..|steps|] == steps;
  }

  /** Called, inside the lock, counted and validated. */
  lemma Validated(s: System, id: nat, sample: Sample, valid: bool, resolved: Sample) returns (s': System)
    requires Inv(s) && id !in s.submitters && s.writer.NoWriter?
    ensures s' ==
      Apply(Apply(Apply(Apply(s, Call(id, sample)), Acquire(id)), Receive(id)), Validate(id, valid, resolved))
    ensures s.closed ==> InPhase(s', id, Left(ShutDown)) && s'.n == s.n
    ensures !s.closed ==>
      s'.n == s.n.(received := s.n.received + 1, rejected := s.n.rejected + if valid then 0 else 1)
    ensures !s.closed && valid ==> id in s'.submitters && s'.submitters[id] == Submitter(resolved, Storing)
    ensures !s.closed && !valid ==> InPhase(s', id, Left(Invalid))
    ensures s'.queue == s.queue && s'.last == s.last && s'.capacity == s.capacity
  {
    var called := Apply(s, Call(id, sample));
    var locked := Apply(called, Acquire(id));
    assert InPhase(locked, id, Locked);
    var counted := Apply(locked, Receive(id));
    assert if s.closed then InPhase(counted, id, Left(ShutDown)) else InPhase(counted, id, Counted);
    s' := Apply(counted, Validate(id, valid, resolved));
  }

  /** Stored, if it is news ... */
  lemma StoredIfNews(s: System, id: nat, storedAt: int) returns (s': System)
    requires InPhase(s, id, Storing)
    ensures s' == Apply(Apply(s, Load(id)), Swap(id, storedAt))
    ensures InPhase(s', id, Sending) && s'.submitters[id].sample == s.submitters[id].sample
    ensures s'.queue == s.queue && s'.capacity == s.capacity && s'.n == s.n
    ensures s'.last == if IsNews(s.last, s.submitters[id].sample)
      then s.last[s.submitters[id].sample.droneID := Entry(s.submitters[id].sample, storedAt)] else s.last
  {
    var loaded := Apply(s, Load(id));
    assert loaded == DoLoad(s, id);
    assert loaded.submitters[id].phase.Swapping? <==> IsNews(s.last, s.submitters[id].sample);
    s' := Apply(loaded, Swap(id, storedAt));
    assert s' == if loaded.submitters[id].phase.Swapping? then DoSwap(loaded, id, storedAt) else loaded;
  }

  /** ... and sent, if there is room. */
  lemma StoredAndSent(s: System, id: nat, storedAt: int)
    requires InPhase(s, id, Storing) && |s.queue| <= s.capacity
    ensures var sample := s.submitters[id].sample;
      var s' := Apply(Apply(Apply(s, Load(id)), Swap(id, storedAt)), Send(id));
      && InPhase(s', id, Left(if |s.queue| < s.capacity then Accepted else QueueFull))
      && s'.queue == (if |s.queue| < s.capacity then s.queue + [sample] else s.queue)
      && s'.last == (if IsNews(s.last, sample) then s.last[sample.droneID := Entry(sample, storedAt)] else s.last)
      && s'.n == s.n.(dropped := s.n.dropped + if |s.queue| < s.capacity then 0 else 1)
  {
    var stored := StoredIfNews(s, id, storedAt);
  }

  lemma NothingMore(s: System, id: nat, outcome: Outcome, storedAt: int)
    requires InPhase(s, id, Left(outcome))
    ensures Apply(Apply(Apply(s, Load(id)), Swap(id, storedAt)), Send(id)) == s
  {
  }

  /** From any moment when nobody shuts the pipeline down: a submission that runs through without interruption is
      refused after a shutdown, or as invalid, or because the queue is full, and otherwise joins the end of the
      queue; it is counted as that, and the last known sample is replaced exactly by a newer one. */
  lemma SubmissionAlone(s: System, id: nat, sample: Sample, valid: bool, resolved: Sample, storedAt: int)
    requires Inv(s) && id !in s.submitters && s.writer.NoWriter?
    ensures Submitted(s, RunAll(s, Submission(id, sample, valid, resolved, storedAt)), id, valid, resolved, storedAt)
  {
    var validated := Validated(s, id, sample, valid, resolved);
    if validated.submitters[id].phase.Storing? {
      StoredAndSent(validated, id, storedAt);
    } else {
      NothingMore(validated, id, if s.closed then ShutDown else Invalid, storedAt);
    }
    SevenSteps(s, Submission(id, sample, valid, resolved, storedAt));
  }

  lemma FourSteps(s: System, steps: seq<Step>)
    requires |steps| == 4
    ensures RunAll(s, steps) == Apply(Apply(Apply(Apply(s, steps[0]), steps[1]), steps[2]), steps[3])
  {
    RunMore(s, [], steps[0]);
    RunMore(s, steps[..1], steps[1]);
    RunMore(s, steps[..2], steps[2]);
    RunMore(s, steps[..3], steps[3]);
    assert [] + [steps[0]] == steps[..1] && steps[..1] + [steps[1]] == steps[..2];
    assert steps[..2] + [steps[2]] == steps[..3] && steps[..3] + [steps[3]] == steps;
  }

  lemma SevenSteps(s: System, steps: seq<Step>)
    requires |steps| == 7
    ensures RunAll(s, steps) == Apply(Apply(Apply(Apply(Apply(Apply(Apply(s,
      steps[0]), steps[1]), steps[2]), steps[3]), steps[4]), steps[5]), steps[6])
  {
    FourSteps(s, steps[..4]);
    RunMore(s, steps[..4], steps[4]);
    RunMore(s, steps[..5], steps[5]);
    RunMore(s, steps[..6], steps[6]);
    assert steps[..4] + [steps[4]] == steps[..5] && steps[..5] + [steps[5]] == steps[..6];
    assert steps[..6] + [steps[6]] == steps;
  }
}
