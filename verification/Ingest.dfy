// The ingest pipeline of internal/usecase/ingest.go as a system of steps: submitters, workers and
// closers around a bounded queue, a reader-writer lock, atomic counters and the map of last known
// samples. Each step is one lock operation, one atomic operation or one channel operation; any
// interleaving of them is a run.
module Ingest {
  import Sets

  datatype Sample = Sample(droneID: string, timestamp: int)

  datatype Entry = Entry(sample: Sample, storedAt: int)

  datatype Outcome = Accepted | QueueFull | Invalid | ShutDown

  /** What the CAS loop has seen: nothing under the key, or this entry. */
  datatype Seen = Nothing | Found(entry: Entry)

  /** Where a call of Submit is. From Locked to Sending it holds the read lock. */
  datatype Phase = Entering | Locked | Counted | Storing | Swapping(seen: Seen) | Sending | Left(outcome: Outcome)

  datatype Submitter = Submitter(sample: Sample, phase: Phase)

  datatype Worker = Idle | Holding(sample: Sample) | Exited(cancelled: bool)

  /** The write lock: free, or where the Shutdown that holds it is: just taken; closed set, and already
      tells whether it was set before; past the closing of the queue. */
  datatype Writer = NoWriter | Taken | Marked(already: bool) | Finished

  datatype Counters = Counters(received: nat, rejected: nat, dropped: nat, published: nat, failed: nat)

  /** closes counts how often the queue was closed; a second time would fail. */
  datatype System = System(submitters: map<nat, Submitter>, workers: map<nat, Worker>, writer: Writer, closed: bool,
                           closes: nat, queue: seq<Sample>, capacity: nat, last: map<string, Entry>, n: Counters)

  datatype Step =
    | Call(id: nat, sample: Sample)
    | Acquire(id: nat)
    | Receive(id: nat)
    | Validate(id: nat, valid: bool, resolved: Sample)
    | Load(id: nat)
    | Swap(id: nat, storedAt: int)
    | Send(id: nat)
    | Take(w: nat)
    | Publish(w: nat, ok: bool)
    | Quit(w: nat)
    | Drain(w: nat)
    | Lock
    | Mark
    | CloseQueue
    | Unlock

  predicate HoldsLock(s: Submitter) {
    !s.phase.Entering? && !s.phase.Left?
  }

  /** It has been counted as received and as nothing else yet. */
  predicate InFlight(s: Submitter) {
    s.phase.Counted? || s.phase.Storing? || s.phase.Swapping? || s.phase.Sending?
  }

  function Readers(s: System): set<nat> {
    set i | i in s.submitters && HoldsLock(s.submitters[i])
  }

  function Flying(submitters: map<nat, Submitter>): set<nat> {
    set i | i in submitters && InFlight(submitters[i])
  }

  function InHand(workers: map<nat, Worker>): set<nat> {
    set w | w in workers && workers[w].Holding?
  }

  function At(s: System, id: nat, phase: Phase): System
    requires id in s.submitters
  {
    s.(submitters := s.submitters[id := s.submitters[id].(phase := phase)])
  }

  /** Compare the map's entry with what was seen, and store if nothing came in between. */
  function DoSwap(s: System, id: nat, storedAt: int): System
    requires id in s.submitters && s.submitters[id].phase.Swapping?
  {
    var sample := s.submitters[id].sample;
    var untouched := match s.submitters[id].phase.seen
      case Nothing => sample.droneID !in s.last
      case Found(entry) => sample.droneID in s.last && s.last[sample.droneID] == entry;
    if untouched then At(s, id, Sending).(last := s.last[sample.droneID := Entry(sample, storedAt)])
    else At(s, id, Storing)
  }

  function DoLoad(s: System, id: nat): System
    requires id in s.submitters
  {
    var sample := s.submitters[id].sample;
    if sample.droneID !in s.last then At(s, id, Swapping(Nothing))
    else if sample.timestamp <= s.last[sample.droneID].sample.timestamp then At(s, id, Sending)
    else At(s, id, Swapping(Found(s.last[sample.droneID])))
  }

  function DoSend(s: System, id: nat): System
    requires id in s.submitters
  {
    if |s.queue| < s.capacity then At(s, id, Left(Accepted)).(queue := s.queue + [s.submitters[id].sample])
    else At(s, id, Left(QueueFull)).(n := s.n.(dropped := s.n.dropped + 1))
  }

  function DoReceive(s: System, id: nat): System
    requires id in s.submitters
  {
    if s.closed then At(s, id, Left(ShutDown)) else At(s, id, Counted).(n := s.n.(received := s.n.received + 1))
  }

  function DoValidate(s: System, id: nat, valid: bool, resolved: Sample): System
    requires id in s.submitters
  {
    if !valid then At(s, id, Left(Invalid)).(n := s.n.(rejected := s.n.rejected + 1))
    else s.(submitters := s.submitters[id := Submitter(resolved, Storing)])
  }

  predicate InPhase(s: System, id: nat, phase: Phase) {
    id in s.submitters && s.submitters[id].phase == phase
  }

  /** A step of a submitter; one that is not where the step starts stays where it is. */
  function SubmitterStep(s: System, step: Step): System {
    match step
    case Call(id, sample) =>
      if id in s.submitters then s else s.(submitters := s.submitters[id := Submitter(sample, Entering)])
    case Acquire(id) => if InPhase(s, id, Entering) && s.writer.NoWriter? then At(s, id, Locked) else s
    case Receive(id) => if InPhase(s, id, Locked) then DoReceive(s, id) else s
    case Validate(id, valid, resolved) => if InPhase(s, id, Counted) then DoValidate(s, id, valid, resolved) else s
    case Load(id) => if InPhase(s, id, Storing) then DoLoad(s, id) else s
    case Swap(id, storedAt) =>
      if id in s.submitters && s.submitters[id].phase.Swapping? then DoSwap(s, id, storedAt) else s
    case Send(id) => if InPhase(s, id, Sending) then DoSend(s, id) else s
    case _ => s
  }

  function WorkerAt(s: System, w: nat, v: Worker): System {
    s.(workers := s.workers[w := v])
  }

  function WorkerStep(s: System, step: Step): System {
    match step
    case Take(w) =>
      if w in s.workers && s.workers[w].Idle? && s.queue != []
      then WorkerAt(s, w, Holding(s.queue[0])).(queue := s.queue[1..])
      else s
    case Publish(w, ok) =>
      if w in s.workers && s.workers[w].Holding? then
        WorkerAt(s, w, Idle).(n := if ok then s.n.(published := s.n.published + 1) else s.n.(failed := s.n.failed + 1))
      else s
    case Quit(w) => if w in s.workers && s.workers[w].Idle? then WorkerAt(s, w, Exited(true)) else s
    case Drain(w) =>
      if w in s.workers && s.workers[w].Idle? && s.queue == [] && s.closes > 0 then WorkerAt(s, w, Exited(false)) else s
    case _ => s
  }

  /** Shutdown. The lock is free for it only when nobody reads. */
  function CloserStep(s: System, step: Step): System {
    match step
    case Lock => if s.writer.NoWriter? && Readers(s) == {} then s.(writer := Taken) else s
    case Mark => if s.writer.Taken? then s.(writer := Marked(s.closed), closed := true) else s
    case CloseQueue =>
      if !s.writer.Marked? then s
      else s.(writer := Finished, closes := if s.writer.already then s.closes else s.closes + 1)
    case Unlock => if s.writer.Finished? then s.(writer := NoWriter) else s
    case _ => s
  }

  function Apply(s: System, step: Step): System {
    match step
    case Take(_) => WorkerStep(s, step)
    case Publish(_, _) => WorkerStep(s, step)
    case Quit(_) => WorkerStep(s, step)
    case Drain(_) => WorkerStep(s, step)
    case Lock => CloserStep(s, step)
    case Mark => CloserStep(s, step)
    case CloseQueue => CloserStep(s, step)
    case Unlock => CloserStep(s, step)
    case _ => SubmitterStep(s, step)
  }

  // ---- The invariant ----

  /** What holds of one submitter: past the check of closed it keeps Shutdown out; once its sample
      has been stored, the map holds one at least as new; what it has seen is older than its own. */
  ghost predicate SubmitterInv(s: System, id: nat)
    requires id in s.submitters
  {
    var v := s.submitters[id];
    && (HoldsLock(v) ==> s.writer.NoWriter?)
    && (InFlight(v) ==> !s.closed)
    && (v.phase.Swapping? && v.phase.seen.Found? ==> v.phase.seen.entry.sample.timestamp < v.sample.timestamp)
    && (v.phase.Sending? || v.phase == Left(Accepted) || v.phase == Left(QueueFull) ==> KnownSince(s.last, v.sample))
  }

  /** The map holds a sample of this drone that is at least as new. */
  predicate KnownSince(last: map<string, Entry>, sample: Sample) {
    sample.droneID in last && last[sample.droneID].sample.timestamp >= sample.timestamp
  }

  /** Every sample that was counted as received is in exactly one place. */
  ghost predicate Conserved(s: System) {
    s.n.received == s.n.rejected + s.n.dropped + s.n.published + s.n.failed
                    + |s.queue| + |InHand(s.workers)| + |Flying(s.submitters)|
  }

  ghost predicate LockInv(s: System) {
    && s.closes == (if s.closed && s.writer != Marked(false) then 1 else 0)
    && (s.writer.Marked? || s.writer.Finished? ==> s.closed)
  }

  ghost predicate Inv(s: System) {
    && LockInv(s) && Conserved(s) && |s.queue| <= s.capacity
    && (forall i {:trigger SubmitterInv(s, i)} :: i in s.submitters ==> SubmitterInv(s, i))
    && (forall d :: d in s.last ==> s.last[d].sample.droneID == d)
    && (forall w :: w in s.workers && s.workers[w] == Exited(false) ==> s.closes > 0 && s.queue == [])
  }

  /** The map only moves on: a drone that is known stays known, with a sample that is never older. */
  ghost predicate MovesOn(before: map<string, Entry>, after: map<string, Entry>) {
    forall d :: d in before ==> d in after && before[d].sample.timestamp <= after[d].sample.timestamp
  }

  // ---- Each step keeps it ----

  lemma FlyingWith(submitters: map<nat, Submitter>, id: nat, v: Submitter)
    ensures |Flying(submitters[id := v])|
      == |Flying(submitters)| + (if InFlight(v) then 1 else 0)
         - (if id in submitters && InFlight(submitters[id]) then 1 else 0)
  {
    var others := Flying(submitters) - {id};
    assert Flying(submitters[id := v]) == if InFlight(v) then others + {id} else others;
    assert Flying(submitters) == if id in submitters && InFlight(submitters[id]) then others + {id} else others;
  }

  lemma InHandWith(workers: map<nat, Worker>, w: nat, v: Worker)
    ensures |InHand(workers[w := v])|
      == |InHand(workers)| + (if v.Holding? then 1 else 0) - (if w in workers && workers[w].Holding? then 1 else 0)
  {
    var others := InHand(workers) - {w};
    assert InHand(workers[w := v]) == if v.Holding? then others + {w} else others;
    assert InHand(workers) == if w in workers && workers[w].Holding? then others + {w} else others;
  }

  /** A step that changes one submitter, and otherwise at most the counters, the queue and the map. */
  lemma OneSubmitter(s: System, s': System, id: nat, v: Submitter)
    requires Inv(s) && s'.submitters == s.submitters[id := v] && SubmitterInv(s', id)
    requires s'.workers == s.workers && s'.writer == s.writer && s'.closed == s.closed && s'.closes == s.closes
    requires s'.capacity == s.capacity && |s'.queue| <= s'.capacity && (s.closes > 0 ==> s'.queue == s.queue)
    requires MovesOn(s.last, s'.last) && forall d :: d in s'.last ==> s'.last[d].sample.droneID == d
    requires s'.n.received - s.n.received + (if id in s.submitters && InFlight(s.submitters[id]) then 1 else 0)
      == s'.n.rejected - s.n.rejected + s'.n.dropped - s.n.dropped
         + s'.n.published - s.n.published + s'.n.failed - s.n.failed
         + |s'.queue| - |s.queue| + (if InFlight(v) then 1 else 0)
    ensures Inv(s')
  {
    FlyingWith(s.submitters, id, v);
    forall i | i in s'.submitters
      ensures SubmitterInv(s', i)
    {
      assert i != id ==> SubmitterInv(s, i);
    }
  }

  lemma SwapKeepsInv(s: System, id: nat, storedAt: int)
    requires Inv(s) && id in s.submitters && s.submitters[id].phase.Swapping?
    ensures Inv(DoSwap(s, id, storedAt)) && MovesOn(s.last, DoSwap(s, id, storedAt).last)
  {
    assert SubmitterInv(s, id);
    var s' := DoSwap(s, id, storedAt);
    OneSubmitter(s, s', id, s'.submitters[id]);
  }

  lemma LoadKeepsInv(s: System, id: nat)
    requires Inv(s) && InPhase(s, id, Storing)
    ensures Inv(DoLoad(s, id))
  {
    assert SubmitterInv(s, id);
    var s' := DoLoad(s, id);
    OneSubmitter(s, s', id, s'.submitters[id]);
  }

  /** A send happens only while the queue is open. */
  lemma NeverSendsOnClosed(s: System, id: nat)
    requires Inv(s) && InPhase(s, id, Sending)
    ensures s.closes == 0
  {
    assert SubmitterInv(s, id);
  }

  lemma SendKeepsInv(s: System, id: nat)
    requires Inv(s) && InPhase(s, id, Sending)
    ensures Inv(DoSend(s, id))
  {
    assert SubmitterInv(s, id);
    var s' := DoSend(s, id);
    OneSubmitter(s, s', id, s'.submitters[id]);
  }

  lemma ReceiveKeepsInv(s: System, id: nat)
    requires Inv(s) && InPhase(s, id, Locked)
    ensures Inv(DoReceive(s, id))
  {
    assert SubmitterInv(s, id);
    var s' := DoReceive(s, id);
    OneSubmitter(s, s', id, s'.submitters[id]);
  }

  lemma ValidateKeepsInv(s: System, id: nat, valid: bool, resolved: Sample)
    requires Inv(s) && InPhase(s, id, Counted)
    ensures Inv(DoValidate(s, id, valid, resolved))
  {
    assert SubmitterInv(s, id);
    var s' := DoValidate(s, id, valid, resolved);
    OneSubmitter(s, s', id, s'.submitters[id]);
  }

  lemma CallKeepsInv(s: System, id: nat, sample: Sample)
    requires Inv(s) && id !in s.submitters
    ensures Inv(s.(submitters := s.submitters[id := Submitter(sample, Entering)]))
  {
    OneSubmitter(s, s.(submitters := s.submitters[id := Submitter(sample, Entering)]), id, Submitter(sample, Entering));
  }

  lemma AcquireKeepsInv(s: System, id: nat)
    requires Inv(s) && InPhase(s, id, Entering) && s.writer.NoWriter?
    ensures Inv(At(s, id, Locked))
  {
    assert SubmitterInv(s, id);
    OneSubmitter(s, At(s, id, Locked), id, s.submitters[id].(phase := Locked));
  }

  lemma SubmitterStepKeepsInv(s: System, step: Step)
    requires Inv(s)
    ensures Inv(SubmitterStep(s, step))
  {
    match step
    case Call(id, sample) => if id !in s.submitters { CallKeepsInv(s, id, sample); }
    case Acquire(id) => if InPhase(s, id, Entering) && s.writer.NoWriter? { AcquireKeepsInv(s, id); }
    case Receive(id) => if InPhase(s, id, Locked) { ReceiveKeepsInv(s, id); }
    case Validate(id, valid, resolved) => if InPhase(s, id, Counted) { ValidateKeepsInv(s, id, valid, resolved); }
    case Load(id) => if InPhase(s, id, Storing) { LoadKeepsInv(s, id); }
    case Swap(id, storedAt) =>
      if id in s.submitters && s.submitters[id].phase.Swapping? { SwapKeepsInv(s, id, storedAt); }
    case Send(id) => if InPhase(s, id, Sending) { SendKeepsInv(s, id); }
    case _ =>
  }

  /** Only a swap touches the map, and it moves on. */
  lemma SubmitterStepMovesOn(s: System, step: Step)
    requires Inv(s)
    ensures MovesOn(s.last, SubmitterStep(s, step).last)
  {
    if step.Swap? && step.id in s.submitters && s.submitters[step.id].phase.Swapping? {
      SwapKeepsInv(s, step.id, step.storedAt);
    }
  }

  lemma SubmittersUnaffected(s: System, s': System)
    requires forall i {:trigger SubmitterInv(s, i)} :: i in s.submitters ==> SubmitterInv(s, i)
    requires s'.submitters == s.submitters && s'.last == s.last
    requires s'.writer == s.writer || Readers(s) == {}
    requires s'.closed == s.closed || Readers(s) == {}
    ensures forall i {:trigger SubmitterInv(s', i)} :: i in s'.submitters ==> SubmitterInv(s', i)
  {
    forall i | i in s'.submitters
      ensures SubmitterInv(s', i)
    {
      assert SubmitterInv(s, i);
      assert HoldsLock(s.submitters[i]) ==> i in Readers(s);
    }
  }

  lemma OneWorker(s: System, s': System, w: nat, v: Worker)
    requires Inv(s) && w in s.workers && s'.workers == s.workers[w := v]
    requires s' == s.(workers := s'.workers, queue := s'.queue, n := s'.n)
    requires |s'.queue| <= |s.queue| && (s.queue == [] ==> s'.queue == [])
    requires v == Exited(false) ==> s.closes > 0 && s.queue == []
    requires s'.n.received - s.n.received + (if s.workers[w].Holding? then 1 else 0)
      == s'.n.rejected - s.n.rejected + s'.n.dropped - s.n.dropped
         + s'.n.published - s.n.published + s'.n.failed - s.n.failed
         + |s'.queue| - |s.queue| + (if v.Holding? then 1 else 0)
    ensures Inv(s')
  {
    InHandWith(s.workers, w, v);
    SubmittersUnaffected(s, s');
  }

  lemma WorkerStepKeepsInv(s: System, step: Step)
    requires Inv(s)
    ensures Inv(WorkerStep(s, step)) && WorkerStep(s, step).last == s.last
  {
    var s' := WorkerStep(s, step);
    if s' != s {
      match step
      case Take(w) => OneWorker(s, s', w, Holding(s.queue[0]));
      case Publish(w, ok) => OneWorker(s, s', w, Idle);
      case Quit(w) => OneWorker(s, s', w, Exited(true));
      case Drain(w) => OneWorker(s, s', w, Exited(false));
    }
  }

  lemma NoReadersWhileWriting(s: System)
    requires Inv(s) && !s.writer.NoWriter?
    ensures Readers(s) == {}
  {
    forall i | i in s.submitters
      ensures !HoldsLock(s.submitters[i])
    {
      assert SubmitterInv(s, i);
    }
  }

  lemma CloserStepKeepsInv(s: System, step: Step)
    requires Inv(s)
    ensures Inv(CloserStep(s, step)) && CloserStep(s, step).last == s.last
  {
    var s' := CloserStep(s, step);
    if s' != s {
      if !s.writer.NoWriter? { NoReadersWhileWriting(s); }
      SubmittersUnaffected(s, s');
    }
  }

  lemma StepKeepsInv(s: System, step: Step)
    requires Inv(s)
    ensures Inv(Apply(s, step)) && MovesOn(s.last, Apply(s, step).last)
  {
    SubmitterStepKeepsInv(s, step);
    SubmitterStepMovesOn(s, step);
    WorkerStepKeepsInv(s, step);
    CloserStepKeepsInv(s, step);
  }

  function RunAll(s: System, steps: seq<Step>): System {
    if steps == [] then s else Apply(RunAll(s, steps[..|steps| - 1]), steps[|steps| - 1])
  }

  function IdleWorkers(count: nat): (workers: map<nat, Worker>)
    ensures forall w :: w in workers ==> workers[w] == Idle
  {
    if count == 0 then map[] else IdleWorkers(count - 1)[count - 1 := Idle]
  }

  function Start(workers: nat, capacity: nat): System {
    System(map[], IdleWorkers(workers), NoWriter, false, 0, [], capacity, map[], Counters(0, 0, 0, 0, 0))
  }

  /** In every interleaving: what was received is rejected, dropped, published, failed, queued, in a
      worker's hands or in a submitter's; and nobody is about to send on the closed queue. */
  lemma {:induction false} RunKeepsInv(workers: nat, capacity: nat, steps: seq<Step>)
    ensures Inv(RunAll(Start(workers, capacity), steps))
  {
    if steps == [] {
      assert InHand(Start(workers, capacity).workers) == {} && Flying(Start(workers, capacity).submitters) == {};
    } else {
      RunKeepsInv(workers, capacity, steps[..|steps| - 1]);
      StepKeepsInv(RunAll(Start(workers, capacity), steps[..|steps| - 1]), steps[|steps| - 1]);
    }
  }

  /** When Shutdown has got the workers back, nothing is in anybody's hands, and what is left is in
      the queue; it is empty if one of the workers was not cancelled. */
  lemma ShutdownBalances(s: System)
    requires Inv(s) && s.closes > 0 && forall w :: w in s.workers ==> s.workers[w].Exited?
    ensures s.n.received == s.n.rejected + s.n.dropped + s.n.published + s.n.failed + |s.queue|
    ensures (exists w :: w in s.workers && s.workers[w] == Exited(false)) ==>
      s.n.received == s.n.rejected + s.n.dropped + s.n.published + s.n.failed
  {
    forall i | i in s.submitters
      ensures !InFlight(s.submitters[i])
    {
      assert SubmitterInv(s, i);
    }
    assert Flying(s.submitters) == {} && InHand(s.workers) == {};
  }

  lemma {:induction false} RunMovesOn(s: System, steps: seq<Step>)
    requires Inv(s)
    ensures Inv(RunAll(s, steps)) && MovesOn(s.last, RunAll(s, steps).last)
  {
    if steps != [] {
      RunMovesOn(s, steps[..|steps| - 1]);
      StepKeepsInv(RunAll(s, steps[..|steps| - 1]), steps[|steps| - 1]);
    }
  }

  /** However the CAS loops of concurrent submitters interleave, once a sample has been stored the
      map never again holds an older one of its drone. */
  lemma LastKnownIsNewest(s: System, steps: seq<Step>, id: nat)
    requires Inv(s) && id in s.submitters
      && (s.submitters[id].phase.Sending? || s.submitters[id].phase == Left(Accepted))
    ensures KnownSince(RunAll(s, steps).last, s.submitters[id].sample)
  {
    assert SubmitterInv(s, id);
    RunMovesOn(s, steps);
  }

  /** In every interleaving, however often Shutdown is called, the queue is closed at most once: who is
      about to close it finds it open, and who leaves it alone finds it closed. */
  lemma ClosedOnlyOnce(workers: nat, capacity: nat, steps: seq<Step>)
    ensures var s := RunAll(Start(workers, capacity), steps);
      s.closes <= 1 && (s.writer.Marked? ==> s.closes == if s.writer.already then 1 else 0)
  {
    RunKeepsInv(workers, capacity, steps);
  }

  // ---- Where the last known sample comes from ----

  /** The submitter is through with the map. */
  predicate Stored(v: Submitter) {
    v.phase.Sending? || v.phase == Left(Accepted) || v.phase == Left(QueueFull)
  }

  ghost predicate FromOne(s: System, d: string)
    requires d in s.last
  {
    exists i :: i in s.submitters && Stored(s.submitters[i]) && s.submitters[i].sample == s.last[d].sample
  }

  ghost predicate Origin(s: System) {
    forall d {:trigger FromOne(s, d)} :: d in s.last ==> FromOne(s, d)
  }

  lemma OnlySubmittersMove(s: System, step: Step)
    ensures WorkerStep(s, step).submitters == s.submitters && CloserStep(s, step).submitters == s.submitters
    ensures WorkerStep(s, step).last == s.last && CloserStep(s, step).last == s.last
  {
  }

  lemma SentStays(s: System, id: nat, i: nat)
    requires InPhase(s, id, Sending) && i in s.submitters && Stored(s.submitters[i])
    ensures i in DoSend(s, id).submitters && Stored(DoSend(s, id).submitters[i])
    ensures DoSend(s, id).submitters[i].sample == s.submitters[i].sample
  {
  }

  lemma StoredStays(s: System, step: Step, i: nat)
    requires i in s.submitters && Stored(s.submitters[i])
    ensures i in SubmitterStep(s, step).submitters && Stored(SubmitterStep(s, step).submitters[i])
    ensures SubmitterStep(s, step).submitters[i].sample == s.submitters[i].sample
  {
    if step.Send? {
      if InPhase(s, step.id, Sending) { SentStays(s, step.id, i); }
    } else {
      assert SubmitterStep(s, step).submitters[i] == s.submitters[i];
    }
  }

  lemma OnlySwapStores(s: System, step: Step, d: string)
    requires d in SubmitterStep(s, step).last && !(d in s.last && SubmitterStep(s, step).last[d] == s.last[d])
    ensures step.Swap? && step.id in SubmitterStep(s, step).submitters
    ensures Stored(SubmitterStep(s, step).submitters[step.id])
    ensures SubmitterStep(s, step).submitters[step.id].sample == SubmitterStep(s, step).last[d].sample
  {
  }

  lemma SubmitterStepKeepsOrigin(s: System, step: Step)
    requires Origin(s)
    ensures Origin(SubmitterStep(s, step))
  {
    var s' := SubmitterStep(s, step);
    forall d | d in s'.last
      ensures FromOne(s', d)
    {
      if d in s.last && s'.last[d] == s.last[d] {
        assert FromOne(s, d);
        var i :| i in s.submitters && Stored(s.submitters[i]) && s.submitters[i].sample == s.last[d].sample;
        StoredStays(s, step, i);
      } else {
        OnlySwapStores(s, step, d);
      }
    }
  }

  lemma OriginKept(s: System, step: Step)
    requires Origin(s)
    ensures Origin(Apply(s, step))
  {
    SubmitterStepKeepsOrigin(s, step);
    OnlySubmittersMove(s, step);
    var s' := Apply(s, step);
    if s'.last == s.last && s'.submitters == s.submitters {
      forall d | d in s'.last
        ensures FromOne(s', d)
      {
        assert FromOne(s, d);
      }
    }
  }

  lemma {:induction false} RunKeepsOrigin(workers: nat, capacity: nat, steps: seq<Step>)
    ensures Origin(RunAll(Start(workers, capacity), steps))
  {
    if steps != [] {
      RunKeepsOrigin(workers, capacity, steps[..|steps| - 1]);
      OriginKept(RunAll(Start(workers, capacity), steps[..|steps| - 1]), steps[|steps| - 1]);
    }
  }

  /** At every moment of every run: the last known sample of a drone is one that was submitted for
      it, and the newest of all those that have gone through the map. */
  lemma LastKnownIsTheNewest(workers: nat, capacity: nat, steps: seq<Step>, d: string)
    requires d in RunAll(Start(workers, capacity), steps).last
    ensures var s := RunAll(Start(workers, capacity), steps);
      && s.last[d].sample.droneID == d
      && FromOne(s, d)
      && forall j :: j in s.submitters && Stored(s.submitters[j]) && s.submitters[j].sample.droneID == d ==>
           s.submitters[j].sample.timestamp <= s.last[d].sample.timestamp
  {
    var s := RunAll(Start(workers, capacity), steps);
    RunKeepsInv(workers, capacity, steps);
    RunKeepsOrigin(workers, capacity, steps);
    forall j | j in s.submitters && Stored(s.submitters[j]) && s.submitters[j].sample.droneID == d
      ensures s.submitters[j].sample.timestamp <= s.last[d].sample.timestamp
    {
      assert SubmitterInv(s, j);
    }
  }
}
