// The player loop of internal/replay/manager.go, on a status behind its own lock. It is proved to take
// steps of Replay.dfy.
module ReplayPlayer {
  import opened Replay

  function ActAll(r: Run, actions: seq<Action>): Run {
    if actions == [] then r else Act(ActAll(r, actions[..|actions| - 1]), actions[|actions| - 1])
  }

  lemma ActOnce(r: Run, actions: seq<Action>, action: Action)
    ensures ActAll(r, actions + [action]) == Act(ActAll(r, actions), action)
  {
    assert (actions + [action])[..|actions|] == actions;
  }

  lemma {:induction false} ActMore(r: Run, actions: seq<Action>, more: seq<Action>)
    ensures ActAll(r, actions + more) == ActAll(ActAll(r, actions), more)
  {
    if more == [] {
      assert actions + more == actions;
    } else {
      var some, last := more[..|more| - 1], more[|more| - 1];
      ActMore(r, actions, some);
      ActOnce(r, actions + some, last);
      ActOnce(ActAll(r, actions), some, last);
      assert more == some + [last];
      assert actions + more == (actions + some) + [last];
    }
  }

  lemma ActKeepsOffsets(r: Run, action: Action)
    ensures Act(r, action).offsets == r.offsets
  {
  }

  lemma {:induction false} ActAllKeepsOffsets(r: Run, actions: seq<Action>)
    ensures ActAll(r, actions).offsets == r.offsets
  {
    if actions != [] {
      ActAllKeepsOffsets(r, actions[..|actions| - 1]);
      ActKeepsOffsets(ActAll(r, actions[..|actions| - 1]), actions[|actions| - 1]);
    }
  }

  /** The status of one run, behind its own lock; cancelled stands for its context. The run on values is
      what the steps in trace have made of the first one. */
  class RunRecord {
    const id: string
    const total: nat
    var state: State
    var speed: real
    var paused: bool
    var published: nat
    var cancelled: bool
    ghost const first: Run
    ghost var trace: seq<Action>
    ghost var run: Run

    ghost predicate Shows(r: Run)
      reads this
    {
      state == r.state && speed == r.speed && paused == r.paused && published == r.published && cancelled == r.cancelled
    }

    ghost predicate Valid()
      reads this
    {
      Linked() && RunInv(run)
    }

    /** The fields show the run, and the trace explains it. */
    ghost predicate Linked()
      reads this
    {
      Shows(run) && run == ActAll(first, trace) && total == |run.offsets|
    }

    constructor (id: string, total: nat, speed: real, ghost offsets: seq<int>)
      requires LegalSpeed(speed) && offsets != [] && total == |offsets|
      ensures this.id == id && this.total == total && this.speed == speed
      ensures Valid() && run == first == NewRun(offsets, speed) && trace == []
    {
      this.id, this.total, this.speed := id, total, speed;
      state, paused, published, cancelled := State.Running, false, 0, false;
      first, trace, run := NewRun(offsets, speed), [], NewRun(offsets, speed);
      new;
      NewRunGood(offsets, speed);
    }

    /** The fields show one more step: here it is. */
    ghost method Note(action: Action)
      requires RunInv(run) && run == ActAll(first, trace) && total == |run.offsets| && Shows(Act(run, action))
      modifies this`trace, this`run
      ensures Valid() && run == Act(old(run), action) && trace == old(trace) + [action]
    {
      ActOnce(first, trace, action);
      ActKeepsOffsets(run, action);
      ActKeepsRunInv(run, action);
      Become(Act(run, action), trace + [action]);
    }

    ghost method Become(r: Run, actions: seq<Action>)
      requires Shows(r) && RunInv(r) && r == ActAll(first, actions) && total == |r.offsets|
      modifies this`trace, this`run
      ensures Valid() && run == r && trace == actions
    {
      trace, run := actions, r;
    }

    /** The player's last step. */
    method SetState(s: State, ghost action: Action)
      requires Valid() && Act(run, action) == Replay.SetState(run, s).(phase := Ended)
      modifies this`state, this`trace, this`run
      ensures Valid() && run == Act(old(run), action) && trace == old(trace) + [action]
    {
      if state.Running? {
        state := s;
      }
      Note(action);
    }

    method IncrementPublished()
      requires Valid() && run.phase.Tallying?
      modifies this`published, this`trace, this`run
      ensures Valid() && run == Act(old(run), Tally)
      ensures trace == old(trace) + [Tally]
    {
      published := published + 1;
      Note(Tally);
    }

    method SetSpeed(speed: real) returns (ok: bool)
      requires Valid() && LegalSpeed(speed)
      modifies this`speed, this`trace, this`run
      ensures Valid() && ok == old(run).state.Running? && run == Act(old(run), Action.SetSpeed(speed))
      ensures trace == old(trace) + [Action.SetSpeed(speed)]
    {
      ok := state.Running?;
      if ok {
        this.speed := speed;
      }
      Note(Action.SetSpeed(speed));
    }

    method SetPaused(paused: bool) returns (ok: bool)
      requires Valid()
      modifies this`paused, this`trace, this`run
      ensures Valid() && ok == old(run).state.Running? && run == Act(old(run), Action.SetPaused(paused))
      ensures trace == old(trace) + [Action.SetPaused(paused)]
    {
      ok := state.Running?;
      if ok {
        this.paused := paused;
      }
      Note(Action.SetPaused(paused));
    }

    method RequestCancel()
      requires Valid()
      modifies this`cancelled, this`trace, this`run
      ensures Valid() && run == Act(old(run), Action.Cancel)
      ensures trace == old(trace) + [Action.Cancel]
    {
      cancelled := true;
      Note(Action.Cancel);
    }

    /** The player's place in its loop. */
    ghost predicate At(phase: Phase, i: nat, cursor: int)
      reads this
    {
      Valid() && run.phase == phase && run.i == i && run.cursor == cursor
    }

    /** The player has not moved since. */
    ghost predicate SamePlace(r: Run)
      reads this
    {
      && Valid() && run.offsets == r.offsets && run.phase == r.phase && run.i == r.i && run.cursor == r.cursor
      && run.sent == r.sent && run.speeds == r.speeds && run.published == r.published && run.state == r.state
    }
  }

  class Counter {
    var samplesReplayed: nat
  }

  // ---- The player ----

  datatype Call = Faster(speed: real) | Hold(paused: bool) | Stop

  predicate LegalCall(c: Call) {
    c.Faster? ==> LegalSpeed(c.speed)
  }

  /** What a player meets at each moment: calls from outside, the answer of the publisher, whether the
      end of its context is noticed before the next tick, and the time. */
  datatype World = World(calls: nat -> seq<Call>, accepts: nat -> bool, notices: nat -> bool, clock: nat -> int)

  ghost predicate LegalWorld(w: World) {
    forall t: nat, c: Call :: c in w.calls(t) ==> LegalCall(c)
  }

  datatype Sample = Sample(droneID: string, timestamp: int, latitude: real, longitude: real, altitude: real)

  /** How far each sample is from the first one. */
  function OffsetsOf(samples: seq<Sample>): (offsets: seq<int>)
    ensures |offsets| == |samples|
    ensures forall k :: 0 <= k < |samples| ==> offsets[k] == samples[k].timestamp - samples[0].timestamp
  {
    seq(|samples|, k requires 0 <= k < |samples| => samples[k].timestamp - samples[0].timestamp)
  }

  /** The copy that goes out: under the replay's name, and now. */
  function AsReplayed(id: string, s: Sample, now: int): Sample {
    s.(droneID := id + "/" + s.droneID, timestamp := now)
  }

  /** What went out is the beginning of the history, in order. */
  ghost predicate Echoes(id: string, samples: seq<Sample>, out: seq<Sample>) {
    |out| <= |samples| && forall k :: 0 <= k < |out| ==> out[k] == AsReplayed(id, samples[k], out[k].timestamp)
  }

  /** What callers do to the status in the meantime. */
  method Meanwhile(active: RunRecord, calls: seq<Call>)
    requires active.Valid() && forall c :: c in calls ==> LegalCall(c)
    modifies active`speed, active`paused, active`cancelled, active`trace, active`run
    ensures active.SamePlace(old(active.run)) && old(active.trace) <= active.trace
  {
    for k := 0 to |calls|
      invariant active.SamePlace(old(active.run)) && old(active.trace) <= active.trace
    {
      var c := calls[k];
      assert c in calls;
      match c {
        case Faster(speed) => var changed := active.SetSpeed(speed);
        case Hold(paused) => var changed := active.SetPaused(paused);
        case Stop => active.RequestCancel();
      }
    }
  }

  /** One publication, if it is accepted. */
  method Offer(active: RunRecord, w: World, samples: seq<Sample>, i: nat, ghost cursor: int, t: nat, out0: seq<Sample>)
    returns (ok: bool, out: seq<Sample>)
    requires active.At(Publishing, i, cursor) && IsDue(active.run) && active.run.offsets == OffsetsOf(samples)
      && LegalWorld(w)
    requires Echoes(active.id, samples, out0) && |out0| == i
    modifies active`speed, active`paused, active`cancelled, active`state, active`trace, active`run
    ensures active.At(if ok then Tallying else Ended, i, cursor) && (!ok ==> active.run.state.Failed?)
    ensures Echoes(active.id, samples, out) && |out| == if ok then i + 1 else i
    ensures active.run.speeds == old(active.run.speeds) && active.run.offsets == old(active.run.offsets)
    ensures old(active.trace) <= active.trace
  {
    Meanwhile(active, w.calls(t));
    ok, out := w.accepts(t), out0;
    if !ok {
      active.SetState(Failed, Publish(false));
      return;
    }
    EchoNext(active.id, samples, out, w.clock(t));
    out := out + [AsReplayed(active.id, samples[i], w.clock(t))];
    active.Note(Publish(true));
  }

  lemma EchoNext(id: string, samples: seq<Sample>, out: seq<Sample>, now: int)
    requires Echoes(id, samples, out) && |out| < |samples|
    ensures Echoes(id, samples, out + [AsReplayed(id, samples[|out|], now)])
  {
  }

  /** The total grows after the status. */
  method AddToTotal(active: RunRecord, counter: Counter, ghost i: nat, ghost cursor: int)
    requires active.At(Counting, i, cursor)
    modifies counter, active`trace, active`run
    ensures active.At(Publishing, i + 1, cursor)
    ensures counter.samplesReplayed == old(counter.samplesReplayed) + 1
    ensures active.run.speeds == old(active.run.speeds) && active.run.offsets == old(active.run.offsets)
    ensures old(active.trace) <= active.trace
  {
    counter.samplesReplayed := counter.samplesReplayed + 1;
    active.Note(Count);
  }

  /** The two steps that count a publication; callers may come before each. */
  method CountSent(active: RunRecord, counter: Counter, w: World, t: nat, ghost i: nat, ghost cursor: int)
    requires active.At(Tallying, i, cursor) && LegalWorld(w)
    modifies counter, active`speed, active`paused, active`cancelled, active`published, active`trace, active`run
    ensures active.At(Publishing, i + 1, cursor)
    ensures counter.samplesReplayed == old(counter.samplesReplayed) + 1
    ensures active.run.speeds == old(active.run.speeds) && active.run.offsets == old(active.run.offsets)
    ensures old(active.trace) <= active.trace
  {
    Meanwhile(active, w.calls(t + 1));
    active.IncrementPublished();
    Meanwhile(active, w.calls(t + 2));
    AddToTotal(active, counter, i, cursor);
  }

  /** One turn of the inner loop. */
  method PublishNext(active: RunRecord, counter: Counter, w: World, samples: seq<Sample>, i: nat, ghost cursor: int,
                     t: nat, out0: seq<Sample>)
    returns (ok: bool, out: seq<Sample>)
    requires active.At(Publishing, i, cursor) && IsDue(active.run) && active.run.offsets == OffsetsOf(samples)
      && LegalWorld(w)
    requires Echoes(active.id, samples, out0) && |out0| == i
    modifies active, counter
    ensures active.At(if ok then Publishing else Ended, if ok then i + 1 else i, cursor)
      && (!ok ==> active.run.state.Failed?)
    ensures Echoes(active.id, samples, out) && |out| == active.run.i
    ensures counter.samplesReplayed == old(counter.samplesReplayed) + if ok then 1 else 0
    ensures active.run.speeds == old(active.run.speeds) && active.run.offsets == old(active.run.offsets)
    ensures old(active.trace) <= active.trace
  {
    ok, out := Offer(active, w, samples, i, cursor, t, out0);
    if ok {
      CountSent(active, counter, w, t, i, cursor);
    }
  }

  /** The inner loop: everything that is due goes out, in order, until one cannot be published. */
  method PublishDue(active: RunRecord, counter: Counter, w: World, samples: seq<Sample>, i0: nat, cursor: int, t0: nat,
                    out0: seq<Sample>)
    returns (i: nat, ok: bool, t: nat, out: seq<Sample>)
    requires samples != [] && active.At(Publishing, i0, cursor) && active.run.offsets == OffsetsOf(samples)
      && LegalWorld(w)
    requires Echoes(active.id, samples, out0) && |out0| == i0
    modifies active, counter
    ensures active.At(if ok then Publishing else Ended, i, cursor)
    ensures if ok then !IsDue(active.run) else active.run.state.Failed?
    ensures Echoes(active.id, samples, out) && |out| == i
    ensures counter.samplesReplayed - old(counter.samplesReplayed) == i - i0
    ensures active.run.speeds == old(active.run.speeds) && active.run.offsets == old(active.run.offsets)
    ensures old(active.trace) <= active.trace
  {
    i, ok, t, out := i0, true, t0, out0;
    var base := samples[0].timestamp;
    while i < |samples| && samples[i].timestamp - base <= cursor
      invariant active.At(Publishing, i, cursor) && active.run.offsets == OffsetsOf(samples)
      invariant Echoes(active.id, samples, out) && |out| == i
      invariant counter.samplesReplayed - old(counter.samplesReplayed) == i - i0
      invariant ok && active.run.speeds == old(active.run.speeds) && old(active.trace) <= active.trace
      decreases |samples| - i
    {
      ok, out := PublishNext(active, counter, w, samples, i, cursor, t, out);
      t := t + 3;
      if !ok {
        return;
      }
      i := i + 1;
    }
  }

  /** A player that has run out of due samples waits for the end of its context or a tick. */
  method Wait(active: RunRecord, w: World, cursor0: int, t: nat, ghost i: nat) returns (cursor: int, ended: bool)
    requires active.At(Waiting, i, cursor0) && LegalWorld(w)
    modifies active`speed, active`paused, active`cancelled, active`state, active`trace, active`run
    ensures active.At(if ended then Ended else Publishing, i, cursor)
    ensures active.run.published == old(active.run.published) && active.run.offsets == old(active.run.offsets)
    ensures |active.run.speeds| <= |old(active.run.speeds)| + 1 && old(active.trace) <= active.trace
  {
    cursor, ended := cursor0, false;
    Meanwhile(active, w.calls(t));
    if w.notices(t) && active.cancelled {
      active.SetState(Cancelled, Notice);
      return cursor, true;
    }
    cursor := TakeTick(active, cursor0, i);
  }

  /** A tick: speed and pause are read at once, and the cursor moves. */
  method TakeTick(active: RunRecord, cursor0: int, ghost i: nat) returns (cursor: int)
    requires active.At(Waiting, i, cursor0)
    modifies active`trace, active`run
    ensures active.At(Publishing, i, cursor)
    ensures active.run.published == old(active.run.published) && active.run.offsets == old(active.run.offsets)
    ensures |active.run.speeds| <= |old(active.run.speeds)| + 1 && old(active.trace) <= active.trace
  {
    cursor := cursor0;
    if !active.paused {
      cursor := cursor + Advance(active.speed);
    }
    active.Note(Tick);
  }

  /** play: from a new run to its end, or to the last of the given ticks. What it has published is the
      beginning of the history, in order, under the replay's name and nothing else changed; everything that has
      come due on the scaled clock, and nothing before. */
  method Play(active: RunRecord, counter: Counter, w: World, samples: seq<Sample>, ticks: nat)
    returns (out: seq<Sample>)
    requires samples != [] && active.Valid() && active.run == active.first == NewRun(OffsetsOf(samples), active.speed)
      && LegalWorld(w)
    modifies active, counter
    ensures active.Valid() && (active.run.phase.Ended? || (active.run.phase.Waiting? && |active.run.speeds| <= ticks))
    ensures Echoes(active.id, samples, out) && |out| == active.run.published
    ensures counter.samplesReplayed == old(counter.samplesReplayed) + |out| && old(active.trace) <= active.trace
    ensures forall k :: 0 <= k < |out| ==>
      && out[k].droneID == active.id + "/" + samples[k].droneID
      && out[k].latitude == samples[k].latitude && out[k].longitude == samples[k].longitude
      && out[k].altitude == samples[k].altitude
    ensures OnScaledTime(active.run, samples, |out|)
  {
    out := PlayLoop(active, counter, w, samples, ticks);
    ActAllKeepsOffsets(active.first, active.trace);
    IsOnScaledTime(active.run, samples, |out|);
  }

  /** The first n samples have gone out: all of them were due after these ticks, and while the player waits the
      next one is not. */
  ghost predicate OnScaledTime(r: Run, samples: seq<Sample>, n: nat) {
    && n <= |samples|
    && 50_000_000.0 * Plain(r.speeds) - |r.speeds| as real <= r.cursor as real <= 50_000_000.0 * Plain(r.speeds)
    && (forall k :: 0 <= k < n ==> samples[k].timestamp - samples[0].timestamp <= r.cursor)
    && (r.phase.Waiting? ==> n < |samples| && r.cursor < samples[n].timestamp - samples[0].timestamp)
  }

  lemma IsOnScaledTime(r: Run, samples: seq<Sample>, n: nat)
    requires RunInv(r) && r.offsets == OffsetsOf(samples) && n == r.published
    requires r.phase.Ended? || r.phase.Waiting?
    ensures OnScaledTime(r, samples, n)
  {
    SumIsScaledTime(r.speeds);
    forall k | 0 <= k < n
      ensures samples[k].timestamp - samples[0].timestamp <= r.cursor
    {
      assert InOrder(r, k);
    }
  }

  method PlayLoop(active: RunRecord, counter: Counter, w: World, samples: seq<Sample>, ticks: nat)
    returns (out: seq<Sample>)
    requires samples != [] && active.Valid() && active.run == active.first == NewRun(OffsetsOf(samples), active.speed)
      && LegalWorld(w)
    modifies active, counter
    ensures active.Valid() && (active.run.phase.Ended? || (active.run.phase.Waiting? && |active.run.speeds| <= ticks))
    ensures Echoes(active.id, samples, out) && |out| == active.run.published
    ensures counter.samplesReplayed == old(counter.samplesReplayed) + |out| && old(active.trace) <= active.trace
  {
    var i: nat, cursor: int, t: nat, n: nat := 0, 0, 0, 0;
    var ok, ended;
    out := [];
    while true
      invariant n <= ticks && active.At(Publishing, i, cursor) && active.run.offsets == OffsetsOf(samples)
      invariant Echoes(active.id, samples, out) && |out| == i && |active.run.speeds| <= n
      invariant counter.samplesReplayed == old(counter.samplesReplayed) + i && old(active.trace) <= active.trace
      decreases ticks - n
    {
      i, ok, t, out := PublishDue(active, counter, w, samples, i, cursor, t, out);
      if !ok {
        return;
      }
      active.Note(Rest);
      if i >= |samples| {
        break;
      }
      if n == ticks {
        return;
      }
      cursor, ended := Wait(active, w, cursor, t, i);
      t := t + 1;
      if ended {
        return;
      }
      n := n + 1;
    }
    Complete(active, w.calls(t));
  }

  method Complete(active: RunRecord, calls: seq<Call>)
    requires active.Valid() && active.run.phase.Finishing? && forall c :: c in calls ==> LegalCall(c)
    modifies active`speed, active`paused, active`cancelled, active`state, active`trace, active`run
    ensures active.Valid() && active.run.phase.Ended? && active.run.published == old(active.run.published)
    ensures old(active.trace) <= active.trace
  {
    Meanwhile(active, calls);
    active.SetState(Completed, Finish);
  }
}
