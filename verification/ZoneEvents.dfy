// What one accepted sample does to a drone's zone set, and what the stream of events that it
// causes says: the value side of internal/geofence/zonechecker.go.
module ZoneEvents {
  import Sets
  import ZoneIndex

  type Zone = ZoneIndex.Zone

  datatype Event = Entered(zone: Zone) | Exited(zone: Zone)

  /** The zone set of a sample: the last name given for each identifier. */
  function NamesOf(current: seq<Zone>): map<int, string> {
    if current == [] then map[]
    else
      var last := current[|current| - 1];
      NamesOf(current[..|current| - 1])[last.id := last.name]
  }

  /** The zones of the sample that the drone was not in before, one entry for each time they are listed. */
  function NewZones(before: map<int, string>, current: seq<Zone>): seq<Zone> {
    if current == [] then []
    else
      var last := current[|current| - 1];
      NewZones(before, current[..|current| - 1]) + if last.id in before then [] else [last]
  }

  /** The zones the drone was in before and is not in any more, in some order. */
  ghost predicate LeftZones(before: map<int, string>, after: map<int, string>, exited: seq<Zone>) {
    && (forall i, j :: 0 <= i < j < |exited| ==> exited[i].id != exited[j].id)
    && (forall i :: 0 <= i < |exited| ==> Left(before, after, exited[i]))
    && (forall id :: id in before && id !in after ==> ZoneIndex.Zone(id, before[id]) in exited)
  }

  predicate Left(before: map<int, string>, after: map<int, string>, zone: Zone) {
    zone.id in before && zone.id !in after && zone.name == before[zone.id]
  }

  /** No zone outside the old set is listed twice. A caller sees it from the index. */
  predicate NewIdsDistinct(before: map<int, string>, current: seq<Zone>) {
    forall i, j :: 0 <= i < j < |current| && current[i].id == current[j].id ==> current[i].id in before
  }

  lemma {:induction false} NamesOfExact(current: seq<Zone>, id: int)
    ensures id in NamesOf(current) <==> exists i :: 0 <= i < |current| && current[i].id == id
  {
    if current != [] {
      NamesOfExact(current[..|current| - 1], id);
    }
  }

  /** The name is the last one the sample gives. */
  lemma {:induction false} NamesOfLast(current: seq<Zone>, i: nat)
    requires i < |current| && forall j :: i < j < |current| ==> current[j].id != current[i].id
    ensures current[i].id in NamesOf(current) && NamesOf(current)[current[i].id] == current[i].name
  {
    var rest := current[..|current| - 1];
    if i < |rest| {
      assert forall j :: i < j < |rest| ==> rest[j] == current[j];
      NamesOfLast(rest, i);
    }
  }

  lemma {:induction false} NewZonesExact(before: map<int, string>, current: seq<Zone>, z: Zone)
    ensures z in NewZones(before, current) <==> z in current && z.id !in before
  {
    if current != [] {
      NewZonesExact(before, current[..|current| - 1], z);
      assert z in current <==> z in current[..|current| - 1] || z == current[|current| - 1];
    }
  }

  lemma DistinctOfPrefix(before: map<int, string>, current: seq<Zone>)
    requires current != []
    ensures var last, rest := current[|current| - 1], current[..|current| - 1];
      NewIdsDistinct(before, current) <==>
        NewIdsDistinct(before, rest) && (last.id in before || forall i :: 0 <= i < |rest| ==> rest[i].id != last.id)
  {
    var rest := current[..|current| - 1];
    assert forall i :: 0 <= i < |rest| ==> rest[i] == current[i];
  }

  /** As many zones are entered as the set gains, exactly when no new zone is listed twice; otherwise more. */
  lemma {:induction false} EnteredCount(before: map<int, string>, current: seq<Zone>)
    ensures |NewZones(before, current)| >= |NamesOf(current).Keys - before.Keys|
    ensures |NewZones(before, current)| == |NamesOf(current).Keys - before.Keys| <==> NewIdsDistinct(before, current)
  {
    if current != [] {
      var last, rest := current[|current| - 1], current[..|current| - 1];
      EnteredCount(before, rest);
      DistinctOfPrefix(before, current);
      NamesOfExact(rest, last.id);
      Sets.GainByOne(NamesOf(rest).Keys, before.Keys, last.id);
      assert NamesOf(current).Keys == NamesOf(rest).Keys + {last.id};
    }
  }

  lemma {:induction false} DistinctIdsCount(zones: seq<Zone>)
    requires forall i, j :: 0 <= i < j < |zones| ==> zones[i].id != zones[j].id
    ensures |set i | 0 <= i < |zones| :: zones[i].id| == |zones|
  {
    if zones != [] {
      var last, rest := zones[|zones| - 1], zones[..|zones| - 1];
      DistinctIdsCount(rest);
      assert (set i | 0 <= i < |zones| :: zones[i].id) == (set i | 0 <= i < |rest| :: rest[i].id) + {last.id};
    }
  }

  lemma ExitedCount(before: map<int, string>, after: map<int, string>, exited: seq<Zone>)
    requires LeftZones(before, after, exited)
    ensures |exited| == |before.Keys - after.Keys|
  {
    DistinctIdsCount(exited);
    var ids := set i | 0 <= i < |exited| :: exited[i].id;
    forall id
      ensures id in ids <==> id in before.Keys - after.Keys
    {
      if id in before && id !in after {
        var i :| 0 <= i < |exited| && exited[i] == ZoneIndex.Zone(id, before[id]);
      }
      if id in ids {
        var i :| 0 <= i < |exited| && exited[i].id == id;
        assert Left(before, after, exited[i]);
      }
    }
    assert ids == before.Keys - after.Keys;
  }

  /** Entered minus exited is what the zone set grows by, exactly when no new zone is listed twice. */
  lemma DiffBalances(before: map<int, string>, current: seq<Zone>, exited: seq<Zone>)
    requires LeftZones(before, NamesOf(current), exited)
    ensures |NewZones(before, current)| - |exited| == |NamesOf(current)| - |before| <==> NewIdsDistinct(before, current)
  {
    var after := NamesOf(current);
    EnteredCount(before, current);
    ExitedCount(before, after, exited);
    Sets.SizesAddUp(before.Keys, after.Keys);
    assert |after| == |after.Keys| && |before| == |before.Keys|;
  }

  // ---- The stream of events ----

  function EnteredEvents(zones: seq<Zone>): (events: seq<Event>)
    ensures |events| == |zones| && forall i :: 0 <= i < |zones| ==> events[i] == Entered(zones[i])
  {
    seq(|zones|, i requires 0 <= i < |zones| => Entered(zones[i]))
  }

  function ExitedEvents(zones: seq<Zone>): (events: seq<Event>)
    ensures |events| == |zones| && forall i :: 0 <= i < |zones| ==> events[i] == Exited(zones[i])
  {
    seq(|zones|, i requires 0 <= i < |zones| => Exited(zones[i]))
  }

  function After(zones: set<int>, event: Event): set<int> {
    if event.Entered? then zones + {event.zone.id} else zones - {event.zone.id}
  }

  /** The zone set that a listener who starts with zones arrives at. */
  function Replay(zones: set<int>, events: seq<Event>): set<int> {
    if events == [] then zones else After(Replay(zones, events[..|events| - 1]), events[|events| - 1])
  }

  /** Every event is news: one enters only what one is not in, and leaves only what one is in. */
  predicate Consistent(zones: set<int>, events: seq<Event>) {
    events == [] ||
    (var before, last := events[..|events| - 1], events[|events| - 1];
     Consistent(zones, before) && (last.Entered? <==> last.zone.id !in Replay(zones, before)))
  }

  lemma {:induction false} ReplayOfConcat(zones: set<int>, first: seq<Event>, second: seq<Event>)
    ensures Replay(zones, first + second) == Replay(Replay(zones, first), second)
    ensures Consistent(zones, first + second) <==> Consistent(zones, first) && Consistent(Replay(zones, first), second)
  {
    if second == [] {
      assert first + second == first;
    } else {
      assert (first + second)[..|first + second| - 1] == first + second[..|second| - 1];
      ReplayOfConcat(zones, first, second[..|second| - 1]);
    }
  }

  /** The events about one zone. */
  function About(events: seq<Event>, id: int): seq<Event> {
    if events == [] then []
    else
      var last := events[|events| - 1];
      About(events[..|events| - 1], id) + if last.zone.id == id then [last] else []
  }

  /** For each zone of a consistent stream that starts outside it, entering and leaving alternate,
      beginning with entering; and the drone is inside after an odd number of them. */
  lemma {:induction false} ConsistentAlternates(events: seq<Event>, id: int)
    requires Consistent({}, events)
    ensures forall i :: 0 <= i < |About(events, id)| ==> (About(events, id)[i].Entered? <==> i % 2 == 0)
    ensures id in Replay({}, events) <==> |About(events, id)| % 2 == 1
  {
    if events != [] {
      ConsistentAlternates(events[..|events| - 1], id);
    }
  }

  // The events of one sample: first the zones entered, then the zones left.

  lemma EnteredStep(before: map<int, string>, current: seq<Zone>)
    requires current != []
    ensures var last, rest := current[|current| - 1], current[..|current| - 1];
      EnteredEvents(NewZones(before, current))
        == EnteredEvents(NewZones(before, rest)) + if last.id in before then [] else [Entered(last)]
  {
  }

  lemma ReplayOne(zones: set<int>, events: seq<Event>, event: Event)
    ensures Replay(zones, events + [event]) == After(Replay(zones, events), event)
    ensures Consistent(zones, events + [event]) <==>
      Consistent(zones, events) && (event.Entered? <==> event.zone.id !in Replay(zones, events))
  {
    assert (events + [event])[..|events|] == events;
  }

  lemma ReplayEnteredStep(before: map<int, string>, current: seq<Zone>)
    requires current != []
    requires var rest := current[..|current| - 1];
      && Replay(before.Keys, EnteredEvents(NewZones(before, rest))) == before.Keys + NamesOf(rest).Keys
      && (Consistent(before.Keys, EnteredEvents(NewZones(before, rest))) <==> NewIdsDistinct(before, rest))
    ensures Replay(before.Keys, EnteredEvents(NewZones(before, current))) == before.Keys + NamesOf(current).Keys
    ensures Consistent(before.Keys, EnteredEvents(NewZones(before, current))) <==> NewIdsDistinct(before, current)
  {
    var last, rest := current[|current| - 1], current[..|current| - 1];
    EnteredStep(before, current);
    DistinctOfPrefix(before, current);
    NamesOfExact(rest, last.id);
    assert NamesOf(current).Keys == NamesOf(rest).Keys + {last.id};
    var events := EnteredEvents(NewZones(before, rest));
    if last.id in before {
      assert events + [] == events;
    } else {
      ReplayOne(before.Keys, events, Entered(last));
    }
  }

  lemma {:induction false} ReplayEntered(before: map<int, string>, current: seq<Zone>)
    ensures Replay(before.Keys, EnteredEvents(NewZones(before, current))) == before.Keys + NamesOf(current).Keys
    ensures Consistent(before.Keys, EnteredEvents(NewZones(before, current))) <==> NewIdsDistinct(before, current)
  {
    if current == [] {
      assert EnteredEvents(NewZones(before, current)) == [];
    } else {
      ReplayEntered(before, current[..|current| - 1]);
      ReplayEnteredStep(before, current);
    }
  }

  lemma {:induction false} ReplayExited(zones: set<int>, exited: seq<Zone>)
    requires forall i, j :: 0 <= i < j < |exited| ==> exited[i].id != exited[j].id
    requires forall i :: 0 <= i < |exited| ==> exited[i].id in zones
    ensures Replay(zones, ExitedEvents(exited)) == zones - set i | 0 <= i < |exited| :: exited[i].id
    ensures Consistent(zones, ExitedEvents(exited))
  {
    if exited == [] {
      assert ExitedEvents(exited) == [];
    } else {
      var rest := exited[..|exited| - 1];
      ReplayExited(zones, rest);
      var events := ExitedEvents(exited);
      assert events[..|events| - 1] == ExitedEvents(rest);
    }
  }

  /** The events of a sample take a listener from the old zone set to the new one, whatever the
      index lists; and each of them is news exactly when no new zone is listed twice. */
  lemma DiffIsFaithful(before: map<int, string>, current: seq<Zone>, exited: seq<Zone>)
    requires LeftZones(before, NamesOf(current), exited)
    ensures var events := EnteredEvents(NewZones(before, current)) + ExitedEvents(exited);
      && Replay(before.Keys, events) == NamesOf(current).Keys
      && (Consistent(before.Keys, events) <==> NewIdsDistinct(before, current))
  {
    var after := NamesOf(current);
    ReplayEntered(before, current);
    forall i | 0 <= i < |exited|
      ensures exited[i].id in before.Keys + after.Keys && exited[i].id !in after
    {
      assert Left(before, after, exited[i]);
    }
    ReplayExited(before.Keys + after.Keys, exited);
    ReplayOfConcat(before.Keys, EnteredEvents(NewZones(before, current)), ExitedEvents(exited));
    var gone := set i | 0 <= i < |exited| :: exited[i].id;
    forall id
      ensures id in before.Keys + after.Keys - gone <==> id in after.Keys
    {
      if id in before && id !in after {
        var i :| 0 <= i < |exited| && exited[i] == ZoneIndex.Zone(id, before[id]);
      }
    }
    assert before.Keys + after.Keys - gone == after.Keys;
  }
}
