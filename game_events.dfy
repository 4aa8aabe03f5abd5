/** The game-events exercise: events with an action and a time, and a
    timeline holding event pointers in the order they were added. */
module GameEvents {
  import Sequences
  import Uuid

  class GameEvent<T> {
    const action: string
    const time: T
    const id: string

    /** A new event: the given action and time, and a fresh version-4 UUID. */
    constructor (action: string, time: T, draws: seq<int>, variant: int)
      requires Uuid.ValidDraws(draws, variant)
      ensures GetAction() == action && GetTime() == time
      ensures id == Uuid.UuidText(draws, variant) && Uuid.IsUuidV4Text(id)
    {
      var text := Uuid.GenerateUuidV4(draws, variant);
      this.time := time;
      this.action := action;
      id := text;
    }

    function GetTime(): T {
      time
    }

    function GetAction(): string {
      action
    }
  }

  /** The events of a timeline whose time is t, in timeline order. */
  function AtTime<T(==)>(events: seq<GameEvent<T>>, t: T): seq<GameEvent<T>> {
    Sequences.Filter(events, (e: GameEvent<T>) => e.GetTime() == t)
  }

  /** AtTime selects exactly the events at time t, each as often as it is on
      the timeline, without reordering them. */
  lemma AtTimeSpec<T>(events: seq<GameEvent<T>>, t: T)
    ensures forall e :: e in AtTime(events, t) ==> e.GetTime() == t
    ensures forall e: GameEvent<T> :: e.GetTime() == t ==> multiset(AtTime(events, t))[e] == multiset(events)[e]
    ensures forall e: GameEvent<T> :: e.GetTime() != t ==> e !in AtTime(events, t)
    ensures Sequences.IsSubsequence(AtTime(events, t), events)
  {
    var keep := (e: GameEvent<T>) => e.GetTime() == t;
    forall e: GameEvent<T> ensures multiset(AtTime(events, t))[e] == if e.GetTime() == t then multiset(events)[e] else 0 {
      Sequences.FilterCount(events, keep, e);
    }
    Sequences.FilterIsSubsequence(events, keep);
  }

  /** One step of AtTime, as the loop of getEventsAtTime takes it. */
  lemma AtTimeCons<T>(events: seq<GameEvent<T>>, t: T)
    requires events != []
    ensures AtTime(events, t) == (if events[0].GetTime() == t then [events[0]] else []) + AtTime(events[1..], t)
  {
  }

  class GameTimeline<T(==)> {
    var events: seq<GameEvent<T>>

    constructor ()
      ensures events == []
    {
      events := [];
    }

    method AddEvent(event: GameEvent<T>)
      modifies this
      ensures events == old(events) + [event]
    {
      events := events + [event];
    }

    /** Erases every entry that is the same pointer as event. */
    method RemoveEvent(event: GameEvent<T>)
      modifies this
      ensures events == Sequences.RemoveAll(old(events), event)
    {
      var i := 0;
      while i < |events|
        invariant 0 <= i <= |events|
        invariant events[..i] + Sequences.RemoveAll(events[i..], event) == Sequences.RemoveAll(old(events), event)
        decreases |events| - i
      {
        Sequences.EraseStep(events, i, event);
        if event == events[i] {
          events := events[..i] + events[i + 1..];
        } else {
          i := i + 1;
        }
      }
      assert events[i..] == [];
    }

    /** The events whose time equals time, in timeline order; the timeline
        itself is not changed. */
    method GetEventsAtTime(time: T) returns (eventsToReturn: seq<GameEvent<T>>)
      ensures eventsToReturn == AtTime(events, time)
    {
      eventsToReturn := [];
      for i := 0 to |events|
        invariant eventsToReturn == AtTime(events[..i], time)
      {
        var event := events[i];
        Sequences.FilterAppend(events[..i], [event], (e: GameEvent<T>) => e.GetTime() == time);
        assert events[..i + 1] == events[..i] + [event];
        if event.GetTime() == time {
          eventsToReturn := eventsToReturn + [event];
        }
      }
      assert events[..|events|] == events;
    }
  }

  /** Removing the second of three events (times 10, 10, 20) leaves the
      first as the only event at time 10. */
  lemma RemoveSecondScenario(e1: GameEvent<int>, e2: GameEvent<int>, e3: GameEvent<int>)
    requires e1 != e2 && e3 != e2
    requires e1.GetTime() == 10 && e2.GetTime() == 10 && e3.GetTime() == 20
    ensures Sequences.RemoveAll([e1, e2, e3], e2) == [e1, e3]
    ensures AtTime([e1, e3], 10) == [e1]
  {
    var added := [e1, e2, e3];
    assert added[1..] == [e2, e3] && added[2..] == [e3] && added[3..] == [];
    Sequences.RemoveAllCons(added, e2);
    Sequences.RemoveAllCons(added[1..], e2);
    Sequences.RemoveAllCons(added[2..], e2);
    var kept := [e1, e3];
    assert kept[1..] == [e3] && kept[2..] == [];
    AtTimeCons(kept, 10);
    AtTimeCons(kept[1..], 10);
  }

  /** The run of main: events at 10, 10 and 20; removing the second leaves
      only the first at time 10. */
  method Demo(draws: seq<(seq<int>, int)>) returns (my10Events: seq<GameEvent<int>>)
    requires |draws| == 3 && Uuid.ValidDrawSets(draws)
    ensures |my10Events| == 1
    ensures my10Events[0].GetAction() == "some-action" && my10Events[0].GetTime() == 10
  {
    var timeline := new GameTimeline<int>();
    var event1 := new GameEvent("some-action", 10, draws[0].0, draws[0].1);
    var event2 := new GameEvent("othe-action", 10, draws[1].0, draws[1].1);
    var event3 := new GameEvent("more-one-action", 20, draws[2].0, draws[2].1);
    timeline.AddEvent(event1);
    timeline.AddEvent(event2);
    timeline.AddEvent(event3);
    assert timeline.events == [event1, event2, event3];
    timeline.RemoveEvent(event2);
    RemoveSecondScenario(event1, event2, event3);
    my10Events := timeline.GetEventsAtTime(10);
  }
}
