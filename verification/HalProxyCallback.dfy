/** What happens to a sub-HAL's events before the proxy sees them. */
module HalProxyCallback {
  import opened Bits
  import opened SensorTypes
  import opened SensorInfos
  import opened Handles
  import EventQueue
  import opened HalProxySystem
  import HalProxy

  function TaggedEvent(e: Event, subHalIndex: nat): Event {
    e.(handle := SetSubHalIndex(e.handle, subHalIndex))
  }

  /** A pick-up gesture that reports anything but 1 is not an event at all. */
  predicate Ignored(sensors: map<Handle, SensorInfo>, e: Event) {
    e.handle in sensors && sensors[e.handle].kind == PICK_UP_GESTURE && e.scalar != 1.0
  }

  function Processed(sensors: map<Handle, SensorInfo>, subHalIndex: nat, events: seq<Event>): seq<Event> {
    if events == [] then []
    else
      var e := TaggedEvent(events[0], subHalIndex);
      (if Ignored(sensors, e) then [] else [e]) + Processed(sensors, subHalIndex, events[1..])
  }

  /** Processing keeps order and treats every event on its own. */
  lemma {:induction false} ProcessedConcat(sensors: map<Handle, SensorInfo>, i: nat, a: seq<Event>, b: seq<Event>)
    ensures Processed(sensors, i, a + b) == Processed(sensors, i, a) + Processed(sensors, i, b)
  {
    if a == [] {
      assert a + b == b;
    } else {
      assert (a + b)[1..] == a[1..] + b;
      ProcessedConcat(sensors, i, a[1..], b);
    }
  }

  /** Event by event, in order: the index goes into the handle and the payload stays; left out is exactly
      what then names a pick-up sensor, of type 25, and does not report 1. */
  lemma EventByEvent(sensors: map<Handle, SensorInfo>, i: nat, events: seq<Event>, x: Event)
    ensures var h, out := SetSubHalIndex(x.handle, i), Processed(sensors, i, events + [x]);
            && (h !in sensors || sensors[h].kind != 25 || x.scalar == 1.0 ==>
                  out == Processed(sensors, i, events) + [Event(h, x.scalar)])
            && (h in sensors && sensors[h].kind == 25 && x.scalar != 1.0 ==>
                  out == Processed(sensors, i, events))
    ensures Processed(sensors, i, []) == []
  {
    ProcessedConcat(sensors, i, events, [x]);
    assert [x][1..] == [];
  }

  /** Exactly the events that are no unconfirmed pick-up gestures come through, tagged. */
  lemma {:induction false} ComesThroughIff(sensors: map<Handle, SensorInfo>, i: nat, events: seq<Event>, e: Event)
    ensures e in Processed(sensors, i, events)
       <==> (e.handle !in sensors || sensors[e.handle].kind != PICK_UP_GESTURE || e.scalar == 1.0)
              && exists x :: x in events && TaggedEvent(x, i) == e
  {
    if events != [] {
      assert events[0] in events && forall x :: x in events <==> x == events[0] || x in events[1..];
      ComesThroughIff(sensors, i, events[1..], e);
    }
  }

  /** A sub-HAL whose handles are clear gets its own events back from those that carry its index. */
  lemma OwnEventsComeThroughIff(sensors: map<Handle, SensorInfo>, i: nat, events: seq<Event>, e: Event)
    requires i < 128 && forall x :: x in events ==> SubHalIndexIsClear(x.handle)
    ensures e in Processed(sensors, i, events)
       <==> !Ignored(sensors, e) && ExtractSubHalIndex(e.handle) == i
              && e.(handle := ClearSubHalIndex(e.handle)) in events
  {
    ComesThroughIff(sensors, i, events, e);
    forall x | x in events
      ensures TaggedEvent(x, i) == e
         <==> ExtractSubHalIndex(e.handle) == i && e.(handle := ClearSubHalIndex(e.handle)) == x
    {
      UntaggingUndoesTagging(x.handle, i);
      if ExtractSubHalIndex(e.handle) == i && ClearSubHalIndex(e.handle) == x.handle {
        assert e.handle == SetSubHalIndex(x.handle, i);
      }
    }
  }

  /** Nobody checks an event's top byte. All that a sub-HAL posts is taken for its own exactly if none
      of its handles that get through has a bit up there that its index lacks. */
  lemma SpeaksForItselfIff(sensors: map<Handle, SensorInfo>, i: nat, events: seq<Event>)
    requires i < SIZE_RANGE
    ensures (forall e :: e in Processed(sensors, i, events) ==> ExtractSubHalIndex(e.handle) == i)
       <==> (forall x :: x in events && !Ignored(sensors, TaggedEvent(x, i)) ==> Carries(x.handle, i))
  {
    forall x | x in events
      ensures !Ignored(sensors, TaggedEvent(x, i)) <==> TaggedEvent(x, i) in Processed(sensors, i, events)
      ensures Carries(x.handle, i) <==> ExtractSubHalIndex(TaggedEvent(x, i).handle) == i
    {
      ComesThroughIff(sensors, i, events, TaggedEvent(x, i));
      ExtractingGivesBackIff(x.handle, i);
    }
    forall e | e in Processed(sensors, i, events)
      ensures exists x :: x in events && TaggedEvent(x, i) == e
    {
      ComesThroughIff(sensors, i, events, e);
    }
  }

  /** Sub-HAL 1 posts a handle that is not clear, and the framework takes the event for one of sub-HAL
      3's sensors; if that one wakes the device up, a reference is counted for it. */
  lemma ForeignEvent(sensor: SensorInfo)
    requires IsWakeUp(sensor) && sensor.kind != PICK_UP_GESTURE
    ensures var sensors := map[0x0300_0007 := sensor];
            var out := Processed(sensors, 1, [Event(0x0200_0007, 1.0)]);
            && out == [Event(0x0300_0007, 1.0)]
            && ExtractSubHalIndex(out[0].handle) == 3
            && Wakeups(WakeHandles(sensors), out) == 1
  {
    assert Or(2, 1) == 3 by {
      assert Or(1, 0) == 1;
    }
    assert SetSubHalIndex(0x0200_0007, 1) == 0x0300_0007;
    assert [Event(0x0200_0007, 1.0)][1..] == [] && [Event(0x0300_0007, 1.0)][1..] == [];
  }

  /** The number of wake-up events is that of the events whose sensor is known and has flag 0 set. */
  lemma CountedEvents(sensors: map<Handle, SensorInfo>, events: seq<Event>)
    ensures Wakeups(WakeHandles(sensors), events)
         == |set k | 0 <= k < |events| && events[k].handle in sensors && 0 in sensors[events[k].handle].flags|
  {
    WakeupsIsCount(WakeHandles(sensors), events);
    assert (set k | 0 <= k < |events| && events[k].handle in sensors && 0 in sensors[events[k].handle].flags)
        == set k | 0 <= k < |events| && events[k].handle in WakeHandles(sensors);
  }

  /** A batch of nothing but unconfirmed pick-up gestures is posted as an empty one. */
  lemma {:induction false} AllIgnored(sensors: map<Handle, SensorInfo>, i: nat, events: seq<Event>)
    requires forall e :: e in events ==>
      var h := SetSubHalIndex(e.handle, i);
      h in sensors && sensors[h].kind == PICK_UP_GESTURE && e.scalar != 1.0
    ensures Processed(sensors, i, events) == []
  {
    if events != [] {
      assert events[0] in events;
      AllIgnored(sensors, i, events[1..]);
    }
  }

  class HalProxyCallback {
    const proxy: HalProxy.HalProxy
    const sensors: map<Handle, SensorInfo>
    const subHalIndex: nat

    constructor (proxy: HalProxy.HalProxy, sensors: map<Handle, SensorInfo>, subHalIndex: nat)
      ensures this.proxy == proxy && this.sensors == sensors && this.subHalIndex == subHalIndex
    {
      this.proxy, this.sensors, this.subHalIndex := proxy, sensors, subHalIndex;
    }

    method ProcessEvents(events: seq<Event>) returns (eventsOut: seq<Event>, numWakeupEvents: nat)
      ensures eventsOut == Processed(sensors, subHalIndex, events)
      ensures numWakeupEvents == Wakeups(WakeHandles(sensors), eventsOut)
    {
      eventsOut, numWakeupEvents := [], 0;
      for k := 0 to |events|
        invariant eventsOut == Processed(sensors, subHalIndex, events[..k])
        invariant numWakeupEvents == Wakeups(WakeHandles(sensors), eventsOut)
      {
        ProcessedConcat(sensors, subHalIndex, events[..k], [events[k]]);
        assert events[..k + 1] == events[..k] + [events[k]] && [events[k]][1..] == [];
        var event := TaggedEvent(events[k], subHalIndex);
        if event.handle in sensors {
          var sensor := sensors[event.handle];
          if sensor.kind == PICK_UP_GESTURE && event.scalar != 1.0 {
            continue;
          }
          if WAKE_UP in sensor.flags {
            numWakeupEvents := numWakeupEvents + 1;
          }
        }
        WakeupsConcat(WakeHandles(sensors), eventsOut, [event]);
        assert [event][1..] == [];
        eventsOut := eventsOut + [event];
      }
      assert events[..|events|] == events;
    }

    /** What the proxy receives is a post whose wake-up count is right. */
    method PostEvents(events: seq<Event>, locked: bool, writeOk: bool, now: int)
      requires EventQueue.Valid(proxy.QueueState()) && proxy.books.clock <= now
      requires proxy.wakeSensors == WakeHandles(sensors)
      modifies proxy
      ensures events == [] || !old(proxy.threadsRun) ==> proxy.State() == old(proxy.State())
      ensures events != [] && old(proxy.threadsRun) ==>
        var out := Processed(sensors, subHalIndex, events);
        proxy.State() == Next(old(proxy.State()), Post(out, Wakeups(proxy.wakeSensors, out), locked, writeOk, now))
    {
      if events == [] || !proxy.threadsRun {
        return;
      }
      var processedEvents, numWakeupEvents := ProcessEvents(events);
      proxy.PostEventsToMessageQueue(processedEvents, numWakeupEvents, locked, writeOk, now);
    }
  }
}
