/** The values the sensor multi-HAL passes around: handles, events and sensor descriptions. */
module SensorTypes {

  /** A sensor handle is a 32-bit word, read here as an unsigned number; its top byte names the sub-HAL
      the sensor belongs to. */
  newtype Handle = h: int | 0 <= h < 0x1_0000_0000

  /** A sensor event: the sensor it comes from and its payload's scalar view. */
  datatype Event = Event(handle: Handle, scalar: real)

  /** How many of the events come from sensors that advertise WAKE_UP. */
  function Wakeups(wake: set<Handle>, events: seq<Event>): nat {
    if events == [] then 0
    else (if events[0].handle in wake then 1 else 0) + Wakeups(wake, events[1..])
  }

  /** That is the number of places at which such an event stands. */
  lemma {:induction false} WakeupsIsCount(wake: set<Handle>, events: seq<Event>)
    ensures Wakeups(wake, events) == |set k | 0 <= k < |events| && events[k].handle in wake|
  {
    if events != [] {
      var n := |events| - 1;
      var init, places := events[..n], set k | 0 <= k < |events| && events[k].handle in wake;
      WakeupsSplit(wake, events, n);
      WakeupsIsCount(wake, init);
      assert events[n..] == [events[n]] && [events[n]][1..] == [];
      assert (set k | 0 <= k < |init| && init[k].handle in wake) == places - {n};
      assert events[n].handle in wake ==> n in places;
      assert events[n].handle !in wake ==> n !in places;
    }
  }

  lemma {:induction false} WakeupsConcat(wake: set<Handle>, a: seq<Event>, b: seq<Event>)
    ensures Wakeups(wake, a + b) == Wakeups(wake, a) + Wakeups(wake, b)
  {
    if a == [] {
      assert a + b == b;
    } else {
      assert (a + b)[1..] == a[1..] + b;
      WakeupsConcat(wake, a[1..], b);
    }
  }

  lemma WakeupsSplit(wake: set<Handle>, events: seq<Event>, n: nat)
    requires n <= |events|
    ensures Wakeups(wake, events) == Wakeups(wake, events[..n]) + Wakeups(wake, events[n..])
  {
    WakeupsConcat(wake, events[..n], events[n..]);
    assert events[..n] + events[n..] == events;
  }
}
