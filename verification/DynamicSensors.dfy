/** Dynamic sensors coming and going, and what the framework is told about it. A call changes the table
    under its lock and notifies the framework after it has let go of it. */
module DynamicSensors {
  import opened SensorTypes
  import opened SensorInfos
  import opened Handles

  datatype Notification = Connected(sensors: seq<SensorInfo>) | Disconnected(handles: seq<Handle>)

  /** A call that has let go of the table's lock and has yet to notify the framework. */
  datatype Call = Call(subHal: nat, note: Notification)

  /** outgoing lists those calls in the order in which they had the lock. */
  datatype Table = Table(sensors: map<Handle, SensorInfo>, outgoing: seq<Call>, told: seq<Notification>)

  const EMPTY := Table(map[], [], [])

  datatype Step =
    | Connect(added: seq<SensorInfo>, subHal: nat)
    | Disconnect(removed: seq<Handle>, subHal: nat)
    | Announce(i: nat)
    | Initialize

  function TaggedSensor(sensor: SensorInfo, subHal: nat): SensorInfo {
    sensor.(sensorHandle := SetSubHalIndex(sensor.sensorHandle, subHal))
  }

  /** The sensors of a connect call that are added and announced. */
  function Announced(added: seq<SensorInfo>, subHal: nat): seq<SensorInfo> {
    if added == [] then []
    else
      var init, last := added[..|added| - 1], added[|added| - 1];
      Announced(init, subHal) + if SubHalIndexIsClear(last.sensorHandle) then [TaggedSensor(last, subHal)] else []
  }

  function AddAll(sensors: map<Handle, SensorInfo>, added: seq<SensorInfo>): map<Handle, SensorInfo> {
    if added == [] then sensors
    else
      var last := added[|added| - 1];
      AddAll(sensors, added[..|added| - 1])[last.sensorHandle := last]
  }

  /** The handles of a disconnect call that were there: a repeated one counts only once. */
  function Withdrawn(keys: set<Handle>, removed: seq<Handle>, subHal: nat): seq<Handle> {
    if removed == [] then []
    else
      var before := Withdrawn(keys, removed[..|removed| - 1], subHal);
      var h := SetSubHalIndex(removed[|removed| - 1], subHal);
      if SubHalIndexIsClear(removed[|removed| - 1]) && h in keys && h !in before then before + [h] else before
  }

  function Elements(handles: seq<Handle>): set<Handle> {
    set h | h in handles
  }

  /** The lock is held while the table changes and not while the framework is told. Initialising
      replaces the table and the framework's end. */
  function Next(t: Table, step: Step): Table {
    match step
    case Connect(added, subHal) =>
      var announced := Announced(added, subHal);
      t.(sensors := AddAll(t.sensors, announced), outgoing := t.outgoing + [Call(subHal, Connected(announced))])
    case Disconnect(removed, subHal) =>
      var withdrawn := Withdrawn(t.sensors.Keys, removed, subHal);
      t.(sensors := t.sensors - Elements(withdrawn),
         outgoing := t.outgoing + [Call(subHal, Disconnected(withdrawn))])
    case Announce(i) =>
      if i >= |t.outgoing| then t
      else t.(outgoing := t.outgoing[..i] + t.outgoing[i + 1..], told := t.told + [t.outgoing[i].note])
    case Initialize => t.(sensors := map[], told := [])
  }

  function Run(steps: seq<Step>): Table {
    if steps == [] then EMPTY else Next(Run(steps[..|steps| - 1]), steps[|steps| - 1])
  }

  // ---------------------------------------------------------------- the framework's picture

  function HandlesOf(sensors: seq<SensorInfo>): set<Handle> {
    set s | s in sensors :: s.sensorHandle
  }

  /** What somebody who starts with nothing and believes every notification thinks is connected. */
  function Replay(told: seq<Notification>): set<Handle> {
    if told == [] then {}
    else
      var before := Replay(told[..|told| - 1]);
      match told[|told| - 1]
      case Connected(sensors) => before + HandlesOf(sensors)
      case Disconnected(handles) => before - Elements(handles)
  }

  /** The sensors of a list whose handle's top byte is clear, in order. */
  function Clear(added: seq<SensorInfo>): seq<SensorInfo> {
    if added == [] then []
    else
      var last := added[|added| - 1];
      Clear(added[..|added| - 1]) + if TopByte(last.sensorHandle) == 0 then [last] else []
  }

  /** A connect call announces exactly those, in order, each under its tagged handle and else as it is. */
  lemma {:induction false} AnnouncedAre(added: seq<SensorInfo>, subHal: nat)
    ensures var announced, clear := Announced(added, subHal), Clear(added);
            && |announced| == |clear|
            && forall k :: 0 <= k < |clear| ==>
                 announced[k] == clear[k].(sensorHandle := SetSubHalIndex(clear[k].sensorHandle, subHal))
  {
    if added != [] {
      AnnouncedAre(added[..|added| - 1], subHal);
    }
  }

  /** And those are on record after it, under each of their handles the last one with that handle; what
      is on record under other handles stays. */
  lemma {:induction false} RecordedAre(sensors: map<Handle, SensorInfo>, added: seq<SensorInfo>, k: nat)
    requires k < |added|
    requires forall j :: k < j < |added| ==> added[j].sensorHandle != added[k].sensorHandle
    ensures var h := added[k].sensorHandle;
            h in AddAll(sensors, added) && AddAll(sensors, added)[h] == added[k]
  {
    var n := |added| - 1;
    if k < n {
      RecordedAre(sensors, added[..n], k);
    }
  }

  lemma {:induction false} AddAllKeys(sensors: map<Handle, SensorInfo>, added: seq<SensorInfo>)
    ensures AddAll(sensors, added).Keys == sensors.Keys + HandlesOf(added)
  {
    if added != [] {
      var init, last := added[..|added| - 1], added[|added| - 1];
      AddAllKeys(sensors, init);
      assert HandlesOf(added) == HandlesOf(init) + {last.sensorHandle} by {
        assert added == init + [last];
        forall s | s in added ensures s.sensorHandle in HandlesOf(init) + {last.sensorHandle} {
          assert s in init || s == last;
        }
      }
    }
  }

  lemma ReplayAppend(told: seq<Notification>, n: Notification)
    ensures n.Connected? ==> Replay(told + [n]) == Replay(told) + HandlesOf(n.sensors)
    ensures n.Disconnected? ==> Replay(told + [n]) == Replay(told) - Elements(n.handles)
  {
    assert (told + [n])[..|told|] == told;
  }

  function Mentioned(n: Notification): set<Handle> {
    match n
    case Connected(sensors) => HandlesOf(sensors)
    case Disconnected(handles) => Elements(handles)
  }

  /** The last notification that mentions a handle says whether it is there. */
  datatype Word = Silent | Said(there: bool)

  function LastWord(told: seq<Notification>, h: Handle): Word {
    if told == [] then Silent
    else if h in Mentioned(told[|told| - 1]) then Said(told[|told| - 1].Connected?)
    else LastWord(told[..|told| - 1], h)
  }

  lemma {:induction false} LastWordDecides(told: seq<Notification>, h: Handle)
    ensures h in Replay(told) <==> LastWord(told, h) == Said(true)
  {
    if told != [] {
      LastWordDecides(told[..|told| - 1], h);
    }
  }

  lemma {:induction false} LastWordConcat(a: seq<Notification>, b: seq<Notification>, h: Handle)
    ensures LastWord(a + b, h) == if LastWord(b, h).Silent? then LastWord(a, h) else LastWord(b, h)
  {
    if b == [] {
      assert a + b == a;
    } else {
      assert (a + b)[..|a + b| - 1] == a + b[..|b| - 1];
      LastWordConcat(a, b[..|b| - 1], h);
    }
  }

  function Notes(calls: seq<Call>): seq<Notification> {
    seq(|calls|, k requires 0 <= k < |calls| => calls[k].note)
  }

  /** Once told what is still on its way, in the order of the calls, the framework knows the table. */
  predicate WillAgree(t: Table) {
    Replay(t.told + Notes(t.outgoing)) == t.sensors.Keys
  }

  /** Announcing call i now reverses what is said last about a handle: an earlier call has yet to say
      the opposite, and no later one will mention the handle. */
  predicate Reverses(calls: seq<Call>, i: nat, h: Handle)
    requires i < |calls|
  {
    && h in Mentioned(calls[i].note)
    && LastWord(Notes(calls[..i]), h) == Said(!calls[i].note.Connected?)
    && LastWord(Notes(calls[i + 1..]), h).Silent?
  }

  lemma WordAfterAnnouncing(told: seq<Notification>, calls: seq<Call>, i: nat, h: Handle)
    requires i < |calls|
    ensures var before := LastWord(told + Notes(calls), h);
            var after := LastWord(told + [calls[i].note] + Notes(calls[..i] + calls[i + 1..]), h);
            (before == Said(true) <==> after == Said(true)) <==> !Reverses(calls, i, h)
  {
    var n, earlier, later := calls[i].note, Notes(calls[..i]), Notes(calls[i + 1..]);
    assert Notes(calls) == earlier + [n] + later;
    assert Notes(calls[..i] + calls[i + 1..]) == earlier + later;
    assert [n][..0] == [];
    LastWordConcat(told, earlier + [n] + later, h);
    LastWordConcat(earlier + [n], later, h);
    LastWordConcat(earlier, [n], h);
    LastWordConcat(told + [n], earlier + later, h);
    LastWordConcat(told, [n], h);
    LastWordConcat(earlier, later, h);
  }

  lemma AnnounceKeepsIff(t: Table, i: nat)
    requires WillAgree(t) && i < |t.outgoing|
    ensures WillAgree(Next(t, Announce(i))) <==> forall h :: !Reverses(t.outgoing, i, h)
  {
    var r := Next(t, Announce(i));
    forall h
      ensures !Reverses(t.outgoing, i, h)
         <==> (h in Replay(r.told + Notes(r.outgoing)) <==> h in t.sensors.Keys)
    {
      WordAfterAnnouncing(t.told, t.outgoing, i, h);
      LastWordDecides(t.told + Notes(t.outgoing), h);
      LastWordDecides(r.told + Notes(r.outgoing), h);
    }
  }

  lemma CallKeeps(t: Table, step: Step)
    requires WillAgree(t) && (step.Connect? || step.Disconnect?)
    ensures WillAgree(Next(t, step))
  {
    var r := Next(t, step);
    var before, n := t.told + Notes(t.outgoing), r.outgoing[|t.outgoing|].note;
    assert r.told + Notes(r.outgoing) == before + [n];
    assert (before + [n])[..|before|] == before;
    if step.Connect? {
      AddAllKeys(t.sensors, Announced(step.added, step.subHal));
    }
  }

  /** Step by step: the framework is going to know the table exactly unless an announcement reverses
      what is said last about a handle, or an initialisation leaves a connection to be announced. */
  lemma AgreesIff(t: Table, step: Step)
    requires WillAgree(t)
    ensures WillAgree(Next(t, step))
       <==> match step
            case Announce(i) => i < |t.outgoing| ==> forall h :: !Reverses(t.outgoing, i, h)
            case Initialize => Replay(Notes(t.outgoing)) == {}
            case _ => true
  {
    match step
    case Announce(i) =>
      if i < |t.outgoing| {
        AnnounceKeepsIff(t, i);
      }
    case Initialize => assert [] + Notes(t.outgoing) == Notes(t.outgoing);
    case _ => CallKeeps(t, step);
  }

  // ---------------------------------------------------------------- whole runs

  /** Calls of one sub-HAL are announced in the order in which they had the lock, as they are if it makes
      one at a time; there are at most 128 sub-HALs; and nothing is on its way at an initialisation. */
  predicate InTurn(t: Table, step: Step) {
    match step
    case Announce(i) =>
      i < |t.outgoing| ==> forall j :: 0 <= j < i ==> t.outgoing[j].subHal != t.outgoing[i].subHal
    case Initialize => t.outgoing == []
    case _ => step.subHal < 128
  }

  predicate AllInTurn(steps: seq<Step>) {
    steps != [] ==>
      && AllInTurn(steps[..|steps| - 1])
      && InTurn(Run(steps[..|steps| - 1]), steps[|steps| - 1])
  }

  /** A call mentions only its own sub-HAL's handles. */
  predicate SpeaksForItself(c: Call) {
    c.subHal < 128 && forall h :: h in Mentioned(c.note) ==> ExtractSubHalIndex(h) == c.subHal
  }

  lemma {:induction false} OthersAreSilent(calls: seq<Call>, h: Handle)
    requires forall c :: c in calls ==> SpeaksForItself(c) && c.subHal != ExtractSubHalIndex(h)
    ensures LastWord(Notes(calls), h) == Silent
  {
    if calls != [] {
      var init, last := calls[..|calls| - 1], calls[|calls| - 1];
      assert last in calls && Notes(calls)[..|calls| - 1] == Notes(init);
      OthersAreSilent(init, h);
    }
  }

  lemma StepSpeaks(t: Table, step: Step)
    requires InTurn(t, step) && forall c :: c in t.outgoing ==> SpeaksForItself(c)
    ensures forall c :: c in Next(t, step).outgoing ==> SpeaksForItself(c)
  {
    match step
    case Connect(added, subHal) =>
      AnnouncedIndex(added, subHal);
      assert SpeaksForItself(Call(subHal, Connected(Announced(added, subHal))));
    case Disconnect(removed, subHal) =>
      var withdrawn := Withdrawn(t.sensors.Keys, removed, subHal);
      forall h | h in withdrawn
        ensures ExtractSubHalIndex(h) == subHal
      {
        WithdrawnIff(t.sensors.Keys, removed, subHal, h);
        var r :| r in removed && SubHalIndexIsClear(r) && h == SetSubHalIndex(r, subHal);
        UntaggingUndoesTagging(r, subHal);
      }
      assert SpeaksForItself(Call(subHal, Disconnected(withdrawn)));
    case _ =>
  }

  lemma StepAgrees(t: Table, step: Step)
    requires WillAgree(t) && InTurn(t, step) && forall c :: c in t.outgoing ==> SpeaksForItself(c)
    ensures WillAgree(Next(t, step))
  {
    AgreesIff(t, step);
    if step.Announce? && step.i < |t.outgoing| {
      forall h | h in Mentioned(t.outgoing[step.i].note)
        ensures !Reverses(t.outgoing, step.i, h)
      {
        assert SpeaksForItself(t.outgoing[step.i]);
        OthersAreSilent(t.outgoing[..step.i], h);
      }
    }
  }

  lemma {:induction false} AlwaysAgrees(steps: seq<Step>)
    requires AllInTurn(steps)
    ensures WillAgree(Run(steps)) && forall c :: c in Run(steps).outgoing ==> SpeaksForItself(c)
  {
    if steps != [] {
      var t := Run(steps[..|steps| - 1]);
      AlwaysAgrees(steps[..|steps| - 1]);
      StepSpeaks(t, steps[|steps| - 1]);
      StepAgrees(t, steps[|steps| - 1]);
    }
  }

  /** In every such run, however the calls of different sub-HALs overtake each other, replaying the
      notifications gives exactly the handles the proxy has on record, but for those of a sub-HAL that
      is in the middle of a call. */
  lemma ReplayIsTable(steps: seq<Step>, h: Handle)
    requires AllInTurn(steps)
    requires forall c :: c in Run(steps).outgoing ==> c.subHal != ExtractSubHalIndex(h)
    ensures h in Replay(Run(steps).told) <==> h in Run(steps).sensors
  {
    var t := Run(steps);
    AlwaysAgrees(steps);
    OthersAreSilent(t.outgoing, h);
    LastWordConcat(t.told, Notes(t.outgoing), h);
    LastWordDecides(t.told + Notes(t.outgoing), h);
    LastWordDecides(t.told, h);
  }

  lemma RunAppend(steps: seq<Step>, step: Step)
    ensures Run(steps + [step]) == Next(Run(steps), step)
  {
    assert (steps + [step])[..|steps|] == steps;
  }

  lemma OneConnected(sensor: SensorInfo)
    requires SubHalIndexIsClear(sensor.sensorHandle)
    ensures Next(EMPTY, Connect([sensor], 0))
         == Table(map[sensor.sensorHandle := sensor], [Call(0, Connected([sensor]))], [])
  {
    UntaggingUndoesTagging(sensor.sensorHandle, 0);
    assert [sensor][..0] == [] && TaggedSensor(sensor, 0) == sensor;
    assert Announced([sensor], 0) == [sensor];
    assert AddAll(map[], [sensor]) == map[sensor.sensorHandle := sensor];
  }

  lemma OneWithdrawn(t: Table, h: Handle)
    requires SubHalIndexIsClear(h) && t.sensors.Keys == {h}
    ensures Next(t, Disconnect([h], 0)) == t.(sensors := map[], outgoing := t.outgoing + [Call(0, Disconnected([h]))])
  {
    UntaggingUndoesTagging(h, 0);
    assert [h][..0] == [] && Withdrawn({h}, [h], 0) == [h];
  }

  lemma SecondThenFirst(x: Call, y: Call)
    ensures Next(Next(Table(map[], [x] + [y], []), Announce(1)), Announce(0)) == Table(map[], [], [y.note] + [x.note])
  {
    assert ([x] + [y])[..1] + ([x] + [y])[2..] == [x];
    assert Next(Table(map[], [x] + [y], []), Announce(1)) == Table(map[], [x], [y.note]);
    assert [x][..0] + [x][1..] == [];
  }

  lemma LateConnection(sensor: SensorInfo)
    ensures sensor.sensorHandle in Replay([Disconnected([sensor.sensorHandle])] + [Connected([sensor])])
  {
    ReplayAppend([Disconnected([sensor.sensorHandle])], Connected([sensor]));
    assert sensor in [sensor];
  }

  lemma FourSteps(a: Step, b: Step, c: Step, d: Step)
    ensures Run([a] + [b] + [c] + [d]) == Next(Next(Next(Next(EMPTY, a), b), c), d)
  {
    RunAppend([], a);
    RunAppend([a], b);
    RunAppend([a] + [b], c);
    RunAppend([a] + [b] + [c], d);
    assert [] + [a] == [a];
  }

  /** One sub-HAL connects a sensor and withdraws it, and the withdrawal is announced first: from then on
      the framework believes in a sensor that is not there. */
  lemma AnnouncedOutOfOrder(sensor: SensorInfo)
    requires SubHalIndexIsClear(sensor.sensorHandle)
    ensures var h := sensor.sensorHandle;
            var t := Run([Connect([sensor], 0)] + [Disconnect([h], 0)] + [Announce(1)] + [Announce(0)]);
            t.outgoing == [] && h !in t.sensors && h in Replay(t.told)
  {
    var h := sensor.sensorHandle;
    FourSteps(Connect([sensor], 0), Disconnect([h], 0), Announce(1), Announce(0));
    OneConnected(sensor);
    OneWithdrawn(Table(map[h := sensor], [Call(0, Connected([sensor]))], []), h);
    SecondThenFirst(Call(0, Connected([sensor])), Call(0, Disconnected([h])));
    LateConnection(sensor);
  }

  /** The framework is told about exactly the sensors that go, each once, in the order they are named. */
  lemma {:induction false} WithdrawnIff(keys: set<Handle>, removed: seq<Handle>, subHal: nat, h: Handle)
    ensures var w := Withdrawn(keys, removed, subHal);
            && (forall i, j :: 0 <= i < j < |w| ==> w[i] != w[j])
            && (removed != [] ==> Withdrawn(keys, removed[..|removed| - 1], subHal) <= w)
            && (h in w <==>
                  h in keys && exists r :: r in removed && SubHalIndexIsClear(r) && h == SetSubHalIndex(r, subHal))
  {
    if removed != [] {
      var init, last := removed[..|removed| - 1], removed[|removed| - 1];
      WithdrawnIff(keys, init, subHal, h);
      assert removed == init + [last];
      assert forall r :: r in removed <==> r in init || r == last;
    }
  }

  /** One sub-HAL's calls never touch another one's sensors. */
  lemma {:induction false} OthersStay(t: Table, step: Step, h: Handle)
    requires (step.Connect? || step.Disconnect?) && step.subHal < 128 && ExtractSubHalIndex(h) != step.subHal
    ensures h in Next(t, step).sensors <==> h in t.sensors
    ensures h in t.sensors ==> Next(t, step).sensors[h] == t.sensors[h]
  {
    if step.Disconnect? {
      WithdrawnIff(t.sensors.Keys, step.removed, step.subHal, h);
      forall r | r in step.removed && SubHalIndexIsClear(r)
        ensures h != SetSubHalIndex(r, step.subHal)
      {
        UntaggingUndoesTagging(r, step.subHal);
      }
    } else {
      AnnouncedIndex(step.added, step.subHal);
      AddOthers(t.sensors, Announced(step.added, step.subHal), h);
    }
  }

  lemma {:induction false} AnnouncedIndex(added: seq<SensorInfo>, subHal: nat)
    requires subHal < 128
    ensures forall s :: s in Announced(added, subHal) ==> ExtractSubHalIndex(s.sensorHandle) == subHal
  {
    if added != [] {
      AnnouncedIndex(added[..|added| - 1], subHal);
      var last := added[|added| - 1];
      if SubHalIndexIsClear(last.sensorHandle) {
        UntaggingUndoesTagging(last.sensorHandle, subHal);
      }
    }
  }

  lemma {:induction false} AddOthers(sensors: map<Handle, SensorInfo>, added: seq<SensorInfo>, h: Handle)
    requires forall s :: s in added ==> s.sensorHandle != h
    ensures h in AddAll(sensors, added) <==> h in sensors
    ensures h in sensors ==> AddAll(sensors, added)[h] == sensors[h]
  {
    if added != [] {
      assert added[|added| - 1] in added;
      AddOthers(sensors, added[..|added| - 1], h);
    }
  }

  // ---------------------------------------------------------------- the proxy's member

  class DynamicSensorTable {
    var dynamicSensors: map<Handle, SensorInfo>
    var outgoing: seq<Call>
    ghost var told: seq<Notification>

    ghost function State(): Table
      reads this
    {
      Table(dynamicSensors, outgoing, told)
    }

    constructor ()
      ensures State() == EMPTY
    {
      dynamicSensors, outgoing, told := map[], [], [];
    }

    /** Up to where the lock is released. */
    method OnDynamicSensorsConnected(added: seq<SensorInfo>, subHalIndex: nat) returns (sensors: seq<SensorInfo>)
      modifies this
      ensures State() == Next(old(State()), Connect(added, subHalIndex))
      ensures outgoing == old(outgoing) + [Call(subHalIndex, Connected(sensors))]
    {
      sensors := [];
      for i := 0 to |added|
        invariant sensors == Announced(added[..i], subHalIndex)
        invariant dynamicSensors == AddAll(old(dynamicSensors), sensors)
        invariant told == old(told) && outgoing == old(outgoing)
      {
        assert added[..i + 1][..i] == added[..i];
        if SubHalIndexIsClear(added[i].sensorHandle) {
          var sensor := TaggedSensor(added[i], subHalIndex);
          dynamicSensors := dynamicSensors[sensor.sensorHandle := sensor];
          assert (sensors + [sensor])[..|sensors|] == sensors;
          sensors := sensors + [sensor];
        }
      }
      assert added[..|added|] == added;
      outgoing := outgoing + [Call(subHalIndex, Connected(sensors))];
    }

    /** Up to where the lock is released. */
    method OnDynamicSensorsDisconnected(removed: seq<Handle>, subHalIndex: nat) returns (handles: seq<Handle>)
      modifies this
      ensures State() == Next(old(State()), Disconnect(removed, subHalIndex))
      ensures outgoing == old(outgoing) + [Call(subHalIndex, Disconnected(handles))]
    {
      handles := [];
      for i := 0 to |removed|
        invariant handles == Withdrawn(old(dynamicSensors).Keys, removed[..i], subHalIndex)
        invariant dynamicSensors == old(dynamicSensors) - Elements(handles)
        invariant told == old(told) && outgoing == old(outgoing)
      {
        assert removed[..i + 1][..i] == removed[..i];
        if SubHalIndexIsClear(removed[i]) {
          var sensorHandle := SetSubHalIndex(removed[i], subHalIndex);
          if sensorHandle in dynamicSensors {
            dynamicSensors := dynamicSensors - {sensorHandle};
            assert Elements(handles + [sensorHandle]) == Elements(handles) + {sensorHandle};
            handles := handles + [sensorHandle];
          }
        }
      }
      assert removed[..|removed|] == removed;
      outgoing := outgoing + [Call(subHalIndex, Disconnected(handles))];
    }

    /** The rest of either call, without the lock. */
    method NotifyFramework(i: nat)
      requires i < |outgoing|
      modifies this
      ensures State() == Next(old(State()), Announce(i))
    {
      told := told + [outgoing[i].note];
      outgoing := outgoing[..i] + outgoing[i + 1..];
    }

    method Clear()
      modifies this
      ensures State() == Next(old(State()), Initialize)
    {
      dynamicSensors, told := map[], [];
    }
  }
}
