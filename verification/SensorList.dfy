/** How the proxy builds its sensor list from those of its sub-HALs, and picks the one sub-HAL that
    may offer direct channels. */
module SensorList {
  import opened Common
  import opened SensorTypes
  import opened SensorInfos
  import opened Handles

  /** One sensor as one sub-HAL lists it. */
  datatype Listing = Listing(subHal: nat, sensor: SensorInfo)

  datatype Registry = Registry(sensors: map<Handle, SensorInfo>, directChannelSubHal: Option<nat>)

  const WRIST_TILT := "android.sensor.wrist_tilt_gesture"
  const PICK_UP := "android.sensor.pick_up_gesture"

  function Key(e: Listing): Handle {
    SetSubHalIndex(e.sensor.sensorHandle, e.subHal)
  }

  predicate Accepted(e: Listing) {
    SubHalIndexIsClear(e.sensor.sensorHandle)
  }

  predicate OffersDirect(sensor: SensorInfo) {
    sensor.flags * MASK_DIRECT != {}
  }

  function Patched(sensor: SensorInfo): SensorInfo {
    if sensor.typeAsString == WRIST_TILT
    then sensor.(kind := PICK_UP_GESTURE, typeAsString := PICK_UP) else sensor
  }

  function Choose(chosen: Option<nat>, e: Listing): Option<nat> {
    if chosen.None? && OffersDirect(e.sensor) then Some(e.subHal) else chosen
  }

  /** The sensor as the framework gets to see it, given the sub-HAL chosen for direct channels. */
  function Published(chosen: Option<nat>, e: Listing): SensorInfo {
    var flags := if chosen.Some? && chosen.value != e.subHal
                 then e.sensor.flags - MASK_DIRECT else e.sensor.flags;
    Patched(e.sensor.(sensorHandle := Key(e), flags := flags))
  }

  function Register(r: Registry, e: Listing): Registry {
    if !Accepted(e) then r
    else
      var chosen := Choose(r.directChannelSubHal, e);
      Registry(r.sensors[Key(e) := Published(chosen, e)], chosen)
  }

  function RegisterAll(listings: seq<Listing>): Registry {
    if listings == [] then Registry(map[], None)
    else Register(RegisterAll(listings[..|listings| - 1]), listings[|listings| - 1])
  }

  // ---------------------------------------------------------------- what that amounts to

  /** The last listing that claims a handle. */
  function LastClaim(listings: seq<Listing>, h: Handle): Option<Listing> {
    if listings == [] then None
    else
      var e := listings[|listings| - 1];
      if Accepted(e) && Key(e) == h then Some(e) else LastClaim(listings[..|listings| - 1], h)
  }

  /** The first sub-HAL that lists a sensor with direct channels. */
  function FirstDirect(listings: seq<Listing>): Option<nat> {
    if listings == [] then None
    else if Accepted(listings[0]) && OffersDirect(listings[0].sensor) then Some(listings[0].subHal)
    else FirstDirect(listings[1..])
  }

  lemma {:induction false} FirstDirectAppend(listings: seq<Listing>, e: Listing)
    ensures FirstDirect(listings + [e])
         == if Accepted(e) then Choose(FirstDirect(listings), e) else FirstDirect(listings)
  {
    if listings == [] {
      assert FirstDirect([e][1..]) == None;
    } else {
      assert (listings + [e])[1..] == listings[1..] + [e];
      FirstDirectAppend(listings[1..], e);
    }
  }

  lemma {:induction false} NoDirectMeansNone(listings: seq<Listing>, e: Listing)
    requires FirstDirect(listings) == None && e in listings && Accepted(e)
    ensures !OffersDirect(e.sensor)
  {
    if e != listings[0] {
      NoDirectMeansNone(listings[1..], e);
    }
  }

  lemma {:induction false} LastClaimIsListed(listings: seq<Listing>, h: Handle)
    ensures var c := LastClaim(listings, h);
            c.Some? ==> c.value in listings && Accepted(c.value) && Key(c.value) == h
  {
    if listings != [] {
      LastClaimIsListed(listings[..|listings| - 1], h);
    }
  }

  lemma StrippingNothing(sensor: SensorInfo)
    requires !OffersDirect(sensor)
    ensures sensor.flags - MASK_DIRECT == sensor.flags
  {
    forall b | b in sensor.flags
      ensures b !in MASK_DIRECT
    {
      assert b in MASK_DIRECT ==> b in sensor.flags * MASK_DIRECT;
    }
  }

  /** The list is exact: the chosen sub-HAL is the first to offer direct channels; a handle is a key
      exactly when some sub-HAL claims it; and its entry is the last claim as published under the final
      choice, although earlier entries were stored before the choice was made. */
  lemma {:induction false} RegistryIsExact(listings: seq<Listing>, h: Handle)
    ensures var r := RegisterAll(listings);
            && r.directChannelSubHal == FirstDirect(listings)
            && (h in r.sensors <==> LastClaim(listings, h).Some?)
            && (h in r.sensors ==>
                  r.sensors[h] == Published(r.directChannelSubHal, LastClaim(listings, h).value))
  {
    if listings != [] {
      var before, e := listings[..|listings| - 1], listings[|listings| - 1];
      assert before + [e] == listings;
      RegistryIsExact(before, h);
      FirstDirectAppend(before, e);
      LastClaimIsListed(before, h);
      var claim := LastClaim(before, h);
      if claim.Some? && FirstDirect(before) == None {
        NoDirectMeansNone(before, claim.value);
        StrippingNothing(claim.value.sensor);
      }
    }
  }

  /** A listing claims a handle if its own is clear and becomes the handle once tagged. */
  predicate Claims(e: Listing, h: Handle) {
    TopByte(e.sensor.sensorHandle) == 0 && SetSubHalIndex(e.sensor.sensorHandle, e.subHal) == h
  }

  lemma {:induction false} LastClaimAt(listings: seq<Listing>, h: Handle) returns (k: int)
    ensures -1 <= k < |listings|
    ensures forall j :: k < j < |listings| ==> !Claims(listings[j], h)
    ensures if k == -1 then LastClaim(listings, h) == None
            else Claims(listings[k], h) && LastClaim(listings, h) == Some(listings[k])
  {
    if listings == [] {
      k := -1;
    } else if Claims(listings[|listings| - 1], h) {
      k := |listings| - 1;
    } else {
      k := LastClaimAt(listings[..|listings| - 1], h);
    }
  }

  /** What the framework gets to see of a sensor, member by member: a handle is listed exactly if some
      sub-HAL claims it, and then with the last claim's sensor, a wrist-tilt gesture as a pick-up gesture of
      type 25, and without flags 7 to 11 unless its sub-HAL is the one for direct channels. */
  lemma ListedAs(listings: seq<Listing>, h: Handle)
    ensures var r := RegisterAll(listings);
            && (h in r.sensors <==> exists k :: 0 <= k < |listings| && Claims(listings[k], h))
            && (h in r.sensors ==>
                 exists k :: && 0 <= k < |listings| && Claims(listings[k], h)
                             && (forall j :: k < j < |listings| ==> !Claims(listings[j], h))
                             && Shows(r.sensors[h], listings[k], h, r.directChannelSubHal))
  {
    var r := RegisterAll(listings);
    RegistryIsExact(listings, h);
    var k := LastClaimAt(listings, h);
    if h in r.sensors && r.directChannelSubHal == None {
      NoDirectMeansNone(listings, listings[k]);
      StrippingNothing(listings[k].sensor);
    }
    assert h in r.sensors ==> Claims(listings[k], h) && Shows(r.sensors[h], listings[k], h, r.directChannelSubHal);
  }

  predicate Shows(shown: SensorInfo, e: Listing, h: Handle, direct: Option<nat>) {
    var tilt := e.sensor.typeAsString == "android.sensor.wrist_tilt_gesture";
    && shown.sensorHandle == h
    && shown.kind == (if tilt then 25 else e.sensor.kind)
    && shown.typeAsString == (if tilt then "android.sensor.pick_up_gesture" else e.sensor.typeAsString)
    && shown.flags == if direct == Some(e.subHal) then e.sensor.flags else e.sensor.flags - {7, 8, 9, 10, 11}
  }

  /** The sub-HAL for direct channels is that of the first accepted sensor with one of those flags. */
  lemma {:induction false} DirectIsFirst(listings: seq<Listing>)
    ensures var d := RegisterAll(listings).directChannelSubHal;
            if d.None? then forall k :: 0 <= k < |listings| ==> !ClaimsDirect(listings[k])
            else exists k :: && 0 <= k < |listings| && ClaimsDirect(listings[k]) && d.value == listings[k].subHal
                             && forall j :: 0 <= j < k ==> !ClaimsDirect(listings[j])
  {
    if listings != [] {
      var n := |listings| - 1;
      DirectIsFirst(listings[..n]);
      var d := RegisterAll(listings[..n]).directChannelSubHal;
      OffersDirectIff(listings[n].sensor);
      if d.Some? {
        var k :| && 0 <= k < n && ClaimsDirect(listings[..n][k]) && d.value == listings[..n][k].subHal
                 && forall j :: 0 <= j < k ==> !ClaimsDirect(listings[..n][j]);
        assert listings[k] == listings[..n][k] && forall j :: 0 <= j < k ==> listings[j] == listings[..n][j];
      } else {
        assert forall k :: 0 <= k < n ==> listings[k] == listings[..n][k];
      }
    }
  }

  lemma OffersDirectIff(sensor: SensorInfo)
    ensures OffersDirect(sensor) <==> exists flag :: flag in sensor.flags && 7 <= flag <= 11
  {
    forall flag
      ensures flag in sensor.flags * MASK_DIRECT <==> flag in sensor.flags && 7 <= flag <= 11
    {
    }
  }

  predicate ClaimsDirect(e: Listing) {
    TopByte(e.sensor.sensorHandle) == 0 && exists flag :: flag in e.sensor.flags && 7 <= flag <= 11
  }

  /** Every key is its sensor's handle and names a sub-HAL that exists, and a sensor that still offers
      direct channels belongs to the chosen one. */
  lemma KeysAndFlags(listings: seq<Listing>, count: nat, h: Handle)
    requires count <= 128 && forall e :: e in listings ==> e.subHal < count
    requires h in RegisterAll(listings).sensors
    ensures var r := RegisterAll(listings);
            && r.sensors[h].sensorHandle == h
            && IsSubHalIndexValid(h, count)
            && (OffersDirect(r.sensors[h]) ==> r.directChannelSubHal == Some(ExtractSubHalIndex(h)))
  {
    RegistryIsExact(listings, h);
    LastClaimIsListed(listings, h);
    var e := LastClaim(listings, h).value;
    UntaggingUndoesTagging(e.sensor.sensorHandle, e.subHal);
    StrippedOffersNothing(e.sensor.flags);
    if FirstDirect(listings) == None {
      NoDirectMeansNone(listings, e);
    }
  }

  lemma StrippedOffersNothing(flags: set<nat>)
    ensures (flags - MASK_DIRECT) * MASK_DIRECT == {}
  {
  }

  /** From the 129th sub-HAL on, a sensor is listed under a handle that no call will accept, or under
      one that is accepted on behalf of a sub-HAL with a smaller index. */
  lemma TooManySubHals(sensor: SensorInfo, index: nat, count: nat)
    requires SubHalIndexIsClear(sensor.sensorHandle) && index < count < SIZE_RANGE - 128
    ensures var key := Key(Listing(index, sensor));
            && (IsSubHalIndexValid(key, count) <==> index % 256 < 128)
            && (IsSubHalIndexValid(key, count) ==> ExtractSubHalIndex(key) == index % 256)
            && (ExtractSubHalIndex(key) == index <==> index < 128)
  {
    UntaggingUndoesTagging(sensor.sensorHandle, index);
    assert TopByte(Key(Listing(index, sensor))) == index % 256;
  }

  /** The first sensor of sub-HAL 256 takes the place of the first one of sub-HAL 0. */
  lemma TakesAnothersPlace(first: SensorInfo, last: SensorInfo)
    requires SubHalIndexIsClear(first.sensorHandle) && last.sensorHandle == first.sensorHandle
    ensures var r := RegisterAll([Listing(0, first), Listing(256, last)]);
            && ExtractSubHalIndex(first.sensorHandle) == 0
            && r.sensors == map[first.sensorHandle := Published(r.directChannelSubHal, Listing(256, last))]
  {
    var one, both := [Listing(0, first)], [Listing(0, first), Listing(256, last)];
    assert one[..0] == [] && both[..1] == one;
    UntaggingUndoesTagging(first.sensorHandle, 0);
    assert Key(both[1]) == first.sensorHandle && Key(both[0]) == first.sensorHandle;
    assert RegisterAll(one) == Register(Registry(map[], None), one[0]);
    assert RegisterAll(both) == Register(RegisterAll(one), both[1]);
  }

  // ---------------------------------------------------------------- the loops that build it

  function Listings(subHal: nat, sensors: seq<SensorInfo>): seq<Listing> {
    seq(|sensors|, i requires 0 <= i < |sensors| => Listing(subHal, sensors[i]))
  }

  /** Everything the first n sub-HALs list, in order. */
  function AllListings(subHals: seq<seq<SensorInfo>>, n: nat): seq<Listing>
    requires n <= |subHals|
  {
    if n == 0 then [] else AllListings(subHals, n - 1) + Listings(n - 1, subHals[n - 1])
  }

  class HalProxySensors {
    const subHals: seq<seq<SensorInfo>>  // a sub-HAL whose call fails lists nothing
    var sensors: map<Handle, SensorInfo>
    var directChannelSubHal: Option<nat>

    ghost function State(): Registry
      reads this
    {
      Registry(sensors, directChannelSubHal)
    }

    constructor (subHals: seq<seq<SensorInfo>>)
      ensures State() == RegisterAll(AllListings(subHals, |subHals|))
    {
      this.subHals, sensors, directChannelSubHal := subHals, map[], None;
      new;
      InitializeSensorList();
    }

    method SetDirectChannelFlags(sensorInfo: SensorInfo, subHal: nat) returns (r: SensorInfo)
      modifies this`directChannelSubHal
      ensures directChannelSubHal == Choose(old(directChannelSubHal), Listing(subHal, sensorInfo))
      ensures old(directChannelSubHal) == None && sensorInfo.flags * {7, 8, 9, 10, 11} != {} ==>
        directChannelSubHal == Some(subHal)
      ensures r == sensorInfo.(flags := if directChannelSubHal.Some? && directChannelSubHal.value != subHal
                                        then sensorInfo.flags - MASK_DIRECT else sensorInfo.flags)
    {
      r := sensorInfo;
      if directChannelSubHal == None && sensorInfo.flags * MASK_DIRECT != {} {
        directChannelSubHal := Some(subHal);
      } else if directChannelSubHal != None && directChannelSubHal != Some(subHal) {
        r := sensorInfo.(flags := sensorInfo.flags - MASK_DIRECT);
      }
    }

    /** One sensor of one sub-HAL's list. */
    method AddSensor(listed: SensorInfo, subHalIndex: nat)
      modifies this
      ensures State() == Register(old(State()), Listing(subHalIndex, listed))
    {
      if SubHalIndexIsClear(listed.sensorHandle) {
        var handle := SetSubHalIndex(listed.sensorHandle, subHalIndex);
        var sensor := SetDirectChannelFlags(listed, subHalIndex);
        sensor := sensor.(sensorHandle := handle);
        if sensor.typeAsString == WRIST_TILT {
          sensor := sensor.(kind := PICK_UP_GESTURE, typeAsString := PICK_UP);
        }
        sensors := sensors[handle := sensor];
      }
    }

    method InitializeSensorList()
      requires State() == Registry(map[], None)
      modifies this
      ensures State() == RegisterAll(AllListings(subHals, |subHals|))
    {
      for subHalIndex := 0 to |subHals|
        invariant State() == RegisterAll(AllListings(subHals, subHalIndex))
      {
        var list := subHals[subHalIndex];
        ghost var done := AllListings(subHals, subHalIndex);
        assert done + Listings(subHalIndex, list[..0]) == done;
        for k := 0 to |list|
          invariant State() == RegisterAll(done + Listings(subHalIndex, list[..k]))
        {
          OneMoreListing(done, subHalIndex, list, k);
          AddSensor(list[k], subHalIndex);
        }
        assert list[..|list|] == list;
      }
    }
  }

  lemma OneMoreListing(done: seq<Listing>, subHal: nat, list: seq<SensorInfo>, k: nat)
    requires k < |list|
    ensures RegisterAll(done + Listings(subHal, list[..k + 1]))
         == Register(RegisterAll(done + Listings(subHal, list[..k])), Listing(subHal, list[k]))
  {
    var before, e := done + Listings(subHal, list[..k]), Listing(subHal, list[k]);
    assert done + Listings(subHal, list[..k + 1]) == before + [e];
    assert (before + [e])[..|before|] == before;
  }
}
