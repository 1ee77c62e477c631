/** Sensor handles: the proxy puts the sub-HAL's index into the top byte of a 32-bit handle. */
module Handles {
  import opened Bits
  import opened SensorTypes

  /** The bits below the sub-HAL index: the mask is 0xFF000000. */
  const LOW_RANGE := 0x100_0000
  const SIZE_RANGE := 0x1_0000_0000_0000_0000

  type Byte = b: int | 0 <= b < 256

  function TopByte(handle: Handle): Byte {
    handle as int / LOW_RANGE
  }

  /** The index is shifted by 24 bits within 32, so only its low byte arrives, and it is or-ed in. */
  function SetSubHalIndex(handle: Handle, subHalIndex: nat): Handle {
    var top := Or(TopByte(handle), subHalIndex % 256);
    assert top < 256 by {
      assert Power2(4) == 16 && Power2(8) == 256;
      OrStaysBelow(TopByte(handle), subHalIndex % 256, 8);
    }
    (top * LOW_RANGE + handle as int % LOW_RANGE) as Handle
  }

  /** The shift back is arithmetic: a negative handle becomes an enormous 64-bit index. */
  function ExtractSubHalIndex(handle: Handle): nat {
    var top := TopByte(handle);
    if top < 128 then top else SIZE_RANGE - 256 + top
  }

  function ClearSubHalIndex(handle: Handle): Handle {
    (handle as int % LOW_RANGE) as Handle
  }

  predicate SubHalIndexIsClear(handle: Handle) {
    TopByte(handle) == 0
  }

  predicate IsSubHalIndexValid(handle: Handle, count: nat) {
    ExtractSubHalIndex(handle) < count
  }

  lemma TaggedTopByte(handle: Handle, index: nat)
    ensures TopByte(SetSubHalIndex(handle, index)) == Or(TopByte(handle), index % 256)
    ensures ClearSubHalIndex(SetSubHalIndex(handle, index)) == ClearSubHalIndex(handle)
  {
  }

  /** The index survives the cut to a signed byte, and has every bit that is already in the top byte. */
  ghost predicate Carries(handle: Handle, index: nat) {
    (index < 128 || index >= SIZE_RANGE - 128) && Within(TopByte(handle), index % 256)
  }

  /** For all handles and all 64-bit indices, this is when the index comes back. */
  lemma ExtractingGivesBackIff(handle: Handle, index: nat)
    requires index < SIZE_RANGE
    ensures ExtractSubHalIndex(SetSubHalIndex(handle, index)) == index <==> Carries(handle, index)
  {
    TaggedTopByte(handle, index);
    OrAbsorbsIff(TopByte(handle), index % 256);
  }

  /** For a clear handle only the first matters, and clearing gives the sub-HAL its own handle back. */
  lemma UntaggingUndoesTagging(handle: Handle, index: nat)
    requires SubHalIndexIsClear(handle) && index < SIZE_RANGE
    ensures ClearSubHalIndex(SetSubHalIndex(handle, index)) == handle
    ensures ExtractSubHalIndex(SetSubHalIndex(handle, index)) == index
       <==> index < 128 || index >= SIZE_RANGE - 128
  {
    ExtractingGivesBackIff(handle, index);
    OrAbsorbsIff(0, index % 256);
  }

  lemma TaggingIsInjective(h1: Handle, i1: nat, h2: Handle, i2: nat)
    requires SubHalIndexIsClear(h1) && SubHalIndexIsClear(h2) && i1 < 128 && i2 < 128
    requires SetSubHalIndex(h1, i1) == SetSubHalIndex(h2, i2)
    ensures h1 == h2 && i1 == i2
  {
    UntaggingUndoesTagging(h1, i1);
    UntaggingUndoesTagging(h2, i2);
  }

  /** With at most 128 sub-HALs, the 32-bit handles that pass the validity check, negative ones
      included, are exactly the clear handles tagged with the index of a sub-HAL that exists. */
  lemma ValidIffTagged(handle: Handle, count: nat)
    requires count <= 128
    ensures IsSubHalIndexValid(handle, count)
       <==> exists index: nat :: index < count && handle == SetSubHalIndex(ClearSubHalIndex(handle), index)
  {
    var clear := ClearSubHalIndex(handle);
    if IsSubHalIndexValid(handle, count) {
      assert handle == SetSubHalIndex(clear, ExtractSubHalIndex(handle));
    }
    forall index: nat | index < count && handle == SetSubHalIndex(clear, index)
      ensures IsSubHalIndexValid(handle, count)
    {
      UntaggingUndoesTagging(clear, index);
    }
  }
}
