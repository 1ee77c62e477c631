/** Feature bits: a base number and two differences, read bit by bit into a set. */
module Features {
  import opened Common
  import opened Bits

  /** BigInteger's arithmetic shift right, which rounds down. */
  function ShiftRight(n: int): int {
    n / 2
  }

  /** The indices of the bits that are set. */
  function BitSet(n: nat): (s: set<nat>)
    ensures forall i: nat :: i in s <==> Bit(n, i)
  {
    assert forall i: nat | Bit(n, i) :: i < n by {
      forall i: nat | Bit(n, i) ensures i < n {
        if n <= i {
          HighBit(n, i);
        }
      }
    }
    set i | 0 <= i < n && Bit(n, i)
  }

  function SymmetricDifference(a: set<nat>, b: set<nat>): set<nat> {
    (a - b) + (b - a)
  }

  lemma BitSetOfXor(a: nat, b: nat)
    ensures BitSet(Xor(a, b)) == SymmetricDifference(BitSet(a), BitSet(b))
  {
    forall i: nat
      ensures i in BitSet(Xor(a, b)) <==> i in SymmetricDifference(BitSet(a), BitSet(b))
    {
      XorBit(a, b, i);
    }
  }

  /** Differences commute, and each undoes itself. */
  lemma DifferencesCommuteAndCancel(base: nat, product: nat, device: nat)
    ensures BitSet(Xor(Xor(base, product), device)) == BitSet(Xor(Xor(base, device), product))
    ensures BitSet(Xor(Xor(base, product), product)) == BitSet(base)
  {
    BitSetOfXor(base, product);
    BitSetOfXor(base, device);
    BitSetOfXor(Xor(base, product), device);
    BitSetOfXor(Xor(base, device), product);
    BitSetOfXor(Xor(base, product), product);
  }

  function Shifted(n: int, k: nat): int {
    if k == 0 then n else ShiftRight(Shifted(n, k - 1))
  }

  /** Shifting reaches zero, and the loops end, exactly for numbers that are not negative. */
  lemma {:induction false} LoopsEndIff(n: int)
    ensures (exists k: nat :: Shifted(n, k) == 0) <==> n >= 0
  {
    if n >= 0 {
      ShiftsToZero(n, n);
      assert Shifted(n, n) == 0;
    } else {
      forall k: nat ensures Shifted(n, k) < 0 {
        StaysNegative(n, k);
      }
    }
  }

  lemma {:induction false} ShiftsToZero(n: nat, k: nat)
    ensures 0 <= Shifted(n, k) <= Max(0, n - k)
  {
    if k > 0 {
      ShiftsToZero(n, k - 1);
    }
  }

  lemma {:induction false} StaysNegative(n: int, k: nat)
    requires n < 0
    ensures Shifted(n, k) < 0
  {
    if k > 0 {
      StaysNegative(n, k - 1);
    }
  }

  /** Bit i is the last one, the one that is tested, after i shifts. */
  lemma {:induction false} BitAfterShifts(n: nat, i: nat)
    ensures Shifted(n, i) >= 0 && (Bit(n, i) <==> Shifted(n, i) % 2 == 1)
  {
    if i > 0 {
      ShiftFirst(n, i);
      BitAfterShifts(n / 2, i - 1);
    }
  }

  lemma {:induction false} ShiftFirst(n: int, i: nat)
    requires i > 0
    ensures Shifted(n, i) == Shifted(n / 2, i - 1)
  {
    if i > 1 {
      ShiftFirst(n, i - 1);
    }
  }

  // ---------------------------------------------------------------- the loops

  /** The bits of n, moved up by index. */
  function MovedUp(n: nat, index: nat): set<nat> {
    set i | i in BitSet(n) :: i + index
  }

  lemma MovedUpStep(n: nat, index: nat)
    ensures MovedUp(n, index) == (if n % 2 == 1 then {index} else {}) + MovedUp(n / 2, index + 1)
    ensures index !in MovedUp(n / 2, index + 1)
  {
    forall i: nat
      ensures i in MovedUp(n, index) <==> i >= index && Bit(n, i - index)
      ensures i in MovedUp(n / 2, index + 1) <==> i >= index + 1 && Bit(n / 2, i - (index + 1))
    {
      if i >= index && Bit(n, i - index) {
        assert i - index in BitSet(n);
      }
      if i >= index + 1 && Bit(n / 2, i - (index + 1)) {
        assert i - (index + 1) in BitSet(n / 2);
      }
    }
  }

  lemma MovedUpEnds(n: nat, index: nat)
    ensures MovedUp(n, 0) == BitSet(n) && MovedUp(0, index) == {}
  {
    forall i | i in BitSet(n) ensures i in MovedUp(n, 0) {
      assert i == i + 0;
    }
    assert forall i | i in BitSet(0) :: false by {
      forall i | i in BitSet(0) ensures false {
        ZeroBit(i);
      }
    }
  }

  class NtFeatures {
    var features: set<nat>

    constructor (base: nat, productDiff: nat, deviceDiff: nat)
      ensures features == BitSet(Xor(Xor(base, productDiff), deviceDiff))
    {
      features := {};
      new;
      Base(base);
      Change(productDiff);
      Change(deviceDiff);
      BitSetOfXor(base, productDiff);
      BitSetOfXor(Xor(base, productDiff), deviceDiff);
    }

    method Base(n: nat)
      modifies this
      ensures features == old(features) + BitSet(n)
    {
      var index: nat, bi: nat := 0, n;
      MovedUpEnds(n, 0);
      while bi != 0
        invariant features + MovedUp(bi, index) == old(features) + BitSet(n)
        decreases bi
      {
        MovedUpStep(bi, index);
        if bi % 2 == 1 {
          features := features + {index};
        }
        index, bi := index + 1, ShiftRight(bi);
      }
      MovedUpEnds(n, index);
    }

    method Change(n: nat)
      modifies this
      ensures features == SymmetricDifference(old(features), BitSet(n))
    {
      var index: nat, bi: nat := 0, n;
      MovedUpEnds(n, 0);
      while bi != 0
        invariant SymmetricDifference(features, MovedUp(bi, index)) == SymmetricDifference(old(features), BitSet(n))
        decreases bi
      {
        MovedUpStep(bi, index);
        ghost var rest := MovedUp(bi / 2, index + 1);
        ghost var before := features;
        if bi % 2 == 1 {
          features := if index in features then features - {index} else features + {index};
          assert SymmetricDifference(features, rest) == SymmetricDifference(before, {index} + rest);
        }
        index, bi := index + 1, ShiftRight(bi);
      }
      MovedUpEnds(n, index);
    }

    /** length is that of the bit set, one more than its highest bit. */
    method IsSupport(queried: seq<int>, length: nat) returns (supported: bool)
      requires forall i :: i in features ==> i < length
      ensures supported <==> forall k :: 0 <= k < |queried| ==> queried[k] >= 0 && queried[k] in features
    {
      for k := 0 to |queried|
        invariant forall j :: 0 <= j < k ==> queried[j] >= 0 && queried[j] in features
      {
        var feature := queried[k];
        if feature < 0 || feature >= length {
          return false;
        }
        if feature !in features {
          return false;
        }
      }
      return true;
    }
  }
}
