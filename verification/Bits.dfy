/** Natural numbers as words of bits. */
module Bits {

  /** Bit i of a natural number. */
  predicate Bit(n: nat, i: nat) {
    if i == 0 then n % 2 == 1 else Bit(n / 2, i - 1)
  }

  function Or(a: nat, b: nat): nat {
    if a == 0 then b
    else if b == 0 then a
    else 2 * Or(a / 2, b / 2) + if a % 2 == 1 || b % 2 == 1 then 1 else 0
  }

  function Xor(a: nat, b: nat): nat
    decreases a + b
  {
    if a == 0 && b == 0 then 0
    else 2 * Xor(a / 2, b / 2) + if a % 2 != b % 2 then 1 else 0
  }

  function Power2(n: nat): nat {
    if n == 0 then 1 else 2 * Power2(n - 1)
  }

  lemma {:induction false} ZeroBit(i: nat)
    ensures !Bit(0, i)
  {
    if i > 0 {
      ZeroBit(i - 1);
    }
  }

  /** Bits beyond the number's size are not set. */
  lemma {:induction false} HighBit(n: nat, i: nat)
    requires n <= i
    ensures !Bit(n, i)
  {
    if i > 0 {
      HighBit(n / 2, i - 1);
    }
  }

  lemma {:induction false} XorBit(a: nat, b: nat, i: nat)
    ensures Bit(Xor(a, b), i) <==> Bit(a, i) != Bit(b, i)
    decreases i
  {
    if a == 0 && b == 0 {
      ZeroBit(i);
    } else if i > 0 {
      XorBit(a / 2, b / 2, i - 1);
    }
  }

  lemma {:induction false} OrStaysBelow(a: nat, b: nat, bits: nat)
    requires a < Power2(bits) && b < Power2(bits)
    ensures Or(a, b) < Power2(bits)
  {
    if a != 0 && b != 0 {
      assert bits > 0;
      OrStaysBelow(a / 2, b / 2, bits - 1);
    }
  }

  /** Every bit of a is one of b. */
  ghost predicate Within(a: nat, b: nat) {
    forall i: nat :: Bit(a, i) ==> Bit(b, i)
  }

  lemma WithinHalves(a: nat, b: nat)
    ensures Within(a, b) <==> (a % 2 == 1 ==> b % 2 == 1) && Within(a / 2, b / 2)
  {
    if Within(a, b) {
      assert Bit(a, 0) ==> Bit(b, 0);
      forall i: nat | Bit(a / 2, i)
        ensures Bit(b / 2, i)
      {
        assert Bit(a, i + 1) && Bit(b, i + 1);
      }
    }
    if (a % 2 == 1 ==> b % 2 == 1) && Within(a / 2, b / 2) {
      forall i: nat | Bit(a, i)
        ensures Bit(b, i)
      {
        assert i > 0 ==> Bit(a / 2, i - 1);
      }
    }
  }

  /** Or-ing a in changes nothing exactly if b has all of its bits. */
  lemma {:induction false} OrAbsorbsIff(a: nat, b: nat)
    ensures Or(a, b) == b <==> Within(a, b)
    decreases a
  {
    if a == 0 {
      forall i: nat
        ensures !Bit(a, i)
      {
        ZeroBit(i);
      }
    } else {
      OrAbsorbsIff(a / 2, b / 2);
      WithinHalves(a, b);
      assert Or(a, b) == 2 * Or(a / 2, b / 2) + if a % 2 == 1 || b % 2 == 1 then 1 else 0;
    }
  }
}
