// Masks tested against zero, by the positions of their bits.

module Bits {
  import opened Words

  lemma {:induction false} SomeBit(x: nat)
    requires x > 0
    ensures exists i: nat :: Bit(x, i)
  {
    if x % 2 == 1 {
      assert Pow2(0) == 1;
      assert Bit(x, 0);
    } else {
      SomeBit(x / 2);
      var i: nat :| Bit(x / 2, i);
      BitShift(x, i + 1);
      assert Bit(x, i + 1);
    }
  }

  // Two words have a common bit if and only if their conjunction is not zero.
  lemma CommonBit(x: u32, m: u32)
    ensures And(x, m) != 0 <==> exists i: nat | i < 32 :: Bit(x, i) && Bit(m, i)
  {
    hide And, Bit;
    if And(x, m) != 0 {
      SomeBit(And(x, m));
      var i: nat :| Bit(And(x, m), i);
      BitwiseMeaning(x, m, i);
      HighBit(x, i);
    }
    forall i: nat | i < 32 && Bit(x, i) && Bit(m, i) ensures And(x, m) != 0 {
      BitwiseMeaning(x, m, i);
      NoBit(i);
    }
  }

  lemma NoBit(i: nat)
    ensures !Bit(0, i)
  {
    SmallMod(0, Pow2(i));
  }

  lemma HighBit(x: u32, i: nat)
    ensures Bit(x, i) ==> i < 32
  {
    if i >= 32 {
      Pow2Grows(i);
      SmallMod(x, Pow2(i));
    }
  }

  lemma {:induction false} Pow2Grows(i: nat)
    requires i >= 32
    ensures Pow2(i) > 0xFFFF_FFFF
  {
    if i == 32 {
      Pow2Values();
    } else {
      Pow2Grows(i - 1);
    }
  }

  lemma {:induction false} BitOfPower(k: nat, i: nat)
    ensures Bit(Pow2(k), i) <==> i == k
  {
    if i == 0 {
      assert Pow2(0) == 1;
    } else if k == 0 {
      BitShift(1, i);
      NoBit(i - 1);
    } else {
      BitShift(Pow2(k), i);
      BitOfPower(k - 1, i - 1);
    }
  }

  // A mask of one bit tests that bit.
  lemma OneBit(x: u32, k: nat)
    requires k < 32 && Pow2(k) <= UINT32_MAX
    ensures And(x, Pow2(k)) != 0 <==> x / Pow2(k) % 2 == 1
  {
    CommonBit(x, Pow2(k));
    forall i: nat ensures Bit(Pow2(k), i) <==> i == k {
      BitOfPower(k, i);
    }
    assert Bit(x, k) <==> x / Pow2(k) % 2 == 1;
    hide And, Bit;
  }
}
