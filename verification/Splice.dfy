// The byte merges of the unaligned loads and stores, written with the source's
// masks and shifts. k is the address modulo 4; each contract says which byte of
// the result comes from where.

module Splice {
  import opened Words
  import opened Memory

  function Lwl(val: u32, word: u32, k: nat): (r: u32)
    requires k < 4
    ensures forall j :: 0 <= j < 4 ==> Byte(r, j) == if j >= 3 - k then Byte(word, j - (3 - k)) else Byte(val, j)
  {
    var mask := Shr(0x00FF_FFFF, 8 * k);
    JoinLow(val, word, 3 - k);
    Or32(And32(val, mask), Shl(word, 24 - 8 * k))
  }

  function Lwr(val: u32, word: u32, k: nat): (r: u32)
    requires k < 4
    ensures forall j :: 0 <= j < 4 ==> Byte(r, j) == if j <= 3 - k then Byte(word, j + k) else Byte(val, j)
  {
    var mask := Shl(0xFFFF_FF00, 24 - 8 * k);
    JoinHigh(val, word, k);
    Or32(And32(val, mask), Shr(word, 8 * k))
  }

  function Swl(word: u32, reg: u32, k: nat): (r: u32)
    requires k < 4
    ensures forall j :: 0 <= j < 4 ==> Byte(r, j) == if j <= k then Byte(reg, j + 3 - k) else Byte(word, j)
  {
    var mask := Shl(0xFFFF_FF00, 8 * k);
    JoinHigh(word, reg, 3 - k);
    Or32(And32(word, mask), Shr(reg, 24 - 8 * k))
  }

  function Swr(word: u32, reg: u32, k: nat): (r: u32)
    requires k < 4
    ensures forall j :: 0 <= j < 4 ==> Byte(r, j) == if j >= k then Byte(reg, j - k) else Byte(word, j)
  {
    var mask := Shr(0x00FF_FFFF, 24 - 8 * k);
    JoinLow(word, reg, k);
    Or32(And32(word, mask), Shl(reg, 8 * k))
  }

  function ByteOrZero(v: u32, j: int): u8 {
    if 0 <= j < 4 then Byte(v, j) else 0
  }

  // A word is determined by its bytes.
  lemma Le4Bytes(b0: u8, b1: u8, b2: u8, b3: u8)
    ensures var v := Le4(b0, b1, b2, b3);
            Byte(v, 0) == b0 && Byte(v, 1) == b1 && Byte(v, 2) == b2 && Byte(v, 3) == b3
  {
  }

  lemma BytePow(n: nat)
    requires n <= 4
    ensures Pow2(8 * n) == (match n case 0 => 1 case 1 => 0x100 case 2 => 0x1_0000 case 3 => 0x100_0000 case _ => 0x1_0000_0000)
  {
    Pow2Values();
    assert Pow2(0) == 1;
  }

  // The low n bytes of a word, a shift by whole bytes up and one down.
  lemma LowBytes(a: u32, n: nat)
    requires n <= 4
    ensures a % Pow2(8 * n) == Le4(if n > 0 then Byte(a, 0) else 0, if n > 1 then Byte(a, 1) else 0,
                                   if n > 2 then Byte(a, 2) else 0, if n > 3 then Byte(a, 3) else 0)
  {
    BytePow(n);
    ByteSum(a);
    Split(Byte(a, 0), Byte(a, 1), Byte(a, 2), Byte(a, 3), n);
  }

  lemma ShrBytes(b: u32, n: nat)
    requires n < 4
    ensures Shr(b, 8 * n) == Le4(ByteOrZero(b, n), ByteOrZero(b, n + 1), ByteOrZero(b, n + 2), ByteOrZero(b, n + 3))
  {
    BytePow(n);
    ByteSum(b);
    Split(Byte(b, 0), Byte(b, 1), Byte(b, 2), Byte(b, 3), n);
  }

  lemma Split(b0: u8, b1: u8, b2: u8, b3: u8, n: nat)
    requires n <= 4
    ensures var v := Le4(b0, b1, b2, b3);
            && (n == 0 ==> v / 1 == v && v % 1 == 0)
            && (n == 1 ==> v / 0x100 == Le4(b1, b2, b3, 0) && v % 0x100 == Le4(b0, 0, 0, 0))
            && (n == 2 ==> v / 0x1_0000 == Le4(b2, b3, 0, 0) && v % 0x1_0000 == Le4(b0, b1, 0, 0))
            && (n == 3 ==> v / 0x100_0000 == Le4(b3, 0, 0, 0) && v % 0x100_0000 == Le4(b0, b1, b2, 0))
            && (n == 4 ==> v % 0x1_0000_0000 == v)
  {
    var v := Le4(b0, b1, b2, b3);
    match n
    case 0 =>
    case 1 => DivUnique(v, 0x100, Le4(b1, b2, b3, 0), Le4(b0, 0, 0, 0));
    case 2 => DivUnique(v, 0x1_0000, Le4(b2, b3, 0, 0), Le4(b0, b1, 0, 0));
    case 3 => DivUnique(v, 0x100_0000, Le4(b3, 0, 0, 0), Le4(b0, b1, b2, 0));
    case _ =>
  }

  lemma ShlBytes(b: u32, n: nat)
    requires n < 4
    ensures Shl(b, 8 * n) == Le4(ByteOrZero(b, 0 - n), ByteOrZero(b, 1 - n), ByteOrZero(b, 2 - n), ByteOrZero(b, 3 - n))
  {
    BytePow(n);
    ByteSum(b);
    match n
    case 0 => WrapIs(b, 0, b);
    case 1 => ShiftUp(Byte(b, 0), Byte(b, 1), Byte(b, 2), Byte(b, 3), 0x100);
    case 2 => ShiftUp(Byte(b, 0), Byte(b, 1), Byte(b, 2), Byte(b, 3), 0x1_0000);
    case _ => ShiftUp(Byte(b, 0), Byte(b, 1), Byte(b, 2), Byte(b, 3), 0x100_0000);
  }

  lemma ShiftUp(b0: u8, b1: u8, b2: u8, b3: u8, p: nat)
    requires p == 0x100 || p == 0x1_0000 || p == 0x100_0000
    ensures Wrap(Le4(b0, b1, b2, b3) * p)
         == if p == 0x100 then Le4(0, b0, b1, b2)
            else if p == 0x1_0000 then Le4(0, 0, b0, b1)
            else Le4(0, 0, 0, b0)
  {
    hide Wrap;
    var v: int := Le4(b0, b1, b2, b3);
    if p == 0x100 {
      WrapIs(v * 0x100, b3, Le4(0, b0, b1, b2));
    } else if p == 0x1_0000 {
      WrapIs(v * 0x1_0000, Le2(b2, b3), Le4(0, 0, b0, b1));
    } else {
      WrapIs(v * 0x100_0000, Le4(b1, b2, b3, 0), Le4(0, 0, 0, b0));
    }
  }

  lemma ShlClear(b: u32, n: nat)
    requires n < 4
    ensures Shl(b, 8 * n) % Pow2(8 * n) == 0
  {
    ShlBytes(b, n);
    BytePow(n);
    var b0, b1, b2 := Byte(b, 0), Byte(b, 1), Byte(b, 2);
    hide Byte, Shl;
    match n
    case 0 =>
    case 1 => Split(0, b0, b1, b2, 1);
    case 2 => Split(0, 0, b0, b1, 2);
    case _ => Split(0, 0, 0, b0, 3);
  }

  // The shifted byte masks of the source keep the low n, or the high n, bytes.
  lemma MaskOfLow(n: nat)
    requires n < 4
    ensures Shr(0x00FF_FFFF, 24 - 8 * n) == Pow2(8 * n) - 1
  {
    BytePow(n);
    BytePow(3 - n);
  }

  lemma MaskOfHigh(n: nat)
    requires n < 4
    ensures Shl(0xFFFF_FF00, 24 - 8 * n) == Pow2(32) - Pow2(32 - 8 * n)
  {
    BytePow(3 - n);
    BytePow(4 - n);
    BytePow(4);
    match n
    case 0 => DivUnique(0xFFFF_FF00 * 0x100_0000, 0x1_0000_0000, 0xFF_FFFF, 0);
    case 1 => DivUnique(0xFFFF_FF00 * 0x1_0000, 0x1_0000_0000, 0xFFFF, 0xFF00_0000);
    case 2 => DivUnique(0xFFFF_FF00 * 0x100, 0x1_0000_0000, 0xFF, 0xFFFF_0000);
    case _ =>
  }

  // Byte j of a word that keeps the low n bytes of a under the low bytes of b.
  function Above(a: u32, b: u32, n: nat, j: nat): u8
    requires n < 4 && j < 4
  {
    if j >= n then Byte(b, j - n) else Byte(a, j)
  }

  // Byte j of a word that keeps the high n bytes of a over the high bytes of b.
  function Below(a: u32, b: u32, n: nat, j: nat): u8
    requires n < 4 && j < 4
  {
    if j <= 3 - n then Byte(b, j + n) else Byte(a, j)
  }

  lemma OrLow(a: u32, b: u32, n: nat)
    requires n < 4
    ensures Shr(0x00FF_FFFF, 24 - 8 * n) <= UINT32_MAX
    ensures Or32(And32(a, Shr(0x00FF_FFFF, 24 - 8 * n)), Shl(b, 8 * n)) == a % Pow2(8 * n) + Shl(b, 8 * n)
  {
    MaskOfLow(n);
    hide Shr, Shl, Pow2;
    MaskLow(a, 8 * n);
    ShlClear(b, n);
    OrCommutes(a % Pow2(8 * n), Shl(b, 8 * n));
    OrDisjoint(Shl(b, 8 * n), a % Pow2(8 * n), 8 * n);
  }

  lemma SumLow(a: u32, b: u32, n: nat)
    requires n < 4
    ensures a % Pow2(8 * n) + Shl(b, 8 * n) == Le4(Above(a, b, n, 0), Above(a, b, n, 1), Above(a, b, n, 2), Above(a, b, n, 3))
  {
    hide Byte, Shl, Pow2;
    LowBytes(a, n);
    ShlBytes(b, n);
  }

  lemma SumHigh(a: u32, b: u32, n: nat)
    requires n < 4
    ensures a - a % Pow2(32 - 8 * n) + Shr(b, 8 * n) == Le4(Below(a, b, n, 0), Below(a, b, n, 1), Below(a, b, n, 2), Below(a, b, n, 3))
  {
    hide Byte, Shr, Pow2;
    assert 8 * (4 - n) == 32 - 8 * n;
    LowBytes(a, 4 - n);
    ByteSum(a);
    ShrBytes(b, n);
  }

  lemma ShrBound(b: u32, n: nat)
    requires n < 4
    ensures Shr(b, 8 * n) < Pow2(32 - 8 * n)
  {
    BytePow(n);
    BytePow(4 - n);
  }

  lemma OrHigh(a: u32, b: u32, n: nat)
    requires n < 4
    ensures Shr(b, 8 * n) <= UINT32_MAX
    ensures Or32(And32(a, Shl(0xFFFF_FF00, 24 - 8 * n)), Shr(b, 8 * n))
         == a - a % Pow2(32 - 8 * n) + Shr(b, 8 * n)
  {
    hide Shl, Shr, Pow2, And, Or;
    MaskOfHigh(n);
    ShrBound(b, n);
    BytePow(4);
    var p := Pow2(32 - 8 * n);
    ClearLow(a, 32 - 8 * n, p);
    OrSum(a - a % p, Shr(b, 8 * n), 32 - 8 * n, p);
  }

  lemma JoinLow(a: u32, b: u32, n: nat)
    requires n < 4
    ensures Shr(0x00FF_FFFF, 24 - 8 * n) <= UINT32_MAX
    ensures var r := Or32(And32(a, Shr(0x00FF_FFFF, 24 - 8 * n)), Shl(b, 8 * n));
            forall j :: 0 <= j < 4 ==> Byte(r, j) == Above(a, b, n, j)
  {
    hide *;
    OrLow(a, b, n);
    SumLow(a, b, n);
    Le4Bytes(Above(a, b, n, 0), Above(a, b, n, 1), Above(a, b, n, 2), Above(a, b, n, 3));
  }

  lemma JoinHigh(a: u32, b: u32, n: nat)
    requires n < 4
    ensures Shr(b, 8 * n) <= UINT32_MAX
    ensures var r := Or32(And32(a, Shl(0xFFFF_FF00, 24 - 8 * n)), Shr(b, 8 * n));
            forall j :: 0 <= j < 4 ==> Byte(r, j) == Below(a, b, n, j)
  {
    hide *;
    OrHigh(a, b, n);
    SumHigh(a, b, n);
    Le4Bytes(Below(a, b, n, 0), Below(a, b, n, 1), Below(a, b, n, 2), Below(a, b, n, 3));
  }
}
