// Fixed-width machine words as integers, and the bit operations C applies to
// them. Bitwise operators are defined bit by bit; the lemmas say what the masks
// and shifts of the source mean arithmetically.

module Words {

  type u8 = x: int | 0 <= x < 0x100
  type u16 = x: int | 0 <= x < 0x1_0000
  type u32 = x: int | 0 <= x < 0x1_0000_0000
  type u64 = x: int | 0 <= x < 0x1_0000_0000_0000_0000

  const UINT32_MAX: u32 := 0xFFFF_FFFF

  // Conversion to an unsigned 32-bit type.
  function Wrap(x: int): u32 {
    x % 0x1_0000_0000
  }

  // The value of a word read as a two's-complement s32.
  function Signed(x: u32): int {
    if x < 0x8000_0000 then x else x - 0x1_0000_0000
  }

  predicate FitsSigned(x: int) {
    -0x8000_0000 <= x < 0x8000_0000
  }

  function SignedImm(x: u16): int {
    if x < 0x8000 then x else x - 0x1_0000
  }

  function SignExt8(x: u8): u32 {
    if x < 0x80 then x else x + 0xFFFF_FF00
  }

  function SignExt16(x: u16): u32 {
    if x < 0x8000 then x else x + 0xFFFF_0000
  }

  function SignExt32To64(x: u32): u64 {
    if x < 0x8000_0000 then x else x + 0xFFFF_FFFF_0000_0000
  }

  function Pow2(n: nat): (p: nat)
    ensures p > 0
  {
    if n == 0 then 1 else 2 * Pow2(n - 1)
  }

  function Shl(x: u32, n: nat): u32 {
    Wrap(x * Pow2(n))
  }

  function Shr(x: nat, n: nat): (r: nat)
    ensures r <= x
  {
    DivLe(x, Pow2(n));
    x / Pow2(n)
  }

  // Arithmetic right shift of an s32: Dafny's division rounds down for a
  // positive divisor, as the shift does.
  function Sra(x: u32, n: nat): u32 {
    Wrap(Signed(x) / Pow2(n))
  }

  lemma DivLe(x: nat, d: nat)
    requires d > 0
    ensures 0 <= x / d <= x
  {
    var q := x / d;
    if q > 0 {
      assert d * q >= q;
    }
  }

  function Bit(x: nat, i: nat): bool {
    x / Pow2(i) % 2 == 1
  }

  function And(a: nat, b: nat): (r: nat)
    ensures r <= a && r <= b
  {
    if a == 0 || b == 0 then 0
    else (if a % 2 == 1 && b % 2 == 1 then 1 else 0) + 2 * And(a / 2, b / 2)
  }

  function Or(a: nat, b: nat): (r: nat)
    ensures r <= a + b
    decreases a + b
  {
    if a == 0 && b == 0 then 0
    else (if a % 2 == 1 || b % 2 == 1 then 1 else 0) + 2 * Or(a / 2, b / 2)
  }

  function Xor(a: nat, b: nat): (r: nat)
    ensures r <= a + b
    decreases a + b
  {
    if a == 0 && b == 0 then 0
    else (if a % 2 != b % 2 then 1 else 0) + 2 * Xor(a / 2, b / 2)
  }

  function Not32(a: u32): u32 {
    UINT32_MAX - a
  }

  // The three operators act on each bit separately.
  lemma {:induction false} BitwiseMeaning(a: nat, b: nat, i: nat)
    ensures Bit(And(a, b), i) == (Bit(a, i) && Bit(b, i))
    ensures Bit(Or(a, b), i) == (Bit(a, i) || Bit(b, i))
    ensures Bit(Xor(a, b), i) == (Bit(a, i) != Bit(b, i))
    decreases i
  {
    if i == 0 {
      assert Pow2(0) == 1;
    } else {
      BitwiseMeaning(a / 2, b / 2, i - 1);
      BitShift(a, i);
      BitShift(b, i);
      BitShift(And(a, b), i);
      BitShift(Or(a, b), i);
      BitShift(Xor(a, b), i);
      assert And(a, b) / 2 == And(a / 2, b / 2);
      assert Or(a, b) / 2 == Or(a / 2, b / 2);
      assert Xor(a, b) / 2 == Xor(a / 2, b / 2);
    }
  }

  lemma BitShift(x: nat, i: nat)
    requires i > 0
    ensures Bit(x, i) == Bit(x / 2, i - 1)
  {
    HalfDiv(x, Pow2(i - 1));
  }

  lemma HalfDiv(x: nat, p: nat)
    requires p > 0
    ensures x / (2 * p) == x / 2 / p
  {
    var q, r := x / 2 / p, x / 2 % p;
    assert 2 * (p * q) == (2 * p) * q;
    DivUnique(x, 2 * p, q, 2 * r + x % 2);
  }

  // Euclidean division is unique.
  lemma DivUnique(x: int, d: int, q: int, r: int)
    requires d > 0 && x == d * q + r && 0 <= r < d
    ensures x / d == q && x % d == r
  {
    QuotientUnique(d, q, r, x / d, x % d);
  }

  lemma QuotientUnique(d: int, q: int, r: int, q': int, r': int)
    requires 0 <= r < d && 0 <= r' < d
    requires d * q + r == d * q' + r'
    ensures q == q' && r == r'
  {
    MulDiff(d, q, q');
    if q > q' {
      MulAtLeast(d, q - q');
    } else if q < q' {
      MulDiff(d, q', q);
      MulAtLeast(d, q' - q);
    }
  }

  lemma MulDiff(d: int, a: int, b: int)
    ensures d * (a - b) == d * a - d * b
  {
  }

  lemma MulAtLeast(d: int, k: int)
    requires d > 0 && k >= 1
    ensures d * k >= d
  {
  }

  // A mask of k low ones keeps the remainder modulo 2^k; its complement in n bits clears it.
  lemma {:induction false} MaskLow(x: nat, k: nat)
    ensures And(x, Pow2(k) - 1) == x % Pow2(k)
  {
    if k == 0 {
    } else if x == 0 {
    } else {
      MaskLow(x / 2, k - 1);
      assert (Pow2(k) - 1) / 2 == Pow2(k - 1) - 1;
      assert (Pow2(k) - 1) % 2 == 1;
      ModHalf(x, Pow2(k - 1));
      assert And(x, Pow2(k) - 1) == x % 2 + 2 * And(x / 2, Pow2(k - 1) - 1);
    }
  }

  lemma ModHalf(x: nat, p: nat)
    requires p > 0
    ensures x % (2 * p) == x % 2 + 2 * (x / 2 % p)
  {
    var q, r := x / 2 / p, x / 2 % p;
    assert x == 2 * (p * q + r) + x % 2;
    assert 2 * (p * q) == (2 * p) * q;
    DivUnique(x, 2 * p, q, 2 * r + x % 2);
  }

  // A mask of the bits from k up to n.
  lemma {:induction false} MaskRange(x: nat, k: nat, n: nat)
    requires k <= n
    ensures Pow2(k) <= Pow2(n)
    ensures And(x, Pow2(n) - Pow2(k)) == x % Pow2(n) - x % Pow2(k)
    decreases n
  {
    if k == 0 {
      MaskLow(x, n);
    } else {
      MaskRange(x / 2, k - 1, n - 1);
      ModHalf(x, Pow2(k - 1));
      ModHalf(x, Pow2(n - 1));
      assert (Pow2(n) - Pow2(k)) / 2 == Pow2(n - 1) - Pow2(k - 1);
      assert (Pow2(n) - Pow2(k)) % 2 == 0;
      assert And(x, Pow2(n) - Pow2(k)) == 2 * And(x / 2, Pow2(n - 1) - Pow2(k - 1));
    }
  }

  lemma MaskHigh(x: nat, k: nat, n: nat)
    requires k <= n && x < Pow2(n)
    ensures Pow2(k) <= Pow2(n)
    ensures And(x, Pow2(n) - Pow2(k)) == x - x % Pow2(k)
  {
    MaskRange(x, k, n);
    SmallMod(x, Pow2(n));
  }

  lemma SmallMod(x: nat, m: nat)
    requires x < m
    ensures x % m == x && x / m == 0
  {
  }

  // Operands with no bit in common: OR is addition.
  lemma {:induction false} OrDisjoint(a: nat, b: nat, k: nat)
    requires a % Pow2(k) == 0 && b < Pow2(k)
    ensures Or(a, b) == a + b
    decreases k
  {
    if k == 0 {
      OrZero(a);
    } else if a == 0 && b == 0 {
    } else {
      ModHalf(a, Pow2(k - 1));
      OrDisjoint(a / 2, b / 2, k - 1);
      assert Or(a, b) == (if a % 2 == 1 || b % 2 == 1 then 1 else 0) + 2 * Or(a / 2, b / 2);
    }
  }

  lemma {:induction false} OrZero(a: nat)
    ensures Or(a, 0) == a
  {
    if a > 0 { OrZero(a / 2); }
  }

  lemma {:induction false} OrCommutes(a: nat, b: nat)
    ensures Or(a, b) == Or(b, a)
    decreases a + b
  {
    if a + b > 0 { OrCommutes(a / 2, b / 2); }
  }

  lemma {:induction false} XorFits(a: nat, b: nat, k: nat)
    requires a < Pow2(k) && b < Pow2(k)
    ensures Xor(a, b) < Pow2(k) && Or(a, b) < Pow2(k)
  {
    if k > 0 { XorFits(a / 2, b / 2, k - 1); }
  }

  // The same facts for masks given by their boundary p = 2^k.
  lemma ClearLow(x: u32, k: nat, p: nat)
    requires k <= 32 && Pow2(k) == p
    ensures p <= 0x1_0000_0000
    ensures And(x, 0x1_0000_0000 - p) == x - x % p
    ensures (x - x % p) % p == 0
  {
    Pow2Values();
    hide And;
    MaskHigh(x, k, 32);
    QuotientPart(x, p);
  }

  lemma QuotientPart(x: nat, p: nat)
    requires p > 0
    ensures 0 <= x - x % p && (x - x % p) % p == 0
  {
    var hi := p * (x / p);
    DivUnique(hi, p, x / p, 0);
  }

  lemma KeepRange(x: nat, k: nat, p: nat, n: nat, q: nat)
    requires k <= n && Pow2(k) == p && Pow2(n) == q
    ensures p <= q
    ensures 0 <= x % q - x % p && (x % q - x % p) % p == 0
    ensures And(x, q - p) == x % q - x % p
  {
    hide And;
    MaskRange(x, k, n);
    ModMod(x, k, n);
    QuotientPart(x % q, p);
  }

  lemma {:induction false} ModMod(x: nat, k: nat, n: nat)
    requires k <= n
    ensures x % Pow2(n) % Pow2(k) == x % Pow2(k)
    decreases n
  {
    if k > 0 {
      var p, q := Pow2(k - 1), Pow2(n - 1);
      assert Pow2(k) == 2 * p && Pow2(n) == 2 * q;
      hide Pow2;
      ModMod(x / 2, k - 1, n - 1);
      ModHalf(x, p);
      ModHalf(x, q);
      ModHalf(x % (2 * q), p);
    }
  }

  lemma OrSum(a: nat, b: nat, k: nat, p: nat)
    requires Pow2(k) == p && a % p == 0 && b < p
    ensures Or(a, b) == a + b
  {
    OrDisjoint(a, b, k);
  }

  // The powers of two that occur as mask boundaries.
  lemma Pow2Values()
    ensures Pow2(1) == 2 && Pow2(2) == 4 && Pow2(4) == 16 && Pow2(5) == 32 && Pow2(6) == 64
    ensures Pow2(12) == 0x1000 && Pow2(20) == 0x10_0000 && Pow2(31) == 0x8000_0000
    ensures Pow2(8) == 0x100 && Pow2(16) == 0x1_0000 && Pow2(24) == 0x100_0000
    ensures Pow2(28) == 0x1000_0000 && Pow2(29) == 0x2000_0000 && Pow2(32) == 0x1_0000_0000
  {
    assert Pow2(5) == 32 && Pow2(6) == 64;
    assert Pow2(8) == 0x100;
    assert Pow2(16) == 0x1_0000 by { assert Pow2(12) == 0x1000; }
    assert Pow2(24) == 0x100_0000 by { assert Pow2(20) == 0x10_0000; }
    assert Pow2(28) == 0x1000_0000;
    assert Pow2(31) == 0x8000_0000;
  }

  lemma WrapIs(x: int, q: int, r: u32)
    requires x == 0x1_0000_0000 * q + r
    ensures Wrap(x) == r
  {
    DivUnique(x, 0x1_0000_0000, q, r);
  }

  lemma WrapMod4(x: int)
    ensures Wrap(x) % 4 == x % 4
  {
    var q, r := x / 0x1_0000_0000, Wrap(x);
    DivUnique(x, 4, 0x4000_0000 * q + r / 4, r % 4);
  }

  function And32(a: u32, b: u32): u32 { And(a, b) }

  function Or32(a: u32, b: u32): u32 {
    Pow2Values(); XorFits(a, b, 32);
    Or(a, b)
  }

  function Xor32(a: u32, b: u32): u32 {
    Pow2Values(); XorFits(a, b, 32);
    Xor(a, b)
  }
}
