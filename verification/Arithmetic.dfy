// Division is a bit-serial divider and multiplication is exact.

module Arithmetic {
  import opened Words
  import opened Alu

  // ---- the restoring divider

  datatype Divider = Divider(rem: nat, quo: nat)

  // Bring down a bit of the dividend; subtract the divisor if it fits.
  function Subtract(before: Divider, bit: bool, d: nat): Divider {
    var r := 2 * before.rem + (if bit then 1 else 0);
    if r >= d then Divider(r - d, 2 * before.quo + 1) else Divider(r, 2 * before.quo)
  }

  function Shifted(n: nat, d: nat, i: nat): Divider
    requires i <= 32
  {
    if i == 0 then Divider(0, 0) else Subtract(Shifted(n, d, i - 1), Bit(n, 32 - i), d)
  }

  lemma DivHalf(x: nat, p: nat)
    requires p > 0
    ensures x / (2 * p) == x / p / 2
  {
    var q, r := x / p, x % p;
    assert x == p * q + r;
    var h, b := q / 2, q % 2;
    assert p * q == (2 * p) * h + p * b by {
      assert p * (2 * h + b) == p * (2 * h) + p * b;
      assert p * (2 * h) == (2 * p) * h;
    }
    assert 0 <= p * b + r < 2 * p;
    DivUnique(x, 2 * p, h, p * b + r);
  }

  // The top part of a dividend divided by d; a zero divisor is subtracted every time.
  function Divided(top: nat, d: nat, p: nat): Divider
    requires p > 0
  {
    if d == 0 then Divider(top, p - 1) else Divider(top % d, top / d)
  }

  lemma SubtractDivided(next: nat, d: nat, p: nat)
    requires p > 0
    ensures Subtract(Divided(next / 2, d, p), next % 2 == 1, d) == Divided(next, d, 2 * p)
  {
    BringDown(next / 2, next, d);
  }

  // After i steps the divider has divided the top i bits.
  lemma {:induction false} DividerInvariant(n: nat, d: nat, i: nat)
    requires i <= 32 && n < 0x1_0000_0000
    ensures Shifted(n, d, i) == Divided(Shr(n, 32 - i), d, Pow2(i))
  {
    hide Divided, Subtract, Bit, Shr;
    if i == 0 {
      DivideNothing(n, d);
    } else {
      DividerInvariant(n, d, i - 1);
      DropBit(n, i);
      SubtractDivided(Shr(n, 32 - i), d, Pow2(i - 1));
    }
  }

  lemma DivideNothing(n: nat, d: nat)
    requires n < 0x1_0000_0000
    ensures Divided(Shr(n, 32), d, Pow2(0)) == Divider(0, 0)
  {
    Pow2Values();
    SmallMod(n, Pow2(32));
    assert Pow2(0) == 1;
    if d > 0 { SmallMod(0, d); }
  }

  lemma DropBit(n: nat, i: nat)
    requires 0 < i <= 32
    ensures Shr(n, 32 - (i - 1)) == Shr(n, 32 - i) / 2 && Bit(n, 32 - i) == (Shr(n, 32 - i) % 2 == 1)
  {
    var p := Pow2(32 - i);
    assert Pow2(32 - (i - 1)) == 2 * p;
    hide Pow2;
    DivHalf(n, p);
  }

  lemma BringDown(top: nat, next: nat, d: nat)
    requires top == next / 2
    ensures d > 0 ==>
              var r := 2 * (top % d) + next % 2;
              if r >= d then next % d == r - d && next / d == 2 * (top / d) + 1
              else next % d == r && next / d == 2 * (top / d)
  {
    if d > 0 {
      var q, r := top / d, top % d;
      assert next == d * (2 * q) + (2 * r + next % 2) by {
        assert next == 2 * (d * q + r) + next % 2;
        assert 2 * (d * q) == d * (2 * q);
      }
      if 2 * r + next % 2 >= d {
        assert d * (2 * q + 1) == d * (2 * q) + d;
        DivUnique(next, d, 2 * q + 1, 2 * r + next % 2 - d);
      } else {
        DivUnique(next, d, 2 * q, 2 * r + next % 2);
      }
    }
  }

  // What 32 iterations leave in hi and lo.
  function SerialDivu(a: u32, b: u32): HiLo {
    var d := Shifted(a, b, 32);
    HiLo(Wrap(d.rem), Wrap(d.quo))
  }

  function WithSign(x: int, negative: bool): int {
    if negative then -x else x
  }

  // The same divider run on magnitudes, the signs put back afterwards.
  function SerialDiv(a: u32, b: u32): HiLo {
    var dividend, divisor := Signed(a), Signed(b);
    var d := Shifted(Abs(dividend), Abs(divisor), 32);
    HiLo(Wrap(WithSign(d.rem, dividend < 0)), Wrap(WithSign(d.quo, (dividend < 0) != (divisor < 0))))
  }

  lemma SerialResult(n: nat, d: nat)
    requires n < 0x1_0000_0000
    ensures Shifted(n, d, 32) == if d == 0 then Divider(n, 0xFFFF_FFFF) else Divider(n % d, n / d)
  {
    Pow2Values();
    assert Pow2(0) == 1;
    DividerInvariant(n, d, 32);
  }

  // All 2^64 operand pairs, the zero divisor included.
  lemma DivuIsSerial(a: u32, b: u32)
    ensures Divu(a, b) == SerialDivu(a, b)
  {
    hide Shifted;
    SerialResult(a, b);
    if b > 0 {
      DivLe(a, b);
      DivLe(a % b, 1);
      assert a % b < b;
      SmallMod(a % b, 0x1_0000_0000);
      SmallMod(a / b, 0x1_0000_0000);
    }
  }

  // Likewise signed: one loop explains the zero divisor and 0x80000000 / -1.
  lemma DivIsSerial(a: u32, b: u32)
    ensures Alu.Div(a, b) == SerialDiv(a, b)
  {
    var x, y := Signed(a), Signed(b);
    hide Shifted, Wrap, Signed;
    SerialResult(Abs(x), Abs(y)) by {
      SignedRange(a);
    }
    SignedRange(a);
    SignedRange(b);
    if y == 0 {
      WrapIs(x, if x < 0 then -1 else 0, a);
      WrapIs(-0xFFFF_FFFF, -1, 1);
      WrapIs(0xFFFF_FFFF, 0, 0xFFFF_FFFF);
      WrapIs(0, 0, 0);
    } else if a == 0x8000_0000 && b == UINT32_MAX {
      assert Abs(x) == 0x8000_0000 && Abs(y) == 1;
      WrapIs(0x8000_0000, 0, 0x8000_0000);
      WrapIs(x, -1, 0x8000_0000);
      WrapIs(0, 0, 0);
    }
  }

  lemma SignedRange(a: u32)
    ensures FitsSigned(Signed(a)) && (Signed(a) == 0 <==> a == 0)
    ensures Signed(a) == a || Signed(a) == a - 0x1_0000_0000
    ensures Signed(a) < 0 <==> a >= 0x8000_0000
  {
  }

  lemma TruncParts(a: int, b: int)
    requires b != 0
    ensures b * TruncDiv(a, b) + TruncMod(a, b) == a
    ensures Abs(TruncMod(a, b)) < Abs(b) && (TruncMod(a, b) != 0 ==> (TruncMod(a, b) < 0) == (a < 0))
    ensures Abs(TruncDiv(a, b)) <= Abs(a)
  {
    var n: int, d: int := Abs(a), Abs(b);
    DivLe(n, d);
    var q: int, r: int := n / d, n % d;
    assert n == d * q + r;
    MulNeg(d, q);
    MulNeg(q, d);
    MulNeg2(d, q);
    assert b == d || b == -d;
    assert TruncDiv(a, b) == q || TruncDiv(a, b) == -q;
    hide Abs;
  }

  lemma MulNeg(x: int, y: int)
    ensures (-x) * y == -(x * y)
  {
  }

  lemma MulNeg2(x: int, y: int)
    ensures x * -y == -(x * y)
  {
  }

  // The quotient truncates toward zero and the remainder has the dividend's sign;
  // exact on every non-zero divisor but the one whose quotient does not fit.
  lemma DivExact(a: u32, b: u32)
    requires b != 0
    ensures var d := Alu.Div(a, b);
            && (Signed(b) * Signed(d.lo) + Signed(d.hi) == Signed(a) <==> !(a == 0x8000_0000 && b == UINT32_MAX))
            && Abs(Signed(d.hi)) < Abs(Signed(b))
            && (Signed(d.hi) != 0 ==> (Signed(d.hi) < 0) == (Signed(a) < 0))
  {
    var x: int, y: int := Signed(a), Signed(b);
    if !(a == 0x8000_0000 && b == UINT32_MAX) {
      TruncParts(x, y);
      QuotientFits(x, y);
      SignedWrap(TruncDiv(x, y));
      SignedWrap(TruncMod(x, y));
    }
    hide TruncDiv, TruncMod;
  }

  lemma QuotientFits(x: int, y: int)
    requires FitsSigned(x) && FitsSigned(y) && y != 0 && !(x == -0x8000_0000 && y == -1)
    ensures FitsSigned(TruncDiv(x, y)) && FitsSigned(TruncMod(x, y))
  {
    TruncParts(x, y);
    if x == -0x8000_0000 && Abs(y) >= 2 {
      HalfOrLess(Abs(x), Abs(y));
    }
  }

  lemma HalfOrLess(n: nat, d: nat)
    requires d >= 2
    ensures 2 * (n / d) <= n
  {
    var q := n / d;
    assert n == d * q + n % d;
    assert d * q >= 2 * q;
  }

  lemma SignedWrap(x: int)
    requires FitsSigned(x)
    ensures Signed(Wrap(x)) == x
  {
    WrapIs(x, if x < 0 then -1 else 0, if x < 0 then x + 0x1_0000_0000 else x);
  }

  // Unsigned division, and a zero divisor: the remainder is the dividend.
  lemma DivuExact(a: u32, b: u32)
    ensures var d := Divu(a, b);
            && b * d.lo + d.hi == a
            && (b != 0 ==> d.hi < b)
            && (b == 0 ==> d.hi == a && d.lo == UINT32_MAX)
  {
    if b != 0 {
      DivLe(a, b);
      assert a == b * (a / b) + a % b;
    }
  }

  // ---- multiplication

  // hi and lo as one 64-bit two's-complement number.
  function Signed64(p: HiLo): int {
    var v := p.hi * 0x1_0000_0000 + p.lo;
    if v < 0x8000_0000_0000_0000 then v else v - 0x1_0000_0000_0000_0000
  }

  lemma MultExact(a: u32, b: u32)
    ensures Signed64(Alu.Mult(a, b)) == Signed(a) * Signed(b)
  {
    var x, y := Signed(a), Signed(b);
    ProductBound(x, y);
    var p := x * y;
    var r := if p < 0 then p + 0x1_0000_0000_0000_0000 else p;
    var i, j := if x < 0 then 1 else 0, if y < 0 then 1 else 0;
    WideProduct(x, y, i, j);
    var q := x * j + i * y + 0x1_0000_0000_0000_0000 * i * j - (if p < 0 then 1 else 0);
    DivUnique(SignExt32To64(a) * SignExt32To64(b), 0x1_0000_0000_0000_0000, q, r);
  }

  lemma WideProduct(x: int, y: int, i: int, j: int)
    requires (i == 0 || i == 1) && (j == 0 || j == 1)
    ensures (x + 0x1_0000_0000_0000_0000 * i) * (y + 0x1_0000_0000_0000_0000 * j)
         == x * y + 0x1_0000_0000_0000_0000 * (x * j + i * y + 0x1_0000_0000_0000_0000 * i * j)
  {
  }

  lemma ProductBound(x: int, y: int)
    requires FitsSigned(x) && FitsSigned(y)
    ensures -0x4000_0000_0000_0000 <= x * y <= 0x4000_0000_0000_0000
  {
    MagnitudeBound(Abs(x), Abs(y));
    MulNeg(x, y);
    MulNeg2(x, y);
    MulNeg(x, -y);
  }

  lemma MagnitudeBound(m: int, n: int)
    requires 0 <= m <= 0x8000_0000 && 0 <= n <= 0x8000_0000
    ensures 0 <= m * n <= 0x4000_0000_0000_0000
  {
    MulMono(m, 0x8000_0000, n);
  }

  lemma MulMono(x: int, k: int, y: int)
    requires 0 <= x <= k && 0 <= y
    ensures 0 <= x * y <= k * y
  {
  }

  lemma MultuExact(a: u32, b: u32)
    ensures Multu(a, b).hi * 0x1_0000_0000 + Multu(a, b).lo == a * b
  {
    ProductFits(a, b);
    var p: int := a as int * b as int;
    SmallMod(p, 0x1_0000_0000_0000_0000);
    hide SplitProduct;
    Halves(p);
  }

  lemma ProductFits(x: int, y: int)
    requires 0 <= x <= 0xFFFF_FFFF && 0 <= y <= 0xFFFF_FFFF
    ensures 0 <= x * y < 0x1_0000_0000_0000_0000
  {
    MulMono(x, 0xFFFF_FFFF, y);
  }

  lemma Halves(p: u64)
    ensures SplitProduct(p).hi * 0x1_0000_0000 + SplitProduct(p).lo == p
  {
  }
}
