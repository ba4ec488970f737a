// What the register-writing instructions compute, in terms independent of the
// model's own operators: bits, signed numbers and bytes.

module Reference {
  import opened Words
  import opened Mips
  import opened Memory
  import opened Machine
  import opened Exceptions
  import opened Arithmetic

  // The signed reading of a word: the number in two's-complement range that is
  // congruent to it.
  lemma SignedMeaning(x: u32, n: int)
    ensures -0x8000_0000 <= Signed(x) <= 0x7FFF_FFFF && (Signed(x) - x) % 0x1_0000_0000 == 0
    ensures -0x8000_0000 <= n <= 0x7FFF_FFFF && (n - x) % 0x1_0000_0000 == 0 ==> n == Signed(x)
  {
  }

  // Bit i of every logical result is the connective on the operands' bits.
  lemma LogicalBits(a: u32, b: u32, imm: u16, i: nat)
    requires i < 32
    ensures Bit(ArithValue(AND, a, b), i) == (Bit(a, i) && Bit(b, i))
    ensures Bit(ArithValue(OR, a, b), i) == (Bit(a, i) || Bit(b, i))
    ensures Bit(ArithValue(XOR, a, b), i) == (Bit(a, i) != Bit(b, i))
    ensures Bit(ArithValue(NOR, a, b), i) == !(Bit(a, i) || Bit(b, i))
    ensures Bit(ImmediateValue(ANDI, a, imm), i) == (Bit(a, i) && Bit(imm, i))
    ensures Bit(ImmediateValue(ORI, a, imm), i) == (Bit(a, i) || Bit(imm, i))
    ensures Bit(ImmediateValue(XORI, a, imm), i) == (Bit(a, i) != Bit(imm, i))
  {
    BitwiseMeaning(a, b, i);
    BitwiseMeaning(a, imm, i);
    NotBits(Or32(a, b), i);
    hide Bit, And, Or, Xor;
  }

  lemma NotBits(x: u32, i: nat)
    requires i < 32
    ensures Bit(Not32(x), i) == !Bit(x, i)
  {
    Pow2Values();
    ComplementBit(x, i, 32);
  }

  lemma {:induction false} ComplementBit(x: nat, i: nat, n: nat)
    requires i < n && x < Pow2(n)
    ensures Pow2(n) - 1 - x >= 0
    ensures Bit(Pow2(n) - 1 - x, i) == !Bit(x, i)
    decreases i
  {
    var y, half := Pow2(n) - 1 - x, Pow2(n - 1);
    assert Pow2(n) == 2 * half;
    hide Pow2;
    if i == 0 {
      FirstBit(x);
      FirstBit(y);
    } else {
      ComplementBit(x / 2, i - 1, n - 1);
      assert y / 2 == half - 1 - x / 2;
      hide Bit;
      BitShift(x, i);
      BitShift(y, i);
    }
  }

  lemma FirstBit(x: nat)
    ensures Bit(x, 0) == (x % 2 == 1)
  {
    assert Pow2(0) == 1;
  }

  // Shifts multiply and divide by powers of two; the arithmetic one on the signed value.
  lemma ShiftMeaning(a: u32, b: u32, n: RegIndex)
    ensures (ShiftValue(SLL, a, b, n) - b * Pow2(n)) % 0x1_0000_0000 == 0
    ensures ShiftValue(SRL, a, b, n) * Pow2(n) <= b < (ShiftValue(SRL, a, b, n) + 1) * Pow2(n)
    ensures var r := Signed(ShiftValue(SRA, a, b, n)); r * Pow2(n) <= Signed(b) < (r + 1) * Pow2(n)
    ensures ShiftValue(SLLV, a, b, n) == ShiftValue(SLL, a, b, a % 32)
    ensures ShiftValue(SRLV, a, b, n) == ShiftValue(SRL, a, b, a % 32)
    ensures ShiftValue(SRAV, a, b, n) == ShiftValue(SRA, a, b, a % 32)
  {
    var p := Pow2(n);
    WrapDiff(b * p);
    FloorBounds(b, p);
    FloorBounds(Signed(b), p);
    FloorFits(Signed(b), p);
    SignedWrap(Signed(b) / p);
    hide Pow2, Wrap, Signed;
  }

  lemma WrapDiff(x: int)
    ensures (Wrap(x) - x) % 0x1_0000_0000 == 0
  {
    var q := x / 0x1_0000_0000;
    DivUnique(Wrap(x) - x, 0x1_0000_0000, -q, 0);
  }

  lemma FloorBounds(x: int, p: int)
    requires p > 0
    ensures x / p * p <= x < (x / p + 1) * p
  {
    var q, r := x / p, x % p;
    assert x == p * q + r;
    assert (q + 1) * p == p * q + p;
  }

  lemma FloorFits(x: int, p: int)
    requires FitsSigned(x) && p > 0
    ensures FitsSigned(x / p)
  {
    FloorBounds(x, p);
    Scale(x / p, p);
    Scale(-(x / p + 1), p);
  }

  lemma Scale(q: int, p: int)
    requires p > 0
    ensures q >= 0 ==> q * p >= q
  {
    if q >= 0 {
      assert q * p == q + q * (p - 1);
    }
  }

  // The wrapping sums differ from the exact ones by a multiple of 2^32.
  lemma SumMeaning(a: u32, b: u32, imm: u16)
    ensures (ArithValue(ADDU, a, b) - (a + b)) % 0x1_0000_0000 == 0
    ensures (ArithValue(SUBU, a, b) - (a - b)) % 0x1_0000_0000 == 0
    ensures (ImmediateValue(ADDIU, a, imm) - (a + SignedImm(imm))) % 0x1_0000_0000 == 0
  {
    WrapDiff(a as int + b);
    WrapDiff(a as int - b);
    var sum: int := SignExt16(imm) + a;
    WrapDiff(sum);
    hide Wrap;
    if imm >= 0x8000 {
      var d: int := Wrap(sum) - sum;
      DivUnique(d + 0x1_0000_0000, 0x1_0000_0000, d / 0x1_0000_0000 + 1, 0);
    }
  }

  // Comparisons, on the numbers the registers stand for, and the upper half.
  lemma CompareMeaning(a: u32, b: u32, imm: u16)
    ensures ArithValue(SLT, a, b) == if Signed(a) < Signed(b) then 1 else 0
    ensures ArithValue(SLTU, a, b) == if a < b then 1 else 0
    ensures ImmediateValue(SLTI, a, imm) == if Signed(a) < SignedImm(imm) then 1 else 0
    ensures ImmediateValue(SLTIU, a, imm) == if a < Wrap(SignedImm(imm)) then 1 else 0
    ensures ImmediateValue(LUI, a, imm) / 0x1_0000 == imm && ImmediateValue(LUI, a, imm) % 0x1_0000 == 0
  {
    DivUnique(imm as int * 0x1_0000, 0x1_0000, imm, 0);
    SignedExt(imm);
    assert SignExt16(imm) == Wrap(SignedImm(imm)) by {
      WrapIs(SignedImm(imm), if imm >= 0x8000 then -1 else 0, SignExt16(imm));
    }
    hide Signed, SignedImm, SignExt16, Wrap;
  }

  // Without overflow the trapping additions are exact on signed numbers.
  lemma ExactSums(a: u32, b: u32, imm: u16)
    ensures !AddOverflows(a, b) ==> Signed(ArithValue(ADD, a, b)) == Signed(a) + Signed(b)
    ensures !SubOverflows(a, b) ==> Signed(ArithValue(SUB, a, b)) == Signed(a) - Signed(b)
    ensures !AddOverflows(SignExt16(imm), a) ==> Signed(ImmediateValue(ADDI, a, imm)) == Signed(a) + SignedImm(imm)
  {
    SignedExt(imm);
    hide Signed, SignExt16, SignedImm, Wrap;
    if !AddOverflows(a, b) { SignedWrap(Signed(a) + Signed(b)); }
    if !SubOverflows(a, b) { SignedWrap(Signed(a) - Signed(b)); }
    if !AddOverflows(SignExt16(imm), a) { SignedWrap(Signed(SignExt16(imm)) + Signed(a)); }
  }

  // The aligned loads, byte by byte.
  lemma LoadMeaning(s: State)
    requires IsLoad(Kind(s)) && !Misaligned(s) && DataOk(s) && Writable(AccessPaddr(s), AccessWidth(Kind(s)))
    ensures var v, p := LoadValue(s), AccessPaddr(s);
            var b := BytesAt(s.mem, p, AccessWidth(Kind(s)));
            && (Kind(s).LBU? ==> v == b[0])
            && (Kind(s).LB? ==> Signed(v) == if b[0] < 0x80 then b[0] as int else b[0] as int - 0x100)
            && (Kind(s).LHU? ==> v == Le2(b[0], b[1]))
            && (Kind(s).LH? ==> Signed(v) == SignedImm(Le2(b[0], b[1])))
            && (Kind(s).LW? ==> v == Le4(b[0], b[1], b[2], b[3]))
  {
    var p, n := AccessPaddr(s), AccessWidth(Kind(s));
    LoadIsBytes(s.mem, p, n);
    ComposeGet(BytesAt(s.mem, p, n));
    LoadFits(s.mem, p, n);
    hide Decode, DataOk, Misaligned, AccessPaddr, Load, LoadOk, BytesAt, Compose, Writable;
    SignedExt(Le2(0, 0));
  }

  // The aligned stores: the low bytes of the register go to the bytes addressed,
  // and every other byte of RAM and scratchpad stays.
  lemma StoreMeaning(s: State, q: u32)
    requires IsStore(Kind(s)) && !IsUnalignedAccess(Kind(s)) && Addresses(s) && !Misaligned(s) && DataOk(s)
    requires Writable(AccessPaddr(s), AccessWidth(Kind(s))) && Writable(q, 1)
    ensures var p, n := AccessPaddr(s), AccessWidth(Kind(s));
            ByteAt(Exec(s).mem, q) == if p <= q < p + n then Byte(B(s), q - p) else ByteAt(s.mem, q)
  {
    var p, n := AccessPaddr(s), AccessWidth(Kind(s));
    var v := StoreValue(s);
    LowBytes(B(s));
    assert Exec(s).mem == Store(s.mem, p, n, v) by {
      hide Decode, DataOk, Store, AccessPaddr, Misaligned, GprAfter, Cop0After, HiLoAfter, StoreValue;
    }
    assert v == (if n == 1 then B(s) % 0x100 else if n == 2 then B(s) % 0x1_0000 else B(s)) by {
      hide Decode, DataOk, Store, AccessPaddr, Misaligned, B;
    }
    StoreThenByte(s.mem, p, n, v, q);
    hide Decode, DataOk, Exec, Store, StoreOk, AccessPaddr, Misaligned, AccessWidth, Writable, ByteAt, Byte, StoreValue, B;
  }

  lemma LowBytes(v: u32)
    ensures Byte(v % 0x100, 0) == Byte(v, 0)
    ensures Byte(v % 0x1_0000, 0) == Byte(v, 0) && Byte(v % 0x1_0000, 1) == Byte(v, 1)
  {
    ModOfMod(v, 0x100, 0x100);
    var h := v % 0x1_0000;
    DivUnique(v, 0x100, 0x100 * (v / 0x1_0000) + h / 0x100, h % 0x100);
    ModHalfOf(v / 0x1_0000, h / 0x100);
  }

  lemma ModHalfOf(q: nat, r: nat)
    requires r < 0x100
    ensures (0x100 * q + r) % 0x100 == r
  {
  }
}
