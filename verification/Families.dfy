// Instructions related across steps: the product is read back through MFHI and
// MFLO, and the trapping additions are the wrapping ones wherever they do not trap.

module Families {
  import opened Words
  import opened Mips
  import opened Alu
  import opened Machine
  import opened Effects
  import opened Exceptions
  import opened Arithmetic

  // ---- trapping and wrapping arithmetic

  // The word with ADD, SUB and ADDI replaced by ADDU, SUBU and ADDIU.
  function Untrap(w: u32): u32 {
    var k := Decode(w);
    if k.ADD? || k.SUB? then Wrap(w + 1) else if k.ADDI? then Wrap(w + 0x400_0000) else w
  }

  predicate IsTrapping(k: Mnemonic) {
    k.ADD? || k.SUB? || k.ADDI?
  }

  function Untrapped(k: Mnemonic): Mnemonic {
    if k.ADD? then ADDU else if k.SUB? then SUBU else if k.ADDI? then ADDIU else k
  }

  lemma UntrapFields(w: u32)
    requires IsTrapping(Decode(w))
    ensures var u := Untrap(w);
            && Decode(u) == Untrapped(Decode(w))
            && InstrRs(u) == InstrRs(w) && InstrRt(u) == InstrRt(w)
            && (Decode(w).ADDI? ==> InstrImm(u) == InstrImm(w))
            && (!Decode(w).ADDI? ==> InstrRd(u) == InstrRd(w))
  {
    TrappingCodes(w);
    hide InstrRs, InstrRt, InstrRd, InstrImm, InstrOp, InstrFunct, Decode, Wrap;
    if Decode(w).ADDI? {
      NextOp(w);
      WrapSmall(w + 0x400_0000);
      WrappingCodes(w + 0x400_0000);
    } else {
      NextFunct(w);
      WrapSmall(w + 1);
      WrappingCodes(w + 1);
    }
  }

  lemma WrapSmall(w: nat)
    requires w <= UINT32_MAX
    ensures Wrap(w) == w
  {
  }

  lemma TrappingCodes(w: u32)
    requires IsTrapping(Decode(w))
    ensures Decode(w).ADD? ==> InstrOp(w) == 0 && InstrFunct(w) == 0x20
    ensures Decode(w).SUB? ==> InstrOp(w) == 0 && InstrFunct(w) == 0x22
    ensures Decode(w).ADDI? ==> InstrOp(w) == 8
    ensures !Decode(w).ADDI? ==> w % 2 == 0
  {
    if !Decode(w).ADDI? {
      ModOfMod(w, 2, 32);
    }
    hide InstrRs;
  }

  lemma WrappingCodes(w: u32)
    ensures InstrOp(w) == 0 && InstrFunct(w) == 0x21 ==> Decode(w).ADDU?
    ensures InstrOp(w) == 0 && InstrFunct(w) == 0x23 ==> Decode(w).SUBU?
    ensures InstrOp(w) == 9 ==> Decode(w).ADDIU?
  {
    hide InstrOp, InstrFunct, InstrRs;
  }

  lemma NextQuotient(w: nat, h: nat)
    requires h > 0 && w % 2 == 0
    ensures (w + 1) / (2 * h) == w / (2 * h) && (w + 1) % (2 * h) == w % (2 * h) + 1
  {
    var k := 2 * h;
    ModOfMod(w, 2, h);
    assert w == k * (w / k) + w % k;
    assert w % k != k - 1;
    DivUnique(w + 1, k, w / k, w % k + 1);
  }

  lemma NextFunct(w: u32)
    requires w % 2 == 0
    ensures w + 1 <= UINT32_MAX
    ensures InstrOp(w + 1) == InstrOp(w) && InstrFunct(w + 1) == InstrFunct(w) + 1
    ensures InstrRs(w + 1) == InstrRs(w) && InstrRt(w + 1) == InstrRt(w) && InstrRd(w + 1) == InstrRd(w)
  {
    NextQuotient(w, 0x20);
    NextQuotient(w, 0x400);
    NextQuotient(w, 0x8000);
    NextQuotient(w, 0x10_0000);
    NextQuotient(w, 0x200_0000);
  }

  lemma NextOp(w: u32)
    requires InstrOp(w) < 63
    ensures w + 0x400_0000 <= UINT32_MAX
    ensures InstrOp(w + 0x400_0000) == InstrOp(w) + 1
    ensures InstrRs(w + 0x400_0000) == InstrRs(w) && InstrRt(w + 0x400_0000) == InstrRt(w)
    ensures InstrImm(w + 0x400_0000) == InstrImm(w)
  {
    DivUnique(w + 0x400_0000, 0x400_0000, w / 0x400_0000 + 1, w % 0x400_0000);
    DivUnique(w + 0x400_0000, 0x20_0000, w / 0x20_0000 + 32, w % 0x20_0000);
    DivUnique(w / 0x20_0000 + 32, 32, w / 0x20_0000 / 32 + 1, w / 0x20_0000 % 32);
    DivUnique(w + 0x400_0000, 0x1_0000, w / 0x1_0000 + 0x400, w % 0x1_0000);
    DivUnique(w / 0x1_0000 + 0x400, 32, w / 0x1_0000 / 32 + 32, w / 0x1_0000 % 32);
  }

  // Without overflow both forms write the same value.
  lemma SameSum(a: u32, b: u32)
    ensures Wrap(Signed(a) + Signed(b)) == Wrap(a + b)
    ensures Wrap(Signed(a) - Signed(b)) == Wrap(a - b)
  {
    var i, j := if a < 0x8000_0000 then 0 else 1, if b < 0x8000_0000 then 0 else 1;
    WrapShift(a as int + b, -i - j);
    WrapShift(a as int - b, j - i);
  }

  lemma WrapShift(x: int, q: int)
    ensures Wrap(x + 0x1_0000_0000 * q) == Wrap(x)
  {
    WrapIs(x + 0x1_0000_0000 * q, x / 0x1_0000_0000 + q, Wrap(x));
  }

  // An instruction of the trapping family that does not overflow does what its
  // counterpart does; the counterpart never traps.
  lemma ExecUntrapped(s: State)
    requires DataOk(s) && IsTrapping(Kind(s)) && !Overflows(s)
    ensures var u := s.(instr := Untrap(s.instr));
            DataOk(u) && Exec(u) == Exec(s).(instr := Untrap(s.instr))
  {
    var u := s.(instr := Untrap(s.instr));
    UntrapFields(s.instr);
    SameSum(A(s), B(s));
    SameSum(SignExt16(Imm(s)), A(s));
    hide Decode, Untrap, InstrRs, InstrRt, InstrRd, InstrImm, InstrShamt, Signed, SignExt16, Wrap;
    assert DataOk(u);
    SameWrite(s, u);
    hide DataOk, AddOverflows, SubOverflows, Overflows;
    ExecArithOrTrap(s);
    ExecArithOrTrap(u);
    hide Exec;
  }

  lemma SameWrite(s: State, u: State)
    requires u == s.(instr := u.instr) && IsTrapping(Kind(s)) && Kind(u) == Untrapped(Kind(s))
    requires InstrRs(u.instr) == InstrRs(s.instr) && InstrRt(u.instr) == InstrRt(s.instr)
    requires Kind(s).ADDI? ==> Imm(u) == Imm(s)
    ensures !Overflows(u)
    ensures !Kind(s).ADDI? ==> ArithValue(Kind(u), A(u), B(u)) == ArithValue(Kind(s), A(s), B(s))
    ensures Kind(s).ADDI? ==> ImmediateValue(Kind(u), A(u), Imm(u)) == ImmediateValue(Kind(s), A(s), Imm(s))
  {
    SameSum(A(s), B(s));
    SameSum(SignExt16(Imm(s)), A(s));
    hide Decode, InstrRs, InstrRt, InstrImm, Signed, SignExt16, Wrap;
  }

  // ---- whole programs of given words

  // No addition or subtraction of the program overflows.
  ghost predicate NeverOverflows(s: State, ws: seq<u32>)
    requires WordsOk(s, ws)
    decreases |ws|
  {
    ws == [] || (!Overflows(Front(s, ws[0])) && NeverOverflows(StepWord(s, ws[0]), ws[1..]))
  }

  function UntrapAll(ws: seq<u32>): (us: seq<u32>)
    ensures |us| == |ws|
  {
    if ws == [] then [] else [Untrap(ws[0])] + UntrapAll(ws[1..])
  }

  ghost predicate SameButInstr(s: State, t: State) {
    t == s.(instr := t.instr)
  }

  lemma StepUntrapped(s: State, t: State, w: u32)
    requires SameButInstr(s, t) && WordOk(s, w) && !Overflows(Front(s, w))
    ensures WordOk(t, Untrap(w)) && SameButInstr(StepWord(s, w), StepWord(t, Untrap(w)))
  {
    FrontUntrapped(s, t, w);
    hide Front, Exec, DataOk, Overflows, Untrap, Decode;
    if IsTrapping(Decode(w)) {
      ExecUntrapped(Front(s, w));
    } else {
      assert Untrap(w) == w by { UntrapElse(w); }
    }
  }

  lemma UntrapElse(w: u32)
    requires !IsTrapping(Decode(w))
    ensures Untrap(w) == w
  {
    hide Decode;
  }

  lemma FrontUntrapped(s: State, t: State, w: u32)
    requires SameButInstr(s, t)
    ensures Front(t, Untrap(w)) == Front(s, w).(instr := Untrap(w)) && Front(s, w).instr == w
  {
    hide RaiseCop0, Untrap;
  }

  // On a program that never overflows, the two families are interchangeable:
  // only the record of the last word executed differs.
  lemma {:induction false} FamiliesInterchangeable(s: State, t: State, ws: seq<u32>)
    requires SameButInstr(s, t) && WordsOk(s, ws) && NeverOverflows(s, ws)
    ensures WordsOk(t, UntrapAll(ws)) && SameButInstr(RunWords(s, ws), RunWords(t, UntrapAll(ws)))
    decreases |ws|
  {
    hide StepWord, WordOk, Front, Overflows, Untrap;
    if ws != [] {
      StepUntrapped(s, t, ws[0]);
      assert UntrapAll(ws)[1..] == UntrapAll(ws[1..]);
      FamiliesInterchangeable(StepWord(s, ws[0]), StepWord(t, Untrap(ws[0])), ws[1..]);
    }
  }

  // ---- reading a product back

  lemma MultiplyStep(s: State, w: u32)
    requires WordOk(s, w) && (Decode(w).MULT? || Decode(w).MULTU?)
    ensures var f, t := Front(s, w), StepWord(s, w);
            HiLo(t.hi, t.lo) == if Decode(w).MULT? then Alu.Mult(A(f), B(f)) else Multu(A(f), B(f))
  {
    FrontKeeps(s, w);
    hide Front, DataOk, Decode, Exec, Alu.Mult, Multu;
    ExecHiLo(Front(s, w));
  }

  lemma MoveStep(s: State, w: u32)
    requires WordOk(s, w) && (Decode(w).MFHI? || Decode(w).MFLO?)
    ensures var t, rd := StepWord(s, w), InstrRd(w);
            && t.hi == s.hi && t.lo == s.lo && t.ldPend == EMPTY
            && (rd != 0 ==> t.gpr[rd] == (if Decode(w).MFHI? then s.hi else s.lo) && t.ldNext.dst != rd)
            && (forall r: RegIndex :: r != rd && r != 0 && s.ldNext.dst != r ==> t.gpr[r] == s.gpr[r])
            && (t.ldNext == s.ldPend || t.ldNext == EMPTY)
  {
    FrontKeeps(s, w);
    hide Front, DataOk, Decode, Exec;
    ExecMoveFrom(Front(s, w));
  }

  // MULT or MULTU, then MFHI and MFLO into two different registers: together
  // they hold the exact 64-bit product of the operands, signed or unsigned.
  lemma ProductReadBack(s: State, mul: u32, mfhi: u32, mflo: u32)
    requires WordsOk(s, [mul, mfhi, mflo])
    requires (Decode(mul).MULT? || Decode(mul).MULTU?) && Decode(mfhi).MFHI? && Decode(mflo).MFLO?
    requires InstrRd(mfhi) != InstrRd(mflo) && InstrRd(mfhi) != 0 && InstrRd(mflo) != 0
    ensures var f, t := Front(s, mul), RunWords(s, [mul, mfhi, mflo]);
            var p := HiLo(t.gpr[InstrRd(mfhi)], t.gpr[InstrRd(mflo)]);
            && (Decode(mul).MULT? ==> Signed64(p) == Signed(A(f)) * Signed(B(f)))
            && (Decode(mul).MULTU? ==> p.hi * 0x1_0000_0000 + p.lo == A(f) * B(f))
  {
    var f := Front(s, mul);
    hide Decode, Front, DataOk, StepWord, WordOk, Alu.Mult, Multu, Signed64;
    ThreeWords(s, mul, mfhi, mflo);
    var s1 := StepWord(s, mul);
    var s2 := StepWord(s1, mfhi);
    MultiplyStep(s, mul);
    MoveStep(s1, mfhi);
    MoveStep(s2, mflo);
    MultExact(A(f), B(f));
    MultuExact(A(f), B(f));
  }

  lemma ThreeWords(s: State, a: u32, b: u32, c: u32)
    requires WordsOk(s, [a, b, c])
    ensures WordOk(s, a) && WordOk(StepWord(s, a), b) && WordOk(StepWord(StepWord(s, a), b), c)
    ensures RunWords(s, [a, b, c]) == StepWord(StepWord(StepWord(s, a), b), c)
  {
    hide StepWord, WordOk;
    assert [a, b, c][1..] == [b, c] && [b, c][1..] == [c] && [c][1..] == [];
    var s1 := StepWord(s, a);
    assert WordsOk(s1, [b, c]);
    var s2 := StepWord(s1, b);
    assert WordsOk(s2, [c]);
    assert RunWords(s2, [c]) == RunWords(StepWord(s2, c), []);
    assert RunWords(s1, [b, c]) == RunWords(s2, [c]);
    assert RunWords(s, [a, b, c]) == RunWords(s1, [b, c]);
  }
}
