// The instructions one by one: what each does to the machine that dispatches it,
// in terms of the fields of its word, numbers, bits and bytes.

module Architecture {
  import opened Words
  import opened Mips
  import opened Encoding
  import opened Alu
  import opened Machine
  import opened Effects
  import opened Arithmetic
  import Families

  // The machine dispatches instruction i.
  predicate Executes(s: State, i: Instruction) {
    Legal(i) && s.instr == Encode(i)
  }

  lemma Operands(s: State, i: Instruction)
    requires Executes(s, i)
    ensures Kind(s) == i.k
    ensures !i.JType? ==> A(s) == s.gpr[i.rs] && B(s) == s.gpr[i.rt] && InstrRs(s.instr) == i.rs && InstrRt(s.instr) == i.rt
    ensures i.RType? || i.CType? ==> InstrRd(s.instr) == i.rd && InstrShamt(s.instr) == i.shamt
    ensures i.IType? ==> Imm(s) == i.imm
    ensures i.JType? ==> InstrTarget(s.instr) == i.target
  {
    DecodeEncode(i);
    hide Decode, Encode, Legal, InstrRs, InstrRt, InstrRd, InstrShamt, InstrImm, InstrTarget;
  }

  // The groups of the architecture's tables.
  lemma SpecialGroups(k: Mnemonic)
    ensures FunctOf(k) <= 7 ==> IsShift(k)
    ensures 32 <= FunctOf(k) < 64 ==> IsRegArith(k)
  {
  }

  lemma MainGroups(k: Mnemonic)
    ensures OpcodeOf(k) <= 7 ==> IsConditional(k)
    ensures 8 <= OpcodeOf(k) <= 15 ==> IsImmediate(k)
    ensures 32 <= OpcodeOf(k) < 64 ==> if OpcodeOf(k) < 40 then IsLoad(k) else IsStore(k)
  {
  }

  lemma LegalCode(k: Mnemonic, rs: RegIndex, rt: RegIndex, rd: RegIndex, shamt: RegIndex)
    requires Legal(RType(k, rs, rt, rd, shamt))
    ensures FunctOf(k) < 64
  {
    hide FunctOf;
  }

  // What a transfer of control leaves alone.
  ghost predicate SameButControl(s: State, t: State) {
    && t.hi == s.hi && t.lo == s.lo && t.cop0 == s.cop0 && t.mem == s.mem
    && t.pc == s.pc && t.ldPend == s.ldPend && t.currPc == s.currPc
  }

  // ---- branches

  // The address a branch goes to: its offset is four times the immediate, cut to
  // 16 bits, and counts from the next instruction; in a delay slot, from three
  // instructions further.
  function BranchTo(s: State, imm: u16): u32 {
    Wrap(s.currPc + (if s.inDelaySlot then 16 else 4) + SignedImm(imm * 4 % 0x1_0000))
  }

  lemma BranchAddress(w: u32, pc: u32, adjust: u32)
    requires adjust <= 12
    ensures CalcBranchAddr(w, Wrap(pc + adjust)) == Wrap(pc + adjust + 4 + SignedImm(InstrImm(w) * 4 % 0x1_0000))
  {
    hide InstrImm;
    var off := InstrImm(w) * 4 % 0x1_0000;
    var x: int := pc + adjust;
    var e := if off >= 0x8000 then 1 else 0;
    Families.WrapShift(x + 4 + SignedImm(off), e - x / 0x1_0000_0000);
    assert BranchOffset(InstrImm(w)) == SignedImm(off) + 0x1_0000_0000 * e;
    assert Wrap(x) == x - x / 0x1_0000_0000 * 0x1_0000_0000;
  }

  lemma BranchLaw(s: State, i: Instruction)
    requires Executes(s, i) && i.IType? && OpcodeOf(i.k) <= 7 && DataOk(s)
    ensures var t, a, b, target := Exec(s), s.gpr[i.rs], s.gpr[i.rt], BranchTo(s, i.imm);
            && (i.k.BEQ? ==> t.nextPc == if a == b then target else s.nextPc)
            && (i.k.BNE? ==> t.nextPc == if a != b then target else s.nextPc)
            && (i.k.BLEZ? ==> t.nextPc == if a == 0 || a >= 0x8000_0000 then target else s.nextPc)
            && (i.k.BGTZ? ==> t.nextPc == if 0 < a < 0x8000_0000 then target else s.nextPc)
            && (i.k.BCOND? && i.rt % 2 == 0 ==> t.nextPc == if a >= 0x8000_0000 then target else s.nextPc)
            && (i.k.BCOND? && i.rt % 2 == 1 ==> t.nextPc == if a < 0x8000_0000 then target else s.nextPc)
            && t.nextInDelaySlot && SameButControl(s, t)
            && t.gpr == (if i.k.BCOND? && (i.rt == 16 || i.rt == 17) then s.gpr[31 := Wrap(s.currPc + 8)] else s.gpr)[0 := 0]
  {
    hide Exec, DataOk, Decode, Encode, Legal, OpcodeOf, Condition, BranchTo, Wrap, SameButControl, InstrRt, InstrRs, Executes;
    Operands(s, i);
    MainGroups(i.k);
    BranchParts(s);
    BranchCondition(s, i);
  }

  lemma BranchCondition(s: State, i: Instruction)
    requires Executes(s, i) && i.IType?
    ensures var a, b := s.gpr[i.rs], s.gpr[i.rt];
            && (i.k.BEQ? ==> (Condition(s) <==> a == b))
            && (i.k.BNE? ==> (Condition(s) <==> a != b))
            && (i.k.BLEZ? ==> (Condition(s) <==> a == 0 || a >= 0x8000_0000))
            && (i.k.BGTZ? ==> (Condition(s) <==> 0 < a < 0x8000_0000))
            && (i.k.BCOND? && i.rt % 2 == 0 ==> (Condition(s) <==> a >= 0x8000_0000))
            && (i.k.BCOND? && i.rt % 2 == 1 ==> (Condition(s) <==> a < 0x8000_0000))
  {
    Operands(s, i);
    hide Decode, Encode, Legal, InstrRs, InstrRt;
  }

  lemma BranchParts(s: State)
    requires IsConditional(Kind(s)) && DataOk(s)
    ensures var t := Exec(s);
            && BranchParted(s, t, Condition(s))
            && t.gpr == (if Kind(s).BCOND? && (InstrRt(s.instr) == 16 || InstrRt(s.instr) == 17)
                         then s.gpr[31 := Wrap(s.currPc + 8)] else s.gpr)[0 := 0]
  {
    hide Exec, DataOk, Decode, Condition, WithBranch, WithGpr, Linked, Executed, InstrRt, BranchTo, Wrap;
    BranchLink(s);
    ExecBranch(s);
    Components(s, WithBranch(Linked(s), Condition(s)));
    LinkedBranch(s, Condition(s));
  }

  // The state that an instruction leaves, component by component.
  lemma Components(s: State, t: State)
    requires DataOk(s) && Executed(s, t)
    ensures var e := Exec(s);
            && e.gpr == t.gpr[0 := 0] && e.cop0 == t.cop0 && e.hi == t.hi && e.lo == t.lo && e.mem == t.mem
            && e.currPc == t.currPc && e.pc == t.pc && e.nextPc == t.nextPc && e.nextInDelaySlot == t.nextInDelaySlot
            && e.ldNext == t.ldNext && e.ldPend == t.ldPend
  {
    hide Exec, DataOk;
  }

  lemma LinkedBranch(s: State, taken: bool)
    ensures var link := WithGpr(s, 31, Wrap(s.currPc + 8));
            && link.gpr == s.gpr[31 := Wrap(s.currPc + 8)]
            && BranchParted(s, WithBranch(s, taken), taken) && BranchParted(s, WithBranch(link, taken), taken)
            && WithBranch(link, taken).gpr == link.gpr && WithBranch(s, taken).gpr == s.gpr
  {
    BranchAddress(s.instr, s.currPc, Adjust(s));
    hide CalcBranchAddr, SignedImm, Wrap;
  }

  ghost predicate BranchParted(s: State, t: State, taken: bool) {
    && t.nextPc == (if taken then BranchTo(s, Imm(s)) else s.nextPc)
    && t.nextInDelaySlot && SameButControl(s, t)
  }

  lemma BranchLink(s: State)
    requires IsConditional(Kind(s)) && DataOk(s)
    ensures Linked(s) == if Kind(s).BCOND? && (InstrRt(s.instr) == 16 || InstrRt(s.instr) == 17)
                         then WithGpr(s, 31, Wrap(s.currPc + 8)) else s
  {
    hide Decode, DataOk, InstrRt, Traps, ShiftValue, ArithValue, ImmediateValue, Misaligned, LoadValue;
  }

  // ---- jumps

  lemma JumpLaw(s: State, k: Mnemonic, target: TargetField)
    requires Executes(s, JType(k, target)) && DataOk(s)
    ensures var t := Exec(s);
            && t.nextPc == target * 4 + s.currPc / 0x1000_0000 * 0x1000_0000
            && t.gpr == (if k.JAL? then s.gpr[31 := Wrap(s.currPc + 8)] else s.gpr)[0 := 0]
            && t.nextInDelaySlot && SameButControl(s, t)
  {
    Operands(s, JType(k, target));
    JumpKinds(k, target);
    JumpParts(s);
    hide Exec, DataOk, Decode, Encode, Legal, Executes, SameButControl, Wrap, InstrRd, InstrTarget;
  }

  lemma JumpKinds(k: Mnemonic, target: TargetField)
    requires Legal(JType(k, target))
    ensures k.J? || k.JAL?
  {
  }

  lemma JumpRegisterLaw(s: State, k: Mnemonic, rs: RegIndex, rt: RegIndex, rd: RegIndex, shamt: RegIndex)
    requires Executes(s, RType(k, rs, rt, rd, shamt)) && (k.JR? || k.JALR?) && DataOk(s)
    ensures var t := Exec(s);
            && t.gpr == (if k.JALR? then s.gpr[rd := Wrap(s.currPc + 8)] else s.gpr)[0 := 0]
            && (k.JR? || s.gpr[rs] % 4 == 0 ==> t.nextPc == s.gpr[rs] && t.nextInDelaySlot && SameButControl(s, t))
  {
    Operands(s, RType(k, rs, rt, rd, shamt));
    JumpParts(s);
    hide Exec, DataOk, Decode, Encode, Legal, Executes, SameButControl, Wrap, InstrRs, InstrRd, InstrTarget;
  }

  lemma JumpParts(s: State)
    requires DataOk(s) && (Kind(s).J? || Kind(s).JAL? || Kind(s).JR? || Kind(s).JALR?)
    ensures var t, k, link, region := Exec(s), Kind(s), Wrap(s.currPc + 8), s.currPc / 0x1000_0000 * 0x1000_0000;
            && (k.J? || k.JAL? ==> t.nextPc == InstrTarget(s.instr) * 4 + region)
            && (k.JR? || (k.JALR? && A(s) % 4 == 0) ==> t.nextPc == A(s))
            && t.gpr == (if k.JAL? then s.gpr[31 := link] else if k.JALR? then s.gpr[InstrRd(s.instr) := link] else s.gpr)[0 := 0]
            && ((k.JALR? ==> A(s) % 4 == 0) ==> t.nextInDelaySlot && SameButControl(s, t))
  {
    hide Exec, DataOk, Decode, Executed, Wrap, InstrRs, InstrRd, InstrTarget, RaiseCop0, Or;
    ExecJumps(s);
    var u := if Kind(s).JAL? then WithGpr(s, 31, ReturnAddr(s))
             else if Kind(s).JALR? then WithGpr(s, InstrRd(s.instr), ReturnAddr(s)) else s;
    if Kind(s).JALR? && A(s) % 4 != 0 {
      Components(s, Raise(u, 4));
    } else {
      Components(s, WithJump(u, if Kind(s).J? || Kind(s).JAL? then CalcJmpAddr(s.instr, s.currPc) else A(s)));
    }
  }

  // ---- hi and lo, coprocessor 0

  lemma HiLoLaw(s: State, k: Mnemonic, rs: RegIndex, rt: RegIndex, rd: RegIndex, shamt: RegIndex)
    requires Executes(s, RType(k, rs, rt, rd, shamt)) && DataOk(s)
    ensures var t := Exec(s);
            && (k.MFHI? ==> t.gpr == s.gpr[rd := s.hi][0 := 0] && SameHiLo(s, t) && t.cop0 == s.cop0)
            && (k.MFLO? ==> t.gpr == s.gpr[rd := s.lo][0 := 0] && SameHiLo(s, t) && t.cop0 == s.cop0)
            && (k.MTHI? ==> t.hi == s.gpr[rs] && t.lo == s.lo && t.gpr == s.gpr[0 := 0] && t.cop0 == s.cop0)
            && (k.MTLO? ==> t.hi == s.hi && t.lo == s.gpr[rs] && t.gpr == s.gpr[0 := 0] && t.cop0 == s.cop0)
  {
    Operands(s, RType(k, rs, rt, rd, shamt));
    hide Exec, DataOk, Decode, Encode, Legal, Executes, Executed, InstrRs, InstrRt, InstrRd;
    if k.MFHI? || k.MFLO? {
      MoveFromParts(s);
    } else if k.MTHI? || k.MTLO? {
      ExecHiLo(s);
      Components(s, s.(hi := HiLoAfter(s).hi, lo := HiLoAfter(s).lo));
    }
  }

  // SR with its mode bits popped: bits 2-5 move down by two.
  function Popped(sr: u32): u32 { sr - sr % 16 + sr % 64 / 4 }

  lemma Cop0Law(s: State, k: Mnemonic, rs: RegIndex, rt: RegIndex, rd: RegIndex, shamt: RegIndex, funct: FunctField)
    requires Executes(s, CType(k, rs, rt, rd, shamt, funct)) && DataOk(s)
    ensures var t, sr := Exec(s), s.cop0[12];
            && SameHiLo(s, t)
            && (rs == 0 ==> t.gpr == s.gpr[rt := s.cop0[rd]][0 := 0] && t.cop0 == s.cop0)
            && (rs == 4 ==> t.gpr == s.gpr[0 := 0] && t.cop0 == s.cop0[rd := s.gpr[rt]])
            && (rs != 0 && rs != 4 ==> t.gpr == s.gpr[0 := 0] && t.cop0 == s.cop0[12 := Popped(sr)])
  {
    Operands(s, CType(k, rs, rt, rd, shamt, funct));
    Cop0Kinds(k, rs, rt, rd, shamt, funct);
    hide Exec, DataOk, Decode, Encode, Legal, Executes, Executed, InstrRs, InstrRt, InstrRd, Popped, Cop0After, SameHiLo;
    if rs == 0 {
      MoveFromParts(s);
    } else {
      Cop0Parts(s);
    }
  }

  lemma Cop0Parts(s: State)
    requires DataOk(s) && (Kind(s).MTC0? || Kind(s).RFE?)
    ensures var t := Exec(s);
            && t.gpr == s.gpr[0 := 0] && SameHiLo(s, t)
            && t.cop0 == if Kind(s).MTC0? then s.cop0[InstrRd(s.instr) := B(s)] else s.cop0[12 := Popped(s.cop0[12])]
  {
    hide Exec, DataOk, Decode, Executed, InstrRt, InstrRd, And, Or, Shr, RaiseAll;
    ExecCop0(s);
    Components(s, s.(cop0 := Cop0After(s)));
  }

  lemma Cop0Kinds(k: Mnemonic, rs: RegIndex, rt: RegIndex, rd: RegIndex, shamt: RegIndex, funct: FunctField)
    requires Legal(CType(k, rs, rt, rd, shamt, funct))
    ensures if rs == 0 then k.MFC0? else if rs == 4 then k.MTC0? else k.RFE?
  {
  }

  ghost predicate SameHiLo(s: State, t: State) {
    t.hi == s.hi && t.lo == s.lo
  }

  lemma MoveFromParts(s: State)
    requires DataOk(s) && (Kind(s).MFHI? || Kind(s).MFLO? || Kind(s).MFC0?)
    ensures var t, rd := Exec(s), InstrRd(s.instr);
            && t.gpr == (if Kind(s).MFHI? then s.gpr[rd := s.hi] else if Kind(s).MFLO? then s.gpr[rd := s.lo]
                         else s.gpr[InstrRt(s.instr) := s.cop0[rd]])[0 := 0]
            && SameHiLo(s, t) && t.cop0 == s.cop0
  {
    hide Exec, DataOk, Decode, Executed, InstrRs, InstrRt, InstrRd;
    ExecMoveFrom(s);
    if Kind(s).MFHI? {
      Components(s, WithGpr(s, InstrRd(s.instr), s.hi));
    } else if Kind(s).MFLO? {
      Components(s, WithGpr(s, InstrRd(s.instr), s.lo));
    } else {
      Components(s, WithGpr(s, InstrRt(s.instr), s.cop0[InstrRd(s.instr)]));
    }
  }

  // Exact products, and the quotients of the bit-serial divider.
  predicate Results(k: Mnemonic, a: u32, b: u32, d: HiLo) {
    && (k.MULT? ==> Signed64(d) == Signed(a) * Signed(b))
    && (k.MULTU? ==> d.hi * 0x1_0000_0000 + d.lo == a * b)
    && (k.DIV? ==> d == SerialDiv(a, b))
    && (k.DIVU? ==> d == SerialDivu(a, b))
  }

  lemma ResultsOf(k: Mnemonic, a: u32, b: u32)
    ensures k.MULT? ==> Results(k, a, b, Alu.Mult(a, b))
    ensures k.MULTU? ==> Results(k, a, b, Multu(a, b))
    ensures k.DIV? ==> Results(k, a, b, Alu.Div(a, b))
    ensures k.DIVU? ==> Results(k, a, b, Divu(a, b))
  {
    hide Alu.Mult, Multu, Alu.Div, Divu, Signed64, SerialDiv, SerialDivu, Signed;
    MultExact(a, b);
    MultuExact(a, b);
    DivIsSerial(a, b);
    DivuIsSerial(a, b);
  }

  lemma MultiplyDivideLaw(s: State, k: Mnemonic, rs: RegIndex, rt: RegIndex, rd: RegIndex, shamt: RegIndex)
    requires Executes(s, RType(k, rs, rt, rd, shamt)) && (k.MULT? || k.MULTU? || k.DIV? || k.DIVU?) && DataOk(s)
    ensures var t, a, b := Exec(s), s.gpr[rs], s.gpr[rt];
            && Results(k, a, b, HiLo(t.hi, t.lo))
            && t.gpr == s.gpr[0 := 0] && t.cop0 == s.cop0
  {
    Operands(s, RType(k, rs, rt, rd, shamt));
    hide Exec, DataOk, Decode, Encode, Legal, Executes, Executed, InstrRs, InstrRt, Alu.Mult, Multu, Alu.Div, Divu, Results;
    ExecHiLo(s);
    Components(s, s.(hi := HiLoAfter(s).hi, lo := HiLoAfter(s).lo));
    ResultsOf(k, A(s), B(s));
  }
}
