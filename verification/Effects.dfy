// What executing one instruction amounts to: the update helpers of the source
// as functions on states, and, for each kind of instruction, the combination of
// them that Machine.Exec describes part by part.

module Effects {
  import opened Words
  import opened Mips
  import opened Memory
  import opened Alu
  import opened Machine
  import Splice

  // ---- what the update helpers do to the state

  ghost function WithGpr(s: State, reg: RegIndex, val: u32): State {
    s.(ldNext := if s.ldNext.dst == reg then EMPTY else s.ldNext, gpr := s.gpr[reg := val])
  }

  ghost function WithDelayed(s: State, dst: RegIndex, val: u32): State {
    if dst == 0 then s
    else s.(ldPend := Slot(dst, val), ldNext := if s.ldNext.dst == dst then EMPTY else s.ldNext)
  }

  ghost function WithBranch(s: State, taken: bool): State {
    s.(nextInDelaySlot := true,
       nextPc := if taken then CalcBranchAddr(s.instr, Wrap(s.currPc + Adjust(s))) else s.nextPc)
  }

  ghost function WithJump(s: State, target: u32): State {
    s.(nextInDelaySlot := true, nextPc := target)
  }

  ghost function WithWatch(s: State, vaddr: u32): State {
    if WatchHit(s.cop0, vaddr)
    then Raise(s, EXC_BP).(pc := DEBUG_VECTOR, nextPc := DEBUG_VECTOR + 4)
    else s
  }

  // t is what the switch leaves for the instruction in s, before gpr[0] is cleared.
  ghost predicate Executed(s: State, t: State)
    requires DataOk(s)
  {
    !Kind(s).ILLEGAL? && t.(gpr := t.gpr[0 := 0]) == Exec(s)
  }

  // ---- what Exec amounts to, by what an instruction changes

  // Neither hi/lo, cop0, memory nor control: at most a register.
  predicate RegisterOnly(k: Mnemonic) {
    && !(k.MTHI? || k.MTLO? || k.MULT? || k.MULTU? || k.DIV? || k.DIVU? || k.MTC0? || k.RFE? || k.ILLEGAL?)
    && !IsTransfer(k) && !IsStore(k)
  }

  lemma ExecWrite(s: State)
    requires DataOk(s) && RegisterOnly(Kind(s)) && Traps(s) == [] && RegEffect(s).Write?
    ensures Executed(s, WithGpr(s, RegEffect(s).r, RegEffect(s).v))
  {
    hide Decode, RegEffect, Traps, DataOk;
  }

  lemma ExecTrap(s: State, code: ExcCode)
    requires DataOk(s) && RegisterOnly(Kind(s)) && RegEffect(s) == NoEffect
    requires Traps(s) == [Trap(code, GENERAL_VECTOR)]
    ensures Executed(s, Raise(s, code))
  {
    hide Decode, RegEffect, Traps, DataOk;
    OneTrap(s.cop0, s.currPc, Traps(s)[0]);
  }

  lemma OneTrap(cop0: Regs, epc: u32, t: Trap)
    ensures RaiseAll(cop0, epc, [t]) == RaiseCop0(cop0, epc, t.code)
  {
    hide Decode, RaiseCop0;
    assert [t][1..] == [];
  }

  lemma TwoTraps(cop0: Regs, epc: u32, t: Trap, u: Trap)
    ensures RaiseAll(cop0, epc, [t, u]) == RaiseCop0(RaiseCop0(cop0, epc, t.code), epc, u.code)
  {
    hide Decode, RaiseCop0;
    assert [t, u][1..] == [u];
    OneTrap(RaiseCop0(cop0, epc, t.code), epc, u);
  }

  lemma ExecShift(s: State)
    requires DataOk(s) && IsShift(Kind(s))
    ensures Executed(s, WithGpr(s, InstrRd(s.instr), ShiftValue(Kind(s), A(s), B(s), InstrShamt(s.instr))))
  {
    hide Decode, ShiftValue, Executed;
    ExecWrite(s);
  }

  lemma ExecArith(s: State)
    requires DataOk(s) && IsRegArith(Kind(s)) && Traps(s) == []
    ensures Executed(s, WithGpr(s, InstrRd(s.instr), ArithValue(Kind(s), A(s), B(s))))
  {
    hide Decode, ArithValue, Executed, Traps;
    ExecWrite(s);
  }

  lemma ExecImmediate(s: State)
    requires DataOk(s) && IsImmediate(Kind(s)) && Traps(s) == []
    ensures Executed(s, WithGpr(s, InstrRt(s.instr), ImmediateValue(Kind(s), A(s), Imm(s))))
  {
    hide Decode, ImmediateValue, Executed, Traps;
    ExecWrite(s);
  }

  lemma ExecMoveFrom(s: State)
    requires DataOk(s) && (Kind(s).MFHI? || Kind(s).MFLO? || Kind(s).MFC0?)
    ensures Kind(s).MFHI? ==> Executed(s, WithGpr(s, InstrRd(s.instr), s.hi))
    ensures Kind(s).MFLO? ==> Executed(s, WithGpr(s, InstrRd(s.instr), s.lo))
    ensures Kind(s).MFC0? ==> Executed(s, WithGpr(s, InstrRt(s.instr), s.cop0[InstrRd(s.instr)]))
  {
    hide Decode, Executed;
    ExecWrite(s);
  }

  // ADD, SUB and ADDI trap exactly on overflow.
  predicate Overflows(s: State) {
    || (Kind(s).ADD? && AddOverflows(A(s), B(s)))
    || (Kind(s).SUB? && SubOverflows(A(s), B(s)))
    || (Kind(s).ADDI? && AddOverflows(SignExt16(Imm(s)), A(s)))
  }

  lemma OverflowTraps(s: State)
    requires DataOk(s) && (IsRegArith(Kind(s)) || IsImmediate(Kind(s)))
    ensures Traps(s) == if Overflows(s) then [Trap(EXC_OV, GENERAL_VECTOR)] else []
    ensures Overflows(s) ==> RegEffect(s) == NoEffect
  {
    hide Decode, AddOverflows, SubOverflows, DataOk, ArithValue, ImmediateValue;
  }

  lemma ExecArithOrTrap(s: State)
    requires DataOk(s) && (IsRegArith(Kind(s)) || IsImmediate(Kind(s)))
    ensures Overflows(s) ==> Executed(s, Raise(s, EXC_OV))
    ensures !Overflows(s) && IsRegArith(Kind(s)) ==>
              Executed(s, WithGpr(s, InstrRd(s.instr), ArithValue(Kind(s), A(s), B(s))))
    ensures !Overflows(s) && IsImmediate(Kind(s)) ==>
              Executed(s, WithGpr(s, InstrRt(s.instr), ImmediateValue(Kind(s), A(s), Imm(s))))
  {
    OverflowTraps(s);
    hide Decode, ArithValue, ImmediateValue, Executed, Traps, Overflows, RegEffect, DataOk, Raise;
    if Overflows(s) {
      ExecTrap(s, EXC_OV);
    } else if IsRegArith(Kind(s)) {
      ExecArith(s);
    } else {
      ExecImmediate(s);
    }
  }

  // Instructions that leave the register file alone.
  predicate Silent(k: Mnemonic) {
    || k.MTHI? || k.MTLO? || k.MULT? || k.MULTU? || k.DIV? || k.DIVU? || k.MTC0? || k.RFE? || k.SYSCALL? || k.BREAK?
    || k.J? || k.JR? || k.BEQ? || k.BNE? || k.BLEZ? || k.BGTZ? || IsStore(k)
  }

  lemma NoEffectOf(s: State)
    requires DataOk(s) && Silent(Kind(s))
    ensures RegEffect(s) == NoEffect
  {
    hide Decode, DataOk, Traps, Misaligned, LoadValue, ShiftValue, ArithValue, ImmediateValue, BcondLinks;
  }

  lemma NoTrapsOf(s: State)
    requires !(Kind(s).SYSCALL? || Kind(s).BREAK? || Kind(s).ADD? || Kind(s).SUB? || Kind(s).ADDI? || Kind(s).JALR?)
    requires !IsLoad(Kind(s)) && !IsStore(Kind(s))
    ensures Traps(s) == []
  {
    hide Decode;
  }

  lemma ExecHiLo(s: State)
    requires DataOk(s) && (Kind(s).MTHI? || Kind(s).MTLO? || Kind(s).MULT? || Kind(s).MULTU? || Kind(s).DIV? || Kind(s).DIVU?)
    ensures Executed(s, s.(hi := HiLoAfter(s).hi, lo := HiLoAfter(s).lo))
  {
    hide Decode, DataOk, HiLoAfter, RegEffect, Traps;
    NoEffectOf(s);
    NoTrapsOf(s);
  }

  lemma ExecCop0(s: State)
    requires DataOk(s) && (Kind(s).MTC0? || Kind(s).RFE?)
    ensures Executed(s, s.(cop0 := Cop0After(s)))
  {
    hide Decode, DataOk, Cop0After, RegEffect, Traps;
    NoEffectOf(s);
    NoTrapsOf(s);
  }

  lemma AluNeverDefers(s: State)
    ensures !AluEffect(s).Deferred?
  {
    hide Decode;
  }

  // The state after the link register, if any, is written.
  ghost function Linked(s: State): State
    requires DataOk(s)
  {
    if RegEffect(s).Write? then WithGpr(s, RegEffect(s).r, RegEffect(s).v) else s
  }

  lemma ExecBranch(s: State)
    requires DataOk(s) && IsConditional(Kind(s))
    ensures Executed(s, WithBranch(Linked(s), Condition(s)))
  {
    hide Decode, DataOk, Condition, AluEffect, Traps, HiLoAfter;
    assert HiLoAfter(s) == HiLo(s.hi, s.lo) by { HiLoSame(s); }
    NoTrapsOf(s);
    AluNeverDefers(s);
  }

  lemma HiLoSame(s: State)
    requires !(Kind(s).MTHI? || Kind(s).MTLO? || Kind(s).MULT? || Kind(s).MULTU? || Kind(s).DIV? || Kind(s).DIVU?)
    ensures HiLoAfter(s) == HiLo(s.hi, s.lo)
  {
    hide Decode;
  }

  lemma ExecJump(s: State)
    requires DataOk(s) && (Kind(s).J? || Kind(s).JAL? || Kind(s).JR? || Kind(s).JALR?) && Traps(s) == []
    ensures Executed(s, WithJump(Linked(s), Target(s)))
  {
    hide Decode, DataOk, Condition, AluEffect, Target, Traps, HiLoAfter;
    HiLoSame(s);
    AluNeverDefers(s);
  }

  lemma JumpMeaning(s: State)
    requires DataOk(s) && (Kind(s).J? || Kind(s).JAL? || Kind(s).JR? || Kind(s).JALR?)
    ensures Traps(s) == if Kind(s).JALR? && A(s) % 4 != 0 then [Trap(EXC_ADEL, GENERAL_VECTOR)] else []
    ensures Linked(s) == if Kind(s).JAL? then WithGpr(s, GPR_RA, ReturnAddr(s))
                         else if Kind(s).JALR? then WithGpr(s, InstrRd(s.instr), ReturnAddr(s)) else s
    ensures Target(s) == if Kind(s).JR? || Kind(s).JALR? then A(s) else CalcJmpAddr(s.instr, s.currPc)
  {
    hide Decode, DataOk, WithGpr, CalcJmpAddr, CalcBranchAddr, Misaligned, LoadValue, ShiftValue, ArithValue, ImmediateValue,
         BcondLinks, DataTraps, Addresses, Condition;
  }

  // The jumps one by one; JALR to a misaligned target writes the link and raises.
  lemma ExecJumps(s: State)
    requires DataOk(s) && (Kind(s).J? || Kind(s).JAL? || Kind(s).JR? || Kind(s).JALR?)
    ensures Kind(s).J? ==> Executed(s, WithJump(s, CalcJmpAddr(s.instr, s.currPc)))
    ensures Kind(s).JAL? ==> Executed(s, WithJump(WithGpr(s, GPR_RA, ReturnAddr(s)), CalcJmpAddr(s.instr, s.currPc)))
    ensures Kind(s).JR? ==> Executed(s, WithJump(s, A(s)))
    ensures Kind(s).JALR? && A(s) % 4 == 0 ==>
              Executed(s, WithJump(WithGpr(s, InstrRd(s.instr), ReturnAddr(s)), A(s)))
    ensures Kind(s).JALR? && A(s) % 4 != 0 ==>
              Executed(s, Raise(WithGpr(s, InstrRd(s.instr), ReturnAddr(s)), EXC_ADEL))
  {
    JumpMeaning(s);
    hide Decode, Executed, DataOk, WithGpr, WithJump, Raise, Linked, Target, Traps, CalcJmpAddr;
    if Kind(s).JALR? && A(s) % 4 != 0 {
      ExecJumpFault(s, EXC_ADEL);
    } else {
      ExecJump(s);
    }
  }

  lemma ExecJumpFault(s: State, code: ExcCode)
    requires DataOk(s) && Kind(s).JALR? && Traps(s) == [Trap(code, GENERAL_VECTOR)]
    ensures Executed(s, Raise(WithGpr(s, InstrRd(s.instr), ReturnAddr(s)), code))
  {
    hide Decode, DataOk, Traps;
    OneTrap(s.cop0, s.currPc, Traps(s)[0]);
  }

  ghost function WithTraps(s: State, traps: seq<Trap>): State {
    s.(cop0 := RaiseAll(s.cop0, s.currPc, traps),
       pc := if traps == [] then s.pc else traps[|traps| - 1].vector,
       nextPc := if traps == [] then s.nextPc else traps[|traps| - 1].vector + 4)
  }

  // The state after the watchpoint and the alignment check of a data access.
  ghost function Checked(s: State): State {
    var t := WithWatch(s, DataVaddr(s));
    if Misaligned(s) then Raise(t, if IsLoad(Kind(s)) then EXC_ADEL else EXC_ADES) else t
  }

  lemma CheckedTraps(s: State)
    requires Addresses(s)
    ensures Checked(s) == WithTraps(s, Traps(s))
  {
    hide Decode, RaiseCop0, WatchHit, Misaligned;
    var watch := Trap(EXC_BP, DEBUG_VECTOR);
    var address := Trap(if IsLoad(Kind(s)) then EXC_ADEL else EXC_ADES, GENERAL_VECTOR);
    OneTrap(s.cop0, s.currPc, watch);
    OneTrap(s.cop0, s.currPc, address);
    TwoTraps(s.cop0, s.currPc, watch, address);
  }

  lemma ExecLoad(s: State)
    requires DataOk(s) && IsLoad(Kind(s))
    ensures Executed(s, if Misaligned(s) then Checked(s) else WithDelayed(Checked(s), InstrRt(s.instr), LoadValue(s)))
  {
    hide Decode, DataOk, LoadValue, Traps, Checked, RaiseAll, HiLoAfter, Misaligned;
    CheckedTraps(s);
    HiLoSame(s);
  }

  lemma ExecStore(s: State)
    requires DataOk(s) && IsStore(Kind(s)) && Addresses(s)
    ensures Executed(s, Checked(s).(mem := MemAfter(s)))
  {
    hide Decode, DataOk, MemAfter, Traps, Checked, RaiseAll, HiLoAfter, RegEffect;
    CheckedTraps(s);
    HiLoSame(s);
    NoEffectOf(s);
  }

  lemma AlignedIsAligned(paddr: u32)
    ensures Aligned(paddr) % 4 == 0
  {
    QuotientPart(paddr, 4);
  }

  // The unaligned accesses never raise an address error.
  lemma NeverMisaligned(s: State)
    requires IsUnalignedAccess(Kind(s))
    ensures !Misaligned(s) && AccessPaddr(s) == Aligned(DataPaddr(s))
  {
    hide Decode, Aligned, DataPaddr;
    AlignedIsAligned(DataPaddr(s));
  }

  // ... and they access the aligned word around the address.
  lemma MergeOk(s: State)
    requires DataOk(s) && Addresses(s) && IsUnalignedAccess(Kind(s))
    ensures LoadOk(Aligned(DataPaddr(s)), 4)
    ensures IsStore(Kind(s)) ==> StoreOk(Aligned(DataPaddr(s)), 4)
  {
    NeverMisaligned(s);
    hide Decode, Addresses, LoadOk, StoreOk, Misaligned, Aligned, DataPaddr, AccessPaddr;
  }

  lemma ExecLoadMerge(s: State)
    requires DataOk(s) && (Kind(s).LWL? || Kind(s).LWR?)
    ensures LoadOk(Aligned(DataPaddr(s)), 4)
    ensures var word, k := Load(s.mem, Aligned(DataPaddr(s)), 4), DataPaddr(s) % 4;
            Executed(s, WithDelayed(WithWatch(s, DataVaddr(s)), InstrRt(s.instr),
              if Kind(s).LWL? then Splice.Lwl(Forwarded(s), word, k) else Splice.Lwr(Forwarded(s), word, k)))
  {
    MergeOk(s);
    NeverMisaligned(s);
    MergedLoad(s);
    hide Decode, DataOk, Executed, LoadValue, WithWatch, WithDelayed, Splice.Lwl, Splice.Lwr,
         LoadOk, Load, Misaligned, Aligned, DataPaddr, AccessPaddr;
    ExecLoad(s);
  }

  lemma MergedLoad(s: State)
    requires DataOk(s) && (Kind(s).LWL? || Kind(s).LWR?) && LoadOk(Aligned(DataPaddr(s)), 4)
    requires !Misaligned(s) && AccessPaddr(s) == Aligned(DataPaddr(s))
    ensures var word, k := Load(s.mem, Aligned(DataPaddr(s)), 4), DataPaddr(s) % 4;
            LoadValue(s) == if Kind(s).LWL? then Splice.Lwl(Forwarded(s), word, k) else Splice.Lwr(Forwarded(s), word, k)
  {
    hide Decode, DataOk, Splice.Lwl, Splice.Lwr, Byte, LoadOk, Load, Misaligned, Aligned, DataPaddr, AccessPaddr;
  }

  lemma ExecStoreMerge(s: State)
    requires DataOk(s) && (Kind(s).SWL? || Kind(s).SWR?)
    ensures LoadOk(Aligned(DataPaddr(s)), 4) && StoreOk(Aligned(DataPaddr(s)), 4)
    ensures var word, k := Load(s.mem, Aligned(DataPaddr(s)), 4), DataPaddr(s) % 4;
            Executed(s, WithWatch(s, DataVaddr(s)).(mem := Store(s.mem, Aligned(DataPaddr(s)), 4,
              if Kind(s).SWL? then Splice.Swl(word, B(s), k) else Splice.Swr(word, B(s), k))))
  {
    MergeOk(s);
    NeverMisaligned(s);
    MergedStore(s);
    hide Decode, DataOk, Executed, WithWatch, MemAfter, Splice.Swl, Splice.Swr,
         LoadOk, StoreOk, Load, Store, Misaligned, Aligned, DataPaddr, AccessPaddr;
    ExecStore(s);
  }

  lemma MergedStore(s: State)
    requires DataOk(s) && (Kind(s).SWL? || Kind(s).SWR?)
    requires LoadOk(Aligned(DataPaddr(s)), 4) && StoreOk(Aligned(DataPaddr(s)), 4)
    requires !Misaligned(s) && AccessPaddr(s) == Aligned(DataPaddr(s))
    ensures var word, k := Load(s.mem, Aligned(DataPaddr(s)), 4), DataPaddr(s) % 4;
            MemAfter(s) == Store(s.mem, Aligned(DataPaddr(s)), 4,
              if Kind(s).SWL? then Splice.Swl(word, B(s), k) else Splice.Swr(word, B(s), k))
  {
    hide Decode, DataOk, Splice.Swl, Splice.Swr, Byte, LoadOk, StoreOk, Load, Store, Misaligned, Aligned, DataPaddr, AccessPaddr;
  }

  lemma ExecIsolated(s: State)
    requires DataOk(s) && IsStore(Kind(s)) && !Addresses(s)
    ensures Executed(s, s)
  {
    hide Decode, DataOk, HiLoAfter, RegEffect;
    HiLoSame(s);
    NoEffectOf(s);
  }

  lemma FetchMeaning(s: State)
    requires FetchOk(s)
    ensures var t := FetchFault(LoadDelay(EnterSlot(s)));
            t.pc == FetchPc(s) && LoadOk(VaddrToPaddr(t.pc), 4) && FetchWord(s) == Load(t.mem, VaddrToPaddr(t.pc), 4)
  {
  }

  lemma ExecIllegal(s: State)
    requires DataOk(s) && Kind(s).ILLEGAL?
    ensures Exec(s) == s
  {
    hide Decode, DataOk, HiLoAfter;
    HiLoSame(s);
  }
}
