// Exceptions are precise, and a system call comes back.

module Exceptions {
  import opened Words
  import opened Mips
  import opened Machine
  import opened Effects
  import opened LoadDelayQueue

  // ---- when an instruction raises

  datatype Exception = NoException | Code(code: ExcCode)

  // The architecture's rule: system call and breakpoint, signed overflow of the
  // exact result, and effective addresses that are not multiples of the size.
  ghost function ArchException(s: State): Exception {
    var k, a, b := Kind(s), Signed(A(s)), Signed(B(s));
    var vaddr := DataVaddr(s);
    if k.SYSCALL? then Code(EXC_SYS)
    else if k.BREAK? then Code(EXC_BP)
    else if k.ADD? && !FitsSigned(a + b) then Code(EXC_OV)
    else if k.SUB? && !FitsSigned(a - b) then Code(EXC_OV)
    else if k.ADDI? && !FitsSigned(a + SignedImm(Imm(s))) then Code(EXC_OV)
    else if (k.LH? || k.LHU?) && vaddr % 2 != 0 then Code(EXC_ADEL)
    else if k.LW? && vaddr % 4 != 0 then Code(EXC_ADEL)
    else if k.SH? && vaddr % 2 != 0 then Code(EXC_ADES)
    else if k.SW? && !CacheIsolated(s.cop0) && vaddr % 4 != 0 then Code(EXC_ADES)
    else if k.JALR? && A(s) % 4 != 0 then Code(EXC_ADEL)
    else NoException
  }

  lemma ModOfMod(x: nat, m: nat, k: nat)
    requires m > 0 && k > 0
    ensures m * k > 0 && x % (m * k) % m == x % m
  {
    var n := m * k;
    var q, r := x / n, x % n;
    var q', r' := r / m, r % m;
    assert x == m * (k * q + q') + r' by {
      assert x == n * q + r && r == m * q' + r';
      assert m * (k * q + q') == m * (k * q) + m * q';
      assert m * (k * q) == n * q;
    }
    DivUnique(x, m, k * q + q', r');
  }

  // The translation of data addresses keeps the two low bits.
  lemma TranslationKeepsLowBits(v: u32)
    ensures VaddrToPaddr(FoldVaddr(v)) % 4 == v % 4
  {
    ModOfMod(v, 4, 0x4_0000);
    ModOfMod(FoldVaddr(v), 4, 0x800_0000);
    hide And;
  }

  lemma SignedExt(imm: u16)
    ensures Signed(SignExt16(imm)) == SignedImm(imm)
  {
  }

  // The traps of the architecture's rule, at the general vector.
  ghost function ArchTraps(s: State): seq<Trap> {
    match ArchException(s)
    case NoException => []
    case Code(c) => [Trap(c, GENERAL_VECTOR)]
  }

  // The instruction's data access matches an enabled watchpoint.
  ghost predicate WatchFires(s: State) {
    Addresses(s) && WatchHit(s.cop0, DataVaddr(s))
  }

  // An instruction raises the watchpoint exactly when it fires, and then exactly
  // the architecture's exception, each once.
  lemma RaisesExactly(s: State)
    ensures Traps(s) == (if WatchFires(s) then [Trap(EXC_BP, DEBUG_VECTOR)] else []) + ArchTraps(s)
  {
    AlignmentOf(s);
    SignedExt(Imm(s));
    hide Decode, DataVaddr, AccessPaddr, Misaligned, Signed, SignExt16, SignedImm, WatchHit;
  }

  lemma AlignmentOf(s: State)
    ensures Misaligned(s)
        <==> || ((Kind(s).LH? || Kind(s).LHU? || Kind(s).SH?) && DataVaddr(s) % 2 != 0)
             || (Kind(s).LW? && DataVaddr(s) % 4 != 0)
             || (Kind(s).SW? && !CacheIsolated(s.cop0) && DataVaddr(s) % 4 != 0)
  {
    SameLowBits(s);
    if IsUnalignedAccess(Kind(s)) {
      NeverMisaligned(s);
    }
    hide Decode, DataVaddr, DataPaddr, CacheIsolated, Aligned;
  }

  lemma SameLowBits(s: State)
    ensures DataPaddr(s) % 4 == DataVaddr(s) % 4 && DataPaddr(s) % 2 == DataVaddr(s) % 2
  {
    TranslationKeepsLowBits(DataVaddr(s));
    hide Decode, DataVaddr, VaddrToPaddr, FoldVaddr;
    ModOfMod(DataPaddr(s), 2, 2);
    ModOfMod(DataVaddr(s), 2, 2);
  }

  // ---- what it leaves behind

  // An instruction that the architecture makes raise changes cop0 and the program
  // counters and nothing else; the watchpoint may have raised before it, and JALR
  // has already written its link register.
  lemma PreciseExec(s: State)
    requires DataOk(s) && s.gpr[0] == 0 && ArchException(s).Code?
    ensures var t := if Kind(s).JALR? then WithGpr(s, InstrRd(s.instr), ReturnAddr(s))
                     else if WatchFires(s) then Raise(s, EXC_BP) else s;
            Exec(s) == Raise(t.(gpr := t.gpr[0 := 0]), ArchException(s).code)
  {
    RaisesExactly(s);
    hide Decode, DataOk, ArchException, WatchHit, RaiseCop0, Traps, RegEffect, Exec;
    if Kind(s).JALR? {
      ExecJumpFault(s, ArchException(s).code);
    } else {
      PreciseQuiet(s);
    }
  }

  lemma PreciseQuiet(s: State)
    requires DataOk(s) && s.gpr[0] == 0 && ArchException(s).Code? && !Kind(s).JALR?
    ensures Exec(s) == Raise(if WatchFires(s) then Raise(s, EXC_BP) else s, ArchException(s).code)
  {
    RaisesExactly(s);
    RaisesNothingElse(s);
    HiLoSame(s);
    hide Decode, DataOk, ArchException, WatchFires, RaiseCop0, Traps, RegEffect, HiLoAfter, MemAfter, RaiseAll, IsTransfer;
    var arch, watch := Trap(ArchException(s).code, GENERAL_VECTOR), Trap(EXC_BP, DEBUG_VECTOR);
    OneTrap(s.cop0, s.currPc, arch);
    TwoTraps(s.cop0, s.currPc, watch, arch);
    assert s.gpr[0 := 0] == s.gpr;
  }

  lemma RaisesNothingElse(s: State)
    requires DataOk(s) && ArchException(s).Code? && !Kind(s).JALR?
    ensures RegEffect(s) == NoEffect && MemAfter(s) == s.mem && !IsTransfer(Kind(s))
    ensures !(Kind(s).MTHI? || Kind(s).MTLO? || Kind(s).MULT? || Kind(s).MULTU? || Kind(s).DIV? || Kind(s).DIVU?)
    ensures !Kind(s).MTC0? && !Kind(s).RFE? && !Kind(s).ILLEGAL?
  {
    AlignmentOf(s);
    RaisesExactly(s);
    hide Decode, DataOk, DataVaddr, WatchHit, Misaligned, AddOverflows, SubOverflows, LoadValue, Traps;
  }

  // The whole step, from any state: the loads in flight move up, and beyond that
  // the machine is as it was except for cop0, the program counters, and the link
  // register of a JALR.
  lemma PreciseStep(s: State, w: u32)
    requires WordOk(s, w) && Inv(s) && s.pc % 4 == 0
    requires ArchException(Front(s, w)).Code?
    ensures var f, t, code := Front(s, w), StepWord(s, w), ArchException(Front(s, w)).code;
            && t.mem == s.mem && t.hi == s.hi && t.lo == s.lo
            && t.ldPend == EMPTY
            && t.cop0 == RaiseCop0(if WatchFires(f) then RaiseCop0(s.cop0, s.pc, EXC_BP) else s.cop0, s.pc, code)
            && t.pc == 0x80 && t.nextPc == 0x84 && !t.nextInDelaySlot
            && (!Kind(f).JALR? ==> t.gpr == LoadDelay(s).gpr && t.ldNext == s.ldPend)
            && (Kind(f).JALR? ==>
                  && t.gpr == LoadDelay(s).gpr[InstrRd(w) := Wrap(s.pc + 8)][0 := 0]
                  && t.ldNext == if s.ldPend.dst == InstrRd(w) then EMPTY else s.ldPend)
  {
    hide *;
    FrontInv(s, w);
    FrontKeeps(s, w);
    StepIsExec(s, w);
    PreciseParts(Front(s, w));
  }

  lemma StepIsExec(s: State, w: u32)
    requires WordOk(s, w)
    ensures DataOk(Front(s, w)) && StepWord(s, w) == Exec(Front(s, w))
    ensures ReturnAddr(Front(s, w)) == Wrap(Front(s, w).currPc + 8)
  {
    hide DataOk, Front, Exec;
  }

  lemma PreciseParts(f: State)
    requires DataOk(f) && f.gpr[0] == 0 && ArchException(f).Code?
    ensures var t, code, rd := Exec(f), ArchException(f).code, InstrRd(f.instr);
            && t.mem == f.mem && t.hi == f.hi && t.lo == f.lo && t.ldPend == f.ldPend
            && t.cop0 == RaiseCop0(if WatchFires(f) then RaiseCop0(f.cop0, f.currPc, EXC_BP) else f.cop0, f.currPc, code)
            && t.pc == 0x80 && t.nextPc == 0x84 && t.nextInDelaySlot == f.nextInDelaySlot
            && (if Kind(f).JALR? then
                  && t.gpr == f.gpr[rd := ReturnAddr(f)][0 := 0]
                  && t.ldNext == (if f.ldNext.dst == rd then EMPTY else f.ldNext)
                else t.gpr == f.gpr && t.ldNext == f.ldNext)
  {
    hide DataOk, ArchException, Decode, Exec, WatchFires, RaiseCop0, ReturnAddr;
    assert f.gpr[0 := 0] == f.gpr;
    PreciseExec(f);
    if Kind(f).JALR? {
      JalrWatchesNothing(f);
    }
  }

  lemma JalrWatchesNothing(s: State)
    requires Kind(s).JALR?
    ensures !WatchFires(s)
  {
    hide Decode;
  }

  lemma FrontKeeps(s: State, w: u32)
    ensures var f := Front(s, w);
            && f.mem == s.mem && f.hi == s.hi && f.lo == s.lo && f.gpr == LoadDelay(s).gpr
            && f.ldNext == s.ldPend && f.ldPend == EMPTY && !f.nextInDelaySlot && f.instr == w
            && (s.pc % 4 == 0 ==> f.cop0 == s.cop0 && f.currPc == s.pc && f.pc == s.nextPc)
            && f.nextPc == Wrap(f.pc + 4)
            && f.inDelaySlot == s.nextInDelaySlot
  {
    hide RaiseCop0;
  }

  // Only loads and stores can leave the declared arrays.
  lemma WordNeedsNoData(s: State, w: u32)
    requires !IsLoad(Decode(w)) && !IsStore(Decode(w))
    ensures WordOk(s, w)
  {
    FrontKeeps(s, w);
    hide Decode, Front, Exec, IsLoad, IsStore, AccessPaddr, Misaligned;
  }

  // What cop0 says afterwards.
  lemma RaiseCop0Meaning(cop0: Regs, epc: u32, code: ExcCode)
    ensures var c := RaiseCop0(cop0, epc, code);
            && c[COP0_EPC] == epc
            && c[COP0_CAUSE] == cop0[COP0_CAUSE] / 0x100 % 0x100 * 0x100 + 4 * code
            && c[COP0_SR] / 64 == cop0[COP0_SR] / 64 && c[COP0_SR] % 4 == 0
            && forall r: RegIndex :: r != COP0_EPC && r != COP0_CAUSE && r != COP0_SR ==> c[r] == cop0[r]
  {
    var cause, sr := cop0[COP0_CAUSE], cop0[COP0_SR];
    hide And, Or, Shl;
    CauseByte(cause);
    DivUnique(RaiseSr(sr), 64, sr / 64, 4 * (sr % 16));
    DivUnique(RaiseSr(sr), 4, 16 * (sr / 64) + sr % 16, 0);
  }

  lemma CauseByte(cause: u32)
    ensures cause % 0x1_0000 - cause % 0x100 == cause / 0x100 % 0x100 * 0x100
  {
    var q := cause / 0x100;
    DivUnique(cause, 0x1_0000, q / 0x100, q % 0x100 * 0x100 + cause % 0x100);
  }
}
