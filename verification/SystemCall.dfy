// A system call and the four-instruction handler
//     mfc0 k0, EPC;  addiu k0, k0, 4;  jr k0;  rfe
// resume after the call with the mode bits and every register but k0 as they were.

module SystemCall {
  import opened Words
  import opened Mips
  import opened Memory
  import opened Machine
  import opened Effects
  import opened LoadDelayQueue
  import opened Exceptions

  const MFC0_K0_EPC: u32 := 0x401A_7000
  const ADDIU_K0_K0_4: u32 := 0x275A_0004
  const JR_K0: u32 := 0x0340_0008
  const RFE_WORD: u32 := 0x4200_0010

  lemma HandlerDecodes()
    ensures Decode(MFC0_K0_EPC).MFC0? && InstrRt(MFC0_K0_EPC) == GPR_K0 && InstrRd(MFC0_K0_EPC) == COP0_EPC
    ensures Decode(ADDIU_K0_K0_4).ADDIU? && InstrRt(ADDIU_K0_K0_4) == GPR_K0
    ensures InstrRs(ADDIU_K0_K0_4) == GPR_K0 && InstrImm(ADDIU_K0_K0_4) == 4
    ensures Decode(JR_K0).JR? && InstrRs(JR_K0) == GPR_K0
    ensures Decode(RFE_WORD).RFE?
  {
  }

  ghost predicate HandlerInstalled(m: Mem) {
    && Load(m, 0x80, 4) == MFC0_K0_EPC
    && Load(m, 0x84, 4) == ADDIU_K0_K0_4
    && Load(m, 0x88, 4) == JR_K0
    && Load(m, 0x8C, 4) == RFE_WORD
  }

  // The register file once the loads in flight have landed.
  function SettledRegs(s: State): Regs {
    s.gpr[s.ldNext.dst := s.ldNext.val][s.ldPend.dst := s.ldPend.val]
  }

  ghost predicate QueueEmpty(s: State) {
    s.ldNext == EMPTY && s.ldPend == EMPTY
  }

  // Two states that differ only in registers, cop0 and control.
  ghost predicate SameData(s: State, t: State) {
    t.mem == s.mem && t.hi == s.hi && t.lo == s.lo
  }

  lemma CallStep(s: State, w: u32)
    requires WordOk(s, w) && Inv(s) && s.pc % 4 == 0 && Decode(w).SYSCALL?
    ensures var t := StepWord(s, w);
            && SameData(s, t) && Inv(t) && t.ldPend == EMPTY && SettledRegs(t) == SettledRegs(s)
            && t.cop0 == RaiseCop0(s.cop0, s.pc, EXC_SYS)
            && t.pc == 0x80 && t.nextPc == 0x84
  {
    FrontInv(s, w);
    FrontKeeps(s, w);
    StepKeepsInv(s, w);
    var f := Front(s, w);
    assert RegEffect(f) == NoEffect && Traps(f) == [Trap(EXC_SYS, GENERAL_VECTOR)] && RegisterOnly(Kind(f)) by {
      hide DataOk, Front, Decode;
    }
    hide DataOk, Front, Decode, RegEffect, Traps, Exec, RaiseCop0;
    ExecTrap(f, EXC_SYS);
  }

  lemma FetchEpcStep(s: State, w: u32)
    requires WordOk(s, w) && Inv(s) && s.pc == 0x80 && s.nextPc == 0x84 && s.ldPend == EMPTY
    requires Decode(w).MFC0? && InstrRt(w) == GPR_K0 && InstrRd(w) == COP0_EPC
    ensures var t := StepWord(s, w);
            && SameData(s, t) && Inv(t) && QueueEmpty(t) && t.cop0 == s.cop0
            && t.gpr == SettledRegs(s)[GPR_K0 := s.cop0[COP0_EPC]]
            && t.pc == 0x84 && t.nextPc == 0x88
  {
    FrontInv(s, w);
    FrontKeeps(s, w);
    StepKeepsInv(s, w);
    var f := Front(s, w);
    hide DataOk, Front, Decode, RegEffect, Exec;
    ExecMoveFrom(f);
  }

  lemma AdvanceStep(s: State, w: u32)
    requires WordOk(s, w) && Inv(s) && s.pc == 0x84 && s.nextPc == 0x88 && QueueEmpty(s)
    requires Decode(w).ADDIU? && InstrRt(w) == GPR_K0 && InstrRs(w) == GPR_K0 && InstrImm(w) == 4
    ensures var t := StepWord(s, w);
            && SameData(s, t) && Inv(t) && QueueEmpty(t) && t.cop0 == s.cop0
            && t.gpr == s.gpr[GPR_K0 := Wrap(s.gpr[GPR_K0] as int + 4)]
            && t.pc == 0x88 && t.nextPc == 0x8C
  {
    FrontInv(s, w);
    FrontKeeps(s, w);
    StepKeepsInv(s, w);
    var f := Front(s, w);
    assert s.gpr[0 := 0] == s.gpr;
    hide DataOk, Front, Decode, RegEffect, Exec;
    NoTrapsOf(f);
    hide Traps;
    ExecImmediate(f);
  }

  lemma ReturnStep(s: State, w: u32)
    requires WordOk(s, w) && Inv(s) && s.pc == 0x88 && s.nextPc == 0x8C && QueueEmpty(s)
    requires Decode(w).JR? && InstrRs(w) == GPR_K0
    ensures var t := StepWord(s, w);
            && SameData(s, t) && Inv(t) && QueueEmpty(t) && t.cop0 == s.cop0 && t.gpr == s.gpr
            && t.pc == 0x8C && t.nextPc == s.gpr[GPR_K0]
  {
    FrontInv(s, w);
    FrontKeeps(s, w);
    StepKeepsInv(s, w);
    var f := Front(s, w);
    assert s.gpr[0 := 0] == s.gpr;
    hide DataOk, Front, Decode, RegEffect, Traps, Exec;
    ExecJumps(f);
  }

  lemma RestoreStep(s: State, w: u32)
    requires WordOk(s, w) && Inv(s) && s.pc == 0x8C && QueueEmpty(s)
    requires Decode(w).RFE?
    ensures var t := StepWord(s, w);
            && SameData(s, t) && Inv(t) && QueueEmpty(t) && t.gpr == s.gpr
            && t.cop0 == s.cop0[COP0_SR := RfeSr(s.cop0[COP0_SR])]
            && t.pc == s.nextPc && t.nextPc == Wrap(s.nextPc + 4) && !t.nextInDelaySlot
  {
    FrontInv(s, w);
    FrontKeeps(s, w);
    StepKeepsInv(s, w);
    var f := Front(s, w);
    assert s.gpr[0 := 0] == s.gpr;
    hide DataOk, Front, Decode, RegEffect, Traps, Exec, RfeSr;
    ExecCop0(f);
  }

  // One exception and one return leave the two upper pairs of modes in place.
  lemma ModesRestored(sr: u32)
    ensures RfeSr(RaiseSr(sr)) % 16 == sr % 16 && RfeSr(RaiseSr(sr)) / 64 == sr / 64
  {
    hide And, Or, Shl, Shr;
    var r := RaiseSr(sr);
    DivUnique(r, 64, sr / 64, 4 * (sr % 16));
    DivUnique(r, 16, 4 * (sr / 64) + sr % 16 / 4, 4 * (sr % 16 % 4));
    DivUnique(RfeSr(r), 16, 4 * (sr / 64) + sr % 16 / 4, sr % 16);
    DivUnique(RfeSr(r), 64, sr / 64, 16 * (sr % 16 / 4) + sr % 16);
  }

  // The round trip: five steps from the call.
  lemma CallReturns(tr: seq<State>)
    requires IsRun(tr) && |tr| == 6 && Inv(tr[0]) && tr[0].pc % 4 == 0
    requires Decode(FetchWord(tr[0])).SYSCALL? && HandlerInstalled(tr[0].mem)
    ensures var s, t := tr[0], tr[5];
            && t.pc == Wrap(s.pc + 4) && t.nextPc == Wrap(s.pc + 8) && !t.nextInDelaySlot
            && t.cop0[COP0_SR] % 16 == s.cop0[COP0_SR] % 16 && t.cop0[COP0_SR] / 64 == s.cop0[COP0_SR] / 64
            && t.gpr == SettledRegs(s)[GPR_K0 := Wrap(s.pc + 4)] && QueueEmpty(t)
            && SameData(s, t)
  {
    hide StepOk, Step, WordOk, FetchOk, FetchWord, Decode, StepWord, RaiseSr, RaiseCause, RfeSr, Load, LoadOk;
    HandlerDecodes();
    RunStep(tr, 0);
    CallStep(tr[0], FetchWord(tr[0]));
    RunStep(tr, 1);
    HandlerFetch(tr[1], 0x80);
    FetchEpcStep(tr[1], FetchWord(tr[1]));
    RunStep(tr, 2);
    HandlerFetch(tr[2], 0x84);
    AdvanceStep(tr[2], FetchWord(tr[2]));
    RunStep(tr, 3);
    HandlerFetch(tr[3], 0x88);
    ReturnStep(tr[3], FetchWord(tr[3]));
    RunStep(tr, 4);
    HandlerFetch(tr[4], 0x8C);
    RestoreStep(tr[4], FetchWord(tr[4]));
    ModesRestored(tr[0].cop0[COP0_SR]);
    hide IsRun;
  }

  lemma HandlerFetch(s: State, pc: u32)
    requires s.pc == pc && 0x80 <= pc <= 0x8C && pc % 4 == 0
    ensures LoadOk(pc, 4) && FetchOk(s) && FetchWord(s) == Load(s.mem, pc, 4)
  {
    SmallMod(pc, 0x2000_0000);
    assert VaddrToPaddr(pc) == pc by { hide And; }
    hide VaddrToPaddr, Load;
  }

  // The call and its handler make no data access, so such a run always exists.
  lemma CallRuns(s: State) returns (tr: seq<State>)
    requires FetchOk(s) && Inv(s) && s.pc % 4 == 0
    requires Decode(FetchWord(s)).SYSCALL? && HandlerInstalled(s.mem)
    ensures IsRun(tr) && |tr| == 6 && tr[0] == s
  {
    hide StepOk, Step, WordOk, FetchOk, FetchWord, Decode, StepWord, RaiseCop0, RfeSr, Load, LoadOk;
    HandlerDecodes();
    NoAccess(s);
    var s1 := Step(s);
    CallStep(s, FetchWord(s));
    HandlerFetch(s1, 0x80);
    NoAccess(s1);
    var s2 := Step(s1);
    FetchEpcStep(s1, FetchWord(s1));
    HandlerFetch(s2, 0x84);
    NoAccess(s2);
    var s3 := Step(s2);
    AdvanceStep(s2, FetchWord(s2));
    HandlerFetch(s3, 0x88);
    NoAccess(s3);
    var s4 := Step(s3);
    ReturnStep(s3, FetchWord(s3));
    HandlerFetch(s4, 0x8C);
    NoAccess(s4);
    tr := [s, s1, s2, s3, s4, Step(s4)];
  }

  lemma NoAccess(s: State)
    requires FetchOk(s) && !IsLoad(Decode(FetchWord(s))) && !IsStore(Decode(FetchWord(s)))
    ensures StepOk(s) && WordOk(s, FetchWord(s)) && Step(s) == StepWord(s, FetchWord(s))
  {
    WordNeedsNoData(s, FetchWord(s));
    hide Decode, FetchOk, FetchWord, WordOk, StepWord;
  }
}
