// The machine as a pure state and one step as a function of it. An executed
// instruction is described part by part: which traps it raises, what happens to
// the register file and the load-delay queue, to hi/lo, to cop0, to the program
// counters and to memory. Cpu.dfy has the same step in the form of the source.

module Machine {
  import opened Words
  import opened Mips
  import opened Memory
  import opened Alu
  import Splice

  type Regs = s: seq<u32> | |s| == 32 witness seq(32, _ => 0)

  // One slot of the load-delay queue; a slot is empty when it is all zero.
  datatype Slot = Slot(dst: RegIndex, val: u32)

  const EMPTY: Slot := Slot(0, 0)

  datatype State = State(
    gpr: Regs, cop0: Regs, hi: u32, lo: u32,
    currPc: u32, pc: u32, nextPc: u32, instr: u32,
    ldNext: Slot, ldPend: Slot,
    nextInDelaySlot: bool, inDelaySlot: bool,
    mem: Mem)

  // ---- exceptions

  // SR's three-deep stack of mode bits, pushed: bits 0-3 move up by two.
  function RaiseSr(sr: u32): (r: u32)
    ensures r == sr - sr % 64 + 4 * (sr % 16)
  {
    RaiseSrMeaning(sr);
    Or32(And32(sr, 0xFFFF_FFC0), Shl(And32(sr, 0x0000_000F), 2))
  }

  lemma RaiseSrMeaning(sr: u32)
    ensures Or32(And32(sr, 0xFFFF_FFC0), Shl(And32(sr, 0x0000_000F), 2)) == sr - sr % 64 + 4 * (sr % 16)
  {
    Pow2Values();
    hide And, Or, Pow2;
    ClearLow(sr, 6, 64);
    MaskLow(sr, 4);
    OrSum(sr - sr % 64, 4 * (sr % 16), 6, 64);
  }

  // The stack popped: bits 2-5 move down by two, bits 4-5 stay.
  function RfeSr(sr: u32): (r: u32)
    ensures r == sr - sr % 16 + sr % 64 / 4
  {
    RfeSrMeaning(sr);
    Or32(And32(sr, 0xFFFF_FFF0), Shr(And32(sr, 0x0000_003C), 2))
  }

  lemma RfeSrMeaning(sr: u32)
    ensures Or32(And32(sr, 0xFFFF_FFF0), Shr(And32(sr, 0x0000_003C), 2)) == sr - sr % 16 + sr % 64 / 4
  {
    Pow2Values();
    hide And, Or, Pow2;
    ClearLow(sr, 4, 16);
    KeepRange(sr, 2, 4, 6, 64);
    assert sr % 4 == sr % 64 % 4;
    OrSum(sr - sr % 16, sr % 64 / 4, 4, 16);
  }

  // Cause keeps bits 8-15 and takes the exception code; ~0xFFFF00FF is 0xFF00.
  function RaiseCause(cause: u32, code: ExcCode): (r: u32)
    ensures r == cause % 0x1_0000 - cause % 0x100 + 4 * code
  {
    RaiseCauseMeaning(cause, code);
    Or32(And32(cause, 0x0000_FF00), code * 4)
  }

  lemma RaiseCauseMeaning(cause: u32, code: ExcCode)
    ensures Or32(And32(cause, 0x0000_FF00), code * 4) == cause % 0x1_0000 - cause % 0x100 + 4 * code
    ensures 0 <= cause % 0x1_0000 - cause % 0x100
  {
    Pow2Values();
    hide And, Or, Pow2;
    KeepRange(cause, 8, 0x100, 16, 0x1_0000);
    OrSum(cause % 0x1_0000 - cause % 0x100, code * 4, 8, 0x100);
  }

  // An exception raised by an instruction and the address it continues at.
  datatype Trap = Trap(code: ExcCode, vector: Vector)

  type ExcCode = c: u32 | c < 32
  type Vector = v: u32 | v == 0x80 || v == 0x8000_0040 witness 0x80

  const GENERAL_VECTOR: Vector := 0x0000_0080
  const DEBUG_VECTOR: Vector := 0x8000_0040

  function RaiseCop0(cop0: Regs, epc: u32, code: ExcCode): Regs {
    cop0[COP0_EPC := epc]
        [COP0_SR := RaiseSr(cop0[COP0_SR])]
        [COP0_CAUSE := RaiseCause(cop0[COP0_CAUSE], code)]
  }

  function RaiseAll(cop0: Regs, epc: u32, traps: seq<Trap>): Regs
    decreases |traps|
  {
    if traps == [] then cop0
    else RaiseAll(RaiseCop0(cop0, epc, traps[0].code), epc, traps[1..])
  }

  function Raise(s: State, code: ExcCode): State {
    s.(cop0 := RaiseCop0(s.cop0, s.currPc, code), pc := GENERAL_VECTOR, nextPc := GENERAL_VECTOR + 4)
  }

  // ---- the operands of the current instruction

  function Kind(s: State): Mnemonic { Decode(s.instr) }

  function A(s: State): u32 { s.gpr[InstrRs(s.instr)] }

  function B(s: State): u32 { s.gpr[InstrRt(s.instr)] }

  function Imm(s: State): u16 { InstrImm(s.instr) }

  function DataVaddr(s: State): u32 { GetVaddr(Imm(s), A(s)) }

  // Data accesses below 16 MiB fold onto the lowest MiB: vaddr &= 0xFFFFF.
  function FoldVaddr(vaddr: u32): u32 {
    if vaddr <= 0x00FF_FFFF then vaddr % 0x10_0000 else vaddr
  }

  function DataPaddr(s: State): u32 { VaddrToPaddr(FoldVaddr(DataVaddr(s))) }

  function Aligned(paddr: u32): u32 { paddr - paddr % 4 }

  // The debug data watchpoint.
  predicate WatchEnabled(cop0: Regs) {
    And(cop0[COP0_DCIC], Or(DCIC_DE, DCIC_DAE)) != 0
  }

  predicate WatchHit(cop0: Regs, vaddr: u32) {
    WatchEnabled(cop0) && And(Xor(vaddr, cop0[COP0_BDA]), cop0[COP0_BDAM]) == 0
  }

  predicate CacheIsolated(cop0: Regs) {
    And(cop0[COP0_SR], SR_ISC) != 0
  }

  // ---- data accesses

  predicate IsLoad(k: Mnemonic) {
    k.LB? || k.LH? || k.LWL? || k.LW? || k.LBU? || k.LHU? || k.LWR?
  }

  predicate IsStore(k: Mnemonic) {
    k.SB? || k.SH? || k.SWL? || k.SW? || k.SWR?
  }

  function AccessWidth(k: Mnemonic): Width {
    if k.LB? || k.LBU? || k.SB? then 1
    else if k.LH? || k.LHU? || k.SH? then 2
    else 4
  }

  predicate IsUnalignedAccess(k: Mnemonic) {
    k.LWL? || k.LWR? || k.SWL? || k.SWR?
  }

  function AccessPaddr(s: State): u32 {
    if IsUnalignedAccess(Kind(s)) then Aligned(DataPaddr(s)) else DataPaddr(s)
  }

  // The instruction addresses memory: SW is dropped while the cache is isolated.
  predicate Addresses(s: State) {
    IsLoad(Kind(s)) || (IsStore(Kind(s)) && !(Kind(s).SW? && CacheIsolated(s.cop0)))
  }

  predicate Misaligned(s: State) {
    Addresses(s) && AccessPaddr(s) % AccessWidth(Kind(s)) != 0
  }

  // The instruction's data access, if it makes one, lies inside the declared arrays.
  predicate DataOk(s: State) {
    Addresses(s) && !Misaligned(s) ==>
      && (IsLoad(Kind(s)) ==> LoadOk(AccessPaddr(s), AccessWidth(Kind(s))))
      && (IsStore(Kind(s)) ==> StoreOk(AccessPaddr(s), AccessWidth(Kind(s))))
      && (IsUnalignedAccess(Kind(s)) ==> LoadOk(AccessPaddr(s), 4))
  }

  // ---- traps

  predicate AddOverflows(a: u32, b: u32) { !FitsSigned(Signed(a) + Signed(b)) }

  predicate SubOverflows(a: u32, b: u32) { !FitsSigned(Signed(a) - Signed(b)) }

  // The exceptions the current instruction raises, in order.
  function Traps(s: State): seq<Trap> {
    var k := Kind(s);
    if IsLoad(k) || IsStore(k) then
      if Addresses(s) then DataTraps(s) else []
    else if k.SYSCALL? then [Trap(EXC_SYS, GENERAL_VECTOR)]
    else if k.BREAK? then [Trap(EXC_BP, GENERAL_VECTOR)]
    else if (k.ADD? && AddOverflows(A(s), B(s)))
         || (k.SUB? && SubOverflows(A(s), B(s)))
         || (k.ADDI? && AddOverflows(SignExt16(Imm(s)), A(s))) then [Trap(EXC_OV, GENERAL_VECTOR)]
    else if k.JALR? && A(s) % 4 != 0 then [Trap(EXC_ADEL, GENERAL_VECTOR)]
    else []
  }

  // The watchpoint is tested before the alignment, and does not stop the access.
  function DataTraps(s: State): seq<Trap> {
    var watch := Trap(EXC_BP, DEBUG_VECTOR);
    var address := Trap(if IsLoad(Kind(s)) then EXC_ADEL else EXC_ADES, GENERAL_VECTOR);
    if WatchHit(s.cop0, DataVaddr(s)) then
      if Misaligned(s) then [watch, address] else [watch]
    else
      if Misaligned(s) then [address] else []
  }

  // ---- register file and load-delay queue

  // What an instruction does to the general registers: nothing, an immediate
  // write, or a load that lands two steps later.
  datatype Effect = NoEffect | Write(r: RegIndex, v: u32) | Deferred(r: RegIndex, v: u32)

  function BoolWord(b: bool): u32 { if b then 1 else 0 }

  function ReturnAddr(s: State): u32 { Wrap(s.currPc + 8) }

  // rt selects the link and the sense of the comparison.
  function BcondLinks(rt: RegIndex): (b: bool)
    ensures b == (rt == 0x10 || rt == 0x11)
  {
    Pow2Values();
    KeepRange(rt, 1, 2, 5, 32);
    And(rt, 0x1E) == 0x10
  }

  function BcondTaken(a: u32, rt: RegIndex): (b: bool)
    ensures b == if rt % 2 == 0 then Signed(a) < 0 else Signed(a) >= 0
  {
    TopBit(a, rt);
    Signed(Xor32(a, Shl(rt, 31))) < 0
  }

  lemma TopBit(a: u32, rt: RegIndex)
    ensures (Signed(Xor32(a, Shl(rt, 31))) < 0) == ((Signed(a) < 0) != (rt % 2 == 1))
  {
    Pow2Values();
    hide Xor, Pow2, Wrap;
    WrapIs(rt * 0x8000_0000, rt / 2, rt % 2 * 0x8000_0000);
    BitwiseMeaning(a, Shl(rt, 31), 31);
    TopBitIsSign(a);
    TopBitIsSign(Shl(rt, 31));
    TopBitIsSign(Xor32(a, Shl(rt, 31)));
  }

  lemma TopBitIsSign(x: u32)
    ensures Bit(x, 31) == (Signed(x) < 0)
  {
    Pow2Values();
  }

  // The value a load queues: the pending value of rt, when there is one, is what
  // LWL and LWR merge into.
  function Forwarded(s: State): u32 {
    if s.ldNext.dst == InstrRt(s.instr) then s.ldNext.val else B(s)
  }

  function LoadValue(s: State): u32
    requires IsLoad(Kind(s)) && !Misaligned(s) && DataOk(s)
  {
    var k, raw := Kind(s), Load(s.mem, AccessPaddr(s), AccessWidth(Kind(s)));
    LoadFits(s.mem, AccessPaddr(s), AccessWidth(k));
    if k.LB? then SignExt8(raw)
    else if k.LH? then SignExt16(raw)
    else if k.LWL? then Splice.Lwl(Forwarded(s), raw, DataPaddr(s) % 4)
    else if k.LWR? then Splice.Lwr(Forwarded(s), raw, DataPaddr(s) % 4)
    else raw
  }

  lemma LoadFits(m: Mem, paddr: u32, n: Width)
    requires LoadOk(paddr, n)
    ensures n == 1 ==> Load(m, paddr, n) < 0x100
    ensures n == 2 ==> Load(m, paddr, n) < 0x1_0000
  {
  }

  function RegEffect(s: State): Effect
    requires DataOk(s)
  {
    if !IsLoad(Kind(s)) then AluEffect(s)
    else if Misaligned(s) || InstrRt(s.instr) == GPR_ZERO then NoEffect
    else Deferred(InstrRt(s.instr), LoadValue(s))
  }

  predicate IsShift(k: Mnemonic) {
    k.SLL? || k.SRL? || k.SRA? || k.SLLV? || k.SRLV? || k.SRAV?
  }

  predicate IsRegArith(k: Mnemonic) {
    k.ADD? || k.ADDU? || k.SUB? || k.SUBU? || k.AND? || k.OR? || k.XOR? || k.NOR? || k.SLT? || k.SLTU?
  }

  predicate IsImmediate(k: Mnemonic) {
    k.ADDI? || k.ADDIU? || k.SLTI? || k.SLTIU? || k.ANDI? || k.ORI? || k.XORI? || k.LUI?
  }

  function ShiftValue(k: Mnemonic, a: u32, b: u32, shamt: RegIndex): u32 {
    if k.SLL? then Shl(b, shamt)
    else if k.SRL? then Shr(b, shamt)
    else if k.SRA? then Sra(b, shamt)
    else if k.SLLV? then Shl(b, a % 32)
    else if k.SRLV? then Shr(b, a % 32)
    else Sra(b, a % 32)
  }

  function ArithValue(k: Mnemonic, a: u32, b: u32): u32 {
    if k.ADD? then Wrap(Signed(a) + Signed(b))
    else if k.ADDU? then Wrap(a + b)
    else if k.SUB? then Wrap(Signed(a) - Signed(b))
    else if k.SUBU? then Wrap(a - b)
    else if k.AND? then And32(a, b)
    else if k.OR? then Or32(a, b)
    else if k.XOR? then Xor32(a, b)
    else if k.NOR? then Not32(Or32(a, b))
    else if k.SLT? then BoolWord(Signed(a) < Signed(b))
    else BoolWord(a < b)
  }

  function ImmediateValue(k: Mnemonic, a: u32, imm: u16): u32 {
    if k.ADDI? then Wrap(Signed(SignExt16(imm)) + Signed(a))
    else if k.ADDIU? then Wrap(SignExt16(imm) + a)
    else if k.SLTI? then BoolWord(Signed(a) < Signed(SignExt16(imm)))
    else if k.SLTIU? then BoolWord(a < SignExt16(imm))
    else if k.ANDI? then And32(a, imm)
    else if k.ORI? then Or32(a, imm)
    else if k.XORI? then Xor32(a, imm)
    else imm as int * 0x1_0000
  }

  function AluEffect(s: State): Effect {
    var k, rd, rt := Kind(s), InstrRd(s.instr), InstrRt(s.instr);
    if IsShift(k) then Write(rd, ShiftValue(k, A(s), B(s), InstrShamt(s.instr)))
    else if IsRegArith(k) then
      if Traps(s) == [] then Write(rd, ArithValue(k, A(s), B(s))) else NoEffect
    else if IsImmediate(k) then
      if Traps(s) == [] then Write(rt, ImmediateValue(k, A(s), Imm(s))) else NoEffect
    else if k.MFHI? then Write(rd, s.hi)
    else if k.MFLO? then Write(rd, s.lo)
    else if k.MFC0? then Write(rt, s.cop0[rd])
    else if k.JALR? then Write(rd, ReturnAddr(s))
    else if k.JAL? || (k.BCOND? && BcondLinks(rt)) then Write(GPR_RA, ReturnAddr(s))
    else NoEffect
  }

  // The register an effect is about cancels a load that is about to land in it.
  function Cancel(ldNext: Slot, e: Effect): Slot {
    if e != NoEffect && ldNext.dst == e.r then EMPTY else ldNext
  }

  // gpr[0] is cleared after every instruction but an illegal one.
  function GprAfter(s: State): Regs
    requires DataOk(s)
  {
    var e := RegEffect(s);
    if Kind(s).ILLEGAL? then s.gpr
    else if e.Write? then s.gpr[e.r := e.v][0 := 0]
    else s.gpr[0 := 0]
  }

  function LdNextAfter(s: State): Slot
    requires DataOk(s)
  {
    Cancel(s.ldNext, RegEffect(s))
  }

  function LdPendAfter(s: State): Slot
    requires DataOk(s)
  {
    var e := RegEffect(s);
    if e.Deferred? then Slot(e.r, e.v) else s.ldPend
  }

  // ---- hi/lo, cop0

  function HiLoAfter(s: State): HiLo {
    var k := Kind(s);
    if k.MTHI? then HiLo(A(s), s.lo)
    else if k.MTLO? then HiLo(s.hi, A(s))
    else if k.MULT? then Alu.Mult(A(s), B(s))
    else if k.MULTU? then Multu(A(s), B(s))
    else if k.DIV? then Alu.Div(A(s), B(s))
    else if k.DIVU? then Divu(A(s), B(s))
    else HiLo(s.hi, s.lo)
  }

  function Cop0After(s: State): Regs {
    if Kind(s).MTC0? then s.cop0[InstrRd(s.instr) := B(s)]
    else if Kind(s).RFE? then s.cop0[COP0_SR := RfeSr(s.cop0[COP0_SR])]
    else RaiseAll(s.cop0, s.currPc, Traps(s))
  }

  // ---- program counters

  predicate IsConditional(k: Mnemonic) {
    k.BCOND? || k.BEQ? || k.BNE? || k.BLEZ? || k.BGTZ?
  }

  predicate IsTransfer(k: Mnemonic) {
    IsConditional(k) || k.J? || k.JAL? || k.JR? || k.JALR?
  }

  // The instruction is a branch or jump that does not fault.
  predicate Transfers(s: State) {
    IsTransfer(Kind(s)) && Traps(s) == []
  }

  predicate Condition(s: State) {
    var k := Kind(s);
    if k.BCOND? then BcondTaken(A(s), InstrRt(s.instr))
    else if k.BEQ? then A(s) == B(s)
    else if k.BNE? then A(s) != B(s)
    else if k.BLEZ? then Signed(A(s)) <= 0
    else Signed(A(s)) > 0
  }

  // ... and it goes to its target.
  predicate Taken(s: State) {
    Transfers(s) && (IsConditional(Kind(s)) ==> Condition(s))
  }

  // A conditional branch that sits in a delay slot is displaced by three words.
  function Adjust(s: State): u32 { if s.inDelaySlot then 12 else 0 }

  function Target(s: State): u32 {
    if IsConditional(Kind(s)) then CalcBranchAddr(s.instr, Wrap(s.currPc + Adjust(s)))
    else if Kind(s).JR? || Kind(s).JALR? then A(s)
    else CalcJmpAddr(s.instr, s.currPc)
  }

  function PcAfter(s: State): u32 {
    if Traps(s) != [] then Traps(s)[|Traps(s)| - 1].vector else s.pc
  }

  function NextPcAfter(s: State): u32 {
    if Traps(s) != [] then Traps(s)[|Traps(s)| - 1].vector + 4
    else if Taken(s) then Target(s)
    else s.nextPc
  }

  // ---- memory

  // What a store writes; the unaligned ones rewrite the whole aligned word.
  function StoreValue(s: State): u32
    requires IsStore(Kind(s)) && Addresses(s) && !Misaligned(s) && DataOk(s)
  {
    var k := DataPaddr(s) % 4;
    if Kind(s).SB? then B(s) % 0x100
    else if Kind(s).SH? then B(s) % 0x1_0000
    else if Kind(s).SWL? then Splice.Swl(Load(s.mem, AccessPaddr(s), 4), B(s), k)
    else if Kind(s).SWR? then Splice.Swr(Load(s.mem, AccessPaddr(s), 4), B(s), k)
    else B(s)
  }

  function MemAfter(s: State): Mem
    requires DataOk(s)
  {
    if IsStore(Kind(s)) && Addresses(s) && !Misaligned(s) then
      Store(s.mem, AccessPaddr(s), AccessWidth(Kind(s)), StoreValue(s))
    else s.mem
  }

  // ---- one step

  // Execute the instruction word already in s.instr.
  function Exec(s: State): State
    requires DataOk(s)
  {
    s.(gpr := GprAfter(s), ldNext := LdNextAfter(s), ldPend := LdPendAfter(s),
       hi := HiLoAfter(s).hi, lo := HiLoAfter(s).lo, cop0 := Cop0After(s),
       pc := PcAfter(s), nextPc := NextPcAfter(s),
       nextInDelaySlot := Transfers(s) || s.nextInDelaySlot,
       mem := MemAfter(s))
  }

  function EnterSlot(s: State): State {
    s.(inDelaySlot := s.nextInDelaySlot, nextInDelaySlot := false)
  }

  // The load in ldNext lands and the queue moves up.
  function LoadDelay(s: State): State {
    s.(gpr := s.gpr[s.ldNext.dst := s.ldNext.val], ldNext := s.ldPend, ldPend := EMPTY)
  }

  function FetchFault(s: State): State {
    if s.pc % 4 != 0 then Raise(s, EXC_ADEL) else s
  }

  // The address the next step executes from: a misaligned pc goes to the handler.
  function FetchPc(s: State): (r: u32)
    ensures r % 4 == 0
  {
    if s.pc % 4 != 0 then GENERAL_VECTOR else s.pc
  }

  predicate FetchOk(s: State) {
    LoadOk(VaddrToPaddr(FetchPc(s)), 4)
  }

  function FetchWord(s: State): u32
    requires FetchOk(s)
  {
    Load(s.mem, VaddrToPaddr(FetchPc(s)), 4)
  }

  // Take w as the fetched word and advance the program counters.
  function Advance(s: State, w: u32): State {
    s.(currPc := s.pc, instr := w, pc := s.nextPc, nextPc := Wrap(s.nextPc + 4))
  }

  // The machine about to execute w.
  function Front(s: State, w: u32): State {
    Advance(FetchFault(LoadDelay(EnterSlot(s))), w)
  }

  // A step in which the fetched word is w.
  predicate WordOk(s: State, w: u32) {
    DataOk(Front(s, w))
  }

  function StepWord(s: State, w: u32): State
    requires WordOk(s, w)
  {
    Exec(Front(s, w))
  }

  predicate StepOk(s: State) {
    FetchOk(s) && WordOk(s, FetchWord(s))
  }

  function Step(s: State): State
    requires StepOk(s)
  {
    StepWord(s, FetchWord(s))
  }

  // ---- runs

  // A run: every state follows from the one before by a step that stays inside
  // the declared arrays.
  ghost predicate IsRun(tr: seq<State>) {
    |tr| > 0 && forall i :: 0 <= i < |tr| - 1 ==> StepOk(tr[i]) && tr[i + 1] == Step(tr[i])
  }

  // The machine of step i of a run, at the point where its instruction executes.
  ghost function At(tr: seq<State>, i: nat): State
    requires IsRun(tr) && i < |tr| - 1
  {
    Front(tr[i], FetchWord(tr[i]))
  }

  lemma RunStep(tr: seq<State>, i: nat)
    requires IsRun(tr) && i + 1 < |tr|
    ensures FetchOk(tr[i]) && WordOk(tr[i], FetchWord(tr[i])) && tr[i + 1] == StepWord(tr[i], FetchWord(tr[i]))
  {
    hide FetchOk, WordOk, StepWord, FetchWord;
  }

  // A program given as the words executed one after another, wherever they come from.
  ghost predicate WordsOk(s: State, ws: seq<u32>)
    decreases |ws|
  {
    ws == [] || (WordOk(s, ws[0]) && WordsOk(StepWord(s, ws[0]), ws[1..]))
  }

  // The machine after executing the words one after another.
  ghost function RunWords(s: State, ws: seq<u32>): State
    requires WordsOk(s, ws)
    decreases |ws|
  {
    if ws == [] then s else RunWords(StepWord(s, ws[0]), ws[1..])
  }

  // psycho_cpu_reset: control and the load-delay queue, but not the registers.
  function ResetCpu(s: State): State {
    s.(pc := RESET_PC, nextPc := RESET_PC + 4, currPc := RESET_PC,
       inDelaySlot := false, nextInDelaySlot := false, ldNext := EMPTY, ldPend := EMPTY)
  }

  // Zeroed storage after psycho_cpu_reset, around a given BIOS image.
  function ResetState(bios: Bios): State {
    State(seq(32, _ => 0), seq(32, _ => 0), 0, 0, RESET_PC, RESET_PC, Wrap(RESET_PC + 4), 0,
          EMPTY, EMPTY, false, false,
          Mem(seq(RAM_SIZE, _ => 0), seq(SCRATCHPAD_SIZE, _ => 0), bios))
  }
}
