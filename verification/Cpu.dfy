// The interpreter in the form of core/cpu.c: fields updated in place, one switch
// on the instruction. Every method is proved against the pure step of Machine.dfy.

module Interpreter {
  import opened Words
  import opened Mips
  import opened Memory
  import opened Alu
  import opened Machine
  import opened Effects
  import opened BusDevice
  import Splice

  class Cpu {
    const bus: Bus
    const gpr: array<u32>
    const cop0: array<u32>
    var hi: u32
    var lo: u32
    var currPc: u32
    var pc: u32
    var nextPc: u32
    var instr: u32
    var ldNext: Slot
    var ldPend: Slot
    var nextInDelaySlot: bool
    var inDelaySlot: bool

    ghost predicate Valid() {
      && bus.Valid()
      && gpr.Length == 32 && cop0.Length == 32
      && gpr != cop0
      && bus.ram as object !in {gpr, cop0} && bus.scratchpad as object !in {gpr, cop0}
      && bus.bios as object !in {gpr, cop0}
    }

    // Everything an instruction may change.
    ghost function Footprint(): set<object> {
      {this, gpr, cop0, bus.ram, bus.scratchpad}
    }

    ghost function S(): State
      requires Valid()
      reads this, gpr, cop0, bus.ram, bus.scratchpad, bus.bios
    {
      State(gpr[..], cop0[..], hi, lo, currPc, pc, nextPc, instr, ldNext, ldPend,
            nextInDelaySlot, inDelaySlot, bus.Contents())
    }

    // Statically zeroed storage, then psycho_cpu_reset.
    constructor (theBus: Bus)
      requires theBus.Valid()
      ensures Valid() && bus == theBus && fresh(gpr) && fresh(cop0)
      ensures S() == ResetState(theBus.Contents().bios).(mem := theBus.Contents())
    {
      bus := theBus;
      gpr := new u32[32](_ => 0);
      cop0 := new u32[32](_ => 0);
      hi, lo, instr := 0, 0, 0;
      new;
      Reset();
    }

    method Reset()
      requires Valid()
      modifies this
      ensures S() == ResetCpu(old(S()))
    {
      pc := RESET_PC;
      nextPc := RESET_PC + 4;
      currPc := pc;
      inDelaySlot := false;
      nextInDelaySlot := false;
      ldNext := EMPTY;
      ldPend := EMPTY;
    }

    // The stack and global pointers of a loaded executable.
    method InitPointers(gp: u32, spFpBase: u32, spFpOff: u32)
      requires Valid()
      modifies gpr
      ensures gpr[..] == old(gpr[..])[GPR_GP := gp]
          [GPR_SP := Wrap((if spFpBase != 0 then spFpBase else old(gpr[29])) + spFpOff)]
          [GPR_FP := Wrap(spFpBase + spFpOff)]
    {
      gpr[GPR_GP] := gp;
      gpr[GPR_FP] := spFpBase;
      if gpr[GPR_FP] != 0 {
        gpr[GPR_SP] := gpr[GPR_FP];
      }
      gpr[GPR_SP] := Wrap(gpr[GPR_SP] + spFpOff);
      gpr[GPR_FP] := Wrap(gpr[GPR_FP] + spFpOff);
    }

    // The part of psycho_exe_load after its checks.
    method LoadImage(exe: seq<u8>, initialPc: u32, gp: u32, dst: u32, size: u32, spFpBase: u32, spFpOff: u32)
      requires Valid() && 0x800 + size <= |exe| && dst + size <= RAM_SIZE
      modifies this, gpr, bus.ram
      ensures S() == old(S()).(
        pc := initialPc, nextPc := Wrap(initialPc + 4),
        gpr := old(gpr[..])[GPR_GP := gp]
          [GPR_SP := Wrap((if spFpBase != 0 then spFpBase else old(gpr[29])) + spFpOff)]
          [GPR_FP := Wrap(spFpBase + spFpOff)],
        mem := old(S()).mem.(ram := old(bus.ram[..])[..dst] + exe[0x800..0x800 + size] + old(bus.ram[..])[dst + size..]))
    {
      hide Wrap;
      pc := initialPc;
      nextPc := Wrap(pc + 4);
      bus.CopyToRam(dst, exe[0x800..0x800 + size]);
      InitPointers(gp, spFpBase, spFpOff);
    }

    method BranchIf(condMet: bool)
      requires Valid()
      modifies this
      ensures S() == WithBranch(old(S()), condMet)
    {
      nextInDelaySlot := true;
      var adjust := 0;
      if inDelaySlot {
        adjust := 4 * 3;
      }
      if condMet {
        nextPc := CalcBranchAddr(instr, Wrap(currPc + adjust));
      }
    }

    method Jmp(val: u32)
      requires Valid()
      modifies this
      ensures S() == WithJump(old(S()), val)
    {
      nextInDelaySlot := true;
      nextPc := val;
    }

    method GprSetDelayed(dst: RegIndex, val: u32)
      requires Valid()
      modifies this
      ensures S() == WithDelayed(old(S()), dst, val)
    {
      if dst == 0 {
        return;
      }
      ldPend := Slot(dst, val);
      if ldNext.dst == dst {
        ldNext := EMPTY;
      }
    }

    method GprSet(reg: RegIndex, val: u32)
      requires Valid()
      modifies this, gpr
      ensures S() == WithGpr(old(S()), reg, val)
    {
      if ldNext.dst == reg {
        ldNext := EMPTY;
      }
      gpr[reg] := val;
    }

    method LoadDelayProcess()
      requires Valid()
      modifies this, gpr
      ensures S() == LoadDelay(old(S()))
    {
      gpr[ldNext.dst] := ldNext.val;
      ldNext := EMPTY;
      ldPend, ldNext := ldNext, ldPend;
    }

    method RaiseException(exc: ExcCode)
      requires Valid()
      modifies this, cop0
      ensures S() == Raise(old(S()), exc)
    {
      cop0[COP0_EPC] := currPc;
      cop0[COP0_SR] := RaiseSr(cop0[COP0_SR]);
      cop0[COP0_CAUSE] := RaiseCause(cop0[COP0_CAUSE], exc);
      pc := 0x0000_0080;
      nextPc := 0x0000_0084;
    }

    method DbgDataBpChk(vaddr: u32)
      requires Valid()
      modifies this, cop0
      ensures S() == WithWatch(old(S()), vaddr)
    {
      if And(cop0[COP0_DCIC], Or(DCIC_DE, DCIC_DAE)) == 0 {
        return;
      }
      var bda := cop0[COP0_BDA];
      var bdam := cop0[COP0_BDAM];
      if And(Xor(vaddr, bda), bdam) == 0 {
        RaiseException(EXC_BP);
        pc := 0x8000_0040;
        nextPc := 0x8000_0044;
      }
    }

    method GetPhysAddr() returns (paddr: u32)
      requires Valid()
      modifies this, cop0
      ensures paddr == DataPaddr(old(S()))
      ensures S() == WithWatch(old(S()), DataVaddr(old(S())))
    {
      var off := InstrImm(instr);
      var base := InstrRs(instr);
      var vaddr := GetVaddr(off, gpr[base]);
      DbgDataBpChk(vaddr);
      if vaddr <= 0x00FF_FFFF {
        vaddr := vaddr % 0x10_0000;
      }
      paddr := VaddrToPaddr(vaddr);
    }

    // ---- the switch, group by group

    method ExecuteShift()
      requires Valid() && DataOk(S())
      requires Decode(instr).SLL? || Decode(instr).SRL? || Decode(instr).SRA?
      modifies this, gpr
      ensures Executed(old(S()), S())
    {
      hide Decode, Executed, DataOk, Shl, Shr, Sra;
      ghost var s := S();
      var rd, rt, shamt := InstrRd(instr), InstrRt(instr), InstrShamt(instr);
      if Decode(instr).SLL? {
        GprSet(rd, Shl(gpr[rt], shamt));
      } else if Decode(instr).SRL? {
        GprSet(rd, Shr(gpr[rt], shamt));
      } else {
        GprSet(rd, Sra(gpr[rt], shamt));
      }
      ExecShift(s);
    }

    method ExecuteShiftVariable()
      requires Valid() && DataOk(S())
      requires Decode(instr).SLLV? || Decode(instr).SRLV? || Decode(instr).SRAV?
      modifies this, gpr
      ensures Executed(old(S()), S())
    {
      hide Decode, Executed, DataOk, Shl, Shr, Sra;
      ghost var s := S();
      var rd, rt, rs := InstrRd(instr), InstrRt(instr), InstrRs(instr);
      if Decode(instr).SLLV? {
        GprSet(rd, Shl(gpr[rt], gpr[rs] % 32));
      } else if Decode(instr).SRLV? {
        GprSet(rd, Shr(gpr[rt], gpr[rs] % 32));
      } else {
        GprSet(rd, Sra(gpr[rt], gpr[rs] % 32));
      }
      ExecShift(s);
    }

    method ExecuteJumpRegister()
      requires Valid() && DataOk(S())
      requires Decode(instr).JR? || Decode(instr).JALR?
      modifies this, gpr, cop0
      ensures Executed(old(S()), S())
    {
      hide Decode, Executed, DataOk, Traps, RegEffect, CalcJmpAddr;
      ghost var s := S();
      ExecJumps(s);
      var target := gpr[InstrRs(instr)];
      if Decode(instr).JR? {
        Jmp(target);
      } else {
        GprSet(InstrRd(instr), Wrap(currPc + 8));
        if target % 4 != 0 {
          RaiseException(EXC_ADEL);
          return;
        }
        Jmp(target);
      }
    }

    method ExecuteTrap()
      requires Valid() && DataOk(S())
      requires Decode(instr).SYSCALL? || Decode(instr).BREAK?
      modifies this, cop0
      ensures Executed(old(S()), S())
    {
      hide Decode, Executed, DataOk, RegEffect;
      ghost var s := S();
      NoEffectOf(s);
      if Decode(instr).SYSCALL? {
        RaiseException(EXC_SYS);
        ExecTrap(s, EXC_SYS);
      } else {
        RaiseException(EXC_BP);
        ExecTrap(s, EXC_BP);
      }
    }

    method ExecuteMoveHiLo()
      requires Valid() && DataOk(S())
      requires Decode(instr).MFHI? || Decode(instr).MTHI? || Decode(instr).MFLO? || Decode(instr).MTLO?
      modifies this, gpr
      ensures Executed(old(S()), S())
    {
      hide Decode, Executed, DataOk;
      ghost var s := S();
      if Decode(instr).MFHI? || Decode(instr).MFLO? {
        ExecMoveFrom(s);
      } else {
        ExecHiLo(s);
      }
      var rd, rs := InstrRd(instr), InstrRs(instr);
      if Decode(instr).MFHI? {
        GprSet(rd, hi);
      } else if Decode(instr).MTHI? {
        hi := gpr[rs];
      } else if Decode(instr).MFLO? {
        GprSet(rd, lo);
      } else {
        lo := gpr[rs];
      }
    }

    method ExecuteMultiply()
      requires Valid() && DataOk(S())
      requires Decode(instr).MULT? || Decode(instr).MULTU?
      modifies this
      ensures Executed(old(S()), S())
    {
      hide Decode, Executed, DataOk, MultProduct, MultuProduct;
      ghost var s := S();
      var a, b := gpr[InstrRs(instr)], gpr[InstrRt(instr)];
      var prod: u64;
      if Decode(instr).MULT? {
        prod := MultProduct(a, b);
      } else {
        prod := MultuProduct(a, b);
      }
      lo := prod % 0x1_0000_0000;
      hi := prod / 0x1_0000_0000;
      ExecHiLo(s);
    }

    method ExecuteDivide()
      requires Valid() && DataOk(S())
      requires Decode(instr).DIV? || Decode(instr).DIVU?
      modifies this
      ensures Executed(old(S()), S())
    {
      hide Decode, Executed, DataOk, Alu.Div, Divu;
      ghost var s := S();
      if Decode(instr).DIV? {
        DivideSigned(gpr[InstrRs(instr)], gpr[InstrRt(instr)]);
      } else {
        DivideUnsigned(gpr[InstrRs(instr)], gpr[InstrRt(instr)]);
      }
      ExecHiLo(s);
    }

    method DivideSigned(rsVal: u32, rtVal: u32)
      requires Valid()
      modifies this
      ensures S() == old(S()).(hi := Alu.Div(rsVal, rtVal).hi, lo := Alu.Div(rsVal, rtVal).lo)
    {
      var divisor, dividend := Signed(rtVal), Signed(rsVal);
      if divisor == 0 {
        lo := if dividend < 0 then 0x0000_0001 else UINT32_MAX;
        hi := Wrap(dividend);
      } else if rsVal == 0x8000_0000 && rtVal == UINT32_MAX {
        lo := Wrap(dividend);
        hi := 0x0000_0000;
      } else {
        lo := Wrap(TruncDiv(dividend, divisor));
        hi := Wrap(TruncMod(dividend, divisor));
      }
    }

    method DivideUnsigned(rsVal: u32, rtVal: u32)
      requires Valid()
      modifies this
      ensures S() == old(S()).(hi := Divu(rsVal, rtVal).hi, lo := Divu(rsVal, rtVal).lo)
    {
      if rtVal == 0 {
        lo := UINT32_MAX;
        hi := rsVal;
      } else {
        DivLe(rsVal, rtVal);
        lo := rsVal / rtVal;
        hi := rsVal % rtVal;
      }
    }

    method ExecuteAddSub()
      requires Valid() && DataOk(S())
      requires Decode(instr).ADD? || Decode(instr).ADDU? || Decode(instr).SUB? || Decode(instr).SUBU?
      modifies this, gpr, cop0
      ensures Executed(old(S()), S())
    {
      hide Decode, Executed, DataOk, Traps, RegEffect, Wrap, And32, Or32, Xor32;
      ghost var s := S();
      ExecArithOrTrap(s);
      var rd: RegIndex, a: int, b: int := InstrRd(instr), gpr[InstrRs(instr)], gpr[InstrRt(instr)];
      if Decode(instr).ADD? {
        var sum := Signed(a) + Signed(b);
        if !FitsSigned(sum) {
          RaiseException(EXC_OV);
          return;
        }
        GprSet(rd, Wrap(sum));
      } else if Decode(instr).ADDU? {
        GprSet(rd, Wrap(a + b));
      } else if Decode(instr).SUB? {
        var diff := Signed(a) - Signed(b);
        if !FitsSigned(diff) {
          RaiseException(EXC_OV);
          return;
        }
        GprSet(rd, Wrap(diff));
      } else {
        GprSet(rd, Wrap(a - b));
      }
    }

    method ExecuteLogical()
      requires Valid() && DataOk(S())
      requires Decode(instr).AND? || Decode(instr).OR? || Decode(instr).XOR? || Decode(instr).NOR?
      modifies this, gpr
      ensures Executed(old(S()), S())
    {
      hide Decode, Executed, DataOk, Traps, RegEffect, Wrap, And32, Or32, Xor32;
      ghost var s := S();
      ExecArithOrTrap(s);
      var rd, a, b := InstrRd(instr), gpr[InstrRs(instr)], gpr[InstrRt(instr)];
      if Decode(instr).AND? {
        GprSet(rd, And32(a, b));
      } else if Decode(instr).OR? {
        GprSet(rd, Or32(a, b));
      } else if Decode(instr).XOR? {
        GprSet(rd, Xor32(a, b));
      } else {
        GprSet(rd, Not32(Or32(a, b)));
      }
    }

    method ExecuteCompare()
      requires Valid() && DataOk(S())
      requires Decode(instr).SLT? || Decode(instr).SLTU?
      modifies this, gpr
      ensures Executed(old(S()), S())
    {
      hide Decode, Executed, DataOk, Traps, RegEffect, Wrap, And32, Or32, Xor32;
      ghost var s := S();
      ExecArithOrTrap(s);
      var rd, a, b := InstrRd(instr), gpr[InstrRs(instr)], gpr[InstrRt(instr)];
      if Decode(instr).SLT? {
        GprSet(rd, BoolWord(Signed(a) < Signed(b)));
      } else {
        GprSet(rd, BoolWord(a < b));
      }
    }

    method ExecuteBcond()
      requires Valid() && DataOk(S())
      requires Decode(instr).BCOND?
      modifies this, gpr
      ensures Executed(old(S()), S())
    {
      hide Decode, Executed, DataOk, And, Xor32, Shl;
      ghost var s := S();
      var rt, rs := InstrRt(instr), InstrRs(instr);
      var link := And(rt, 0x1E) == 0x10;
      var branch := Signed(Xor32(gpr[rs], Shl(rt, 31))) < 0;
      if link {
        GprSet(GPR_RA, Wrap(currPc + 8));
      }
      BranchIf(branch);
      ExecBranch(s);
    }

    method ExecuteJump()
      requires Valid() && DataOk(S())
      requires Decode(instr).J? || Decode(instr).JAL?
      modifies this, gpr
      ensures Executed(old(S()), S())
    {
      hide Decode, Executed, DataOk, Traps, RegEffect, CalcJmpAddr;
      ghost var s := S();
      ExecJumps(s);
      if Decode(instr).JAL? {
        GprSet(GPR_RA, Wrap(currPc + 8));
      }
      Jmp(CalcJmpAddr(instr, currPc));
    }

    method ExecuteBranch()
      requires Valid() && DataOk(S())
      requires Decode(instr).BEQ? || Decode(instr).BNE? || Decode(instr).BLEZ? || Decode(instr).BGTZ?
      modifies this
      ensures Executed(old(S()), S())
    {
      hide Decode, Executed, DataOk, RegEffect, WithBranch;
      ghost var s := S();
      NoEffectOf(s);
      var a, b := gpr[InstrRs(instr)], gpr[InstrRt(instr)];
      if Decode(instr).BEQ? {
        BranchIf(a == b);
      } else if Decode(instr).BNE? {
        BranchIf(a != b);
      } else if Decode(instr).BLEZ? {
        BranchIf(Signed(a) <= 0);
      } else {
        BranchIf(Signed(a) > 0);
      }
      ExecBranch(s);
    }

    method ExecuteArithImmediate()
      requires Valid() && DataOk(S())
      requires Decode(instr).ADDI? || Decode(instr).ADDIU? || Decode(instr).SLTI? || Decode(instr).SLTIU?
      modifies this, gpr, cop0
      ensures Executed(old(S()), S())
    {
      hide Decode, Executed, DataOk, Traps, RegEffect, Wrap, And32, Or32, Xor32;
      ghost var s := S();
      ExecArithOrTrap(s);
      var rt: RegIndex, a: int, imm: int := InstrRt(instr), gpr[InstrRs(instr)], SignExt16(InstrImm(instr));
      if Decode(instr).ADDI? {
        var sum := Signed(imm) + Signed(a);
        if !FitsSigned(sum) {
          RaiseException(EXC_OV);
          return;
        }
        GprSet(rt, Wrap(sum));
      } else if Decode(instr).ADDIU? {
        GprSet(rt, Wrap(imm + a));
      } else if Decode(instr).SLTI? {
        GprSet(rt, BoolWord(Signed(a) < Signed(imm)));
      } else {
        GprSet(rt, BoolWord(a < imm));
      }
    }

    method ExecuteLogicImmediate()
      requires Valid() && DataOk(S())
      requires Decode(instr).ANDI? || Decode(instr).ORI? || Decode(instr).XORI? || Decode(instr).LUI?
      modifies this, gpr
      ensures Executed(old(S()), S())
    {
      hide Decode, Executed, DataOk, Traps, RegEffect, Wrap, And32, Or32, Xor32;
      ghost var s := S();
      ExecArithOrTrap(s);
      var rt, a, imm := InstrRt(instr), gpr[InstrRs(instr)], InstrImm(instr);
      if Decode(instr).ANDI? {
        GprSet(rt, And32(a, imm));
      } else if Decode(instr).ORI? {
        GprSet(rt, Or32(a, imm));
      } else if Decode(instr).XORI? {
        GprSet(rt, Xor32(a, imm));
      } else {
        GprSet(rt, imm as int * 0x1_0000);
      }
    }

    method ExecuteCop0()
      requires Valid() && DataOk(S())
      requires Decode(instr).MFC0? || Decode(instr).MTC0? || Decode(instr).RFE?
      modifies this, gpr, cop0
      ensures Executed(old(S()), S())
    {
      hide Decode, Executed, DataOk, RegEffect, Traps;
      ghost var s := S();
      var rd, rt := InstrRd(instr), InstrRt(instr);
      if Decode(instr).MFC0? {
        ExecMoveFrom(s);
        GprSet(rt, cop0[rd]);
      } else {
        ExecCop0(s);
        if Decode(instr).MTC0? {
          cop0[rd] := gpr[rt];
        } else {
          cop0[COP0_SR] := RfeSr(cop0[COP0_SR]);
        }
      }
    }

    // LB, LBU, LH, LHU, LW: the watchpoint, then the alignment check, then the load.
    method ExecuteLoad()
      requires Valid() && DataOk(S())
      requires IsLoad(Decode(instr)) && !IsUnalignedAccess(Decode(instr))
      modifies this, cop0
      ensures Executed(old(S()), S())
    {
      hide Decode, Executed, Traps, RegEffect, RaiseCop0, WatchHit, LoadOk, Load;
      ghost var s := S();
      ExecLoad(s);
      var rt := InstrRt(instr);
      var paddr := GetPhysAddr();
      if Decode(instr).LB? || Decode(instr).LBU? {
        var byte := bus.LoadByte(paddr);
        GprSetDelayed(rt, if Decode(instr).LB? then SignExt8(byte) else byte);
      } else if Decode(instr).LH? || Decode(instr).LHU? {
        if paddr % 2 != 0 {
          RaiseException(EXC_ADEL);
          return;
        }
        var halfword := bus.LoadHalfword(paddr);
        GprSetDelayed(rt, if Decode(instr).LH? then SignExt16(halfword) else halfword);
      } else {
        if paddr % 4 != 0 {
          RaiseException(EXC_ADEL);
          return;
        }
        var word := bus.LoadWord(paddr);
        GprSetDelayed(rt, word);
      }
    }

    // LWL, LWR: merge part of the aligned word into the value rt is about to have.
    method ExecuteLoadUnaligned()
      requires Valid() && DataOk(S())
      requires Decode(instr).LWL? || Decode(instr).LWR?
      modifies this, cop0
      ensures Executed(old(S()), S())
    {
      hide Decode, Executed, DataOk, WatchHit, RaiseCop0, DataVaddr, DataPaddr, LoadOk, Load, Byte, Splice.Lwl, Splice.Lwr;
      ghost var s := S();
      ExecLoadMerge(s);
      var rt := InstrRt(instr);
      var paddr := GetPhysAddr();
      var word := bus.LoadWord(paddr - paddr % 4);
      var val := if ldNext.dst == rt then ldNext.val else gpr[rt];
      if Decode(instr).LWL? {
        GprSetDelayed(rt, Splice.Lwl(val, word, paddr % 4));
      } else {
        GprSetDelayed(rt, Splice.Lwr(val, word, paddr % 4));
      }
    }

    // SB, SH, SW; SW does nothing while the cache is isolated.
    method ExecuteStore()
      requires Valid() && DataOk(S())
      requires IsStore(Decode(instr)) && !IsUnalignedAccess(Decode(instr))
      modifies this, cop0, bus.ram, bus.scratchpad
      ensures Executed(old(S()), S())
    {
      hide Decode, Executed, Traps, RegEffect, RaiseCop0, WatchHit, StoreOk, Store;
      ghost var s := S();
      if Decode(instr).SW? && And(cop0[COP0_SR], SR_ISC) != 0 {
        ExecIsolated(s);
        return;
      }
      ExecStore(s);
      var rt := InstrRt(instr);
      var paddr := GetPhysAddr();
      if Decode(instr).SB? {
        bus.StoreByte(paddr, gpr[rt] % 0x100);
      } else if Decode(instr).SH? {
        if paddr % 2 != 0 {
          RaiseException(EXC_ADES);
          return;
        }
        bus.StoreHalfword(paddr, gpr[rt] % 0x1_0000);
      } else {
        if paddr % 4 != 0 {
          RaiseException(EXC_ADES);
          return;
        }
        bus.StoreWord(paddr, gpr[rt]);
      }
    }

    // SWL, SWR: rewrite part of the aligned word.
    method ExecuteStoreUnaligned()
      requires Valid() && DataOk(S())
      requires Decode(instr).SWL? || Decode(instr).SWR?
      modifies this, cop0, bus.ram, bus.scratchpad
      ensures Executed(old(S()), S())
    {
      hide Decode, Executed, DataOk, WatchHit, RaiseCop0, DataVaddr, DataPaddr, StoreOk, LoadOk, Store, Load, Byte, Splice.Swl, Splice.Swr;
      ghost var s := S();
      ExecStoreMerge(s);
      var rt := InstrRt(instr);
      var paddr := GetPhysAddr();
      var aligned := paddr - paddr % 4;
      var word := bus.LoadWord(aligned);
      if Decode(instr).SWL? {
        word := Splice.Swl(word, gpr[rt], paddr % 4);
      } else {
        word := Splice.Swr(word, gpr[rt], paddr % 4);
      }
      bus.StoreWord(aligned, word);
    }

    // The switch; false for a word that reaches no case.
    method Execute() returns (legal: bool)
      requires Valid() && DataOk(S())
      modifies Footprint()
      ensures legal ==> Executed(old(S()), S())
      ensures !legal ==> Decode(instr).ILLEGAL? && S() == old(S())
    {
      legal := true;
      if InstrOp(instr) == 0x00 {
        legal := ExecuteSpecial();
      } else if InstrOp(instr) == 0x10 {
        if Decode(instr).ILLEGAL? {
          legal := false;
        } else {
          ExecuteCop0();
        }
      } else {
        legal := ExecuteMain();
      }
    }

    method ExecuteSpecial() returns (legal: bool)
      requires Valid() && DataOk(S()) && InstrOp(instr) == 0x00
      modifies this, gpr, cop0
      ensures legal ==> Executed(old(S()), S())
      ensures !legal ==> Decode(instr).ILLEGAL? && S() == old(S())
    {
      hide Executed, DataOk;
      legal := true;
      match InstrFunct(instr) {
        case 0x00 => ExecuteShift();
        case 0x02 => ExecuteShift();
        case 0x03 => ExecuteShift();
        case 0x04 => ExecuteShiftVariable();
        case 0x06 => ExecuteShiftVariable();
        case 0x07 => ExecuteShiftVariable();
        case 0x08 => ExecuteJumpRegister();
        case 0x09 => ExecuteJumpRegister();
        case 0x0C => ExecuteTrap();
        case 0x0D => ExecuteTrap();
        case 0x10 => ExecuteMoveHiLo();
        case 0x11 => ExecuteMoveHiLo();
        case 0x12 => ExecuteMoveHiLo();
        case 0x13 => ExecuteMoveHiLo();
        case 0x18 => ExecuteMultiply();
        case 0x19 => ExecuteMultiply();
        case 0x1A => ExecuteDivide();
        case 0x1B => ExecuteDivide();
        case 0x20 => ExecuteAddSub();
        case 0x21 => ExecuteAddSub();
        case 0x22 => ExecuteAddSub();
        case 0x23 => ExecuteAddSub();
        case 0x24 => ExecuteLogical();
        case 0x25 => ExecuteLogical();
        case 0x26 => ExecuteLogical();
        case 0x27 => ExecuteLogical();
        case 0x2A => ExecuteCompare();
        case 0x2B => ExecuteCompare();
        case _ => legal := false;
      }
    }

    method ExecuteMain() returns (legal: bool)
      requires Valid() && DataOk(S()) && InstrOp(instr) != 0x00 && InstrOp(instr) != 0x10
      modifies Footprint()
      ensures legal ==> Executed(old(S()), S())
      ensures !legal ==> Decode(instr).ILLEGAL? && S() == old(S())
    {
      hide Executed, DataOk;
      legal := true;
      match InstrOp(instr) {
        case 0x01 => ExecuteBcond();
        case 0x02 => ExecuteJump();
        case 0x03 => ExecuteJump();
        case 0x04 => ExecuteBranch();
        case 0x05 => ExecuteBranch();
        case 0x06 => ExecuteBranch();
        case 0x07 => ExecuteBranch();
        case 0x08 => ExecuteArithImmediate();
        case 0x09 => ExecuteArithImmediate();
        case 0x0A => ExecuteArithImmediate();
        case 0x0B => ExecuteArithImmediate();
        case 0x0C => ExecuteLogicImmediate();
        case 0x0D => ExecuteLogicImmediate();
        case 0x0E => ExecuteLogicImmediate();
        case 0x0F => ExecuteLogicImmediate();
        case 0x20 => ExecuteLoad();
        case 0x21 => ExecuteLoad();
        case 0x22 => ExecuteLoadUnaligned();
        case 0x23 => ExecuteLoad();
        case 0x24 => ExecuteLoad();
        case 0x25 => ExecuteLoad();
        case 0x26 => ExecuteLoadUnaligned();
        case 0x28 => ExecuteStore();
        case 0x29 => ExecuteStore();
        case 0x2A => ExecuteStoreUnaligned();
        case 0x2B => ExecuteStore();
        case 0x2E => ExecuteStoreUnaligned();
        case _ => legal := false;
      }
    }

    // The delay-slot flags, the load-delay queue and the alignment of pc.
    method Prepare()
      requires Valid()
      modifies this, gpr, cop0
      ensures S() == FetchFault(LoadDelay(EnterSlot(old(S()))))
    {
      hide RaiseCop0, LoadDelay;
      inDelaySlot := nextInDelaySlot;
      nextInDelaySlot := false;
      LoadDelayProcess();
      if pc % 4 != 0 {
        RaiseException(EXC_ADEL);
      }
    }

    // The part of psycho_cpu_step before the switch.
    method Fetch()
      requires Valid() && FetchOk(S())
      modifies this, gpr, cop0
      ensures S() == Front(old(S()), FetchWord(old(S())))
    {
      hide FetchOk, FetchWord, VaddrToPaddr, LoadOk, Load, LoadDelay, FetchPc, FetchFault, EnterSlot;
      FetchMeaning(S());
      Prepare();
      currPc := pc;
      instr := bus.LoadWord(VaddrToPaddr(currPc));
      pc := nextPc;
      nextPc := Wrap(pc + 4);
    }

    // psycho_cpu_step
    method Step()
      requires Valid() && StepOk(S())
      modifies Footprint()
      ensures S() == Machine.Step(old(S()))
    {
      hide DataOk, Exec, FetchOk, FetchWord, Front;
      Fetch();
      ghost var s := S();
      var legal := Execute();
      if !legal {
        ExecIllegal(s);
        return;
      }
      gpr[0] := 0x0000_0000;
    }
  }
}
