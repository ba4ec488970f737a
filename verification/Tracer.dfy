// The disassembler in the form of core/disasm.c: a switch that fills a result
// buffer. Cases that leave the switch instead of returning fall into the line for
// illegal words.

module TracerDevice {
  import opened Words
  import opened Mips
  import opened Machine
  import opened Disassembly

  class Tracer {
    var str: string
    var len: nat
    var pc: u32
    var traceInstruction: bool

    ghost predicate Shows(l: Line)
      reads this
    {
      str == Render(l) && len == |str|
    }

    constructor ()
      ensures str == "" && len == 0 && pc == 0 && !traceInstruction
    {
      str, len, pc, traceInstruction := "", 0, 0, false;
    }

    method SetResult(l: Line)
      modifies this`str, this`len
      ensures Shows(l)
    {
      str := Render(l);
      len := |str|;
    }

    // The cases of INSTR_GROUP_SPECIAL; false when the case does not return.
    method Special(instr: u32) returns (returned: bool)
      requires InstrOp(instr) == 0
      modifies this`str, this`len
      ensures if returned then Shows(SpecialLine(instr)) else SpecialLine(instr) == IllegalLine(instr)
    {
      hide Render, InstrRd, InstrRs, InstrRt, InstrShamt;
      var rd, rs, rt := Reg(InstrRd(instr)), Reg(InstrRs(instr)), Reg(InstrRt(instr));
      var k := SpecialMnemonic(InstrFunct(instr));
      returned := true;
      if k.SLL? {
        if instr == 0x0000_0000 {
          SetResult(Line(Nop, []));
        } else {
          SetResult(Line(Plain(SLL), [rd, rt, Count(InstrShamt(instr))]));
        }
      } else if k.SRL? || k.SRA? {
        SetResult(Line(Plain(k), [rd, rt, Count(InstrShamt(instr))]));
      } else if k.SLLV? {
        SetResult(Line(Plain(SLLV), [rd, rt, rs]));
      } else if k.SRLV? || k.SRAV? {
        SetResult(Line(Plain(k), [rd, rt, rs]));
        returned := false;
      } else if k.JR? || k.MTHI? || k.MTLO? {
        SetResult(Line(Plain(k), [rs]));
      } else if k.JALR? {
        SetResult(Line(Plain(JALR), [rd, rs]));
      } else if k.MFHI? || k.MFLO? {
        SetResult(Line(Plain(k), [rd]));
      } else if k.MULT? || k.MULTU? || k.DIV? || k.DIVU? {
        SetResult(Line(Plain(k), [rs, rt]));
      } else if IsRegArith(k) {
        SetResult(Line(Plain(k), [rd, rs, rt]));
      } else {
        returned := false;
      }
    }

    method Bcond(instr: u32, at: u32) returns (returned: bool)
      modifies this`str, this`len
      ensures if returned then Shows(BcondLine(instr, at)) else BcondLine(instr, at) == IllegalLine(instr)
    {
      hide Render;
      var ops := [Reg(InstrRs(instr)), Address(CalcBranchAddr(instr, at))];
      returned := true;
      match InstrRt(instr) {
        case 0x00 => SetResult(Line(Bltz, ops));
        case 0x01 => SetResult(Line(Bgez, ops));
        case 0x10 => SetResult(Line(Bltzal, ops));
        case _ => returned := false;
      }
    }

    method Cop0(instr: u32) returns (returned: bool)
      modifies this`str, this`len
      ensures if returned then Shows(Cop0Line(instr)) else Cop0Line(instr) == IllegalLine(instr)
    {
      hide Render;
      returned := true;
      match InstrRs(instr) {
        case 0x00 => SetResult(Line(Plain(MFC0), [Reg(InstrRt(instr)), Cpr(InstrRd(instr))]));
        case 0x04 => SetResult(Line(Plain(MTC0), [Cpr(InstrRd(instr)), Reg(InstrRt(instr))]));
        case _ => returned := false;
      }
    }

    method Other(instr: u32, at: u32) returns (returned: bool)
      modifies this`str, this`len
      ensures if returned then Shows(MainLine(instr, at)) else MainLine(instr, at) == IllegalLine(instr)
    {
      hide Render, InstrRs, InstrRt, InstrImm, CalcBranchAddr, CalcJmpAddr;
      var k := MainMnemonic(InstrOp(instr));
      var rs, rt, imm := Reg(InstrRs(instr)), Reg(InstrRt(instr)), Imm16(InstrImm(instr));
      returned := true;
      if k.J? || k.JAL? {
        SetResult(Line(Plain(k), [Address(CalcJmpAddr(instr, at))]));
      } else if k.BEQ? || k.BNE? || k.BLEZ? || k.BGTZ? {
        SetResult(Line(Plain(k), [rs, rt, Address(CalcBranchAddr(instr, at))]));
      } else if k.LUI? {
        SetResult(Line(Plain(LUI), [rt, imm]));
      } else if IsImmediate(k) {
        SetResult(Line(Plain(k), [rt, rs, imm]));
      } else if IsLoad(k) || IsStore(k) {
        SetResult(Line(Plain(k), [rt, Based(InstrImm(instr), InstrRs(instr))]));
      } else {
        returned := false;
      }
    }

    // psycho_disasm_instr
    method Instr(instr: u32, at: u32)
      modifies this`str, this`len
      ensures str == Text(instr, at) && len == |str|
    {
      hide Render, SpecialLine, BcondLine, Cop0Line, MainLine, IllegalLine, InstrOp;
      var returned := false;
      if InstrOp(instr) == 0x00 {
        returned := Special(instr);
      } else if InstrOp(instr) == 0x01 {
        returned := Bcond(instr, at);
      } else if InstrOp(instr) == 0x10 {
        returned := Cop0(instr);
      } else {
        returned := Other(instr, at);
      }
      if !returned {
        SetResult(IllegalLine(instr));
      }
    }

    // psycho_disasm_trace_begin, given the word peeked at the current pc.
    method TraceBegin(instr: u32, at: u32)
      modifies this`str, this`len, this`pc
      ensures str == Text(instr, at) && len == |str| && pc == at
    {
      str, len := "", 0;
      pc := at;
      Instr(instr, at);
    }
  }
}
