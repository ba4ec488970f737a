// The disassembler: a second decoder of the instruction words, which prints them.

module Disassembly {
  import opened Words
  import opened Mips
  import opened Machine

  // ---- printf conversions

  function Digit(n: nat): char
    requires n < 16
  {
    ['0', '1', '2', '3', '4', '5', '6', '7', '8', '9', 'A', 'B', 'C', 'D', 'E', 'F'][n]
  }

  // %0<width>X of a number that has at most that many digits.
  function Hex(n: nat, width: nat): (s: string)
    ensures |s| == width
  {
    if width == 0 then [] else Hex(n / 16, width - 1) + [Digit(n % 16)]
  }

  // %u
  function Dec(n: nat): (s: string)
    ensures |s| > 0
  {
    if n < 10 then [Digit(n)] else Dec(n / 10) + [Digit(n % 10)]
  }

  function GprName(r: RegIndex): string {
    match r
    case 0 => "$zero" case 1 => "$at"
    case 2 => "$v0" case 3 => "$v1"
    case 4 => "$a0" case 5 => "$a1" case 6 => "$a2" case 7 => "$a3"
    case 8 => "$t0" case 9 => "$t1" case 10 => "$t2" case 11 => "$t3"
    case 12 => "$t4" case 13 => "$t5" case 14 => "$t6" case 15 => "$t7"
    case 16 => "$s0" case 17 => "$s1" case 18 => "$s2" case 19 => "$s3"
    case 20 => "$s4" case 21 => "$s5" case 22 => "$s6" case 23 => "$s7"
    case 24 => "$t8" case 25 => "$t9" case 26 => "$k0" case 27 => "$k1"
    case 28 => "$gp" case 29 => "$sp" case 30 => "$fp" case _ => "$ra"
  }

  // A register without a name has a null entry in the table; printf's rendering
  // of a null string is the same for all of them.
  predicate CprNamed(r: RegIndex) {
    r in {3, 5, 6, 7, 8, 9, 11, 12, 13, 14, 15}
  }

  function CprName(r: RegIndex): string {
    if r == 3 then "BPC"
    else if r == 5 then "BDA"
    else if r == 6 then "TAR"
    else if r == 7 then "DCIC"
    else if r == 8 then "BadA"
    else if r == 9 then "BDAM"
    else if r == 11 then "BPCM"
    else if r == 12 then "SR"
    else if r == 13 then "CAUSE"
    else if r == 14 then "EPC"
    else if r == 15 then "PRID"
    else "(null)"
  }

  // ---- what is printed for a word

  // The format strings, by name: most are named after the instruction.
  datatype Name = Nop | Bltz | Bgez | Bltzal | Illegal | Plain(k: Mnemonic)

  datatype Operand =
    | Reg(r: RegIndex)
    | Cpr(c: RegIndex)
    | Count(n: RegIndex)
    | Imm16(i: u16)
    | Address(a: u32)
    | Based(off: u16, base: RegIndex)

  datatype Line = Line(name: Name, ops: seq<Operand>)

  function IllegalLine(w: u32): Line { Line(Illegal, [Address(w)]) }

  // SRLV and SRAV have a format of their own, but their cases leave the switch
  // with break and the line is overwritten; SYSCALL and BREAK have no case.
  function SpecialLine(w: u32): Line
    requires InstrOp(w) == 0
  {
    var k := SpecialMnemonic(InstrFunct(w));
    var rd, rs, rt := Reg(InstrRd(w)), Reg(InstrRs(w)), Reg(InstrRt(w));
    if w == 0 then Line(Nop, [])
    else if k.SLL? || k.SRL? || k.SRA? then Line(Plain(k), [rd, rt, Count(InstrShamt(w))])
    else if k.SLLV? then Line(Plain(k), [rd, rt, rs])
    else if k.JR? || k.MTHI? || k.MTLO? then Line(Plain(k), [rs])
    else if k.JALR? then Line(Plain(k), [rd, rs])
    else if k.MFHI? || k.MFLO? then Line(Plain(k), [rd])
    else if k.MULT? || k.MULTU? || k.DIV? || k.DIVU? then Line(Plain(k), [rs, rt])
    else if IsRegArith(k) then Line(Plain(k), [rd, rs, rt])
    else IllegalLine(w)
  }

  // Only three of the 32 rt codes have a format.
  function BcondLine(w: u32, pc: u32): Line {
    var ops := [Reg(InstrRs(w)), Address(CalcBranchAddr(w, pc))];
    if InstrRt(w) == 0x00 then Line(Bltz, ops)
    else if InstrRt(w) == 0x01 then Line(Bgez, ops)
    else if InstrRt(w) == 0x10 then Line(Bltzal, ops)
    else IllegalLine(w)
  }

  // RFE has no format.
  function Cop0Line(w: u32): Line {
    if InstrRs(w) == 0x00 then Line(Plain(MFC0), [Reg(InstrRt(w)), Cpr(InstrRd(w))])
    else if InstrRs(w) == 0x04 then Line(Plain(MTC0), [Cpr(InstrRd(w)), Reg(InstrRt(w))])
    else IllegalLine(w)
  }

  function MainLine(w: u32, pc: u32): Line {
    var k := MainMnemonic(InstrOp(w));
    var rs, rt, imm := Reg(InstrRs(w)), Reg(InstrRt(w)), Imm16(InstrImm(w));
    if k.J? || k.JAL? then Line(Plain(k), [Address(CalcJmpAddr(w, pc))])
    else if k.BEQ? || k.BNE? || k.BLEZ? || k.BGTZ? then Line(Plain(k), [rs, rt, Address(CalcBranchAddr(w, pc))])
    else if k.LUI? then Line(Plain(k), [rt, imm])
    else if IsImmediate(k) then Line(Plain(k), [rt, rs, imm])
    else if IsLoad(k) || IsStore(k) then Line(Plain(k), [rt, Based(InstrImm(w), InstrRs(w))])
    else IllegalLine(w)
  }

  // The line for word w at address pc.
  function Listing(w: u32, pc: u32): Line {
    if InstrOp(w) == 0x00 then SpecialLine(w)
    else if InstrOp(w) == 0x01 then BcondLine(w, pc)
    else if InstrOp(w) == 0x10 then Cop0Line(w)
    else MainLine(w, pc)
  }

  // ---- text

  function NameText(n: Name): string {
    match n
    case Nop => "nop"
    case Bltz => "bltz"
    case Bgez => "bgez"
    case Bltzal => "bltzal"
    case Illegal => "illegal"
    case Plain(k) => MnemonicText(k)
  }

  function MnemonicText(k: Mnemonic): string {
    match k
    case SLL => "sll" case SRL => "srl" case SRA => "sra" case SLLV => "sllv" case JR => "jr"
    case JALR => "jalr" case MFHI => "mfhi" case MTHI => "mthi" case MFLO => "mflo" case MTLO => "mtlo"
    case MULT => "mult" case MULTU => "multu" case DIV => "div" case DIVU => "div" case ADD => "add"
    case ADDU => "addu" case SUB => "sub" case SUBU => "subu" case AND => "and" case OR => "or"
    case XOR => "xor" case NOR => "nor" case SLT => "slt" case SLTU => "sltu" case MFC0 => "mfc0"
    case MTC0 => "mtc0" case J => "j" case JAL => "jal" case BEQ => "beq" case BNE => "bne"
    case BLEZ => "blez" case BGTZ => "bgtz" case ADDI => "addi" case ADDIU => "addiu" case SLTI => "slti"
    case SLTIU => "sltiu" case ANDI => "andi" case ORI => "ori" case XORI => "xori" case LUI => "lui"
    case LB => "lb" case LH => "lh" case LWL => "lwl" case LW => "lw" case LBU => "lbu" case LHU => "lhu"
    case LWR => "lwr" case SB => "sb" case SH => "sh" case SWL => "swl" case SW => "sw" case SWR => "swr"
    case _ => ""
  }

  function OperandText(op: Operand): string {
    match op
    case Reg(r) => GprName(r)
    case Cpr(c) => CprName(c)
    case Count(n) => Dec(n)
    case Imm16(i) => "0x" + Hex(i, 4)
    case Address(a) => "0x" + Hex(a, 8)
    case Based(off, base) => "0x" + Hex(off, 4) + "(" + GprName(base) + ")"
  }

  function OperandsText(ops: seq<Operand>): string {
    if ops == [] then ""
    else if |ops| == 1 then OperandText(ops[0])
    else OperandText(ops[0]) + ", " + OperandsText(ops[1..])
  }

  function Render(l: Line): string {
    if l.ops == [] then NameText(l.name) else NameText(l.name) + " " + OperandsText(l.ops)
  }

  // What psycho_disasm_instr prints for a word at an address.
  function Text(w: u32, pc: u32): string {
    Render(Listing(w, pc))
  }
}

// The text can be read back.
module DisassemblyReading {
  import opened Words
  import opened Mips
  import opened Disassembly

  // ---- numbers

  lemma DigitInjective(a: nat, b: nat)
    requires a < 16 && b < 16 && Digit(a) == Digit(b)
    ensures a == b
  {
  }

  lemma {:induction false} HexInjective(a: nat, b: nat, width: nat)
    requires a < Pow16(width) && b < Pow16(width) && Hex(a, width) == Hex(b, width)
    ensures a == b
  {
    if width > 0 {
      var s, t := Hex(a, width), Hex(b, width);
      assert s[..width - 1] == Hex(a / 16, width - 1) && t[..width - 1] == Hex(b / 16, width - 1);
      assert s[width - 1] == Digit(a % 16) && t[width - 1] == Digit(b % 16);
      DigitInjective(a % 16, b % 16);
      HexInjective(a / 16, b / 16, width - 1);
    }
  }

  function Pow16(n: nat): nat {
    if n == 0 then 1 else 16 * Pow16(n - 1)
  }

  lemma {:induction false} DecInjective(a: nat, b: nat)
    requires Dec(a) == Dec(b)
    ensures a == b
  {
    var s, t := Dec(a), Dec(b);
    if a < 10 && b < 10 {
      DigitInjective(a, b);
    } else if a >= 10 && b >= 10 {
      assert s[..|s| - 1] == Dec(a / 10) && t[..|t| - 1] == Dec(b / 10);
      assert s[|s| - 1] == Digit(a % 10) && t[|t| - 1] == Digit(b % 10);
      DigitInjective(a % 10, b % 10);
      DecInjective(a / 10, b / 10);
    }
  }

  // ---- register names

  function Ch(s: string, i: nat): char {
    if i < |s| then s[i] else ' '
  }

  function ReadGpr(s: string): int {
    var d := Ch(s, 2) as int - '0' as int;
    if |s| == 5 then 0
    else if Ch(s, 1) == 'a' then if Ch(s, 2) == 't' then 1 else 4 + d
    else if Ch(s, 1) == 'v' then 2 + d
    else if Ch(s, 1) == 't' then if d < 8 then 8 + d else 16 + d
    else if Ch(s, 1) == 's' then if Ch(s, 2) == 'p' then 29 else 16 + d
    else if Ch(s, 1) == 'k' then 26 + d
    else if Ch(s, 1) == 'g' then 28
    else if Ch(s, 1) == 'f' then 30
    else 31
  }

  lemma GprReadBack(r: RegIndex)
    ensures ReadGpr(GprName(r)) == r
  {
  }

  function ReadCpr(s: string): int {
    if |s| == 2 then 12
    else if |s| == 5 then 13
    else if Ch(s, 0) == 'T' then 6
    else if Ch(s, 0) == 'D' then 7
    else if Ch(s, 0) == 'E' then 14
    else if Ch(s, 0) == 'P' then 15
    else if Ch(s, 0) == '(' then -1
    else if Ch(s, 1) == 'P' then if |s| == 3 then 3 else 11
    else if Ch(s, 1) == 'a' then 8
    else if |s| == 3 then 5 else 9
  }

  lemma CprReadBack(r: RegIndex)
    ensures ReadCpr(CprName(r)) == if CprNamed(r) then r else -1
  {
  }

  // ---- mnemonics

  predicate Printed(n: Name) {
    n.Plain? ==> MnemonicText(n.k) != ""
  }

  function ReadName(s: string): Name {
    if Ch(s, 0) <= 'l' then ReadEarly(s) else ReadLate(s)
  }

  function ReadEarly(s: string): Name {
    if Ch(s, 0) == 'a' then
      if Ch(s, 1) == 'd' then
        if |s| == 3 then Plain(ADD)
        else if |s| == 4 then
          if Ch(s, 3) == 'i' then Plain(ADDI)
          else Plain(ADDU)
        else Plain(ADDIU)
      else
        if |s| == 3 then Plain(AND)
        else Plain(ANDI)
    else if Ch(s, 0) == 'b' then
      if Ch(s, 1) == 'e' then Plain(BEQ)
      else if Ch(s, 1) == 'g' then
        if Ch(s, 2) == 'e' then Bgez
        else Plain(BGTZ)
      else if Ch(s, 1) == 'l' then
        if Ch(s, 2) == 'e' then Plain(BLEZ)
        else
          if |s| == 4 then Bltz
          else Bltzal
      else Plain(BNE)
    else if Ch(s, 0) == 'd' then Plain(DIV)
    else if Ch(s, 0) == 'i' then Illegal
    else if Ch(s, 0) == 'j' then
      if |s| == 1 then Plain(J)
      else if |s| == 2 then Plain(JR)
      else if |s| == 3 then Plain(JAL)
      else Plain(JALR)
    else
      if Ch(s, 1) == 'b' then
        if |s| == 2 then Plain(LB)
        else Plain(LBU)
      else if Ch(s, 1) == 'h' then
        if |s| == 2 then Plain(LH)
        else Plain(LHU)
      else if Ch(s, 1) == 'u' then Plain(LUI)
      else
        if |s| == 2 then Plain(LW)
        else
          if Ch(s, 2) == 'l' then Plain(LWL)
          else Plain(LWR)
  }

  function ReadLate(s: string): Name {
    if Ch(s, 0) == 'm' then
      if Ch(s, 1) == 'f' then
        if Ch(s, 2) == 'c' then Plain(MFC0)
        else if Ch(s, 2) == 'h' then Plain(MFHI)
        else Plain(MFLO)
      else if Ch(s, 1) == 't' then
        if Ch(s, 2) == 'c' then Plain(MTC0)
        else if Ch(s, 2) == 'h' then Plain(MTHI)
        else Plain(MTLO)
      else
        if |s| == 4 then Plain(MULT)
        else Plain(MULTU)
    else if Ch(s, 0) == 'n' then
      if Ch(s, 2) == 'p' then Nop
      else Plain(NOR)
    else if Ch(s, 0) == 'o' then
      if |s| == 2 then Plain(OR)
      else Plain(ORI)
    else if Ch(s, 0) == 's' then
      if Ch(s, 1) == 'b' then Plain(SB)
      else if Ch(s, 1) == 'h' then Plain(SH)
      else if Ch(s, 1) == 'l' then
        if Ch(s, 2) == 'l' then
          if |s| == 3 then Plain(SLL)
          else Plain(SLLV)
        else
          if |s| == 3 then Plain(SLT)
          else if |s| == 4 then
            if Ch(s, 3) == 'i' then Plain(SLTI)
            else Plain(SLTU)
          else Plain(SLTIU)
      else if Ch(s, 1) == 'r' then
        if Ch(s, 2) == 'a' then Plain(SRA)
        else Plain(SRL)
      else if Ch(s, 1) == 'u' then
        if |s| == 3 then Plain(SUB)
        else Plain(SUBU)
      else
        if |s| == 2 then Plain(SW)
        else
          if Ch(s, 2) == 'l' then Plain(SWL)
          else Plain(SWR)
    else
      if |s| == 3 then Plain(XOR)
      else Plain(XORI)
  }

  // Distinct names are printed differently, but for DIVU, which is printed as DIV.
  lemma NameReadBack(n: Name)
    requires Printed(n)
    ensures ReadName(NameText(n)) == if n == Plain(DIVU) then Plain(DIV) else n
  {
    if Ch(NameText(n), 0) <= 'l' {
      EarlyReadBack(n);
    } else {
      LateReadBack(n);
    }
    hide ReadEarly, ReadLate, NameText;
  }

  lemma EarlyReadBack(n: Name)
    requires Printed(n) && Ch(NameText(n), 0) <= 'l'
    ensures ReadEarly(NameText(n)) == if n == Plain(DIVU) then Plain(DIV) else n
  {
  }

  lemma LateReadBack(n: Name)
    requires Printed(n) && Ch(NameText(n), 0) > 'l'
    ensures ReadLate(NameText(n)) == n
  {
  }
}
