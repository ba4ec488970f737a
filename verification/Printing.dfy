// What is printed for each instruction: the order of its operands, and the number
// that each printed number stands for.

module Printing {
  import opened Words
  import opened Mips
  import opened Machine
  import opened Encoding
  import opened Architecture
  import opened Disassembly
  import opened DisassemblyReading
  import opened DisassemblyMeaning

  // ---- numbers

  function DigitValue(c: char): nat {
    if '0' <= c <= '9' then (c - '0') as nat else if 'A' <= c <= 'F' then (c - 'A') as nat + 10 else 99
  }

  // The number a string of digits stands for.
  function NumberIn(s: string, base: nat): nat {
    if s == [] then 0 else base * NumberIn(s[..|s| - 1], base) + DigitValue(s[|s| - 1])
  }

  lemma {:induction false} HexIsNumber(n: nat, width: nat)
    requires n < Pow16(width)
    ensures NumberIn(Hex(n, width), 16) == n
  {
    if width > 0 {
      var s := Hex(n, width);
      assert s[..width - 1] == Hex(n / 16, width - 1);
      assert s[width - 1] == Digit(n % 16);
      HexIsNumber(n / 16, width - 1);
    }
  }

  lemma {:induction false} DecIsNumber(n: nat)
    ensures NumberIn(Dec(n), 10) == n
  {
    var s := Dec(n);
    if n < 10 {
      assert s[..0] == [];
    } else {
      assert s[..|s| - 1] == Dec(n / 10);
      assert s[|s| - 1] == Digit(n % 10);
      DecIsNumber(n / 10);
    }
  }

  // The fields as they are printed.
  lemma FieldsAreNumbers(imm: u16, a: u32, shamt: RegIndex)
    ensures |Hex(imm, 4)| == 4 && NumberIn(Hex(imm, 4), 16) == imm
    ensures |Hex(a, 8)| == 8 && NumberIn(Hex(a, 8), 16) == a
    ensures NumberIn(Dec(shamt), 10) == shamt
  {
    Pow16Values();
    HexIsNumber(imm, 4);
    HexIsNumber(a, 8);
    DecIsNumber(shamt);
  }

  // ---- operands

  function List1(name: string, x: string): string { name + " " + x }
  function List2(name: string, x: string, y: string): string { name + " " + (x + ", " + y) }
  function List3(name: string, x: string, y: string, z: string): string { name + " " + (x + ", " + (y + ", " + z)) }

  lemma Rendered1(n: Name, x: Operand)
    ensures Render(Line(n, [x])) == List1(NameText(n), OperandText(x))
  {
  }

  lemma Rendered2(n: Name, x: Operand, y: Operand)
    ensures Render(Line(n, [x, y])) == List2(NameText(n), OperandText(x), OperandText(y))
  {
    assert [x, y][1..] == [y];
    assert OperandsText([x, y]) == OperandText(x) + ", " + OperandsText([y]);
  }

  lemma Rendered3(n: Name, x: Operand, y: Operand, z: Operand)
    ensures Render(Line(n, [x, y, z])) == List3(NameText(n), OperandText(x), OperandText(y), OperandText(z))
  {
    assert [x, y, z][1..] == [y, z] && [y, z][1..] == [z];
    assert OperandsText([y, z]) == OperandText(y) + ", " + OperandsText([z]);
    assert OperandsText([x, y, z]) == OperandText(x) + ", " + OperandsText([y, z]);
  }

  // The instructions of opcode 0 that have a format, in the architecture's order of
  // operands: destination first.
  lemma SpecialText(k: Mnemonic, rs: RegIndex, rt: RegIndex, rd: RegIndex, shamt: RegIndex, pc: u32)
    requires Legal(RType(k, rs, rt, rd, shamt)) && Encode(RType(k, rs, rt, rd, shamt)) != 0
    ensures var s, t, d, name := GprName(rs), GprName(rt), GprName(rd), MnemonicText(k);
            var text := Text(Encode(RType(k, rs, rt, rd, shamt)), pc);
            && (k.SLL? || k.SRL? || k.SRA? ==> text == List3(name, d, t, Dec(shamt)))
            && (k.SLLV? ==> text == List3(name, d, t, s))
            && (32 <= FunctOf(k) ==> text == List3(name, d, s, t))
            && (k.MULT? || k.MULTU? || k.DIV? || k.DIVU? ==> text == List2(name, s, t))
            && (k.JALR? ==> text == List2(name, d, s))
            && (k.JR? || k.MTHI? || k.MTLO? ==> text == List1(name, s))
            && (k.MFHI? || k.MFLO? ==> text == List1(name, d))
  {
    var w := Encode(RType(k, rs, rt, rd, shamt));
    DecodeEncode(RType(k, rs, rt, rd, shamt));
    SpecialOp(k, rs, rt, rd, shamt);
    LegalCode(k, rs, rt, rd, shamt);
    SpecialGroups(k);
    SpecialListing(w, pc);
    hide Listing, Encode, Legal, Decode, Render, InstrOp, InstrRs, InstrRt, InstrRd, InstrShamt, OperandText, GprName, MnemonicText,
         List1, List2, List3, FunctOf;
    Rendered3(Plain(k), Reg(rd), Reg(rt), Count(shamt));
    Rendered3(Plain(k), Reg(rd), Reg(rt), Reg(rs));
    Rendered3(Plain(k), Reg(rd), Reg(rs), Reg(rt));
    Rendered2(Plain(k), Reg(rs), Reg(rt));
    Rendered2(Plain(k), Reg(rd), Reg(rs));
    Rendered1(Plain(k), Reg(rs));
    Rendered1(Plain(k), Reg(rd));
    RegisterText(rs, rt, rd, shamt);
  }

  lemma RegisterText(rs: RegIndex, rt: RegIndex, rd: RegIndex, shamt: RegIndex)
    ensures OperandText(Reg(rs)) == GprName(rs) && OperandText(Reg(rt)) == GprName(rt) && OperandText(Reg(rd)) == GprName(rd)
    ensures OperandText(Count(shamt)) == Dec(shamt)
  {
    hide GprName, Dec;
  }

  lemma SpecialOp(k: Mnemonic, rs: RegIndex, rt: RegIndex, rd: RegIndex, shamt: RegIndex)
    requires Legal(RType(k, rs, rt, rd, shamt))
    ensures InstrOp(Encode(RType(k, rs, rt, rd, shamt))) == 0
  {
    hide FunctOf;
    FieldsReadBack(0, rs, rt, Low(rd, shamt, FunctOf(k)));
  }

  lemma SpecialListing(w: u32, pc: u32)
    requires InstrOp(w) == 0 && w != 0
    ensures var l, k := Listing(w, pc), Decode(w);
            var rs, rt, rd := Reg(InstrRs(w)), Reg(InstrRt(w)), Reg(InstrRd(w));
            && (k.SLL? || k.SRL? || k.SRA? ==> l == Line(Plain(k), [rd, rt, Count(InstrShamt(w))]))
            && (k.SLLV? ==> l == Line(Plain(k), [rd, rt, rs]))
            && (IsRegArith(k) ==> l == Line(Plain(k), [rd, rs, rt]))
            && (k.MULT? || k.MULTU? || k.DIV? || k.DIVU? ==> l == Line(Plain(k), [rs, rt]))
            && (k.JALR? ==> l == Line(Plain(k), [rd, rs]))
            && (k.JR? || k.MTHI? || k.MTLO? ==> l == Line(Plain(k), [rs]))
            && (k.MFHI? || k.MFLO? ==> l == Line(Plain(k), [rd]))
  {
    hide InstrRs, InstrRt, InstrRd, InstrShamt, InstrFunct;
  }

  // The word 0 is a shift that does nothing, and is printed so.
  lemma NopText(pc: u32)
    ensures Text(0, pc) == "nop"
  {
  }

  // Addresses in brackets after their offset, immediates in hexadecimal, targets as
  // the address gone to.
  function HexWord(a: u32): string { "0x" + Hex(a, 8) }
  function HexHalf(i: u16): string { "0x" + Hex(i, 4) }

  lemma MainText(k: Mnemonic, rs: RegIndex, rt: RegIndex, imm: u16, pc: u32)
    requires Legal(IType(k, rs, rt, imm))
    ensures var w, s, t, name := Encode(IType(k, rs, rt, imm)), GprName(rs), GprName(rt), MnemonicText(k);
            var text, target := Text(w, pc), HexWord(Wrap(pc + 4 + SignedImm(imm * 4 % 0x1_0000)));
            && (4 <= OpcodeOf(k) <= 7 ==> text == List3(name, s, t, target))
            && (k.LUI? ==> text == List2(name, t, HexHalf(imm)))
            && (8 <= OpcodeOf(k) <= 14 ==> text == List3(name, t, s, HexHalf(imm)))
            && (32 <= OpcodeOf(k) ==> text == List2(name, t, HexHalf(imm) + "(" + s + ")"))
            && (k.BCOND? && rt == 0 ==> text == List2("bltz", s, target))
            && (k.BCOND? && rt == 1 ==> text == List2("bgez", s, target))
            && (k.BCOND? && rt == 16 ==> text == List2("bltzal", s, target))
  {
    hide *;
    var w := Encode(IType(k, rs, rt, imm));
    MainFields(k, rs, rt, imm);
    MainOp(k, rs, rt, imm);
    MainGroups(k);
    MainWordText(w, pc);
  }

  lemma MainFields(k: Mnemonic, rs: RegIndex, rt: RegIndex, imm: u16)
    requires Legal(IType(k, rs, rt, imm))
    ensures var w := Encode(IType(k, rs, rt, imm));
            Decode(w) == k && InstrRs(w) == rs && InstrRt(w) == rt && InstrImm(w) == imm
  {
    DecodeEncode(IType(k, rs, rt, imm));
    hide *;
  }

  lemma MainWordText(w: u32, pc: u32)
    requires InstrOp(w) != 0 && InstrOp(w) != 16
    ensures var k, s, t, half := Decode(w), GprName(InstrRs(w)), GprName(InstrRt(w)), HexHalf(InstrImm(w));
            var text, name, target := Text(w, pc), MnemonicText(k), HexWord(Wrap(pc + 4 + SignedImm(InstrImm(w) * 4 % 0x1_0000)));
            && (InstrOp(w) != 1 && IsConditional(k) ==> text == List3(name, s, t, target))
            && (InstrOp(w) != 1 && k.LUI? ==> text == List2(name, t, half))
            && (InstrOp(w) != 1 && IsImmediate(k) && !k.LUI? ==> text == List3(name, t, s, half))
            && (InstrOp(w) != 1 && (IsLoad(k) || IsStore(k)) ==> text == List2(name, t, half + "(" + s + ")"))
            && (InstrOp(w) == 1 && InstrRt(w) == 0 ==> text == List2("bltz", s, target))
            && (InstrOp(w) == 1 && InstrRt(w) == 1 ==> text == List2("bgez", s, target))
            && (InstrOp(w) == 1 && InstrRt(w) == 16 ==> text == List2("bltzal", s, target))
  {
    MainListing(w, pc);
    TargetPrinted(w, pc);
    RenderedNames(Decode(w), InstrRs(w), InstrRt(w), InstrImm(w), CalcBranchAddr(w, pc));
    hide Listing, Decode, Render, InstrOp, InstrRs, InstrRt, InstrImm, CalcBranchAddr, Wrap, SignedImm, HexWord, HexHalf,
         List2, List3, GprName, MnemonicText, IsConditional, IsImmediate, IsLoad, IsStore;
  }

  lemma RenderedNames(k: Mnemonic, rs: RegIndex, rt: RegIndex, imm: u16, a: u32)
    ensures var s, t, name, half := GprName(rs), GprName(rt), MnemonicText(k), HexHalf(imm);
            && Render(Line(Plain(k), [Reg(rs), Reg(rt), Address(a)])) == List3(name, s, t, HexWord(a))
            && Render(Line(Plain(k), [Reg(rt), Imm16(imm)])) == List2(name, t, half)
            && Render(Line(Plain(k), [Reg(rt), Reg(rs), Imm16(imm)])) == List3(name, t, s, half)
            && Render(Line(Plain(k), [Reg(rt), Based(imm, rs)])) == List2(name, t, half + "(" + s + ")")
            && Render(Line(Bltz, [Reg(rs), Address(a)])) == List2("bltz", s, HexWord(a))
            && Render(Line(Bgez, [Reg(rs), Address(a)])) == List2("bgez", s, HexWord(a))
            && Render(Line(Bltzal, [Reg(rs), Address(a)])) == List2("bltzal", s, HexWord(a))
  {
    hide OperandText, MnemonicText, GprName, HexHalf, HexWord, List2, List3, Render;
    RegisterText(rs, rt, 0, 0);
    NumberText(imm, a, rs);
    Rendered3(Plain(k), Reg(rs), Reg(rt), Address(a));
    Rendered2(Plain(k), Reg(rt), Imm16(imm));
    Rendered3(Plain(k), Reg(rt), Reg(rs), Imm16(imm));
    Rendered2(Plain(k), Reg(rt), Based(imm, rs));
    Rendered2(Bltz, Reg(rs), Address(a));
    Rendered2(Bgez, Reg(rs), Address(a));
    Rendered2(Bltzal, Reg(rs), Address(a));
  }

  lemma TargetPrinted(w: u32, pc: u32)
    ensures CalcBranchAddr(w, pc) == Wrap(pc + 4 + SignedImm(InstrImm(w) * 4 % 0x1_0000))
  {
    BranchAddress(w, pc, 0);
    NoAdjust(pc);
    hide CalcBranchAddr, Wrap, SignedImm, InstrImm;
  }

  lemma NoAdjust(pc: u32)
    ensures Wrap(pc + 0) == pc
  {
  }

  lemma NumberText(imm: u16, a: u32, base: RegIndex)
    ensures OperandText(Imm16(imm)) == HexHalf(imm) && OperandText(Address(a)) == HexWord(a)
    ensures OperandText(Based(imm, base)) == HexHalf(imm) + "(" + GprName(base) + ")"
  {
    hide GprName, Hex;
  }

  lemma MainOp(k: Mnemonic, rs: RegIndex, rt: RegIndex, imm: u16)
    requires Legal(IType(k, rs, rt, imm))
    ensures InstrOp(Encode(IType(k, rs, rt, imm))) == OpcodeOf(k)
    ensures OpcodeOf(k) != 0 && OpcodeOf(k) != 16 && (OpcodeOf(k) == 1 <==> k.BCOND?)
    ensures OpcodeOf(k) < 64 && (8 <= OpcodeOf(k) <= 14 ==> !k.LUI?)
  {
    FieldsReadBack(OpcodeOf(k), rs, rt, imm);
  }

  lemma MainListing(w: u32, pc: u32)
    requires InstrOp(w) != 0 && InstrOp(w) != 16
    ensures var l, k := Listing(w, pc), Decode(w);
            var rs, rt, imm, target := Reg(InstrRs(w)), Reg(InstrRt(w)), InstrImm(w), Address(CalcBranchAddr(w, pc));
            && (InstrOp(w) != 1 && IsConditional(k) ==> l == Line(Plain(k), [rs, rt, target]))
            && (InstrOp(w) != 1 && k.LUI? ==> l == Line(Plain(k), [rt, Imm16(imm)]))
            && (InstrOp(w) != 1 && IsImmediate(k) && !k.LUI? ==> l == Line(Plain(k), [rt, rs, Imm16(imm)]))
            && (InstrOp(w) != 1 && (IsLoad(k) || IsStore(k)) ==> l == Line(Plain(k), [rt, Based(imm, InstrRs(w))]))
            && (InstrOp(w) == 1 && InstrRt(w) == 0 ==> l == Line(Bltz, [rs, target]))
            && (InstrOp(w) == 1 && InstrRt(w) == 1 ==> l == Line(Bgez, [rs, target]))
            && (InstrOp(w) == 1 && InstrRt(w) == 16 ==> l == Line(Bltzal, [rs, target]))
  {
    hide InstrOp, InstrRs, InstrRt, InstrImm, CalcBranchAddr, CalcJmpAddr;
  }

  lemma JumpText(k: Mnemonic, target: TargetField, pc: u32)
    requires Legal(JType(k, target))
    ensures Text(Encode(JType(k, target)), pc)
         == List1(if k.J? then "j" else "jal", HexWord(target * 4 + pc / 0x1000_0000 * 0x1000_0000))
  {
    hide *;
    var w := Encode(JType(k, target));
    JumpReadsBack(k, target);
    JumpWordText(w, pc);
  }

  lemma JumpReadsBack(k: Mnemonic, target: TargetField)
    requires Legal(JType(k, target))
    ensures var w := Encode(JType(k, target)); Decode(w) == k && InstrTarget(w) == target && (k.J? || k.JAL?)
  {
    JumpKinds(k, target);
    DecodeEncode(JType(k, target));
    hide *;
  }

  lemma JumpWordText(w: u32, pc: u32)
    requires Decode(w).J? || Decode(w).JAL?
    ensures Text(w, pc)
         == List1(if Decode(w).J? then "j" else "jal", HexWord(InstrTarget(w) * 4 + pc / 0x1000_0000 * 0x1000_0000))
  {
    hide Listing, Decode, Render, InstrTarget, OperandText, HexWord, Or, CalcJmpAddr, List1;
    JumpListing(w, pc);
    Rendered1(Plain(Decode(w)), Address(CalcJmpAddr(w, pc)));
    NumberText(0, CalcJmpAddr(w, pc), 0);
  }

  lemma JumpListing(w: u32, pc: u32)
    requires Decode(w).J? || Decode(w).JAL?
    ensures Listing(w, pc) == Line(Plain(Decode(w)), [Address(CalcJmpAddr(w, pc))])
  {
    hide InstrOp, InstrRs, InstrRt, InstrRd, InstrShamt, InstrFunct, InstrImm, CalcBranchAddr, CalcJmpAddr;
  }

  lemma Cop0Text(k: Mnemonic, rs: RegIndex, rt: RegIndex, rd: RegIndex, shamt: RegIndex, funct: FunctField, pc: u32)
    requires Legal(CType(k, rs, rt, rd, shamt, funct))
    ensures var text := Text(Encode(CType(k, rs, rt, rd, shamt, funct)), pc);
            && (rs == 0 ==> text == List2("mfc0", GprName(rt), CprName(rd)))
            && (rs == 4 ==> text == List2("mtc0", CprName(rd), GprName(rt)))
  {
    var w := Encode(CType(k, rs, rt, rd, shamt, funct));
    DecodeEncode(CType(k, rs, rt, rd, shamt, funct));
    Cop0Kinds(k, rs, rt, rd, shamt, funct);
    Cop0Listing(w, pc);
    hide Listing, Encode, Legal, Decode, Render, InstrRs, InstrRt, InstrRd, GprName, CprName, List2;
    Rendered2(Plain(MFC0), Reg(rt), Cpr(rd));
    Rendered2(Plain(MTC0), Cpr(rd), Reg(rt));
  }

  lemma Cop0Listing(w: u32, pc: u32)
    ensures Decode(w).MFC0? ==> Listing(w, pc) == Line(Plain(MFC0), [Reg(InstrRt(w)), Cpr(InstrRd(w))])
    ensures Decode(w).MTC0? ==> Listing(w, pc) == Line(Plain(MTC0), [Cpr(InstrRd(w)), Reg(InstrRt(w))])
  {
    hide InstrOp, InstrRs, InstrRt, InstrRd, InstrShamt, InstrFunct, InstrImm, CalcBranchAddr, CalcJmpAddr;
  }
}
