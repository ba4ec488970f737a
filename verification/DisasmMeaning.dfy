// Disassembly determines behaviour: two words printed alike do the same.

module DisassemblyMeaning {
  import opened Words
  import opened Mips
  import opened Memory
  import opened Alu
  import opened Machine
  import opened Disassembly
  import opened DisassemblyReading
  import Splice

  // ---- the pieces of a line can be told apart

  predicate Clean(s: string) {
    ' ' !in s && ',' !in s
  }

  // If the first part is shorter, the separator after it falls inside the other.
  lemma SeparatorInside(a: string, x: string, b: string, y: string, c: char)
    requires x == [] || x[0] == c
    requires a + x == b + y && |a| < |b|
    ensures c in b
  {
    assert |a + x| == |a| + |x| && |b + y| == |b| + |y|;
    assert (b + y)[|a|] == b[|a|];
    assert (a + x)[|a|] == x[0];
  }

  lemma SplitUnique(a: string, x: string, b: string, y: string, c: char)
    requires c !in a && c !in b
    requires (x == [] || x[0] == c) && (y == [] || y[0] == c)
    requires a + x == b + y
    ensures a == b && x == y
  {
    if |a| < |b| {
      SeparatorInside(a, x, b, y, c);
    } else if |b| < |a| {
      SeparatorInside(b, y, a, x, c);
    } else {
      assert a == (a + x)[..|a|] && b == (b + y)[..|b|];
      assert x == (a + x)[|a|..] && y == (b + y)[|b|..];
    }
  }

  lemma {:induction false} HexClean(n: nat, width: nat)
    ensures Clean(Hex(n, width))
  {
    if width > 0 {
      HexClean(n / 16, width - 1);
      DigitClean(n % 16);
    }
  }

  lemma DigitClean(n: nat)
    requires n < 16
    ensures Clean([Digit(n)])
  {
  }

  lemma {:induction false} DecClean(n: nat)
    ensures Clean(Dec(n))
  {
    if n < 10 {
      DigitClean(n);
    } else {
      DecClean(n / 10);
      DigitClean(n % 10);
    }
  }

  lemma GprClean(r: RegIndex)
    ensures Clean(GprName(r))
  {
  }

  lemma CprClean(r: RegIndex)
    ensures Clean(CprName(r))
  {
  }

  lemma OperandClean(op: Operand)
    ensures Clean(OperandText(op))
  {
    hide GprName, CprName, Hex, Dec;
    match op
    case Reg(r) => GprClean(r);
    case Cpr(c) => CprClean(c);
    case Count(n) => DecClean(n);
    case Imm16(i) => HexClean(i, 4);
    case Address(a) => HexClean(a, 8);
    case Based(off, base) => HexClean(off, 4); GprClean(base);
  }

  lemma MnemonicClean(k: Mnemonic)
    ensures Clean(MnemonicText(k))
  {
    hide Clean;
    if IsRegArith(k) || IsShift(k) {
      CleanArith(k);
    } else if IsImmediate(k) {
      CleanImmediate(k);
    } else if IsTransfer(k) {
      CleanTransfer(k);
    } else if IsLoad(k) {
      CleanLoad(k);
    } else if IsStore(k) {
      CleanStore(k);
    } else {
      CleanOther(k);
    }
  }

  lemma CleanArith(k: Mnemonic)
    requires IsRegArith(k) || IsShift(k)
    ensures Clean(MnemonicText(k))
  {
  }

  lemma CleanImmediate(k: Mnemonic)
    requires IsImmediate(k)
    ensures Clean(MnemonicText(k))
  {
  }

  lemma CleanTransfer(k: Mnemonic)
    requires IsTransfer(k)
    ensures Clean(MnemonicText(k))
  {
  }

  lemma CleanLoad(k: Mnemonic)
    requires IsLoad(k)
    ensures Clean(MnemonicText(k))
  {
  }

  lemma CleanStore(k: Mnemonic)
    requires IsStore(k)
    ensures Clean(MnemonicText(k))
  {
  }

  lemma CleanOther(k: Mnemonic)
    requires !IsRegArith(k) && !IsShift(k) && !IsImmediate(k) && !IsTransfer(k) && !IsLoad(k) && !IsStore(k)
    ensures Clean(MnemonicText(k))
  {
  }

  lemma NameClean(n: Name)
    ensures Clean(NameText(n))
  {
    hide MnemonicText;
    if n.Plain? {
      MnemonicClean(n.k);
    }
  }

  // The kinds of operands a name is printed with.
  datatype OperandKind = KReg | KCpr | KCount | KImm | KAddress | KBased

  function KindOf(op: Operand): OperandKind {
    match op
    case Reg(_) => KReg
    case Cpr(_) => KCpr
    case Count(_) => KCount
    case Imm16(_) => KImm
    case Address(_) => KAddress
    case Based(_, _) => KBased
  }

  lemma Pow16Values()
    ensures Pow16(4) == 0x1_0000 && Pow16(8) == 0x1_0000_0000
  {
    assert Pow16(4) == 0x1_0000;
  }

  // Operands of one kind printed alike are the same, unnamed cop0 registers apart.
  lemma OperandReadBack(a: Operand, b: Operand)
    requires KindOf(a) == KindOf(b) && OperandText(a) == OperandText(b)
    ensures a == b || (a.Cpr? && b.Cpr? && !CprNamed(a.c) && !CprNamed(b.c))
  {
    hide GprName, CprName, Hex, Dec, ReadGpr, ReadCpr, Pow16;
    Pow16Values();
    match a
    case Reg(r) => GprReadBack(r); GprReadBack(b.r);
    case Cpr(c) => CprReadBack(c); CprReadBack(b.c);
    case Count(n) => DecInjective(n, b.n);
    case Imm16(i) =>
      assert OperandText(a)[2..] == Hex(i, 4) && OperandText(b)[2..] == Hex(b.i, 4);
      HexInjective(i, b.i, 4);
    case Address(x) =>
      assert OperandText(a)[2..] == Hex(x, 8) && OperandText(b)[2..] == Hex(b.a, 8);
      HexInjective(x, b.a, 8);
    case Based(off, base) => BasedReadBack(off, base, b.off, b.base);
  }

  lemma BasedReadBack(off: u16, base: RegIndex, off': u16, base': RegIndex)
    requires OperandText(Based(off, base)) == OperandText(Based(off', base'))
    ensures off == off' && base == base'
  {
    hide GprName, Hex, ReadGpr, Pow16;
    Pow16Values();
    var s, t := OperandText(Based(off, base)), OperandText(Based(off', base'));
    assert s[2..6] == Hex(off, 4) && t[2..6] == Hex(off', 4);
    HexInjective(off, off', 4);
    assert s[7..|s| - 1] == GprName(base) && t[7..|t| - 1] == GprName(base');
    GprReadBack(base);
    GprReadBack(base');
  }

  function Kinds(ops: seq<Operand>): seq<OperandKind> {
    seq(|ops|, i requires 0 <= i < |ops| => KindOf(ops[i]))
  }

  function Format(n: Name): seq<OperandKind> {
    match n
    case Nop => []
    case Bltz => [KReg, KAddress]
    case Bgez => [KReg, KAddress]
    case Bltzal => [KReg, KAddress]
    case Illegal => [KAddress]
    case Plain(k) =>
      if k.SLL? || k.SRL? || k.SRA? then [KReg, KReg, KCount]
      else if k.SLLV? || IsRegArith(k) then [KReg, KReg, KReg]
      else if k.JR? || k.MTHI? || k.MTLO? || k.MFHI? || k.MFLO? then [KReg]
      else if k.JALR? || k.MULT? || k.MULTU? || k.DIV? || k.DIVU? then [KReg, KReg]
      else if k.MFC0? then [KReg, KCpr]
      else if k.MTC0? then [KCpr, KReg]
      else if k.J? || k.JAL? then [KAddress]
      else if k.BEQ? || k.BNE? || k.BLEZ? || k.BGTZ? then [KReg, KReg, KAddress]
      else if k.LUI? then [KReg, KImm]
      else if IsImmediate(k) then [KReg, KReg, KImm]
      else [KReg, KBased]
  }

  ghost predicate Formatted(l: Line) {
    Kinds(l.ops) == Format(l.name) && Printed(l.name)
  }

  lemma SpecialFormat(w: u32)
    requires InstrOp(w) == 0
    ensures Formatted(SpecialLine(w))
  {
    hide InstrRs, InstrRt, InstrRd, InstrShamt, InstrFunct;
  }

  lemma BcondFormat(w: u32, pc: u32)
    ensures Formatted(BcondLine(w, pc))
  {
    hide InstrRs, InstrRt, CalcBranchAddr;
  }

  lemma Cop0Format(w: u32)
    ensures Formatted(Cop0Line(w))
  {
    hide InstrRs, InstrRt, InstrRd;
  }

  lemma MainFormat(w: u32, pc: u32)
    ensures Formatted(MainLine(w, pc))
  {
    hide InstrOp, InstrRs, InstrRt, InstrImm, CalcBranchAddr, CalcJmpAddr;
  }

  lemma ListingFormat(w: u32, pc: u32)
    ensures Formatted(Listing(w, pc))
  {
    hide Formatted, InstrOp;
    if InstrOp(w) == 0x00 {
      SpecialFormat(w);
    } else if InstrOp(w) == 0x01 {
      BcondFormat(w, pc);
    } else if InstrOp(w) == 0x10 {
      Cop0Format(w);
    } else {
      MainFormat(w, pc);
    }
  }

  lemma {:induction false} OperandsReadBack(a: seq<Operand>, b: seq<Operand>)
    requires |a| == |b| && OperandsText(a) == OperandsText(b)
    ensures forall i :: 0 <= i < |a| ==> OperandText(a[i]) == OperandText(b[i])
  {
    hide OperandText;
    if |a| > 1 {
      OperandClean(a[0]);
      OperandClean(b[0]);
      var x, y := ", " + OperandsText(a[1..]), ", " + OperandsText(b[1..]);
      assert OperandText(a[0]) + x == OperandsText(a) && OperandText(b[0]) + y == OperandsText(b);
      SplitUnique(OperandText(a[0]), x, OperandText(b[0]), y, ',');
      assert x[2..] == OperandsText(a[1..]) && y[2..] == OperandsText(b[1..]);
      OperandsReadBack(a[1..], b[1..]);
      forall i | 0 <= i < |a| ensures OperandText(a[i]) == OperandText(b[i]) {
        if i > 0 {
          assert a[i] == a[1..][i - 1] && b[i] == b[1..][i - 1];
        }
      }
    }
  }

  lemma NamesReadBack(a: Line, b: Line)
    requires Render(a) == Render(b)
    ensures NameText(a.name) == NameText(b.name)
    ensures a.ops != [] && b.ops != [] ==> OperandsText(a.ops) == OperandsText(b.ops)
  {
    hide NameText, OperandsText;
    NameClean(a.name);
    NameClean(b.name);
    var x := if a.ops == [] then "" else " " + OperandsText(a.ops);
    var y := if b.ops == [] then "" else " " + OperandsText(b.ops);
    assert Render(a) == NameText(a.name) + x && Render(b) == NameText(b.name) + y;
    SplitUnique(NameText(a.name), x, NameText(b.name), y, ' ');
    if a.ops != [] && b.ops != [] {
      assert x[1..] == OperandsText(a.ops) && y[1..] == OperandsText(b.ops);
    }
  }

  // What the text alone does not tell.
  predicate DivPair(a: Name, b: Name) {
    (a == Plain(DIV) && b == Plain(DIVU)) || (a == Plain(DIVU) && b == Plain(DIV))
  }

  predicate SamePrinted(x: Operand, y: Operand) {
    x == y || (x.Cpr? && y.Cpr? && !CprNamed(x.c) && !CprNamed(y.c))
  }

  // Lines printed alike have the same name and operands, but for DIV against DIVU
  // and the unnamed cop0 registers.
  lemma LineReadBack(w: u32, w': u32, pc: u32)
    requires Text(w, pc) == Text(w', pc)
    ensures var a, b := Listing(w, pc), Listing(w', pc);
            && (a.name == b.name || DivPair(a.name, b.name))
            && |a.ops| == |b.ops|
            && forall i :: 0 <= i < |a.ops| ==> SamePrinted(a.ops[i], b.ops[i])
  {
    var a, b := Listing(w, pc), Listing(w', pc);
    ListingFormat(w, pc);
    ListingFormat(w', pc);
    hide Listing, ReadName, NameText, MnemonicText;
    NamesReadBack(a, b);
    NameReadBack(a.name);
    NameReadBack(b.name);
    assert Format(a.name) == Format(b.name);
    hide Format;
    assert |Kinds(a.ops)| == |Kinds(b.ops)|;
    OperandsReadBack(a.ops, b.ops);
    forall i | 0 <= i < |a.ops| ensures SamePrinted(a.ops[i], b.ops[i]) {
      assert Kinds(a.ops)[i] == Kinds(b.ops)[i];
      OperandReadBack(a.ops[i], b.ops[i]);
    }
  }

  // ---- a line determines the fields the instruction uses

  // The two words decode alike and agree in every field their instruction uses.
  ghost predicate SameFields(w: u32, w': u32) {
    var k := Decode(w);
    && Decode(w') == k
    && (UsesRs(k) ==> InstrRs(w') == InstrRs(w))
    && (UsesRt(k) ==> InstrRt(w') == InstrRt(w))
    && (UsesRd(k) ==> InstrRd(w') == InstrRd(w))
    && (k.SLL? || k.SRL? || k.SRA? ==> InstrShamt(w') == InstrShamt(w))
    && (IsImmediate(k) || IsLoad(k) || IsStore(k) ==> InstrImm(w') == InstrImm(w))
    && (IsConditional(k) ==> BranchOffset(InstrImm(w')) == BranchOffset(InstrImm(w)))
    && (k.J? || k.JAL? ==> InstrTarget(w') == InstrTarget(w))
  }

  predicate UsesRs(k: Mnemonic) {
    || k.SLLV? || k.SRLV? || k.SRAV? || IsRegArith(k) || (IsImmediate(k) && !k.LUI?) || IsLoad(k) || IsStore(k)
    || k.JR? || k.JALR? || k.MTHI? || k.MTLO? || k.MULT? || k.MULTU? || k.DIV? || k.DIVU? || IsConditional(k)
  }

  predicate UsesRt(k: Mnemonic) {
    || IsShift(k) || IsRegArith(k) || IsImmediate(k) || IsLoad(k) || IsStore(k)
    || k.MULT? || k.MULTU? || k.DIV? || k.DIVU? || IsConditional(k) || k.MFC0? || k.MTC0?
  }

  predicate UsesRd(k: Mnemonic) {
    || IsShift(k) || IsRegArith(k)
    || k.JALR? || k.MFHI? || k.MFLO? || k.MFC0? || k.MTC0?
  }

  lemma OffsetFromTarget(w: u32, w': u32, pc: u32)
    requires CalcBranchAddr(w, pc) == CalcBranchAddr(w', pc)
    ensures BranchOffset(InstrImm(w)) == BranchOffset(InstrImm(w'))
  {
    hide InstrImm, BranchOffset;
  }

  lemma TargetFromAddress(w: u32, w': u32, pc: u32)
    requires CalcJmpAddr(w, pc) == CalcJmpAddr(w', pc)
    ensures InstrTarget(w) == InstrTarget(w')
  {
    hide Or, And, InstrTarget;
  }

  lemma IllegalLineFields(w: u32, w': u32)
    requires IllegalLine(w) == IllegalLine(w')
    ensures w == w'
  {
    assert IllegalLine(w).ops[0] == IllegalLine(w').ops[0];
  }

  lemma SpecialFields(w: u32, w': u32)
    requires InstrOp(w) == 0 && InstrOp(w') == 0 && SpecialLine(w) == SpecialLine(w')
    ensures SameFields(w, w')
  {
    hide InstrRs, InstrRt, InstrRd, InstrShamt, InstrImm, InstrTarget;
    var a, b := SpecialLine(w), SpecialLine(w');
    if a.name.Illegal? {
      assert a.ops[0] == b.ops[0];
    } else if !a.name.Nop? {
      assert forall i :: 0 <= i < |a.ops| ==> a.ops[i] == b.ops[i];
    }
  }

  lemma BcondFields(w: u32, w': u32, pc: u32)
    requires InstrOp(w) == 1 && InstrOp(w') == 1 && BcondLine(w, pc) == BcondLine(w', pc)
    ensures SameFields(w, w')
  {
    hide InstrRs, InstrRt, InstrRd, InstrShamt, InstrImm, InstrTarget, CalcBranchAddr;
    var a, b := BcondLine(w, pc), BcondLine(w', pc);
    assert a.ops[0] == b.ops[0];
    if !a.name.Illegal? {
      assert a.ops[1] == b.ops[1];
      OffsetFromTarget(w, w', pc);
    }
  }

  lemma Cop0Fields(w: u32, w': u32)
    requires InstrOp(w) == 0x10 && InstrOp(w') == 0x10 && Cop0Line(w) == Cop0Line(w')
    ensures SameFields(w, w')
  {
    hide InstrRt, InstrRd, InstrShamt, InstrImm, InstrTarget;
    var a, b := Cop0Line(w), Cop0Line(w');
    assert a.ops[0] == b.ops[0];
    if !a.name.Illegal? {
      assert a.ops[1] == b.ops[1];
    }
  }

  // The instructions outside the three groups.
  predicate IsMain(k: Mnemonic) {
    || k.J? || k.JAL? || k.BEQ? || k.BNE? || k.BLEZ? || k.BGTZ?
    || IsImmediate(k) || IsLoad(k) || IsStore(k) || k.ILLEGAL?
  }

  lemma MainKinds(w: u32)
    requires InstrOp(w) !in {0, 1, 0x10}
    ensures Decode(w) == MainMnemonic(InstrOp(w)) && IsMain(Decode(w))
  {
  }

  lemma MainFields(w: u32, w': u32, pc: u32)
    requires InstrOp(w) !in {0, 1, 0x10} && InstrOp(w') !in {0, 1, 0x10}
    requires MainLine(w, pc) == MainLine(w', pc)
    ensures SameFields(w, w')
  {
    MainKinds(w);
    MainKinds(w');
    hide Decode, MainMnemonic, InstrRs, InstrRt, InstrRd, InstrShamt, InstrImm, InstrTarget, CalcBranchAddr, CalcJmpAddr,
         BranchOffset, SameFields;
    var k, a, b := Decode(w), MainLine(w, pc), MainLine(w', pc);
    if k.ILLEGAL? {
      assert a.ops[0] == b.ops[0];
      SameWordFields(w);
    } else {
      assert Decode(w') == k;
      MainOperands(w, w', pc);
    }
  }

  // What a printed word outside the groups shows of its fields.
  lemma MainOps(w: u32, pc: u32)
    requires IsMain(Decode(w)) && Decode(w) == MainMnemonic(InstrOp(w))
    ensures var k, ops := Decode(w), MainLine(w, pc).ops;
            && (k.J? || k.JAL? ==> ops == [Address(CalcJmpAddr(w, pc))])
            && (k.BEQ? || k.BNE? || k.BLEZ? || k.BGTZ? ==>
                  ops == [Reg(InstrRs(w)), Reg(InstrRt(w)), Address(CalcBranchAddr(w, pc))])
            && (k.LUI? ==> ops == [Reg(InstrRt(w)), Imm16(InstrImm(w))])
            && (IsImmediate(k) && !k.LUI? ==> ops == [Reg(InstrRt(w)), Reg(InstrRs(w)), Imm16(InstrImm(w))])
            && (IsLoad(k) || IsStore(k) ==> ops == [Reg(InstrRt(w)), Based(InstrImm(w), InstrRs(w))])
  {
    hide Decode, MainMnemonic, InstrRs, InstrRt, InstrImm, CalcBranchAddr, CalcJmpAddr;
  }

  ghost predicate AlikeMain(w: u32, w': u32, pc: u32) {
    var k := Decode(w);
    && IsMain(k) && !k.ILLEGAL? && Decode(w') == k
    && MainMnemonic(InstrOp(w)) == k && MainMnemonic(InstrOp(w')) == k
    && MainLine(w, pc) == MainLine(w', pc)
  }

  lemma JumpFields(w: u32, w': u32, pc: u32)
    requires AlikeMain(w, w', pc) && (Decode(w).J? || Decode(w).JAL?)
    ensures SameFields(w, w')
  {
    MainOps(w, pc);
    MainOps(w', pc);
    hide Decode, MainLine, MainMnemonic, InstrRs, InstrRt, InstrRd, InstrShamt, InstrImm, InstrTarget,
         CalcBranchAddr, CalcJmpAddr, BranchOffset;
    var a, b := MainLine(w, pc).ops, MainLine(w', pc).ops;
    assert a[0] == b[0];
    TargetFromAddress(w, w', pc);
  }

  lemma BranchFields(w: u32, w': u32, pc: u32)
    requires AlikeMain(w, w', pc) && (Decode(w).BEQ? || Decode(w).BNE? || Decode(w).BLEZ? || Decode(w).BGTZ?)
    ensures SameFields(w, w')
  {
    MainOps(w, pc);
    MainOps(w', pc);
    hide Decode, MainLine, MainMnemonic, InstrRs, InstrRt, InstrRd, InstrShamt, InstrImm, InstrTarget,
         CalcBranchAddr, CalcJmpAddr, BranchOffset;
    var a, b := MainLine(w, pc).ops, MainLine(w', pc).ops;
    assert a[0] == b[0] && a[1] == b[1] && a[2] == b[2];
    OffsetFromTarget(w, w', pc);
  }

  lemma ImmediateFields(w: u32, w': u32, pc: u32)
    requires AlikeMain(w, w', pc) && (IsImmediate(Decode(w)))
    ensures SameFields(w, w')
  {
    MainOps(w, pc);
    MainOps(w', pc);
    hide Decode, MainLine, MainMnemonic, InstrRs, InstrRt, InstrRd, InstrShamt, InstrImm, InstrTarget,
         CalcBranchAddr, CalcJmpAddr, BranchOffset;
    var a, b := MainLine(w, pc).ops, MainLine(w', pc).ops;
    assert a[0] == b[0] && a[1] == b[1];
    if !Decode(w).LUI? {
      assert a[2] == b[2];
    }
  }

  lemma AccessFields(w: u32, w': u32, pc: u32)
    requires AlikeMain(w, w', pc) && (IsLoad(Decode(w)) || IsStore(Decode(w)))
    ensures SameFields(w, w')
  {
    MainOps(w, pc);
    MainOps(w', pc);
    hide Decode, MainLine, MainMnemonic, InstrRs, InstrRt, InstrRd, InstrShamt, InstrImm, InstrTarget,
         CalcBranchAddr, CalcJmpAddr, BranchOffset;
    var a, b := MainLine(w, pc).ops, MainLine(w', pc).ops;
    assert a[0] == b[0] && a[1] == b[1];
  }

  lemma MainOperands(w: u32, w': u32, pc: u32)
    requires AlikeMain(w, w', pc)
    ensures SameFields(w, w')
  {
    hide Decode, MainLine, SameFields, MainMnemonic;
    var k := Decode(w);
    if k.J? || k.JAL? {
      JumpFields(w, w', pc);
    } else if k.BEQ? || k.BNE? || k.BLEZ? || k.BGTZ? {
      BranchFields(w, w', pc);
    } else if IsImmediate(k) {
      ImmediateFields(w, w', pc);
    } else {
      AccessFields(w, w', pc);
    }
  }

  // The opcode group a printed name belongs to.
  function GroupOf(n: Name): nat {
    match n
    case Nop => 0
    case Bltz => 1
    case Bgez => 1
    case Bltzal => 1
    case Illegal => 3
    case Plain(k) =>
      if k.MFC0? || k.MTC0? then 0x10
      else if k.J? || k.JAL? || IsConditional(k) || IsImmediate(k) || IsLoad(k) || IsStore(k) then 2
      else 0
  }

  function OpGroup(op: nat): nat {
    if op == 0 || op == 1 || op == 0x10 then op else 2
  }

  lemma ListingGroup(w: u32, pc: u32)
    ensures var l := Listing(w, pc);
            if l.name.Illegal? then l == IllegalLine(w) else GroupOf(l.name) == OpGroup(InstrOp(w))
  {
    hide InstrOp, InstrRs, InstrRt, InstrRd, InstrShamt, InstrImm, CalcBranchAddr, CalcJmpAddr, InstrFunct;
  }

  lemma LineFields(w: u32, w': u32, pc: u32)
    requires Listing(w, pc) == Listing(w', pc)
    ensures SameFields(w, w')
  {
    ListingGroup(w, pc);
    ListingGroup(w', pc);
    hide SameFields, InstrOp, SpecialLine, BcondLine, Cop0Line, MainLine, GroupOf;
    if Listing(w, pc).name.Illegal? {
      IllegalLineFields(w, w');
      SameWordFields(w);
    } else if InstrOp(w) == 0 {
      SpecialFields(w, w');
    } else if InstrOp(w) == 1 {
      BcondFields(w, w', pc);
    } else if InstrOp(w) == 0x10 {
      Cop0Fields(w, w');
    } else {
      MainFields(w, w', pc);
    }
  }

  // The words that are listed as illegal: those the CPU takes for illegal, and the
  // legal ones whose case has no format or leaves the switch after printing.
  lemma ListedIllegal(w: u32, pc: u32)
    ensures Listing(w, pc).name.Illegal? <==>
              var k := Decode(w);
              || k.ILLEGAL? || k.SRLV? || k.SRAV? || k.SYSCALL? || k.BREAK? || k.RFE?
              || (k.BCOND? && InstrRt(w) != 0 && InstrRt(w) != 1 && InstrRt(w) != 0x10)
  {
    hide InstrRs, InstrRt, InstrRd, InstrShamt, InstrImm, CalcBranchAddr, CalcJmpAddr, InstrOp, InstrFunct;
    if InstrOp(w) == 0 {
      SpecialIllegal(w);
    } else if InstrOp(w) != 1 && InstrOp(w) != 0x10 {
      MainIllegal(w, pc);
    }
  }

  lemma SpecialIllegal(w: u32)
    requires InstrOp(w) == 0
    ensures SpecialLine(w).name.Illegal? <==>
              var k := Decode(w);
              k.ILLEGAL? || k.SRLV? || k.SRAV? || k.SYSCALL? || k.BREAK? || k.RFE? || k.BCOND?
  {
    hide InstrRs, InstrRt, InstrRd, InstrShamt;
  }

  lemma MainIllegal(w: u32, pc: u32)
    requires InstrOp(w) != 0 && InstrOp(w) != 1 && InstrOp(w) != 0x10
    ensures MainLine(w, pc).name.Illegal? <==> Decode(w).ILLEGAL?
    ensures var k := Decode(w);
            !(k.SRLV? || k.SRAV? || k.SYSCALL? || k.BREAK? || k.RFE? || k.BCOND?)
  {
    hide InstrOp, InstrRs, InstrRt, InstrImm, CalcBranchAddr, CalcJmpAddr;
  }

  // SRLV $v0, $v1, $a0 executes as a shift and is printed as an illegal word.
  lemma ShiftListedIllegal(pc: u32)
    ensures Decode(0x0083_1006).SRLV? && Listing(0x0083_1006, pc) == IllegalLine(0x0083_1006)
  {
  }

  lemma SameWordFields(w: u32)
    ensures SameFields(w, w)
  {
    hide Decode, InstrRs, InstrRt, InstrRd, InstrShamt, InstrImm, InstrTarget;
  }

  // ---- the fields determine what the instruction does

  ghost predicate Alike(s: State, t: State) {
    t == s.(instr := t.instr) && SameFields(s.instr, t.instr)
  }

  lemma AlikeOperands(s: State, t: State)
    requires Alike(s, t)
    ensures Kind(t) == Kind(s)
    ensures UsesRs(Kind(s)) ==> A(t) == A(s)
    ensures UsesRt(Kind(s)) ==> B(t) == B(s)
    ensures IsLoad(Kind(s)) || IsStore(Kind(s)) ==> DataVaddr(t) == DataVaddr(s)
  {
    hide Decode, InstrRs, InstrRt, InstrRd, InstrShamt, InstrImm, InstrTarget, BranchOffset, GetVaddr;
  }

  lemma AlikeAccess(s: State, t: State)
    requires Alike(s, t)
    ensures Addresses(t) == Addresses(s) && Misaligned(t) == Misaligned(s)
    ensures IsLoad(Kind(s)) || IsStore(Kind(s)) ==> DataPaddr(t) == DataPaddr(s) && AccessPaddr(t) == AccessPaddr(s)
    ensures DataOk(t) == DataOk(s)
  {
    AlikeOperands(s, t);
    hide Decode, DataVaddr, SameFields, LoadOk, StoreOk, VaddrToPaddr, FoldVaddr, CacheIsolated;
  }

  lemma AlikeTraps(s: State, t: State)
    requires Alike(s, t)
    ensures Traps(t) == Traps(s)
  {
    AlikeOperands(s, t);
    AlikeAccess(s, t);
    hide Decode, DataVaddr, Misaligned, InstrRs, InstrRt, InstrRd, InstrShamt, InstrImm, InstrTarget,
         AddOverflows, SubOverflows, WatchHit, CacheIsolated, BranchOffset, DataPaddr, AccessPaddr;
  }

  lemma AlikeShift(s: State, t: State)
    requires Alike(s, t) && IsShift(Kind(s))
    ensures AluEffect(t) == AluEffect(s)
  {
    AlikeOperands(s, t);
    hide Decode, A, B, InstrRs, InstrRt, InstrRd, InstrShamt, InstrImm, InstrTarget, BranchOffset, ShiftValue;
    SameShift(Kind(s), A(s), A(t), B(s), InstrShamt(s.instr), InstrShamt(t.instr));
  }

  lemma AlikeImmediate(s: State, t: State)
    requires Alike(s, t) && IsImmediate(Kind(s))
    ensures AluEffect(t) == AluEffect(s)
  {
    AlikeOperands(s, t);
    AlikeTraps(s, t);
    hide Decode, A, B, InstrRs, InstrRt, InstrRd, InstrShamt, InstrImm, InstrTarget, BranchOffset, ImmediateValue, Traps;
    SameImmediate(Kind(s), A(s), A(t), Imm(s));
  }

  lemma AlikeArith(s: State, t: State)
    requires Alike(s, t) && IsRegArith(Kind(s))
    ensures AluEffect(t) == AluEffect(s)
  {
    AlikeOperands(s, t);
    AlikeTraps(s, t);
    hide Decode, A, B, InstrRs, InstrRt, InstrRd, InstrShamt, InstrImm, InstrTarget, BranchOffset, ArithValue, Traps;
  }

  lemma AlikeOther(s: State, t: State)
    requires Alike(s, t) && !IsShift(Kind(s)) && !IsImmediate(Kind(s)) && !IsRegArith(Kind(s))
    ensures AluEffect(t) == AluEffect(s)
  {
    SameReturn(s, t);
    hide Decode, A, B, InstrRs, InstrRt, InstrRd, InstrShamt, InstrImm, InstrTarget, BranchOffset, ArithValue, Traps,
         ReturnAddr, BcondLinks, ShiftValue, ImmediateValue, IsShift, IsImmediate, IsRegArith;
  }

  lemma SameReturn(s: State, t: State)
    requires t == s.(instr := t.instr)
    ensures ReturnAddr(t) == ReturnAddr(s)
  {
  }

  lemma AlikeAlu(s: State, t: State)
    requires Alike(s, t)
    ensures AluEffect(t) == AluEffect(s)
  {
    hide Decode, AluEffect, SameFields;
    if IsShift(Kind(s)) {
      AlikeShift(s, t);
    } else if IsImmediate(Kind(s)) {
      AlikeImmediate(s, t);
    } else if IsRegArith(Kind(s)) {
      AlikeArith(s, t);
    } else {
      AlikeOther(s, t);
    }
  }

  // The operands a shift does not use do not matter.
  lemma SameShift(k: Mnemonic, a: u32, a': u32, b: u32, n: RegIndex, n': RegIndex)
    requires k.SLL? || k.SRL? || k.SRA? || a == a'
    requires k.SLLV? || k.SRLV? || k.SRAV? || n == n'
    ensures ShiftValue(k, a, b, n) == ShiftValue(k, a', b, n')
  {
    hide Shl, Shr, Sra;
  }

  lemma SameImmediate(k: Mnemonic, a: u32, a': u32, imm: u16)
    requires k.LUI? || a == a'
    ensures IsImmediate(k) ==> ImmediateValue(k, a, imm) == ImmediateValue(k, a', imm)
  {
    hide And32, Or32, Xor32, Wrap, SignExt16, Signed;
  }

  lemma AlikeLoad(s: State, t: State)
    requires Alike(s, t) && DataOk(s) && IsLoad(Kind(s))
    ensures DataOk(t) && RegEffect(t) == RegEffect(s)
  {
    AlikeOperands(s, t);
    AlikeAccess(s, t);
    hide Decode, DataVaddr, DataPaddr, AccessPaddr, Misaligned, InstrRs, InstrRd, InstrShamt, InstrImm, InstrTarget,
         DataOk, Load, LoadOk, BranchOffset, Splice.Lwl, Splice.Lwr, Byte, AluEffect;
  }

  lemma AlikeEffect(s: State, t: State)
    requires Alike(s, t) && DataOk(s)
    ensures DataOk(t) && RegEffect(t) == RegEffect(s)
  {
    AlikeOperands(s, t);
    AlikeAccess(s, t);
    AlikeAlu(s, t);
    if IsLoad(Kind(s)) {
      AlikeLoad(s, t);
    }
    hide Decode, DataOk, AluEffect, SameFields, Misaligned, LoadValue;
  }

  lemma AlikeHiLo(s: State, t: State)
    requires Alike(s, t)
    ensures HiLoAfter(t) == HiLoAfter(s)
  {
    AlikeOperands(s, t);
    hide Decode, A, B, SameFields, Alu.Mult, Multu, Alu.Div, Divu;
  }

  lemma AlikeCop0(s: State, t: State)
    requires Alike(s, t)
    ensures Cop0After(t) == Cop0After(s)
  {
    AlikeOperands(s, t);
    AlikeTraps(s, t);
    hide Decode, B, Traps, RaiseAll, InstrRs, InstrRt, InstrRd, InstrShamt, InstrImm, InstrTarget, BranchOffset, RfeSr;
  }

  lemma AlikeCondition(s: State, t: State)
    requires Alike(s, t)
    ensures IsConditional(Kind(s)) ==> Condition(t) == Condition(s)
  {
    AlikeOperands(s, t);
    hide Decode, A, B, InstrRs, InstrRt, InstrRd, InstrShamt, InstrImm, BranchOffset, BcondTaken, InstrTarget, Signed;
  }

  lemma AlikeTarget(s: State, t: State)
    requires Alike(s, t)
    ensures IsTransfer(Kind(s)) ==> Target(t) == Target(s)
  {
    AlikeOperands(s, t);
    hide Decode, A, B, InstrRs, InstrRt, InstrRd, InstrShamt, InstrImm, BranchOffset, Wrap, InstrTarget, HighNibble, And, Or;
  }

  lemma AlikeControl(s: State, t: State)
    requires Alike(s, t)
    ensures PcAfter(t) == PcAfter(s) && NextPcAfter(t) == NextPcAfter(s) && Transfers(t) == Transfers(s)
  {
    hide Decode, SameFields, Traps, Target, Condition;
    AlikeOperands(s, t);
    AlikeTraps(s, t);
    AlikeCondition(s, t);
    AlikeTarget(s, t);
  }

  lemma AlikeMem(s: State, t: State)
    requires Alike(s, t) && DataOk(s)
    ensures DataOk(t) && MemAfter(t) == MemAfter(s)
  {
    AlikeOperands(s, t);
    AlikeAccess(s, t);
    hide Decode, B, DataVaddr, DataPaddr, AccessPaddr, Misaligned, SameFields, DataOk, Load, LoadOk, Store, StoreOk,
         Splice.Swl, Splice.Swr, Byte;
  }

  lemma AlikeExec(s: State, t: State)
    requires Alike(s, t) && DataOk(s)
    ensures DataOk(t) && Exec(t) == Exec(s).(instr := t.instr)
  {
    AlikeOperands(s, t);
    AlikeEffect(s, t);
    AlikeHiLo(s, t);
    AlikeCop0(s, t);
    AlikeControl(s, t);
    AlikeMem(s, t);
    hide Decode, DataOk, RegEffect, HiLoAfter, Cop0After, PcAfter, NextPcAfter, Transfers, MemAfter, SameFields;
  }

  // ---- the result buffer

  const DISASM_LEN_MAX: nat := 256

  lemma OperandLength(op: Operand)
    ensures |OperandText(op)| <= 13
  {
    hide GprName, CprName, Hex, Dec;
    match op
    case Reg(r) => GprLength(r);
    case Cpr(c) => CprLength(c);
    case Count(n) => CountLength(n);
    case Imm16(i) =>
    case Address(a) =>
    case Based(off, base) => GprLength(base);
  }

  lemma GprLength(r: RegIndex)
    ensures |GprName(r)| <= 5
  {
  }

  lemma CprLength(c: RegIndex)
    ensures |CprName(c)| <= 6
  {
  }

  lemma CountLength(n: RegIndex)
    ensures |Dec(n)| <= 2
  {
    assert n >= 10 ==> n / 10 < 10;
  }

  lemma NameLength(n: Name)
    ensures |NameText(n)| <= 7
  {
  }

  lemma {:induction false} OperandsLength(ops: seq<Operand>)
    ensures |OperandsText(ops)| <= 15 * |ops|
  {
    hide OperandText;
    if ops != [] {
      OperandLength(ops[0]);
      if |ops| > 1 {
        OperandsLength(ops[1..]);
        assert OperandsText(ops) == OperandText(ops[0]) + ", " + OperandsText(ops[1..]);
      }
    }
  }

  // The text and its terminator always fit the result buffer.
  lemma TextFits(w: u32, pc: u32)
    ensures |Text(w, pc)| + 1 <= DISASM_LEN_MAX
  {
    var l := Listing(w, pc);
    ListingFormat(w, pc);
    hide Listing, NameText, OperandsText;
    assert |l.ops| == |Kinds(l.ops)| == |Format(l.name)| <= 3;
    NameLength(l.name);
    OperandsLength(l.ops);
  }
}
