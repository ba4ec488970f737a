// Instruction words written from their fields, with the numbers of the
// architecture's opcode tables, against the decoding of Mips.dfy.

module Encoding {
  import opened Words
  import opened Mips

  // An instruction in one of the formats, every field given; funct is free only in
  // the coprocessor format.
  datatype Instruction =
    | RType(k: Mnemonic, rs: RegIndex, rt: RegIndex, rd: RegIndex, shamt: RegIndex)
    | IType(k: Mnemonic, rs: RegIndex, rt: RegIndex, imm: u16)
    | JType(k: Mnemonic, target: TargetField)
    | CType(k: Mnemonic, rs: RegIndex, rt: RegIndex, rd: RegIndex, shamt: RegIndex, funct: FunctField)

  type TargetField = t: int | 0 <= t < 0x400_0000
  type FunctField = f: int | 0 <= f < 64

  // The funct code of an instruction of opcode 0; 64 for the others.
  function FunctOf(k: Mnemonic): nat {
    match k
    case SLL => 0 case SRL => 2 case SRA => 3 case SLLV => 4 case SRLV => 6 case SRAV => 7
    case JR => 8 case JALR => 9 case SYSCALL => 12 case BREAK => 13
    case MFHI => 16 case MTHI => 17 case MFLO => 18 case MTLO => 19
    case MULT => 24 case MULTU => 25 case DIV => 26 case DIVU => 27
    case ADD => 32 case ADDU => 33 case SUB => 34 case SUBU => 35
    case AND => 36 case OR => 37 case XOR => 38 case NOR => 39 case SLT => 42 case SLTU => 43
    case _ => 64
  }

  // The opcode of an instruction with an immediate; 64 for the others.
  function OpcodeOf(k: Mnemonic): nat {
    match k
    case BCOND => 1 case BEQ => 4 case BNE => 5 case BLEZ => 6 case BGTZ => 7
    case ADDI => 8 case ADDIU => 9 case SLTI => 10 case SLTIU => 11
    case ANDI => 12 case ORI => 13 case XORI => 14 case LUI => 15
    case LB => 32 case LH => 33 case LWL => 34 case LW => 35 case LBU => 36 case LHU => 37 case LWR => 38
    case SB => 40 case SH => 41 case SWL => 42 case SW => 43 case SWR => 46
    case _ => 64
  }

  predicate Legal(i: Instruction) {
    match i
    case RType(k, _, _, _, _) => FunctOf(k) < 64
    case IType(k, _, _, _) => OpcodeOf(k) < 64
    case JType(k, _) => k.J? || k.JAL?
    case CType(k, rs, _, _, _, funct) =>
      if rs == 0 then k.MFC0? else if rs == 4 then k.MTC0? else k.RFE? && funct == 16
  }

  function Fields(op: nat, rs: RegIndex, rt: RegIndex, low: u16): u32
    requires op < 64
  {
    op * 0x400_0000 + rs * 0x20_0000 + rt * 0x1_0000 + low
  }

  function Low(rd: RegIndex, shamt: RegIndex, funct: nat): u16
    requires funct < 64
  {
    rd * 0x800 + shamt * 0x40 + funct
  }

  function Encode(i: Instruction): u32
    requires Legal(i)
  {
    match i
    case RType(k, rs, rt, rd, shamt) => Fields(0, rs, rt, Low(rd, shamt, FunctOf(k)))
    case IType(k, rs, rt, imm) => Fields(OpcodeOf(k), rs, rt, imm)
    case JType(k, target) => (if k.J? then 2 else 3) * 0x400_0000 + target
    case CType(k, rs, rt, rd, shamt, funct) => Fields(16, rs, rt, Low(rd, shamt, funct))
  }

  // ---- the fields are read back

  lemma FieldsReadBack(op: nat, rs: RegIndex, rt: RegIndex, low: u16)
    requires op < 64
    ensures var w := Fields(op, rs, rt, low);
            && InstrOp(w) == op && InstrRs(w) == rs && InstrRt(w) == rt && InstrImm(w) == low
            && InstrRd(w) == low / 0x800 && InstrShamt(w) == low / 0x40 % 32 && InstrFunct(w) == low % 64
  {
    var w: int := Fields(op, rs, rt, low);
    var high: int := op * 0x400 + rs * 0x20 + rt;
    DivUnique(w, 0x400_0000, op, rs * 0x20_0000 + rt * 0x1_0000 + low);
    DivUnique(w, 0x20_0000, op * 0x20 + rs, rt * 0x1_0000 + low);
    DivUnique(op * 0x20 + rs, 32, op, rs);
    DivUnique(w, 0x1_0000, high, low);
    DivUnique(high, 32, op * 0x20 + rs, rt);
    LowReadBack(high, low);
  }

  lemma LowReadBack(high: nat, low: u16)
    ensures var w: int := high * 0x1_0000 + low;
            w / 0x800 % 32 == low / 0x800 && w / 0x40 % 32 == low / 0x40 % 32 && w % 64 == low % 64
  {
    var w: int := high * 0x1_0000 + low;
    DivUnique(w, 0x800, high * 32 + low / 0x800, low % 0x800);
    DivUnique(high * 32 + low / 0x800, 32, high, low / 0x800);
    DivUnique(w, 0x40, high * 0x400 + low / 0x40, low % 0x40);
    DivUnique(high * 0x400 + low / 0x40, 32, high * 32 + low / 0x40 / 32, low / 0x40 % 32);
  }

  lemma LowFields(rd: RegIndex, shamt: RegIndex, funct: nat)
    requires funct < 64
    ensures var low := Low(rd, shamt, funct); low / 0x800 == rd && low / 0x40 % 32 == shamt && low % 64 == funct
  {
    var low: int := Low(rd, shamt, funct);
    DivUnique(low, 0x800, rd, shamt * 0x40 + funct);
    DivUnique(low, 0x40, rd * 32 + shamt, funct);
    DivUnique(rd * 32 + shamt, 32, rd, shamt);
  }

  lemma SpecialTable(k: Mnemonic)
    requires FunctOf(k) < 64
    ensures SpecialMnemonic(FunctOf(k)) == k
  {
  }

  lemma MainTable(k: Mnemonic)
    requires OpcodeOf(k) < 64
    ensures MainMnemonic(OpcodeOf(k)) == k && OpcodeOf(k) != 0 && OpcodeOf(k) != 16
  {
  }

  // Every legal instruction's word decodes to it, and its fields are those written.
  lemma DecodeEncode(i: Instruction)
    requires Legal(i)
    ensures var w := Encode(i);
            && Decode(w) == i.k
            && (!i.JType? ==> InstrRs(w) == i.rs && InstrRt(w) == i.rt)
            && (i.RType? || i.CType? ==> InstrRd(w) == i.rd && InstrShamt(w) == i.shamt)
            && (i.IType? ==> InstrImm(w) == i.imm)
            && (i.JType? ==> InstrTarget(w) == i.target)
  {
    hide InstrOp, InstrRs, InstrRt, InstrRd, InstrShamt, InstrFunct, InstrImm, SpecialMnemonic, MainMnemonic, FunctOf, OpcodeOf,
         Fields, Low;
    match i
    case RType(k, rs, rt, rd, shamt) =>
      FieldsReadBack(0, rs, rt, Low(rd, shamt, FunctOf(k)));
      LowFields(rd, shamt, FunctOf(k));
      SpecialTable(k);
    case IType(k, rs, rt, imm) =>
      FieldsReadBack(OpcodeOf(k), rs, rt, imm);
      MainTable(k);
    case JType(k, target) =>
      JumpReadBack(k, target);
    case CType(k, rs, rt, rd, shamt, funct) =>
      FieldsReadBack(16, rs, rt, Low(rd, shamt, funct));
      LowFields(rd, shamt, funct);
  }

  lemma JumpReadBack(k: Mnemonic, target: TargetField)
    requires k.J? || k.JAL?
    ensures var w := Encode(JType(k, target)); Decode(w) == k && InstrTarget(w) == target
  {
    var op := if k.J? then 2 else 3;
    DivUnique(op * 0x400_0000 + target, 0x400_0000, op, target);
  }

  // ---- no other word is legal

  // The instruction a word stands for, from its numeric fields.
  function Read(w: u32): Instruction {
    var rs, rt := w / 0x20_0000 % 32, w / 0x1_0000 % 32;
    var rd, shamt := w / 0x800 % 32, w / 0x40 % 32;
    var op := w / 0x400_0000;
    if op == 0 then RType(Decode(w), rs, rt, rd, shamt)
    else if op == 16 then CType(Decode(w), rs, rt, rd, shamt, w % 64)
    else if op == 2 || op == 3 then JType(Decode(w), w % 0x400_0000)
    else IType(Decode(w), rs, rt, w % 0x1_0000)
  }

  lemma SpecialTableFull(f: nat)
    requires f < 64 && !SpecialMnemonic(f).ILLEGAL?
    ensures FunctOf(SpecialMnemonic(f)) == f
  {
    if f < 8 {
      SpecialTableShifts(f);
    } else if f < 20 {
      SpecialTableMiddle(f);
    } else {
      SpecialTableHigh(f);
    }
    hide SpecialMnemonic, FunctOf;
  }

  lemma SpecialTableShifts(f: nat)
    requires f < 8 && !SpecialMnemonic(f).ILLEGAL?
    ensures FunctOf(SpecialMnemonic(f)) == f
  {
    ShiftCodes();
    assert f != 1 && f != 5;
    hide SpecialMnemonic;
  }

  lemma ShiftCodes()
    ensures SpecialMnemonic(0).SLL? && SpecialMnemonic(2).SRL? && SpecialMnemonic(3).SRA?
    ensures SpecialMnemonic(4).SLLV? && SpecialMnemonic(6).SRLV? && SpecialMnemonic(7).SRAV?
  {
  }

  lemma SpecialTableMiddle(f: nat)
    requires 8 <= f < 20 && !SpecialMnemonic(f).ILLEGAL?
    ensures FunctOf(SpecialMnemonic(f)) == f
  {
  }

  lemma SpecialTableHigh(f: nat)
    requires 20 <= f < 64 && !SpecialMnemonic(f).ILLEGAL?
    ensures FunctOf(SpecialMnemonic(f)) == f
  {
  }

  lemma MainTableFull(op: nat)
    requires op < 64 && !MainMnemonic(op).ILLEGAL? && op != 2 && op != 3
    ensures OpcodeOf(MainMnemonic(op)) == op
  {
  }

  lemma Parts(w: u32)
    ensures w == Fields(w / 0x400_0000, w / 0x20_0000 % 32, w / 0x1_0000 % 32, w % 0x1_0000)
    ensures w % 0x1_0000 == Low(w / 0x800 % 32, w / 0x40 % 32, w % 64)
  {
    var h, low := w / 0x1_0000, w % 0x1_0000;
    HighParts(w, h, low);
    LowReadBack(h, low);
    LowParts(low);
    hide Fields, Low;
  }

  lemma HighParts(w: u32, h: nat, low: nat)
    requires w == 0x1_0000 * h + low && low < 0x1_0000
    ensures w / 0x20_0000 == h / 32 && w / 0x400_0000 == h / 32 / 32
    ensures w == Fields(w / 0x400_0000, w / 0x20_0000 % 32, h % 32, low)
  {
    DivUnique(w, 0x20_0000, h / 32, h % 32 * 0x1_0000 + low);
    DivUnique(w, 0x400_0000, h / 32 / 32, h / 32 % 32 * 0x20_0000 + h % 32 * 0x1_0000 + low);
  }

  lemma LowParts(low: u16)
    ensures low / 0x800 < 32 && low == Low(low / 0x800, low / 0x40 % 32, low % 64)
  {
    DivUnique(low, 0x800, low / 0x40 / 32, low / 0x40 % 32 * 0x40 + low % 0x40);
  }

  // A word is illegal, or the encoding of the instruction read from it.
  lemma EncodeDecode(w: u32)
    ensures !Decode(w).ILLEGAL? ==> Legal(Read(w)) && Encode(Read(w)) == w
  {
    Parts(w);
    hide SpecialMnemonic, MainMnemonic, FunctOf, OpcodeOf, Fields, Low;
    if !Decode(w).ILLEGAL? {
      if InstrOp(w) == 0 {
        SpecialTableFull(InstrFunct(w));
      } else if InstrOp(w) == 2 || InstrOp(w) == 3 {
        JumpCodes();
      } else if InstrOp(w) != 16 {
        MainTableFull(InstrOp(w));
      }
    }
  }

  lemma JumpCodes()
    ensures MainMnemonic(2).J? && MainMnemonic(3).JAL?
  {
  }

  // The illegal words are exactly those outside the encoder's range.
  lemma IllegalExactly(w: u32)
    ensures Decode(w).ILLEGAL? <==> !exists i: Instruction :: Legal(i) && Encode(i) == w
  {
    hide Decode, Encode, Legal;
    EncodeDecode(w);
    if Decode(w).ILLEGAL? {
      forall i: Instruction | Legal(i) && Encode(i) == w ensures false {
        DecodeEncode(i);
        LegalIsNamed(i);
      }
    }
  }

  lemma LegalIsNamed(i: Instruction)
    requires Legal(i)
    ensures !i.k.ILLEGAL?
  {
  }
}
