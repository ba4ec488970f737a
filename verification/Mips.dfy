// Instruction words: field extraction, the opcode tables and the address
// arithmetic of core/cpu-defs.h.

module Mips {
  import opened Words

  type RegIndex = r: int | 0 <= r < 32

  const GPR_ZERO: RegIndex := 0
  const GPR_A0: RegIndex := 4
  const GPR_T1: RegIndex := 9
  const GPR_K0: RegIndex := 26
  const GPR_GP: RegIndex := 28
  const GPR_SP: RegIndex := 29
  const GPR_FP: RegIndex := 30
  const GPR_RA: RegIndex := 31

  const COP0_BDA: RegIndex := 5
  const COP0_DCIC: RegIndex := 7
  const COP0_BDAM: RegIndex := 9
  const COP0_SR: RegIndex := 12
  const COP0_CAUSE: RegIndex := 13
  const COP0_EPC: RegIndex := 14

  const RESET_PC: u32 := 0xBFC0_0000

  const DCIC_DE: u32 := 0x0080_0000
  const DCIC_DAE: u32 := 0x0200_0000
  const SR_ISC: u32 := 0x0001_0000

  const EXC_ADEL: u32 := 4
  const EXC_ADES: u32 := 5
  const EXC_SYS: u32 := 8
  const EXC_BP: u32 := 9
  const EXC_OV: u32 := 12

  // Field extraction. A right shift followed by a mask of low ones is a division
  // followed by a remainder (Words.MaskLow).
  function InstrOp(w: u32): (r: nat) ensures r < 64 { w / 0x400_0000 }

  function InstrRs(w: u32): RegIndex { w / 0x20_0000 % 32 }

  function InstrRt(w: u32): RegIndex { w / 0x1_0000 % 32 }

  function InstrRd(w: u32): RegIndex { w / 0x800 % 32 }

  function InstrShamt(w: u32): RegIndex { w / 0x40 % 32 }

  function InstrFunct(w: u32): (r: nat) ensures r < 64 { w % 64 }

  function InstrImm(w: u32): u16 { w % 0x1_0000 }

  function InstrTarget(w: u32): (r: nat) ensures r < 0x400_0000 { w % 0x400_0000 }

  // The cases of the two-level switch in psycho_cpu_step; a word that reaches
  // none of them is ILLEGAL.
  datatype Mnemonic =
    | SLL | SRL | SRA | SLLV | SRLV | SRAV | JR | JALR | SYSCALL | BREAK
    | MFHI | MTHI | MFLO | MTLO | MULT | MULTU | DIV | DIVU
    | ADD | ADDU | SUB | SUBU | AND | OR | XOR | NOR | SLT | SLTU
    | BCOND | MFC0 | MTC0 | RFE
    | J | JAL | BEQ | BNE | BLEZ | BGTZ
    | ADDI | ADDIU | SLTI | SLTIU | ANDI | ORI | XORI | LUI
    | LB | LH | LWL | LW | LBU | LHU | LWR
    | SB | SH | SWL | SW | SWR
    | ILLEGAL

  function SpecialMnemonic(funct: nat): Mnemonic {
    match funct
    case 0x00 => SLL
    case 0x02 => SRL
    case 0x03 => SRA
    case 0x04 => SLLV
    case 0x06 => SRLV
    case 0x07 => SRAV
    case 0x08 => JR
    case 0x09 => JALR
    case 0x0C => SYSCALL
    case 0x0D => BREAK
    case 0x10 => MFHI
    case 0x11 => MTHI
    case 0x12 => MFLO
    case 0x13 => MTLO
    case 0x18 => MULT
    case 0x19 => MULTU
    case 0x1A => DIV
    case 0x1B => DIVU
    case 0x20 => ADD
    case 0x21 => ADDU
    case 0x22 => SUB
    case 0x23 => SUBU
    case 0x24 => AND
    case 0x25 => OR
    case 0x26 => XOR
    case 0x27 => NOR
    case 0x2A => SLT
    case 0x2B => SLTU
    case _ => ILLEGAL
  }

  function Cop0Mnemonic(rs: nat, funct: nat): Mnemonic {
    match rs
    case 0x00 => MFC0
    case 0x04 => MTC0
    case _ => if funct == 0x10 then RFE else ILLEGAL
  }

  function MainMnemonic(op: nat): Mnemonic {
    match op
    case 0x01 => BCOND
    case 0x02 => J
    case 0x03 => JAL
    case 0x04 => BEQ
    case 0x05 => BNE
    case 0x06 => BLEZ
    case 0x07 => BGTZ
    case 0x08 => ADDI
    case 0x09 => ADDIU
    case 0x0A => SLTI
    case 0x0B => SLTIU
    case 0x0C => ANDI
    case 0x0D => ORI
    case 0x0E => XORI
    case 0x0F => LUI
    case 0x20 => LB
    case 0x21 => LH
    case 0x22 => LWL
    case 0x23 => LW
    case 0x24 => LBU
    case 0x25 => LHU
    case 0x26 => LWR
    case 0x28 => SB
    case 0x29 => SH
    case 0x2A => SWL
    case 0x2B => SW
    case 0x2E => SWR
    case _ => ILLEGAL
  }

  function Decode(w: u32): Mnemonic {
    match InstrOp(w)
    case 0x00 => SpecialMnemonic(InstrFunct(w))
    case 0x10 => Cop0Mnemonic(InstrRs(w), InstrFunct(w))
    case op => MainMnemonic(op)
  }

  function GetVaddr(off: u16, val: u32): u32 {
    Wrap(SignExt16(off) + val)
  }

  // pc & 0xF0000000
  function HighNibble(pc: u32): (r: u32)
    ensures r == pc - pc % 0x1000_0000
  {
    Pow2Values(); MaskHigh(pc, 28, 32);
    And(pc, 0xF000_0000)
  }

  function CalcJmpAddr(w: u32, pc: u32): (r: u32)
    ensures r == InstrTarget(w) * 4 + HighNibble(pc)
  {
    var low := InstrTarget(w) * 4;
    Pow2Values();
    OrDisjoint(HighNibble(pc), low, 28);
    OrCommutes(low, HighNibble(pc));
    Or(low, HighNibble(pc))
  }

  // imm << 2 is computed as an int and then cut to the u16 parameter of
  // sign_ext_16_32.
  function BranchOffset(imm: u16): u32 {
    SignExt16(imm * 4 % 0x1_0000)
  }

  function CalcBranchAddr(w: u32, pc: u32): u32 {
    Wrap(BranchOffset(InstrImm(w)) + pc + 4)
  }

  function VaddrToPaddr(vaddr: u32): (r: u32)
    ensures r == if vaddr == 0xFFFE_0130 then vaddr else vaddr % 0x2000_0000
  {
    if vaddr == 0xFFFE_0130 then vaddr
    else
      Pow2Values(); MaskLow(vaddr, 29);
      And(vaddr, 0x1FFF_FFFF)
  }

  // The architectural target of a branch at pc: the offset of the delay slot,
  // in words.
  function ArchBranchTarget(w: u32, pc: u32): u32 {
    Wrap(pc + 4 + 4 * SignedImm(InstrImm(w)))
  }

  // Cutting the shifted immediate to 16 bits loses two bits of it, so the branch
  // reaches the architectural target exactly on the middle half of its range.
  lemma BranchTargetExact(w: u32, pc: u32)
    ensures CalcBranchAddr(w, pc) == ArchBranchTarget(w, pc)
        <==> -8192 <= SignedImm(InstrImm(w)) <= 8191
  {
    var simm := SignedImm(InstrImm(w));
    var off := BranchOffset(InstrImm(w));
    assert off < 0x8000 || off >= 0xFFFF_8000;
    var k: int := Signed(off);
    assert CalcBranchAddr(w, pc) == Wrap(k + pc + 4);
    assert -0x8000 <= k < 0x8000 && (k - 4 * simm) % 0x1_0000 == 0;
  }

  // Every target computed from an aligned address is aligned.
  lemma BranchTargetAligned(w: u32, pc: u32)
    requires pc % 4 == 0
    ensures CalcBranchAddr(w, pc) % 4 == 0
  {
    var off := BranchOffset(InstrImm(w));
    assert off % 4 == 0;
    WrapMod4(off + pc + 4);
  }

  lemma JumpTargetAligned(w: u32, pc: u32)
    ensures CalcJmpAddr(w, pc) % 4 == 0
  {
    var q := pc / 0x1000_0000;
    assert HighNibble(pc) == 0x1000_0000 * q;
    DivUnique(CalcJmpAddr(w, pc), 4, InstrTarget(w) + 0x400_0000 * q, 0);
  }
}
