// The instructions one by one, continued: arithmetic, logic, shifts, loads and stores.

module Operations {
  import opened Words
  import opened Bits
  import opened Mips
  import opened Encoding
  import opened Memory
  import opened Machine
  import opened Effects
  import opened Exceptions
  import opened Arithmetic
  import opened Reference
  import opened Architecture
  import opened Unaligned
  import Splice

  predicate InSignedRange(x: int) { -0x8000_0000 <= x <= 0x7FFF_FFFF }

  // A register, and nothing else but $zero, has a new value.
  ghost predicate Changes(s: State, t: State, r: RegIndex) {
    && t.gpr == s.gpr[r := t.gpr[r]][0 := 0] && SameHiLo(s, t) && t.cop0 == s.cop0 && t.mem == s.mem
    && t.pc == s.pc && t.nextPc == s.nextPc
  }

  // ---- three-register arithmetic and logic

  predicate ArithResult(k: Mnemonic, a: u32, b: u32, v: u32) {
    && (k.ADD? ==> Signed(v) == Signed(a) + Signed(b))
    && (k.ADDU? ==> (v - (a + b)) % 0x1_0000_0000 == 0)
    && (k.SUB? ==> Signed(v) == Signed(a) - Signed(b))
    && (k.SUBU? ==> (v - (a - b)) % 0x1_0000_0000 == 0)
    && (k.AND? ==> forall j: nat | j < 32 :: Bit(v, j) == (Bit(a, j) && Bit(b, j)))
    && (k.OR? ==> forall j: nat | j < 32 :: Bit(v, j) == (Bit(a, j) || Bit(b, j)))
    && (k.XOR? ==> forall j: nat | j < 32 :: Bit(v, j) == (Bit(a, j) != Bit(b, j)))
    && (k.NOR? ==> forall j: nat | j < 32 :: Bit(v, j) == !(Bit(a, j) || Bit(b, j)))
    && (k.SLT? ==> v == if Signed(a) < Signed(b) then 1 else 0)
    && (k.SLTU? ==> v == if a < b then 1 else 0)
  }

  lemma ArithMeaning(k: Mnemonic, a: u32, b: u32)
    requires IsRegArith(k)
    requires k.ADD? ==> InSignedRange(Signed(a) + Signed(b))
    requires k.SUB? ==> InSignedRange(Signed(a) - Signed(b))
    ensures ArithResult(k, a, b, ArithValue(k, a, b))
  {
    if k.AND? || k.OR? || k.XOR? || k.NOR? {
      LogicMeaning(k, a, b);
    } else {
      NumberMeaning(k, a, b);
    }
    hide ArithResult, ArithValue;
  }

  lemma LogicMeaning(k: Mnemonic, a: u32, b: u32)
    requires k.AND? || k.OR? || k.XOR? || k.NOR?
    ensures ArithResult(k, a, b, ArithValue(k, a, b))
  {
    hide Bit, And32, Or32, Xor32, Not32;
    forall j: nat | j < 32
      ensures Bit(And32(a, b), j) == (Bit(a, j) && Bit(b, j))
      ensures Bit(Or32(a, b), j) == (Bit(a, j) || Bit(b, j))
      ensures Bit(Xor32(a, b), j) == (Bit(a, j) != Bit(b, j))
      ensures Bit(Not32(Or32(a, b)), j) == !(Bit(a, j) || Bit(b, j))
    {
      WordBits(a, b, j);
    }
  }

  lemma WordBits(a: u32, b: u32, j: nat)
    requires j < 32
    ensures Bit(And32(a, b), j) == (Bit(a, j) && Bit(b, j))
    ensures Bit(Or32(a, b), j) == (Bit(a, j) || Bit(b, j))
    ensures Bit(Xor32(a, b), j) == (Bit(a, j) != Bit(b, j))
    ensures Bit(Not32(Or32(a, b)), j) == !(Bit(a, j) || Bit(b, j))
  {
    BitwiseMeaning(a, b, j);
    NotBits(Or32(a, b), j);
    hide Bit, And, Or, Xor, Not32;
  }

  lemma NumberMeaning(k: Mnemonic, a: u32, b: u32)
    requires IsRegArith(k) && !k.AND? && !k.OR? && !k.XOR? && !k.NOR?
    requires k.ADD? ==> InSignedRange(Signed(a) + Signed(b))
    requires k.SUB? ==> InSignedRange(Signed(a) - Signed(b))
    ensures ArithResult(k, a, b, ArithValue(k, a, b))
  {
    hide Signed, Wrap, Bit;
    WrapDiff(a as int + b);
    WrapDiff(a as int - b);
    if k.ADD? {
      SignedWrap(Signed(a) + Signed(b));
    } else if k.SUB? {
      SignedWrap(Signed(a) - Signed(b));
    }
  }

  lemma ArithLaw(s: State, k: Mnemonic, rs: RegIndex, rt: RegIndex, rd: RegIndex, shamt: RegIndex)
    requires Executes(s, RType(k, rs, rt, rd, shamt)) && 32 <= FunctOf(k) && DataOk(s) && rd != 0
    requires k.ADD? ==> InSignedRange(Signed(s.gpr[rs]) + Signed(s.gpr[rt]))
    requires k.SUB? ==> InSignedRange(Signed(s.gpr[rs]) - Signed(s.gpr[rt]))
    ensures var t := Exec(s); Changes(s, t, rd) && ArithResult(k, s.gpr[rs], s.gpr[rt], t.gpr[rd])
  {
    Operands(s, RType(k, rs, rt, rd, shamt));
    SpecialGroups(k);
    LegalCode(k, rs, rt, rd, shamt);
    ArithMeaning(k, s.gpr[rs], s.gpr[rt]);
    hide Exec, DataOk, Decode, Encode, Legal, FunctOf, OpcodeOf, Executes, Executed, InstrRs, InstrRt, InstrRd, ArithValue,
         ImmediateValue, ArithResult,
         Signed;
    ExecArithOrTrap(s);
    var u := WithGpr(s, rd, ArithValue(k, s.gpr[rs], s.gpr[rt]));
    Components(s, u);
  }

  // ---- shifts

  predicate ShiftResult(k: Mnemonic, a: u32, b: u32, shamt: RegIndex, v: u32) {
    var n: nat := if k.SLL? || k.SRL? || k.SRA? then shamt else a % 32;
    && (k.SLL? || k.SLLV? ==> (v - b * Pow2(n)) % 0x1_0000_0000 == 0)
    && (k.SRL? || k.SRLV? ==> v * Pow2(n) <= b < (v + 1) * Pow2(n))
    && (k.SRA? || k.SRAV? ==> Signed(v) * Pow2(n) <= Signed(b) < (Signed(v) + 1) * Pow2(n))
  }

  lemma ShiftLaw(s: State, k: Mnemonic, rs: RegIndex, rt: RegIndex, rd: RegIndex, shamt: RegIndex)
    requires Executes(s, RType(k, rs, rt, rd, shamt)) && FunctOf(k) <= 7 && DataOk(s) && rd != 0
    ensures var t := Exec(s); Changes(s, t, rd) && ShiftResult(k, s.gpr[rs], s.gpr[rt], shamt, t.gpr[rd])
  {
    Operands(s, RType(k, rs, rt, rd, shamt));
    SpecialGroups(k);
    ShiftResults(k, s.gpr[rs], s.gpr[rt], shamt);
    hide Exec, DataOk, Decode, Encode, Legal, FunctOf, OpcodeOf, Executes, Executed, InstrRs, InstrRt, InstrRd, InstrShamt,
         ShiftValue, ShiftResult;
    ExecShift(s);
    Components(s, WithGpr(s, rd, ShiftValue(k, s.gpr[rs], s.gpr[rt], shamt)));
  }

  lemma ShiftResults(k: Mnemonic, a: u32, b: u32, shamt: RegIndex)
    requires IsShift(k)
    ensures ShiftResult(k, a, b, shamt, ShiftValue(k, a, b, shamt))
  {
    hide Pow2, Signed, Shl, Shr, Sra;
    ShiftMeaning(a, b, shamt);
    ShiftMeaning(a, b, a % 32);
  }

  // ---- immediates

  predicate ImmediateResult(k: Mnemonic, a: u32, imm: u16, v: u32) {
    && (k.ADDI? ==> Signed(v) == Signed(a) + SignedImm(imm))
    && (k.ADDIU? ==> (v - (a + SignedImm(imm))) % 0x1_0000_0000 == 0)
    && (k.SLTI? ==> v == if Signed(a) < SignedImm(imm) then 1 else 0)
    && (k.SLTIU? ==> v == if a < (if imm < 0x8000 then imm else imm + 0xFFFF_0000) then 1 else 0)
    && (k.ANDI? ==> forall j: nat | j < 32 :: Bit(v, j) == (Bit(a, j) && Bit(imm, j)))
    && (k.ORI? ==> forall j: nat | j < 32 :: Bit(v, j) == (Bit(a, j) || Bit(imm, j)))
    && (k.XORI? ==> forall j: nat | j < 32 :: Bit(v, j) == (Bit(a, j) != Bit(imm, j)))
    && (k.LUI? ==> v / 0x1_0000 == imm && v % 0x1_0000 == 0)
  }

  lemma ImmediateMeaning(k: Mnemonic, a: u32, imm: u16)
    requires IsImmediate(k)
    requires k.ADDI? ==> InSignedRange(Signed(a) + SignedImm(imm))
    ensures ImmediateResult(k, a, imm, ImmediateValue(k, a, imm))
  {
    if k.ANDI? || k.ORI? || k.XORI? {
      ImmediateLogic(k, a, imm);
    } else {
      ImmediateNumber(k, a, imm);
    }
    hide ImmediateResult, ImmediateValue;
  }

  lemma ImmediateLogic(k: Mnemonic, a: u32, imm: u16)
    requires k.ANDI? || k.ORI? || k.XORI?
    ensures ImmediateResult(k, a, imm, ImmediateValue(k, a, imm))
  {
    hide Bit, And32, Or32, Xor32;
    forall j: nat | j < 32
      ensures Bit(And32(a, imm), j) == (Bit(a, j) && Bit(imm, j))
      ensures Bit(Or32(a, imm), j) == (Bit(a, j) || Bit(imm, j))
      ensures Bit(Xor32(a, imm), j) == (Bit(a, j) != Bit(imm, j))
    {
      WordBits(a, imm, j);
    }
  }

  lemma ImmediateNumber(k: Mnemonic, a: u32, imm: u16)
    requires IsImmediate(k) && !k.ANDI? && !k.ORI? && !k.XORI?
    requires k.ADDI? ==> InSignedRange(Signed(a) + SignedImm(imm))
    ensures ImmediateResult(k, a, imm, ImmediateValue(k, a, imm))
  {
    SumMeaning(a, 0, imm);
    SignedExt(imm);
    DivUnique(imm as int * 0x1_0000, 0x1_0000, imm, 0);
    assert SignExt16(imm) == if imm < 0x8000 then imm else imm + 0xFFFF_0000;
    hide Bit, Signed, SignedImm, Wrap, SignExt16;
    if k.ADDI? {
      SignedWrap(Signed(a) + SignedImm(imm));
    }
  }

  lemma ImmediateLaw(s: State, k: Mnemonic, rs: RegIndex, rt: RegIndex, imm: u16)
    requires Executes(s, IType(k, rs, rt, imm)) && 8 <= OpcodeOf(k) <= 15 && DataOk(s) && rt != 0
    requires k.ADDI? ==> InSignedRange(Signed(s.gpr[rs]) + SignedImm(imm))
    ensures var t := Exec(s); Changes(s, t, rt) && ImmediateResult(k, s.gpr[rs], imm, t.gpr[rt])
  {
    Operands(s, IType(k, rs, rt, imm));
    MainGroups(k);
    ImmediateMeaning(k, s.gpr[rs], imm);
    SignedExt(imm);
    hide Exec, DataOk, Decode, Encode, Legal, FunctOf, OpcodeOf, Executes, Executed, InstrRs, InstrRt, InstrImm, ArithValue, ImmediateValue,
         ImmediateResult, Signed, SignedImm, SignExt16;
    ExecArithOrTrap(s);
    Components(s, WithGpr(s, rt, ImmediateValue(k, s.gpr[rs], imm)));
  }

  // ---- loads and stores

  function EffectiveAddress(s: State, base: RegIndex, imm: u16): u32 {
    Wrap(s.gpr[base] + SignedImm(imm))
  }

  // Where a data access goes: below 16 MiB to the first MiB, else to the offset in
  // its 512 MiB segment, but for the cache-control register.
  function PhysicalAddress(v: u32): u32 {
    if v <= 0x00FF_FFFF then v % 0x10_0000 else if v == 0xFFFE_0130 then v else v % 0x2000_0000
  }

  lemma AddressLaw(s: State, k: Mnemonic, rs: RegIndex, rt: RegIndex, imm: u16)
    requires Executes(s, IType(k, rs, rt, imm))
    ensures DataVaddr(s) == EffectiveAddress(s, rs, imm)
    ensures DataPaddr(s) == PhysicalAddress(EffectiveAddress(s, rs, imm))
  {
    Operands(s, IType(k, rs, rt, imm));
    OffsetAdds(imm, s.gpr[rs]);
    hide Decode, Encode, Legal, Executes, InstrRs, InstrImm, Wrap, SignedImm, And;
    var v := DataVaddr(s);
    assert v == EffectiveAddress(s, rs, imm) by { hide VaddrToPaddr; }
    if v <= 0x00FF_FFFF {
      SmallMod(v % 0x10_0000, 0x2000_0000);
    }
  }

  // The width of an aligned access, in bytes.
  function WidthOf(k: Mnemonic): Width {
    if k.LB? || k.LBU? || k.SB? then 1 else if k.LH? || k.LHU? || k.SH? then 2 else 4
  }

  predicate IsAlignedLoad(k: Mnemonic) { k.LB? || k.LBU? || k.LH? || k.LHU? || k.LW? }

  predicate IsAlignedStore(k: Mnemonic) { k.SB? || k.SH? || k.SW? }

  // What a load makes of the little-endian number it reads.
  predicate Extended(k: Mnemonic, raw: u32, v: u32) {
    && (k.LB? ==> Signed(v) == if raw < 0x80 then raw as int else raw - 0x100)
    && (k.LH? ==> Signed(v) == if raw < 0x8000 then raw as int else raw - 0x1_0000)
    && (k.LBU? || k.LHU? || k.LW? ==> v == raw)
  }

  lemma LoadLaw(s: State, k: Mnemonic, rs: RegIndex, rt: RegIndex, imm: u16)
    requires Executes(s, IType(k, rs, rt, imm)) && IsAlignedLoad(k) && DataOk(s) && rt != 0
    requires EffectiveAddress(s, rs, imm) % WidthOf(k) == 0
    ensures var t, p, n := Exec(s), PhysicalAddress(EffectiveAddress(s, rs, imm)), WidthOf(k);
            && LoadOk(p, n) && t.ldPend.dst == rt && Extended(k, Load(s.mem, p, n), t.ldPend.val)
            && t.ldNext == (if s.ldNext.dst == rt then Slot(0, 0) else s.ldNext)
            && t.gpr == s.gpr[0 := 0] && t.mem == s.mem && SameHiLo(s, t)
  {
    Operands(s, IType(k, rs, rt, imm));
    AddressLaw(s, k, rs, rt, imm);
    AccessOk(s);
    ExtendedLoad(s);
    hide Exec, DataOk, Decode, Encode, Legal, Executes, Executed, InstrRs, InstrRt, InstrImm, EffectiveAddress, PhysicalAddress,
         LoadValue, Load, LoadOk, Extended, Misaligned, AccessPaddr, DataPaddr, DataVaddr, RaiseCop0, WatchHit;
    ExecLoad(s);
    Components(s, WithDelayed(Checked(s), rt, LoadValue(s)));
  }

  lemma AccessOk(s: State)
    requires DataOk(s) && (IsAlignedLoad(Kind(s)) || IsAlignedStore(Kind(s))) && Addresses(s)
    requires DataVaddr(s) % WidthOf(Kind(s)) == 0
    ensures !Misaligned(s) && AccessPaddr(s) == DataPaddr(s) && AccessWidth(Kind(s)) == WidthOf(Kind(s))
    ensures IsAlignedLoad(Kind(s)) ==> LoadOk(DataPaddr(s), WidthOf(Kind(s)))
    ensures IsAlignedStore(Kind(s)) ==> StoreOk(DataPaddr(s), WidthOf(Kind(s)))
  {
    AlignmentOf(s);
    hide Decode, DataVaddr, DataPaddr, Misaligned, LoadOk, StoreOk, CacheIsolated;
  }

  lemma ExtendedLoad(s: State)
    requires DataOk(s) && IsAlignedLoad(Kind(s)) && !Misaligned(s) && AccessPaddr(s) == DataPaddr(s)
    requires AccessWidth(Kind(s)) == WidthOf(Kind(s)) && LoadOk(DataPaddr(s), WidthOf(Kind(s)))
    ensures Extended(Kind(s), Load(s.mem, DataPaddr(s), WidthOf(Kind(s))), LoadValue(s))
  {
    LoadFits(s.mem, DataPaddr(s), WidthOf(Kind(s)));
    hide Decode, DataOk, DataPaddr, AccessPaddr, Misaligned, Load, LoadOk, Byte;
  }

  lemma StoreLaw(s: State, k: Mnemonic, rs: RegIndex, rt: RegIndex, imm: u16)
    requires Executes(s, IType(k, rs, rt, imm)) && IsAlignedStore(k) && DataOk(s)
    requires EffectiveAddress(s, rs, imm) % WidthOf(k) == 0
    requires k.SW? ==> s.cop0[12] / 0x1_0000 % 2 == 0
    ensures var t, p, n, x := Exec(s), PhysicalAddress(EffectiveAddress(s, rs, imm)), WidthOf(k), s.gpr[rt];
            && StoreOk(p, n)
            && t.mem == Store(s.mem, p, n, if n == 1 then x % 0x100 else if n == 2 then x % 0x1_0000 else x)
            && t.gpr == s.gpr[0 := 0] && t.ldNext == s.ldNext && t.ldPend == s.ldPend && SameHiLo(s, t)
  {
    Operands(s, IType(k, rs, rt, imm));
    AddressLaw(s, k, rs, rt, imm);
    IsolatedBit(s.cop0[12]);
    StoreAddresses(s);
    AccessOk(s);
    StoredValue(s);
    hide Exec, DataOk, Decode, Encode, Legal, Executes, Executed, InstrRs, InstrRt, InstrImm, EffectiveAddress, PhysicalAddress,
         Store, StoreOk, Misaligned, AccessPaddr, DataPaddr, DataVaddr, RaiseCop0, WatchHit, MemAfter, Addresses;
    ExecStore(s);
    Components(s, Checked(s).(mem := MemAfter(s)));
  }

  lemma StoreAddresses(s: State)
    requires IsAlignedStore(Kind(s)) && (Kind(s).SW? ==> !CacheIsolated(s.cop0))
    ensures Addresses(s)
  {
    hide Decode, CacheIsolated;
  }

  lemma IsolatedBit(sr: u32)
    ensures And(sr, SR_ISC) != 0 <==> sr / 0x1_0000 % 2 == 1
  {
    Pow2Values();
    OneBit(sr, 16);
    hide And, Pow2;
  }

  lemma StoredValue(s: State)
    requires DataOk(s) && IsAlignedStore(Kind(s)) && Addresses(s) && !Misaligned(s) && AccessPaddr(s) == DataPaddr(s)
    requires AccessWidth(Kind(s)) == WidthOf(Kind(s)) && StoreOk(DataPaddr(s), WidthOf(Kind(s)))
    ensures var n, x := WidthOf(Kind(s)), B(s);
            MemAfter(s) == Store(s.mem, DataPaddr(s), n, if n == 1 then x % 0x100 else if n == 2 then x % 0x1_0000 else x)
  {
    hide Decode, DataOk, DataPaddr, AccessPaddr, Misaligned, Store, StoreOk, Addresses, B;
  }

  // With the cache isolated SW does nothing at all.
  lemma IsolatedStoreLaw(s: State, rs: RegIndex, rt: RegIndex, imm: u16)
    requires Executes(s, IType(SW, rs, rt, imm)) && DataOk(s) && s.cop0[12] / 0x1_0000 % 2 == 1
    ensures Exec(s) == s.(gpr := s.gpr[0 := 0])
  {
    Operands(s, IType(SW, rs, rt, imm));
    IsolatedBit(s.cop0[12]);
    hide Exec, DataOk, Decode, Encode, Legal, Executes, And;
    ExecIsolated(s);
  }

  // ---- unaligned accesses; the merges of Splice are byte by byte

  lemma MergeLoadLaw(s: State, k: Mnemonic, rs: RegIndex, rt: RegIndex, imm: u16)
    requires Executes(s, IType(k, rs, rt, imm)) && (k.LWL? || k.LWR?) && DataOk(s) && rt != 0
    ensures var t, p := Exec(s), PhysicalAddress(EffectiveAddress(s, rs, imm));
            && LoadOk(Aligned(p), 4) && t.ldPend.dst == rt
            && (var word, prior := Load(s.mem, Aligned(p), 4), if s.ldNext.dst == rt then s.ldNext.val else s.gpr[rt];
                t.ldPend.val == if k.LWL? then Splice.Lwl(prior, word, p % 4) else Splice.Lwr(prior, word, p % 4))
            && t.ldNext == (if s.ldNext.dst == rt then Slot(0, 0) else s.ldNext)
            && t.gpr == s.gpr[0 := 0] && t.mem == s.mem && SameHiLo(s, t)
  {
    hide *;
    Operands(s, IType(k, rs, rt, imm));
    AddressLaw(s, k, rs, rt, imm);
    MergeLoadParts(s);
  }

  lemma MergeLoadParts(s: State)
    requires (Kind(s).LWL? || Kind(s).LWR?) && DataOk(s) && InstrRt(s.instr) != 0
    ensures var t, p, rt := Exec(s), DataPaddr(s), InstrRt(s.instr);
            && LoadOk(Aligned(p), 4) && t.ldPend.dst == rt
            && (var word, prior := Load(s.mem, Aligned(p), 4), if s.ldNext.dst == rt then s.ldNext.val else s.gpr[rt];
                t.ldPend.val == if Kind(s).LWL? then Splice.Lwl(prior, word, p % 4) else Splice.Lwr(prior, word, p % 4))
            && t.ldNext == (if s.ldNext.dst == rt then Slot(0, 0) else s.ldNext)
            && t.gpr == s.gpr[0 := 0] && t.mem == s.mem && SameHiLo(s, t)
  {
    hide Exec, DataOk, Decode, Executed, InstrRt, Load, LoadOk, DataPaddr, DataVaddr, RaiseCop0, WatchHit, Splice.Lwl, Splice.Lwr,
         Byte;
    ExecLoadMerge(s);
    var word, m := Load(s.mem, Aligned(DataPaddr(s)), 4), DataPaddr(s) % 4;
    var v := if Kind(s).LWL? then Splice.Lwl(Forwarded(s), word, m) else Splice.Lwr(Forwarded(s), word, m);
    Components(s, WithDelayed(WithWatch(s, DataVaddr(s)), InstrRt(s.instr), v));
  }

  lemma MergeStoreLaw(s: State, k: Mnemonic, rs: RegIndex, rt: RegIndex, imm: u16)
    requires Executes(s, IType(k, rs, rt, imm)) && (k.SWL? || k.SWR?) && DataOk(s)
    ensures var t, p, x := Exec(s), PhysicalAddress(EffectiveAddress(s, rs, imm)), s.gpr[rt];
            && LoadOk(Aligned(p), 4) && StoreOk(Aligned(p), 4)
            && (var word := Load(s.mem, Aligned(p), 4);
                t.mem == Store(s.mem, Aligned(p), 4, if k.SWL? then Splice.Swl(word, x, p % 4) else Splice.Swr(word, x, p % 4)))
            && t.gpr == s.gpr[0 := 0] && t.ldNext == s.ldNext && t.ldPend == s.ldPend && SameHiLo(s, t)
  {
    hide *;
    Operands(s, IType(k, rs, rt, imm));
    AddressLaw(s, k, rs, rt, imm);
    MergeStoreParts(s);
  }

  lemma MergeStoreParts(s: State)
    requires (Kind(s).SWL? || Kind(s).SWR?) && DataOk(s)
    ensures var t, p := Exec(s), DataPaddr(s);
            && LoadOk(Aligned(p), 4) && StoreOk(Aligned(p), 4)
            && (var word := Load(s.mem, Aligned(p), 4);
                t.mem == Store(s.mem, Aligned(p), 4,
                  if Kind(s).SWL? then Splice.Swl(word, B(s), p % 4) else Splice.Swr(word, B(s), p % 4)))
            && t.gpr == s.gpr[0 := 0] && t.ldNext == s.ldNext && t.ldPend == s.ldPend && SameHiLo(s, t)
  {
    hide Exec, DataOk, Decode, Executed, B, Load, LoadOk, Store, StoreOk, DataPaddr, DataVaddr, RaiseCop0, WatchHit, Splice.Swl,
         Splice.Swr, Byte;
    ExecStoreMerge(s);
    var word, m := Load(s.mem, Aligned(DataPaddr(s)), 4), DataPaddr(s) % 4;
    var v := if Kind(s).SWL? then Splice.Swl(word, B(s), m) else Splice.Swr(word, B(s), m);
    Components(s, WithWatch(s, DataVaddr(s)).(mem := Store(s.mem, Aligned(DataPaddr(s)), 4, v)));
  }
}
