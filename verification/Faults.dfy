// Exceptions by number: which code an instruction leaves in Cause, where execution
// continues, and which bits of the debug registers and of SR are tested.

module Faults {
  import opened Words
  import opened Mips
  import opened Encoding
  import opened Machine
  import opened Effects
  import opened Exceptions
  import opened Architecture
  import opened Operations
  import opened Bits

  // ---- the debug watchpoint

  // The watchpoint is on when bit 23 or bit 25 of register 7 is set, and matches an
  // address that agrees with register 5 in every bit that register 9 selects.
  lemma WatchLaw(cop0: Regs, v: u32)
    ensures WatchHit(cop0, v)
       <==> && (cop0[7] / 0x80_0000 % 2 == 1 || cop0[7] / 0x200_0000 % 2 == 1)
            && forall i: nat | i < 32 && Bit(cop0[9], i) :: Bit(v, i) == Bit(cop0[5], i)
  {
    EnabledBits(cop0[7]);
    var x := Xor32(v, cop0[5]);
    CommonBit(x, cop0[9]);
    forall i: nat | i < 32 ensures Bit(x, i) == (Bit(v, i) != Bit(cop0[5], i)) {
      BitwiseMeaning(v, cop0[5], i);
    }
    hide And, Or, Bit, Xor;
  }

  lemma EnabledBits(dcic: u32)
    ensures And(dcic, Or(DCIC_DE, DCIC_DAE)) != 0 <==> dcic / 0x80_0000 % 2 == 1 || dcic / 0x200_0000 % 2 == 1
  {
    hide And, Or, Bit;
    var m := Or32(DCIC_DE, DCIC_DAE);
    CommonBit(dcic, m);
    DebugPowers();
    forall i: nat ensures Bit(m, i) <==> i == 23 || i == 25 {
      BitwiseMeaning(DCIC_DE, DCIC_DAE, i);
      BitOfPower(23, i);
      BitOfPower(25, i);
    }
    assert Bit(dcic, 23) == (dcic / 0x80_0000 % 2 == 1) && Bit(dcic, 25) == (dcic / 0x200_0000 % 2 == 1) by { BitsAt(dcic); }
  }

  lemma BitsAt(x: nat)
    ensures Bit(x, 23) == (x / 0x80_0000 % 2 == 1) && Bit(x, 25) == (x / 0x200_0000 % 2 == 1)
  {
    DebugPowers();
    hide Pow2;
  }

  lemma DebugPowers()
    ensures Pow2(23) == 0x80_0000 && Pow2(25) == 0x200_0000
  {
    assert Pow2(24) == 0x100_0000 by { Pow2Values(); }
  }

  // ---- what an exception leaves

  // SR with its mode bits pushed: the low four move up by two.
  function Pushed(sr: u32): u32 { sr - sr % 64 + 4 * (sr % 16) }

  // Coprocessor 0 after an exception with a code at an address.
  ghost predicate Recorded(before: Regs, after: Regs, epc: u32, code: nat) {
    && after[13] / 4 % 32 == code && after[13] == before[13] / 0x100 % 0x100 * 0x100 + 4 * code
    && after[14] == epc
    && after[12] == Pushed(before[12])
    && forall r: RegIndex | r != 12 && r != 13 && r != 14 :: after[r] == before[r]
  }

  lemma RaiseRecords(cop0: Regs, epc: u32, code: ExcCode)
    ensures Recorded(cop0, RaiseCop0(cop0, epc, code), epc, code)
  {
    RaiseCop0Meaning(cop0, epc, code);
    var high := cop0[13] / 0x100 % 0x100;
    DivUnique(high * 0x100 + 4 * code, 4, high * 0x40 + code, 0);
    DivUnique(high * 0x40 + code, 32, high * 2, code);
    hide And, Or, Shl;
  }

  // A misaligned fetch: code 4, with EPC at the instruction of the step before, and
  // the handler's first instruction dispatched at once.
  lemma FetchTrapLaw(s: State, w: u32)
    requires s.pc % 4 != 0
    ensures var f := Front(s, w);
            Recorded(s.cop0, f.cop0, s.currPc, 4) && f.currPc == 0x80 && f.pc == 0x84
  {
    RaiseRecords(s.cop0, s.currPc, 4);
    hide RaiseCop0, Recorded;
  }

  // The general exception: the machine continues at 0x80, memory, hi and lo as they
  // were and coprocessor 0 recording it, once for the watchpoint before it, too.
  ghost predicate Raised(s: State, t: State, code: nat) {
    && t.pc == 0x80 && t.nextPc == 0x84 && t.mem == s.mem && SameHiLo(s, t) && t.ldPend == s.ldPend
    && (if WatchFires(s) then exists c: Regs :: Recorded(s.cop0, c, s.currPc, 9) && Recorded(c, t.cop0, s.currPc, code)
        else Recorded(s.cop0, t.cop0, s.currPc, code))
  }

  lemma RaisedAs(s: State, code: ExcCode)
    requires DataOk(s) && s.gpr[0] == 0 && ArchException(s) == Code(code)
    ensures Raised(s, Exec(s), code)
  {
    PreciseParts(s);
    RaiseRecords(s.cop0, s.currPc, code);
    var c := RaiseCop0(s.cop0, s.currPc, EXC_BP);
    RaiseRecords(s.cop0, s.currPc, 9);
    RaiseRecords(c, s.currPc, code);
    hide DataOk, ArchException, Exec, WatchFires, RaiseCop0, Recorded, Decode;
  }

  // The codes: 8 for a system call, 9 for a breakpoint, 12 for overflow, 4 for a
  // jump to a misaligned address.
  lemma SpecialTrapLaw(s: State, k: Mnemonic, rs: RegIndex, rt: RegIndex, rd: RegIndex, shamt: RegIndex)
    requires Executes(s, RType(k, rs, rt, rd, shamt)) && DataOk(s) && s.gpr[0] == 0
    ensures var t, a, b := Exec(s), s.gpr[rs], s.gpr[rt];
            && (k.SYSCALL? ==> Raised(s, t, 8))
            && (k.BREAK? ==> Raised(s, t, 9))
            && (k.ADD? && !InSignedRange(Signed(a) + Signed(b)) ==> Raised(s, t, 12) && t.gpr == s.gpr)
            && (k.SUB? && !InSignedRange(Signed(a) - Signed(b)) ==> Raised(s, t, 12) && t.gpr == s.gpr)
            && (k.JALR? && a % 4 != 0 ==> Raised(s, t, 4))
  {
    hide *;
    Operands(s, RType(k, rs, rt, rd, shamt));
    SpecialCodes(s);
    if ArchException(s).Code? {
      RaisedAs(s, ArchException(s).code);
      PreciseParts(s);
    }
  }

  lemma SpecialCodes(s: State)
    ensures Kind(s).SYSCALL? ==> ArchException(s) == Code(8)
    ensures Kind(s).BREAK? ==> ArchException(s) == Code(9)
    ensures Kind(s).ADD? && !InSignedRange(Signed(A(s)) + Signed(B(s))) ==> ArchException(s) == Code(12)
    ensures Kind(s).SUB? && !InSignedRange(Signed(A(s)) - Signed(B(s))) ==> ArchException(s) == Code(12)
    ensures Kind(s).JALR? && A(s) % 4 != 0 ==> ArchException(s) == Code(4)
  {
    hide Decode, Signed, DataVaddr, CacheIsolated;
  }

  // 12 for overflow, 4 for a misaligned load and 5 for a misaligned store.
  lemma MainTrapLaw(s: State, k: Mnemonic, rs: RegIndex, rt: RegIndex, imm: u16)
    requires Executes(s, IType(k, rs, rt, imm)) && DataOk(s) && s.gpr[0] == 0
    ensures var t, v := Exec(s), EffectiveAddress(s, rs, imm);
            && (k.ADDI? && !InSignedRange(Signed(s.gpr[rs]) + SignedImm(imm)) ==> Raised(s, t, 12) && t.gpr == s.gpr)
            && (IsAlignedLoad(k) && v % WidthOf(k) != 0 ==> Raised(s, t, 4) && t.gpr == s.gpr)
            && ((k.SH? || (k.SW? && s.cop0[12] / 0x1_0000 % 2 == 0)) && v % WidthOf(k) != 0 ==>
                  Raised(s, t, 5) && t.gpr == s.gpr)
  {
    hide *;
    Operands(s, IType(k, rs, rt, imm));
    AddressLaw(s, k, rs, rt, imm);
    MainCodes(s);
    NotJalr(s, k, rs, rt, imm);
    if ArchException(s).Code? {
      RaisedAs(s, ArchException(s).code);
      PreciseParts(s);
    }
  }

  lemma MainCodes(s: State)
    ensures Kind(s).ADDI? && !InSignedRange(Signed(A(s)) + SignedImm(Imm(s))) ==> ArchException(s) == Code(12)
    ensures IsAlignedLoad(Kind(s)) && DataVaddr(s) % WidthOf(Kind(s)) != 0 ==> ArchException(s) == Code(4)
    ensures (Kind(s).SH? || (Kind(s).SW? && s.cop0[12] / 0x1_0000 % 2 == 0)) && DataVaddr(s) % WidthOf(Kind(s)) != 0 ==>
              ArchException(s) == Code(5)
  {
    IsolatedBit(s.cop0[12]);
    hide Decode, Signed, SignedImm, DataVaddr, And;
  }

  lemma NotJalr(s: State, k: Mnemonic, rs: RegIndex, rt: RegIndex, imm: u16)
    requires Executes(s, IType(k, rs, rt, imm))
    ensures !k.JALR?
  {
    hide Encode;
  }

  // The watchpoint alone: code 9, at a vector of its own.
  lemma WatchTrapLaw(s: State)
    requires DataOk(s) && WatchFires(s) && ArchException(s).NoException?
    ensures var t := Exec(s);
            t.pc == 0x8000_0040 && t.nextPc == 0x8000_0044 && Recorded(s.cop0, t.cop0, s.currPc, 9)
  {
    RaisesExactly(s);
    OneTrap(s.cop0, s.currPc, Trap(EXC_BP, DEBUG_VECTOR));
    RaiseRecords(s.cop0, s.currPc, 9);
    hide DataOk, ArchException, Decode, Traps, WatchFires, RaiseCop0, RaiseAll, Recorded, GprAfter, LdNextAfter, LdPendAfter,
         MemAfter, HiLoAfter, Transfers;
    WatchesData(s);
  }

  lemma WatchesData(s: State)
    requires WatchFires(s)
    ensures !Kind(s).MTC0? && !Kind(s).RFE?
  {
    hide Decode, WatchHit, CacheIsolated;
  }

  // Without an exception control goes on, and coprocessor 0 changes only by MTC0 and RFE.
  lemma QuietLaw(s: State)
    requires DataOk(s) && !WatchFires(s) && ArchException(s).NoException?
    ensures Exec(s).pc == s.pc
    ensures !Kind(s).MTC0? && !Kind(s).RFE? ==> Exec(s).cop0 == s.cop0
  {
    RaisesExactly(s);
    hide DataOk, ArchException, Decode, Traps, WatchFires, RegEffect, MemAfter, HiLoAfter, Taken, Target;
  }
}
