// The two-deep program-counter pipeline over whole runs: branch delay slots,
// exception vectors, and which fetches can fault.

module ControlFlow {
  import opened Words
  import opened Mips
  import opened Memory
  import opened Machine

  // The address of the instruction executed at step i.
  ghost function ExecAddress(tr: seq<State>, i: nat): u32
    requires IsRun(tr) && i < |tr| - 1
  {
    At(tr, i).currPc
  }

  ghost predicate FetchFaults(tr: seq<State>, i: nat)
    requires i < |tr|
  {
    tr[i].pc % 4 != 0
  }

  // Step i raises an exception, on its fetch or in its instruction.
  ghost predicate Raises(tr: seq<State>, i: nat)
    requires IsRun(tr) && i < |tr| - 1
  {
    FetchFaults(tr, i) || Traps(At(tr, i)) != []
  }

  lemma FrontPcs(s: State, w: u32)
    ensures var t := Front(s, w);
            && t.currPc == FetchPc(s) && t.instr == w
            && t.pc == (if s.pc % 4 != 0 then GENERAL_VECTOR + 4 else s.nextPc)
            && t.nextPc == Wrap(t.pc + 4)
            && t.inDelaySlot == s.nextInDelaySlot && !t.nextInDelaySlot
  {
    hide RaiseCop0;
  }

  lemma ExecPcs(s: State)
    requires DataOk(s)
    ensures var t := Exec(s);
            && t.pc == PcAfter(s) && t.nextPc == NextPcAfter(s)
            && t.nextInDelaySlot == (Transfers(s) || s.nextInDelaySlot)
            && t.currPc == s.currPc
  {
  }

  lemma StepPcs(tr: seq<State>, i: nat)
    requires IsRun(tr) && i < |tr| - 1
    ensures At(tr, i).currPc == FetchPc(tr[i])
    ensures At(tr, i).pc == (if FetchFaults(tr, i) then GENERAL_VECTOR + 4 else tr[i].nextPc)
    ensures At(tr, i).nextPc == Wrap(At(tr, i).pc + 4)
    ensures At(tr, i).inDelaySlot == tr[i].nextInDelaySlot && !At(tr, i).nextInDelaySlot
    ensures tr[i + 1].pc == PcAfter(At(tr, i)) && tr[i + 1].nextPc == NextPcAfter(At(tr, i))
    ensures tr[i + 1].nextInDelaySlot == Transfers(At(tr, i))
    ensures tr[i + 1].currPc == At(tr, i).currPc
  {
    hide Front, Exec, PcAfter, NextPcAfter, Transfers, FetchOk, FetchWord, FetchPc, DataOk;
    FrontPcs(tr[i], FetchWord(tr[i]));
    ExecPcs(At(tr, i));
  }

  // The delay-slot recurrence.
  lemma DelaySlot(tr: seq<State>, n: nat)
    requires IsRun(tr) && n + 2 < |tr| - 1
    requires !Raises(tr, n) && !Raises(tr, n + 1) && !FetchFaults(tr, n + 2)
    ensures ExecAddress(tr, n + 2)
         == if Taken(At(tr, n)) then Target(At(tr, n)) else Wrap(ExecAddress(tr, n + 1) + 4)
  {
    hide At, Traps, Taken, Target;
    StepPcs(tr, n);
    StepPcs(tr, n + 1);
    StepPcs(tr, n + 2);
  }

  // After an exception the next two addresses are the vector and the word after
  // it, unless the handler's first instruction raises in its turn.
  lemma ExceptionEntry(tr: seq<State>, n: nat)
    requires IsRun(tr) && n + 1 < |tr| - 1 && Traps(At(tr, n)) != []
    ensures var traps := Traps(At(tr, n));
            var vector := traps[|traps| - 1].vector;
            && ExecAddress(tr, n + 1) == vector
            && (n + 2 < |tr| - 1 && !Raises(tr, n + 1) ==> ExecAddress(tr, n + 2) == vector + 4)
  {
    hide At, Traps, Taken, Target, PcAfter, NextPcAfter, StepOk, WordOk, Step, FetchOk, FetchWord, DataOk;
    TrapPcs(At(tr, n));
    StepPcs(tr, n);
    StepPcs(tr, n + 1);
    if n + 2 < |tr| - 1 {
      StepPcs(tr, n + 2);
      if !Raises(tr, n + 1) {
        QuietPc(At(tr, n + 1));
      }
    }
  }

  lemma TrapPcs(s: State)
    requires Traps(s) != []
    ensures var v := Traps(s)[|Traps(s)| - 1].vector;
            PcAfter(s) == v && NextPcAfter(s) == v + 4 && v % 4 == 0 && (v + 4) % 4 == 0
  {
    hide Traps;
  }

  lemma QuietPc(s: State)
    requires Traps(s) == []
    ensures PcAfter(s) == s.pc
    ensures NextPcAfter(s) == if Taken(s) then Target(s) else s.nextPc
  {
    hide Traps, Taken, Target;
  }

  // A misaligned fetch executes the handler's first instruction in the same step,
  // with EPC pointing at the instruction of the step before.
  lemma FetchFaultEntry(tr: seq<State>, n: nat)
    requires IsRun(tr) && n < |tr| - 1 && FetchFaults(tr, n)
    ensures ExecAddress(tr, n) == GENERAL_VECTOR
    ensures At(tr, n).cop0[COP0_EPC] == tr[n].currPc
    ensures n + 1 < |tr| - 1 && Traps(At(tr, n)) == [] ==> ExecAddress(tr, n + 1) == GENERAL_VECTOR + 4
  {
    hide Front, Exec, Traps, Taken, Target, PcAfter, NextPcAfter, WordOk, Step, FetchOk, FetchWord, DataOk;
    StepPcs(tr, n);
    FaultEpc(tr[n], FetchWord(tr[n]));
    if n + 1 < |tr| - 1 && Traps(At(tr, n)) == [] {
      QuietPc(At(tr, n));
      StepPcs(tr, n + 1);
    }
  }

  lemma FaultEpc(s: State, w: u32)
    requires s.pc % 4 != 0
    ensures Front(s, w).cop0[COP0_EPC] == s.currPc
  {
    hide RaiseSr, RaiseCause;
  }

  // Every executed address is a multiple of 4, and the delay-slot flag is exact.
  lemma AddressesAligned(tr: seq<State>, i: nat)
    requires IsRun(tr) && i < |tr| - 1
    ensures ExecAddress(tr, i) % 4 == 0
    ensures i + 1 < |tr| - 1 ==> At(tr, i + 1).inDelaySlot == Transfers(At(tr, i))
  {
    StepPcs(tr, i);
    hide At, Transfers;
    if i + 1 < |tr| - 1 {
      StepPcs(tr, i + 1);
    }
  }

  // Outside a delay slot and inside the exact range of BranchTargetExact, a taken
  // branch reaches its architectural target two steps later.
  lemma BranchReachesTarget(tr: seq<State>, n: nat)
    requires IsRun(tr) && n + 2 < |tr| - 1
    requires !Raises(tr, n) && !Raises(tr, n + 1) && !FetchFaults(tr, n + 2)
    requires IsConditional(Kind(At(tr, n))) && Taken(At(tr, n)) && !At(tr, n).inDelaySlot
    ensures ExecAddress(tr, n + 2) == ArchBranchTarget(At(tr, n).instr, ExecAddress(tr, n))
        <==> -8192 <= SignedImm(InstrImm(At(tr, n).instr)) <= 8191
  {
    hide At, Taken, CalcBranchAddr, ArchBranchTarget, Decode, StepOk, WordOk, Step, FetchOk, FetchWord, DataOk, Traps;
    DelaySlot(tr, n);
    BranchTargetExact(At(tr, n).instr, ExecAddress(tr, n));
  }

  // ---- which fetches fault

  // The instruction is a JR to a misaligned address.
  predicate WildJump(s: State) {
    Kind(s).JR? && A(s) % 4 != 0
  }

  lemma TargetAlignment(s: State)
    requires s.currPc % 4 == 0
    ensures Taken(s) ==> (Target(s) % 4 != 0 <==> WildJump(s))
    ensures WildJump(s) ==> Taken(s)
  {
    hide Decode, Condition, CalcBranchAddr, CalcJmpAddr, DataTraps;
    BranchTargetAligned(s.instr, Wrap(s.currPc + Adjust(s))) by {
      WrapMod4(s.currPc + Adjust(s));
    }
    JumpTargetAligned(s.instr, s.currPc);
  }

  ghost predicate PcsAligned(s: State) {
    s.pc % 4 == 0 && s.nextPc % 4 == 0
  }

  // From an aligned start a fetch faults exactly when the step two before it was
  // a JR to a misaligned address whose delay slot raised nothing.
  lemma {:induction false} FetchFaultCause(tr: seq<State>, n: nat)
    requires IsRun(tr) && n < |tr| && PcsAligned(tr[0])
    ensures FetchFaults(tr, n) <==> n >= 2 && WildJump(At(tr, n - 2)) && !Raises(tr, n - 1)
    ensures !FetchFaults(tr, n) ==> (tr[n].nextPc % 4 != 0 <==> n >= 1 && WildJump(At(tr, n - 1)))
  {
    hide IsRun, At, Taken, Target, WildJump, Transfers, Traps, PcAfter, NextPcAfter, StepOk, WordOk, Step, FetchOk, FetchWord, DataOk;
    if n > 0 {
      FetchFaultCause(tr, n - 1);
      StepPcs(tr, n - 1);
      AddressesAligned(tr, n - 1);
      PcsAfterStep(At(tr, n - 1));
    }
  }

  // Alignment of the two program counters after an instruction that entered with
  // nextPc four past pc.
  lemma PcsAfterStep(s: State)
    requires s.currPc % 4 == 0 && s.nextPc == Wrap(s.pc + 4)
    ensures PcAfter(s) % 4 != 0 <==> Traps(s) == [] && s.pc % 4 != 0
    ensures WildJump(s) ==> NextPcAfter(s) % 4 != 0
    ensures NextPcAfter(s) % 4 != 0 ==> Traps(s) == [] && (WildJump(s) || s.pc % 4 != 0)
  {
    hide Taken, Target, WildJump, Traps, PcAfter, NextPcAfter, Wrap;
    TargetAlignment(s);
    WildJumpIsQuiet(s);
    WrapMod4(s.pc + 4);
    if Traps(s) == [] {
      QuietPc(s);
    } else {
      TrapPcs(s);
    }
  }

  lemma WildJumpIsQuiet(s: State)
    ensures WildJump(s) ==> Traps(s) == []
  {
    hide Decode;
  }

  lemma ResetAligned(bios: Bios)
    ensures PcsAligned(ResetState(bios))
  {
  }
}
