// The laws of single instructions carried to runs and to pairs of instructions.

module Runs {
  import opened Words
  import opened Mips
  import opened Encoding
  import opened Machine
  import opened Exceptions
  import opened ControlFlow
  import opened Architecture
  import opened Families

  // What a law says of the instruction dispatched at step n, it says of state n + 1.
  lemma NextState(tr: seq<State>, n: nat)
    requires IsRun(tr) && n < |tr| - 1
    ensures DataOk(At(tr, n)) && tr[n + 1] == Exec(At(tr, n))
  {
    hide DataOk, Exec, Front, FetchOk, FetchWord;
    RunStep(tr, n);
  }

  lemma SecondAddress(tr: seq<State>, n: nat)
    requires IsRun(tr) && n + 2 < |tr| - 1 && !Raises(tr, n + 1) && !FetchFaults(tr, n + 2)
    ensures ExecAddress(tr, n + 1) == tr[n + 1].pc && ExecAddress(tr, n + 2) == tr[n + 1].nextPc
    ensures At(tr, n).nextPc == Wrap(At(tr, n).pc + 4)
  {
    hide IsRun, At, Traps, Taken, PcAfter, NextPcAfter, Transfers;
    StepPcs(tr, n);
    StepPcs(tr, n + 1);
    StepPcs(tr, n + 2);
    QuietPc(At(tr, n + 1));
  }

  // Where a run is two steps after a branch.
  lemma BranchRun(tr: seq<State>, n: nat, i: Instruction)
    requires IsRun(tr) && n + 2 < |tr| - 1 && !Raises(tr, n + 1) && !FetchFaults(tr, n + 2)
    requires Executes(At(tr, n), i) && i.IType? && OpcodeOf(i.k) <= 7
    ensures var s := At(tr, n);
            var a, b, there, next := s.gpr[i.rs], s.gpr[i.rt], BranchTo(s, i.imm), Wrap(ExecAddress(tr, n + 1) + 4);
            && (i.k.BEQ? ==> ExecAddress(tr, n + 2) == if a == b then there else next)
            && (i.k.BNE? ==> ExecAddress(tr, n + 2) == if a != b then there else next)
            && (i.k.BLEZ? ==> ExecAddress(tr, n + 2) == if a == 0 || a >= 0x8000_0000 then there else next)
            && (i.k.BGTZ? ==> ExecAddress(tr, n + 2) == if 0 < a < 0x8000_0000 then there else next)
            && (i.k.BCOND? && i.rt % 2 == 0 ==> ExecAddress(tr, n + 2) == if a >= 0x8000_0000 then there else next)
            && (i.k.BCOND? && i.rt % 2 == 1 ==> ExecAddress(tr, n + 2) == if a < 0x8000_0000 then there else next)
  {
    NextState(tr, n);
    SecondAddress(tr, n);
    BranchLaw(At(tr, n), i);
    hide IsRun, At, DataOk, Exec, Executes, OpcodeOf, BranchTo, Wrap, ExecAddress, Raises, FetchFaults;
  }

  lemma JumpRun(tr: seq<State>, n: nat, k: Mnemonic, target: TargetField)
    requires IsRun(tr) && n + 2 < |tr| - 1 && !Raises(tr, n + 1) && !FetchFaults(tr, n + 2)
    requires Executes(At(tr, n), JType(k, target))
    ensures ExecAddress(tr, n + 2) == target * 4 + ExecAddress(tr, n) / 0x1000_0000 * 0x1000_0000
  {
    NextState(tr, n);
    SecondAddress(tr, n);
    JumpLaw(At(tr, n), k, target);
    hide IsRun, At, DataOk, Exec, Executes, Wrap, Raises, FetchFaults;
  }

  lemma JumpRegisterRun(tr: seq<State>, n: nat, k: Mnemonic, rs: RegIndex, rt: RegIndex, rd: RegIndex, shamt: RegIndex)
    requires IsRun(tr) && n + 2 < |tr| - 1 && !Raises(tr, n + 1) && !FetchFaults(tr, n + 2)
    requires Executes(At(tr, n), RType(k, rs, rt, rd, shamt)) && (k.JR? || (k.JALR? && At(tr, n).gpr[rs] % 4 == 0))
    ensures ExecAddress(tr, n + 2) == At(tr, n).gpr[rs]
  {
    NextState(tr, n);
    SecondAddress(tr, n);
    JumpRegisterLaw(At(tr, n), k, rs, rt, rd, shamt);
    hide IsRun, At, DataOk, Exec, Executes, Wrap, ExecAddress, Raises, FetchFaults;
  }

  // MTHI then MFHI, or MTLO then MFLO, moves a register through hi or lo and keeps
  // the other one, whatever loads are in flight.
  lemma HiLoReadBack(s: State, to: Instruction, from: Instruction)
    requires Legal(to) && Legal(from) && to.RType? && from.RType? && from.rd != 0
    requires (to.k.MTHI? && from.k.MFHI?) || (to.k.MTLO? && from.k.MFLO?)
    requires WordOk(s, Encode(to)) && WordOk(StepWord(s, Encode(to)), Encode(from))
    ensures var t, moved := StepWord(StepWord(s, Encode(to)), Encode(from)), Front(s, Encode(to)).gpr[to.rs];
            && t.gpr[from.rd] == moved
            && (if to.k.MTHI? then t.hi == moved && t.lo == s.lo else t.lo == moved && t.hi == s.hi)
  {
    DecodeEncode(from);
    hide *;
    MoveInto(s, to);
    MoveStep(StepWord(s, Encode(to)), Encode(from));
  }

  lemma MoveInto(s: State, i: Instruction)
    requires Legal(i) && i.RType? && (i.k.MTHI? || i.k.MTLO?) && WordOk(s, Encode(i))
    ensures var t, moved := StepWord(s, Encode(i)), Front(s, Encode(i)).gpr[i.rs];
            if i.k.MTHI? then t.hi == moved && t.lo == s.lo else t.lo == moved && t.hi == s.hi
  {
    FrontKeeps(s, Encode(i));
    StepIsExec(s, Encode(i));
    hide Front, Exec, StepWord, WordOk, DataOk, Decode, Encode, Legal;
    HiLoLaw(Front(s, Encode(i)), i.k, i.rs, i.rt, i.rd, i.shamt);
  }
}
