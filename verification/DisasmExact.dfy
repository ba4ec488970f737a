// What equal text says about behaviour, exactly.

module DisassemblyExact {
  import opened Words
  import opened Mips
  import opened Memory
  import opened Alu
  import opened Machine
  import opened Effects
  import opened LoadDelayQueue
  import opened Exceptions
  import opened Disassembly
  import opened DisassemblyMeaning

  // Stepping either word from any state with a sound register file and queue gives
  // the same machine, but for the record of the word itself.
  ghost predicate StepAlike(w: u32, w': u32) {
    forall s: State | Inv(s) && WordOk(s, w) :: SameStep(s, w, w')
  }

  ghost predicate SameStep(s: State, w: u32, w': u32)
    requires WordOk(s, w)
  {
    WordOk(s, w') && StepWord(s, w') == StepWord(s, w).(instr := w')
  }

  // The ambiguities of the text that matter: DIV against DIVU, unless the dividend
  // is $zero or the divisor the dividend; a move from different cop0 registers to
  // a register other than $zero; a move to different cop0 registers.
  predicate Ambiguous(w: u32, w': u32) {
    var k, k' := Decode(w), Decode(w');
    || (((k.DIV? && k'.DIVU?) || (k.DIVU? && k'.DIV?)) && InstrRs(w) != 0 && InstrRs(w) != InstrRt(w))
    || (k.MFC0? && k'.MFC0? && InstrRt(w) != 0 && InstrRd(w) != InstrRd(w'))
    || (k.MTC0? && k'.MTC0? && InstrRd(w) != InstrRd(w'))
  }

  // ---- the words printed alike

  // The two divisions of the same registers.
  predicate Divisions(w: u32, w': u32) {
    var k, k' := Decode(w), Decode(w');
    && ((k.DIV? && k'.DIVU?) || (k.DIVU? && k'.DIV?))
    && InstrRs(w') == InstrRs(w) && InstrRt(w') == InstrRt(w)
  }

  // The same move between one register and different cop0 registers.
  predicate Moves(w: u32, w': u32) {
    var k, k' := Decode(w), Decode(w');
    && ((k.MFC0? && k'.MFC0?) || (k.MTC0? && k'.MTC0?))
    && InstrRt(w') == InstrRt(w) && InstrRd(w') != InstrRd(w)
  }

  lemma PrintedAlike(w: u32, w': u32, pc: u32)
    requires Text(w, pc) == Text(w', pc)
    ensures SameFields(w, w') || Divisions(w, w') || Moves(w, w')
  {
    hide Text, Listing, SameFields, Decode, InstrRs, InstrRt, InstrRd;
    var a, b := Listing(w, pc), Listing(w', pc);
    LineReadBack(w, w', pc);
    if DivPair(a.name, b.name) {
      DivLine(w, pc);
      DivLine(w', pc);
      assert SamePrinted(a.ops[0], b.ops[0]) && SamePrinted(a.ops[1], b.ops[1]);
    } else if a.ops == b.ops {
      LineFields(w, w', pc);
    } else {
      var i :| 0 <= i < |a.ops| && a.ops[i] != b.ops[i];
      assert SamePrinted(a.ops[i], b.ops[i]);
      MoveLine(w, pc, i);
      MoveLine(w', pc, i);
      assert SamePrinted(a.ops[0], b.ops[0]) && SamePrinted(a.ops[1], b.ops[1]);
    }
  }

  lemma DivLine(w: u32, pc: u32)
    requires Listing(w, pc).name == Plain(DIV) || Listing(w, pc).name == Plain(DIVU)
    ensures Listing(w, pc).ops == [Reg(InstrRs(w)), Reg(InstrRt(w))]
    ensures Plain(Decode(w)) == Listing(w, pc).name
  {
    ListingGroup(w, pc);
    hide InstrOp, InstrRs, InstrRt, InstrRd, InstrShamt, InstrFunct, BcondLine, Cop0Line, MainLine;
  }

  lemma MoveLine(w: u32, pc: u32, i: nat)
    requires i < |Listing(w, pc).ops| && Listing(w, pc).ops[i].Cpr?
    ensures Plain(Decode(w)) == Listing(w, pc).name
    ensures Decode(w).MFC0? ==> Listing(w, pc).ops == [Reg(InstrRt(w)), Cpr(InstrRd(w))]
    ensures Decode(w).MTC0? ==> Listing(w, pc).ops == [Cpr(InstrRd(w)), Reg(InstrRt(w))]
    ensures Decode(w).MFC0? || Decode(w).MTC0?
  {
    hide InstrOp, InstrRs, InstrRt, InstrRd, InstrShamt, InstrFunct, InstrImm, CalcBranchAddr, CalcJmpAddr;
  }

  // ---- the words that step alike

  lemma FrontWords(s: State, w: u32, w': u32)
    ensures Front(s, w') == Front(s, w).(instr := w') && Front(s, w).instr == w
  {
    hide RaiseCop0;
  }

  lemma FieldsStep(s: State, w: u32, w': u32)
    requires SameFields(w, w') && WordOk(s, w)
    ensures SameStep(s, w, w')
  {
    FrontWords(s, w, w');
    hide SameFields, DataOk, Front, Exec;
    AlikeExec(Front(s, w), Front(s, w'));
  }

  // The step of a division or a move, in terms of the state it is dispatched in.
  lemma DivisionStep(s: State, w: u32)
    requires Decode(w).DIV? || Decode(w).DIVU?
    ensures WordOk(s, w)
    ensures var f := Front(s, w);
            var d := if Decode(w).DIV? then Alu.Div(A(f), B(f)) else Divu(A(f), B(f));
            StepWord(s, w) == f.(gpr := f.gpr[0 := 0], hi := d.hi, lo := d.lo)
  {
    WordNeedsNoData(s, w);
    FrontKeeps(s, w);
    hide Front, DataOk, Decode, Exec, Alu.Div, Divu;
    ExecHiLo(Front(s, w));
  }

  lemma MoveFromStep(s: State, w: u32)
    requires Decode(w).MFC0?
    ensures WordOk(s, w)
    ensures var f, rt := Front(s, w), InstrRt(w);
            StepWord(s, w) == f.(gpr := f.gpr[rt := f.cop0[InstrRd(w)]][0 := 0],
                                 ldNext := if f.ldNext.dst == rt then EMPTY else f.ldNext)
  {
    WordNeedsNoData(s, w);
    FrontKeeps(s, w);
    hide Front, DataOk, Decode, Exec;
    ExecMoveFrom(Front(s, w));
  }

  lemma MoveToStep(s: State, w: u32)
    requires Decode(w).MTC0?
    ensures WordOk(s, w)
    ensures var f := Front(s, w);
            StepWord(s, w) == f.(gpr := f.gpr[0 := 0], cop0 := f.cop0[InstrRd(w) := f.gpr[InstrRt(w)]])
  {
    WordNeedsNoData(s, w);
    FrontKeeps(s, w);
    hide Front, DataOk, Decode, Exec;
    ExecCop0(Front(s, w));
  }

  // The two divisions agree on a zero dividend and on equal operands.
  lemma DivisionsAgree(a: u32, b: u32)
    requires a == 0 || a == b
    ensures Alu.Div(a, b) == Divu(a, b)
  {
    if a == b && a != 0 {
      var x := Signed(a);
      DivUnique(Abs(x), Abs(x), 1, 0);
      DivUnique(a, a, 1, 0);
    } else if b != 0 {
      var y := Signed(b);
      DivUnique(0, Abs(y), 0, 0);
      DivUnique(0, b, 0, 0);
    }
  }

  lemma DivisionsStep(s: State, w: u32, w': u32)
    requires Divisions(w, w') && (InstrRs(w) == 0 || InstrRs(w) == InstrRt(w)) && Inv(s) && WordOk(s, w)
    ensures SameStep(s, w, w')
  {
    FrontInv(s, w);
    FrontWords(s, w, w');
    DivisionStep(s, w);
    DivisionStep(s, w');
    hide Front, WordOk, StepWord, Decode, Alu.Div, Divu, Inv, InstrRs, InstrRt;
    DivisionsAgree(A(Front(s, w)), B(Front(s, w)));
  }

  lemma MovesStep(s: State, w: u32, w': u32)
    requires Moves(w, w') && Decode(w).MFC0? && InstrRt(w) == 0 && WordOk(s, w)
    ensures SameStep(s, w, w')
  {
    FrontWords(s, w, w');
    MoveFromStep(s, w);
    MoveFromStep(s, w');
    hide Front, WordOk, StepWord, Decode, InstrRt, InstrRd;
    var f := Front(s, w);
    assert f.gpr[0 := f.cop0[InstrRd(w)]][0 := 0] == f.gpr[0 := f.cop0[InstrRd(w')]][0 := 0];
  }

  // ---- states that tell the others apart

  // A machine after reset, but for the registers.
  function Fresh(gpr: Regs, cop0: Regs): State {
    ResetState(seq(BIOS_SIZE, _ => 0)).(gpr := gpr, cop0 := cop0)
  }

  function Zeros(): Regs { seq(32, _ => 0) }

  // No two coprocessor registers hold the same value, and none holds zero.
  function Distinct(): Regs { seq(32, i requires 0 <= i < 32 => i + 1) }

  lemma FreshFront(gpr: Regs, cop0: Regs, w: u32)
    requires gpr[0] == 0
    ensures var s := Fresh(gpr, cop0); Inv(s) && Front(s, w).gpr == gpr && Front(s, w).cop0 == cop0
  {
    var s := Fresh(gpr, cop0);
    FrontKeeps(s, w);
    assert gpr[0 := 0] == gpr;
    hide Front;
  }

  // -2 divided by 2, or by 0 when the divisor is $zero.
  lemma DivisionsDiffer(w: u32, w': u32)
    requires Divisions(w, w') && InstrRs(w) != 0 && InstrRs(w) != InstrRt(w)
    ensures !StepAlike(w, w')
  {
    var gpr := Zeros()[InstrRt(w) := 2][0 := 0][InstrRs(w) := 0xFFFF_FFFE];
    var s := Fresh(gpr, Zeros());
    FreshFront(gpr, Zeros(), w);
    FreshFront(gpr, Zeros(), w');
    DivisionStep(s, w);
    DivisionStep(s, w');
    QuotientsDiffer();
    hide Front, WordOk, StepWord, Decode, Alu.Div, Divu, Inv, Fresh, InstrRs, InstrRt, Zeros;
    assert gpr[InstrRs(w)] == 0xFFFF_FFFE && (gpr[InstrRt(w)] == 2 || gpr[InstrRt(w)] == 0);
    assert StepWord(s, w).lo != StepWord(s, w').lo;
    assert !SameStep(s, w, w');
  }

  lemma QuotientsDiffer()
    ensures Alu.Div(0xFFFF_FFFE, 2).lo != Divu(0xFFFF_FFFE, 2).lo
    ensures Alu.Div(0xFFFF_FFFE, 0).lo != Divu(0xFFFF_FFFE, 0).lo
  {
  }

  lemma MovesDiffer(w: u32, w': u32)
    requires Moves(w, w') && (Decode(w).MFC0? ==> InstrRt(w) != 0)
    ensures !StepAlike(w, w')
  {
    var s := Fresh(Zeros(), Distinct());
    FreshFront(Zeros(), Distinct(), w);
    FreshFront(Zeros(), Distinct(), w');
    if Decode(w).MFC0? {
      MoveFromStep(s, w);
      MoveFromStep(s, w');
    } else {
      MoveToStep(s, w);
      MoveToStep(s, w');
    }
    hide Front, WordOk, StepWord, Decode, Inv, Fresh, InstrRt, InstrRd;
    var t, t' := StepWord(s, w), StepWord(s, w');
    assert t.gpr != t'.gpr || t.cop0 != t'.cop0 by {
      if Decode(w).MFC0? {
        assert t.gpr[InstrRt(w)] != t'.gpr[InstrRt(w)];
      } else {
        assert t.cop0[InstrRd(w)] != t'.cop0[InstrRd(w)];
      }
    }
    assert !SameStep(s, w, w');
  }

  // ---- the theorem

  // Words printed alike step alike, unless they are one of the three ambiguous
  // pairs; and those do differ.
  lemma TextDeterminesStep(w: u32, w': u32, pc: u32)
    requires Text(w, pc) == Text(w', pc)
    ensures StepAlike(w, w') <==> !Ambiguous(w, w')
  {
    PrintedAlike(w, w', pc);
    hide Text, SameFields, WordOk, SameStep, Decode, InstrRs, InstrRt, InstrRd, Inv;
    if SameFields(w, w') {
      FieldsUnambiguous(w, w');
      forall s: State | Inv(s) && WordOk(s, w) ensures SameStep(s, w, w') {
        FieldsStep(s, w, w');
      }
    } else if Divisions(w, w') {
      if InstrRs(w) != 0 && InstrRs(w) != InstrRt(w) {
        DivisionsDiffer(w, w');
      } else {
        forall s: State | Inv(s) && WordOk(s, w) ensures SameStep(s, w, w') {
          DivisionsStep(s, w, w');
        }
      }
    } else if Decode(w).MFC0? && InstrRt(w) == 0 {
      forall s: State | Inv(s) && WordOk(s, w) ensures SameStep(s, w, w') {
        MovesStep(s, w, w');
      }
    } else {
      MovesDiffer(w, w');
    }
  }

  lemma FieldsUnambiguous(w: u32, w': u32)
    requires SameFields(w, w')
    ensures !Ambiguous(w, w')
  {
    hide Decode, InstrRs, InstrRt, InstrRd, InstrShamt, InstrImm, InstrTarget, BranchOffset;
  }

  // All three ambiguities occur: div $a0, $a1 of both kinds, and moves between $a0
  // and the unnamed cop0 registers 0 and 1.
  lemma AmbiguitiesOccur(pc: u32)
    ensures Text(0x0085_001A, pc) == Text(0x0085_001B, pc) == "div $a0, $a1"
    ensures Text(0x4004_0000, pc) == Text(0x4004_0800, pc) == "mfc0 $a0, (null)"
    ensures Text(0x4084_0000, pc) == Text(0x4084_0800, pc) == "mtc0 (null), $a0"
    ensures !StepAlike(0x0085_001A, 0x0085_001B)
    ensures !StepAlike(0x4004_0000, 0x4004_0800)
    ensures !StepAlike(0x4084_0000, 0x4084_0800)
  {
    hide StepAlike, Text, Ambiguous;
    AmbiguousTexts(pc);
    TextDeterminesStep(0x0085_001A, 0x0085_001B, pc);
    TextDeterminesStep(0x4004_0000, 0x4004_0800, pc);
    TextDeterminesStep(0x4084_0000, 0x4084_0800, pc);
    AmbiguousWords();
  }

  lemma AmbiguousWords()
    ensures Ambiguous(0x0085_001A, 0x0085_001B)
    ensures Ambiguous(0x4004_0000, 0x4004_0800)
    ensures Ambiguous(0x4084_0000, 0x4084_0800)
  {
  }

  lemma AmbiguousTexts(pc: u32)
    ensures Text(0x0085_001A, pc) == Text(0x0085_001B, pc) == "div $a0, $a1"
    ensures Text(0x4004_0000, pc) == Text(0x4004_0800, pc) == "mfc0 $a0, (null)"
    ensures Text(0x4084_0000, pc) == Text(0x4084_0800, pc) == "mtc0 (null), $a0"
  {
    DivisionLines(pc);
    MoveLines(pc);
    DivisionText(DIV);
    DivisionText(DIVU);
    MoveFromText(0);
    MoveFromText(1);
    MoveToText(0);
    MoveToText(1);
    hide Listing, Render;
  }

  lemma DivisionText(k: Mnemonic)
    requires k.DIV? || k.DIVU?
    ensures Render(Line(Plain(k), [Reg(4), Reg(5)])) == "div $a0, $a1"
  {
    TwoOperands(k, Reg(4), Reg(5));
    assert "div" + " " + ("$a0" + ", " + "$a1") == "div $a0, $a1";
    hide Render;
  }

  lemma MoveFromText(c: RegIndex)
    requires !CprNamed(c)
    ensures Render(Line(Plain(MFC0), [Reg(4), Cpr(c)])) == "mfc0 $a0, (null)"
  {
    TwoOperands(MFC0, Reg(4), Cpr(c));
    hide Render, OperandsText;
    assert "mfc0" + " " + ("$a0" + ", " + "(null)") == "mfc0 $a0, (null)";
  }

  lemma MoveToText(c: RegIndex)
    requires !CprNamed(c)
    ensures Render(Line(Plain(MTC0), [Cpr(c), Reg(4)])) == "mtc0 (null), $a0"
  {
    TwoOperands(MTC0, Cpr(c), Reg(4));
    hide Render, OperandsText;
    assert "mtc0" + " " + ("(null)" + ", " + "$a0") == "mtc0 (null), $a0";
  }

  lemma DivisionLines(pc: u32)
    ensures Listing(0x0085_001A, pc) == Line(Plain(DIV), [Reg(4), Reg(5)])
    ensures Listing(0x0085_001B, pc) == Line(Plain(DIVU), [Reg(4), Reg(5)])
  {
  }

  lemma MoveLines(pc: u32)
    ensures Listing(0x4004_0000, pc) == Line(Plain(MFC0), [Reg(4), Cpr(0)])
    ensures Listing(0x4004_0800, pc) == Line(Plain(MFC0), [Reg(4), Cpr(1)])
    ensures Listing(0x4084_0000, pc) == Line(Plain(MTC0), [Cpr(0), Reg(4)])
    ensures Listing(0x4084_0800, pc) == Line(Plain(MTC0), [Cpr(1), Reg(4)])
  {
  }

  lemma TwoOperands(k: Mnemonic, x: Operand, y: Operand)
    ensures Render(Line(Plain(k), [x, y])) == MnemonicText(k) + " " + (OperandText(x) + ", " + OperandText(y))
  {
    assert [x, y][1..] == [y];
    assert OperandsText([x, y]) == OperandText(x) + ", " + OperandsText([y]);
  }
}
