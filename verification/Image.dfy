// The executable file by byte position, and what the main loop does with it.

module Image {
  import opened Words
  import opened Mips
  import opened Memory
  import opened MemoryMap
  import opened Machine
  import opened Context
  import opened App

  // The little-endian word at a byte position of the file.
  function Word(exe: seq<u8>, i: nat): u32
    requires i + 4 <= |exe|
  {
    Number(exe, i, 4)
  }

  // At least 2048 bytes, the first eight of which spell the format's name.
  lemma CheckLaw(exe: seq<u8>)
    ensures ExeCheck(exe).EXE_SIZE_BAD? <==> |exe| < 2048
    ensures ExeCheck(exe).OK? <==> |exe| >= 2048 && forall i :: 0 <= i < 8 ==> exe[i] as char == "PS-X EXE"[i]
  {
    if |exe| >= 2048 {
      var head := exe[..8];
      assert forall i :: 0 <= i < 8 ==> head[i] == exe[i];
      assert head == [head[0], head[1], head[2], head[3], head[4], head[5], head[6], head[7]];
      assert forall i :: 0 <= i < 8 ==> (head[i] as char == "PS-X EXE"[i] <==> head[i] == EXE_ID[i]) by { NameCodes(); }
    }
  }

  lemma NameCodes()
    ensures forall i :: 0 <= i < 8 ==> "PS-X EXE"[i] as int == EXE_ID[i]
  {
  }

  // Where the code goes and how long it is.
  function Destination(exe: seq<u8>): u32
    requires |exe| >= 2048
  {
    var v := Word(exe, 24);
    if v == 0xFFFE_0130 then v else v % 0x2000_0000
  }

  lemma FieldsAt(exe: seq<u8>, i: nat)
    requires i + 4 <= |exe|
    ensures Field(exe, i) == Word(exe, i)
  {
    NumberIsGet(exe, i, 4);
    hide Get, Number;
  }

  // The entry address at byte 16, the global pointer at 20, the destination at 24,
  // the size at 28, the base and offset of the stack at 48 and 52, the code at 2048.
  lemma HeaderLaw(s: State, exe: seq<u8>)
    requires ExeCheck(exe).OK? && ExeFits(exe)
    ensures |exe| >= 2048 && 2048 + Word(exe, 28) <= |exe| && Destination(exe) + Word(exe, 28) <= 0x20_0000
    ensures var t, dst, size := ExeLoad(s, exe), Destination(exe), Word(exe, 28);
            && t.pc == Word(exe, 16) && t.nextPc == Wrap(Word(exe, 16) + 4)
            && t.gpr[28] == Word(exe, 20)
            && t.gpr[30] == Wrap(Word(exe, 48) + Word(exe, 52))
            && t.gpr[29] == (if Word(exe, 48) != 0 then t.gpr[30] else Wrap(s.gpr[29] + Word(exe, 52)))
            && (forall r: RegIndex :: r < 28 || r == 31 ==> t.gpr[r] == s.gpr[r])
            && (forall i :: 0 <= i < 0x20_0000 ==>
                  t.mem.ram[i] == if dst <= i < dst + size then exe[2048 + (i - dst)] else s.mem.ram[i])
            && t == s.(pc := t.pc, nextPc := t.nextPc, gpr := t.gpr, mem := s.mem.(ram := t.mem.ram))
  {
    hide Number, Field, Wrap, ExeLoad, ExeFits, CopyCode, And;
    Header(s, exe);
    FieldsAt(exe, 16);
    FieldsAt(exe, 20);
    FieldsAt(exe, 24);
    FieldsAt(exe, 28);
    FieldsAt(exe, 48);
    FieldsAt(exe, 52);
    ImageLoads(s, exe);
    forall i | 0 <= i < 0x20_0000
      ensures ExeLoad(s, exe).mem.ram[i]
           == if Destination(exe) <= i < Destination(exe) + Word(exe, 28) then exe[2048 + (i - Destination(exe))] else s.mem.ram[i]
    {
      CodeIsInRam(s, exe, i);
    }
  }

  // Until control reaches 0x80030000 the main loop only steps.
  lemma SessionIsRun(tr: seq<State>, exe: seq<u8>)
    requires ExeFits(exe) && IsSession(tr, exe)
    requires forall i :: 0 <= i < |tr| - 1 ==> tr[i].pc != 0x8003_0000
    ensures IsRun(tr)
  {
    hide StepOk, Step, ExeLoad, ExeFits;
  }

  // There it loads the executable, and the same iteration executes the word of the
  // file that the entry address names.
  lemma ShellRunsExecutable(tr: seq<State>, exe: seq<u8>, i: nat)
    requires ExeFits(exe) && IsSession(tr, exe) && i < |tr| - 1 && tr[i].pc == 0x8003_0000
    requires ExeCheck(exe).OK? && |exe| >= 2048
    requires var p := VaddrToPaddr(Word(exe, 16));
             Word(exe, 16) % 4 == 0 && Destination(exe) <= p && p + 4 <= Destination(exe) + Word(exe, 28) && 2048 + Word(exe, 28) <= |exe|
    ensures tr[i + 1].currPc == Word(exe, 16)
    ensures tr[i + 1].instr == Word(exe, 2048 + (VaddrToPaddr(Word(exe, 16)) - Destination(exe)))
  {
    hide StepOk, Step, ExeLoad, ExeFits, Number, VaddrToPaddr, FetchOk, FetchWord, Front, Field;
    var t := ExeLoad(tr[i], exe);
    assert StepOk(Loaded(tr[i], exe)) && tr[i + 1] == Step(Loaded(tr[i], exe));
    HeaderLaw(tr[i], exe);
    DestinationIs(exe);
    FirstInstruction(tr[i], exe);
    FieldsAt(exe, 2048 + (VaddrToPaddr(t.pc) - Destination(exe)));
    StepRecords(t);
  }

  lemma DestinationIs(exe: seq<u8>)
    requires |exe| >= 2048
    ensures ExeDest(exe) == Destination(exe) && ExeSize(exe) == Word(exe, 28)
  {
    hide Field, Number, And;
    FieldsAt(exe, 24);
    FieldsAt(exe, 28);
  }
}
