// The emulator context: loading an executable, tracing, and stepping.

module Context {
  import opened Words
  import opened Mips
  import opened Memory
  import opened Machine
  import opened BusDevice
  import opened Interpreter
  import opened LoadDelayQueue
  import opened Disassembly
  import opened TracerDevice
  import opened Tty
  import opened Prototype
  import opened Exceptions

  // ---- psycho_exe_load

  const EXE_MIN_SIZE: nat := 0x800
  const EXE_OFF_INITIAL_PC: nat := 0x010
  const EXE_OFF_INITIAL_GP: nat := 0x014
  const EXE_OFF_DEST_ADDR: nat := 0x018
  const EXE_OFF_FILE_SIZE: nat := 0x01C
  const EXE_OFF_INITIAL_SP_FP_BASE: nat := 0x030
  const EXE_OFF_INITIAL_SP_FP_OFF: nat := 0x034
  const EXE_OFF_CODE: nat := 0x800

  datatype ReturnCode = EXE_SIZE_BAD | EXE_ID_BAD | OK

  // "PS-X EXE"
  const EXE_ID: seq<u8> := [0x50, 0x53, 0x2D, 0x58, 0x20, 0x45, 0x58, 0x45]

  function ExeCheck(exe: seq<u8>): ReturnCode {
    if |exe| < EXE_MIN_SIZE then EXE_SIZE_BAD
    else if exe[..8] != EXE_ID then EXE_ID_BAD
    else OK
  }

  function Field(exe: seq<u8>, off: nat): u32
    requires off + 4 <= |exe|
  {
    Get(exe, off, 4)
  }

  function ExeDest(exe: seq<u8>): u32
    requires |exe| >= EXE_MIN_SIZE
  {
    VaddrToPaddr(Field(exe, EXE_OFF_DEST_ADDR))
  }

  function ExeSize(exe: seq<u8>): u32
    requires |exe| >= EXE_MIN_SIZE
  {
    Field(exe, EXE_OFF_FILE_SIZE)
  }

  // The copy stays inside the file and inside RAM; the source checks neither.
  predicate ExeFits(exe: seq<u8>) {
    ExeCheck(exe) == OK ==>
      EXE_OFF_CODE + ExeSize(exe) <= |exe| && ExeDest(exe) + ExeSize(exe) <= RAM_SIZE
  }

  function CopyCode(ram: Ram, exe: seq<u8>): Ram
    requires ExeCheck(exe) == OK && ExeFits(exe)
  {
    var dst, size := ExeDest(exe), ExeSize(exe);
    ram[..dst] + exe[EXE_OFF_CODE..EXE_OFF_CODE + size] + ram[dst + size..]
  }

  function ExeLoad(s: State, exe: seq<u8>): State
    requires ExeFits(exe)
  {
    if ExeCheck(exe) != OK then s
    else
      var pc := Field(exe, EXE_OFF_INITIAL_PC);
      var base, off := Field(exe, EXE_OFF_INITIAL_SP_FP_BASE), Field(exe, EXE_OFF_INITIAL_SP_FP_OFF);
      var sp := if base != 0 then base else s.gpr[GPR_SP];
      s.(pc := pc, nextPc := Wrap(pc + 4),
         gpr := s.gpr[GPR_GP := Field(exe, EXE_OFF_INITIAL_GP)][GPR_SP := Wrap(sp + off)][GPR_FP := Wrap(base + off)],
         mem := s.mem.(ram := CopyCode(s.mem.ram, exe)))
  }

  // RAM holds the file's code on exactly the destination range.
  lemma CodeIsInRam(s: State, exe: seq<u8>, i: nat)
    requires ExeFits(exe) && ExeCheck(exe) == OK && i < RAM_SIZE
    ensures ExeLoad(s, exe).mem.ram[i] ==
      if ExeDest(exe) <= i < ExeDest(exe) + ExeSize(exe) then exe[EXE_OFF_CODE + (i - ExeDest(exe))] else s.mem.ram[i]
  {
    hide Field, VaddrToPaddr;
  }

  // The first fetch after a load executes the word of the file that the initial pc
  // names, and sees the header's GP, SP and FP where no load is about to land.
  lemma FirstInstruction(s: State, exe: seq<u8>)
    requires ExeFits(exe) && ExeCheck(exe) == OK
    requires var t := ExeLoad(s, exe);
             && t.pc % 4 == 0 && ExeDest(exe) <= VaddrToPaddr(t.pc)
             && VaddrToPaddr(t.pc) + 4 <= ExeDest(exe) + ExeSize(exe)
    ensures var t := ExeLoad(s, exe);
            && FetchOk(t)
            && FetchWord(t) == Field(exe, EXE_OFF_CODE + (VaddrToPaddr(t.pc) - ExeDest(exe)))
    ensures var t := ExeLoad(s, exe);
            forall w: u32, r: RegIndex :: (r == GPR_GP || r == GPR_SP || r == GPR_FP) && s.ldNext.dst != r ==>
              Front(t, w).gpr[r] == t.gpr[r]
  {
    var t := ExeLoad(s, exe);
    var p := VaddrToPaddr(t.pc);
    hide ExeLoad, VaddrToPaddr, CopyCode, ExeDest, ExeSize, ExeFits, ExeCheck, Front;
    Header(s, exe);
    CodeIsInRam(s, exe, p);
    CodeIsInRam(s, exe, p + 1);
    CodeIsInRam(s, exe, p + 2);
    CodeIsInRam(s, exe, p + 3);
    forall w: u32, r: RegIndex | (r == GPR_GP || r == GPR_SP || r == GPR_FP) && s.ldNext.dst != r
      ensures Front(t, w).gpr[r] == t.gpr[r]
    {
      FrontGpr(t, w);
    }
  }

  lemma FrontGpr(s: State, w: u32)
    ensures Front(s, w).gpr == s.gpr[s.ldNext.dst := s.ldNext.val]
  {
    hide RaiseCop0;
  }

  // What the header fixes, and what the load leaves alone.
  lemma Header(s: State, exe: seq<u8>)
    requires ExeFits(exe) && ExeCheck(exe) == OK
    ensures |exe| >= EXE_MIN_SIZE && EXE_OFF_CODE + ExeSize(exe) <= |exe| && ExeDest(exe) + ExeSize(exe) <= RAM_SIZE
    ensures var t, base, off := ExeLoad(s, exe), Field(exe, EXE_OFF_INITIAL_SP_FP_BASE), Field(exe, EXE_OFF_INITIAL_SP_FP_OFF);
            && t.pc == Field(exe, EXE_OFF_INITIAL_PC) && t.nextPc == Wrap(t.pc + 4)
            && t.gpr[GPR_GP] == Field(exe, EXE_OFF_INITIAL_GP)
            && t.gpr[GPR_FP] == Wrap(base + off)
            && t.gpr[GPR_SP] == (if base != 0 then t.gpr[GPR_FP] else Wrap(s.gpr[GPR_SP] + off))
            && (forall r: RegIndex :: r < GPR_GP || r == GPR_RA ==> t.gpr[r] == s.gpr[r])
            && t.ldNext == s.ldNext && t.ldPend == s.ldPend && t.cop0 == s.cop0 && t.hi == s.hi && t.lo == s.lo
            && t.mem.bios == s.mem.bios && t.mem.scratchpad == s.mem.scratchpad
  {
    hide Field, VaddrToPaddr, CopyCode;
  }

  // ---- reachable states

  ghost predicate Transition(s: State, t: State) {
    || (StepOk(s) && t == Step(s))
    || t == ResetCpu(s)
    || (exists exe: seq<u8> :: ExeFits(exe) && t == ExeLoad(s, exe))
  }

  // Zeroed storage around given RAM and BIOS images, after psycho_init.
  function InitialState(ram: Ram, bios: Bios): State {
    ResetState(bios).(mem := ResetState(bios).mem.(ram := ram))
  }

  ghost predicate IsHistory(tr: seq<State>, ram: Ram, bios: Bios) {
    && |tr| > 0 && tr[0] == InitialState(ram, bios)
    && forall i :: 0 <= i < |tr| - 1 ==> Transition(tr[i], tr[i + 1])
  }

  lemma LoadKeepsInv(s: State, exe: seq<u8>)
    requires Inv(s) && ExeFits(exe)
    ensures Inv(ExeLoad(s, exe))
  {
    if ExeCheck(exe) == OK {
      Header(s, exe);
    }
    hide ExeFits, CopyCode, Field;
  }

  // From power-on, through any steps, resets and executables loaded in between: gpr[0]
  // is 0, an empty slot holds 0, and no two slots hold the same register.
  lemma {:induction false} ReachableInv(tr: seq<State>, ram: Ram, bios: Bios, i: nat)
    requires IsHistory(tr, ram, bios) && i < |tr|
    ensures Inv(tr[i])
  {
    hide StepOk, Step, ExeLoad, ExeFits;
    if i > 0 {
      ReachableInv(tr, ram, bios, i - 1);
      var s, t := tr[i - 1], tr[i - 1 + 1];
      assert Transition(s, t);
      if StepOk(s) && t == Step(s) {
        StepInv(s);
      } else if t != ResetCpu(s) {
        var exe :| ExeFits(exe) && t == ExeLoad(s, exe);
        LoadKeepsInv(s, exe);
      }
    }
  }

  lemma StepInv(s: State)
    requires StepOk(s) && Inv(s)
    ensures Inv(Step(s))
  {
    hide FetchOk, FetchWord, WordOk, StepWord;
    StepKeepsInv(s, FetchWord(s));
  }

  // ---- the traced BIOS call

  // std_out_putchar, called through the B0 table: the character in a0.
  predicate CallsPutchar(s: State) {
    s.pc == 0x0000_00B0 && s.gpr[GPR_T1] == 0x3D
  }

  function CharOf(s: State): char {
    (s.gpr[GPR_A0] % 0x100) as char
  }

  function ConsoleAfter(t: Console, s: State, enabled: bool): (r: Console)
    requires t.len < TTY_SIZE
    ensures r.len < TTY_SIZE
  {
    if CallsPutchar(s) && enabled then PutChar(t, CharOf(s)) else t
  }

  // The low byte of register 4 is printed when control is at 0xB0 with 0x3D in
  // register 9 and output is enabled, and nothing is printed otherwise.
  lemma PutcharLaw(t: Console, s: State, enabled: bool)
    requires t.len < 256
    ensures s.pc == 0xB0 && s.gpr[9] == 0x3D && enabled ==>
              ConsoleAfter(t, s, enabled) == PutChar(t, (s.gpr[4] % 256) as char)
    ensures !(s.pc == 0xB0 && s.gpr[9] == 0x3D && enabled) ==> ConsoleAfter(t, s, enabled) == t
    ensures s.pc == 0xB0 && s.gpr[9] == 0x3D <==> CallsPutchar(s)
    ensures CharOf(s) as int == s.gpr[4] % 256
  {
    hide PutChar;
  }

  // The result buffer after a call has been looked for.
  function ResultAfter(result: seq<char>, s: State): seq<char>
    requires |result| == RESULT_SIZE
  {
    if CallsPutchar(s) then
      TraceFits(CharOf(s));
      Written(result, Expand(STD_OUT_PUTCHAR, CharOf(s)))
    else result
  }

  // ---- the context

  class Psycho {
    const cpu: Cpu
    const disasm: Tracer
    const tty: TtyBuffer
    const result: array<char>
    var enableTtyOutput: bool
    // bios_trace.curr_func is set.
    var tracing: bool
    var waitingForReturn: bool

    ghost predicate Valid()
      reads tty
    {
      && cpu.Valid() && tty.Valid() && result.Length == RESULT_SIZE
      && tty.data as object !in cpu.Footprint() && tty.data as object != cpu.bus.bios
      && result as object !in cpu.Footprint() && result as object !in {cpu.bus.bios, tty.data}
    }

    // psycho_init, on zeroed storage.
    constructor (ramData: array<u8>, biosData: array<u8>)
      requires ramData.Length == RAM_SIZE && biosData.Length == BIOS_SIZE && ramData != biosData
      ensures Valid() && cpu.S() == InitialState(ramData[..], biosData[..]) && tty.Contents() == EmptyConsole()
      ensures !tracing && !waitingForReturn && !enableTtyOutput && !disasm.traceInstruction
      ensures fresh(cpu.Footprint() - {ramData}) && fresh(disasm) && fresh(tty) && fresh(tty.data) && fresh(result)
    {
      var bus := new Bus(ramData, biosData);
      cpu := new Cpu(bus);
      disasm := new Tracer();
      tty := new TtyBuffer();
      result := new char[RESULT_SIZE](_ => '\0');
      enableTtyOutput := false;
      tracing := false;
      waitingForReturn := false;
    }

    method BiosTraceBegin()
      requires Valid()
      modifies this`tracing, tty, tty.data, result
      ensures Valid() && cpu.S() == old(cpu.S())
      ensures tty.Contents() == ConsoleAfter(old(tty.Contents()), cpu.S(), enableTtyOutput)
      ensures tracing == (old(tracing) || CallsPutchar(cpu.S()))
      ensures result[..] == ResultAfter(old(result[..]), cpu.S())
    {
      if cpu.pc == 0x0000_00B0 && cpu.gpr[GPR_T1] == 0x3D {
        tracing := true;
        if enableTtyOutput {
          tty.HandleOutput((cpu.gpr[GPR_A0] % 0x100) as char);
        }
      } else {
        return;
      }
      var c := (cpu.gpr[GPR_A0] % 0x100) as char;
      TraceFits(c);
      ProcessPrototype(STD_OUT_PUTCHAR, result, c);
    }

    method BiosTraceEnd()
      modifies this`tracing
      ensures tracing == (old(tracing) && waitingForReturn)
    {
      if tracing && !waitingForReturn {
        tracing := false;
      }
    }

    // psycho_disasm_trace_begin: peek the word at pc and print it.
    method DisasmTraceBegin()
      requires Valid() && LoadOk(VaddrToPaddr(cpu.pc), 4)
      modifies disasm
      ensures cpu.S() == old(cpu.S()) && disasm.traceInstruction == old(disasm.traceInstruction)
      ensures disasm.str == Text(Load(cpu.S().mem, VaddrToPaddr(cpu.pc), 4), cpu.pc) && disasm.pc == cpu.pc
    {
      hide Text, LoadOk, Load, VaddrToPaddr;
      var word := cpu.bus.LoadWord(VaddrToPaddr(cpu.pc));
      disasm.TraceBegin(word, cpu.pc);
    }

    // psycho_step: tracing does not disturb the machine, and what it printed is the
    // word that the program counter pointed at, which is the one the step executed
    // unless the fetch faulted.
    method Step()
      requires Valid() && StepOk(cpu.S())
      requires disasm.traceInstruction ==> LoadOk(VaddrToPaddr(cpu.pc), 4)
      modifies this`tracing, cpu.Footprint(), disasm, tty, tty.data, result
      ensures Valid() && cpu.S() == Machine.Step(old(cpu.S()))
      ensures disasm.traceInstruction == old(disasm.traceInstruction)
      ensures tty.Contents() == ConsoleAfter(old(tty.Contents()), old(cpu.S()), enableTtyOutput)
      ensures tracing == ((old(tracing) || CallsPutchar(old(cpu.S()))) && waitingForReturn)
      ensures result[..] == ResultAfter(old(result[..]), old(cpu.S()))
      ensures disasm.traceInstruction ==>
                && disasm.str == Text(Load(old(cpu.S()).mem, VaddrToPaddr(old(cpu.pc)), 4), old(cpu.pc))
                && disasm.pc == old(cpu.pc)
      ensures disasm.traceInstruction && old(cpu.pc) % 4 == 0 ==>
                disasm.str == Text(cpu.instr, cpu.currPc) && disasm.pc == cpu.currPc
    {
      hide StepOk, Machine.Step, Text, LoadOk, Load, VaddrToPaddr, ConsoleAfter, ResultAfter, CallsPutchar;
      ghost var s := cpu.S();
      StepRecords(s);
      if disasm.traceInstruction {
        TraceShowsFetch(s);
        DisasmTraceBegin();
      }
      BiosTraceBegin();
      cpu.Step();
      BiosTraceEnd();
    }

    // psycho_exe_load
    method LoadExe(exe: seq<u8>) returns (code: ReturnCode)
      requires Valid() && ExeFits(exe)
      modifies cpu, cpu.gpr, cpu.bus.ram
      ensures Valid() && code == ExeCheck(exe) && cpu.S() == ExeLoad(old(cpu.S()), exe)
      ensures tty.Contents() == old(tty.Contents())
    {
      hide ExeLoad, ExeFits, Field, VaddrToPaddr, CopyCode, ExeDest, ExeSize, Wrap;
      RejectedLoads(cpu.S(), exe);
      if |exe| < EXE_MIN_SIZE {
        return EXE_SIZE_BAD;
      }
      if exe[..8] != EXE_ID {
        return EXE_ID_BAD;
      }
      ImageLoads(cpu.S(), exe);
      hide ExeCheck;
      cpu.LoadImage(exe, Field(exe, EXE_OFF_INITIAL_PC), Field(exe, EXE_OFF_INITIAL_GP), ExeDest(exe), ExeSize(exe),
                    Field(exe, EXE_OFF_INITIAL_SP_FP_BASE), Field(exe, EXE_OFF_INITIAL_SP_FP_OFF));
      return OK;
    }
  }

  lemma RejectedLoads(s: State, exe: seq<u8>)
    requires ExeFits(exe)
    ensures ExeCheck(exe) != OK ==> ExeLoad(s, exe) == s
  {
    hide Field, CopyCode, ExeFits;
  }

  // The whole load, in the terms of the header's fields.
  lemma ImageLoads(s: State, exe: seq<u8>)
    requires ExeCheck(exe) == OK && ExeFits(exe)
    ensures 0x800 + ExeSize(exe) <= |exe| && ExeDest(exe) + ExeSize(exe) <= RAM_SIZE
    ensures var pc, gp := Field(exe, EXE_OFF_INITIAL_PC), Field(exe, EXE_OFF_INITIAL_GP);
            var base, off := Field(exe, EXE_OFF_INITIAL_SP_FP_BASE), Field(exe, EXE_OFF_INITIAL_SP_FP_OFF);
            var dst, size := ExeDest(exe), ExeSize(exe);
            ExeLoad(s, exe) == s.(
              pc := pc, nextPc := Wrap(pc + 4),
              gpr := s.gpr[GPR_GP := gp]
                [GPR_SP := Wrap((if base != 0 then base else s.gpr[GPR_SP]) + off)]
                [GPR_FP := Wrap(base + off)],
              mem := s.mem.(ram := s.mem.ram[..dst] + exe[0x800..0x800 + size] + s.mem.ram[dst + size..]))
  {
    hide Field, VaddrToPaddr, Wrap;
  }

  // The traced word is the word the step executes.
  lemma TraceShowsFetch(s: State)
    requires StepOk(s) && LoadOk(VaddrToPaddr(s.pc), 4)
    ensures s.pc % 4 == 0 ==> FetchWord(s) == Load(s.mem, VaddrToPaddr(s.pc), 4)
  {
    hide LoadOk, Load, VaddrToPaddr, WordOk;
  }

  // A step leaves its word and its address in instr and curr_pc.
  lemma StepRecords(s: State)
    requires StepOk(s)
    ensures Machine.Step(s).instr == FetchWord(s)
    ensures s.pc % 4 == 0 ==> Machine.Step(s).currPc == s.pc
  {
    FrontKeeps(s, FetchWord(s));
    hide Front, DataOk, FetchWord, FetchOk;
  }
}
