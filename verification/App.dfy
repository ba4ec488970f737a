// The application's main loop: load the executable when the BIOS reaches its
// shell, and step for ever.

module App {
  import opened Words
  import opened Mips
  import opened Memory
  import opened Machine
  import opened LoadDelayQueue
  import opened Tty
  import opened Context

  const SHELL_PC: u32 := 0x8003_0000

  // The machine that one iteration steps.
  function Loaded(s: State, exe: seq<u8>): State
    requires ExeFits(exe)
  {
    if s.pc == SHELL_PC then ExeLoad(s, exe) else s
  }

  // The machine before each iteration.
  ghost predicate IsSession(tr: seq<State>, exe: seq<u8>)
    requires ExeFits(exe)
  {
    |tr| > 0 && forall i :: 0 <= i < |tr| - 1 ==> StepOk(Loaded(tr[i], exe)) && tr[i + 1] == Step(Loaded(tr[i], exe))
  }

  // The characters printed by the first n iterations.
  ghost function Stream(tr: seq<State>, exe: seq<u8>, n: nat): string
    requires ExeFits(exe) && n <= |tr|
  {
    if n == 0 then []
    else
      var s := Loaded(tr[n - 1], exe);
      Stream(tr, exe, n - 1) + (if CallsPutchar(s) then [CharOf(s)] else [])
  }

  // The trace of an iteration peeks at an address inside the arrays.
  ghost predicate TraceOk(tr: seq<State>, exe: seq<u8>)
    requires ExeFits(exe)
  {
    forall i :: 0 <= i < |tr| - 1 ==> LoadOk(VaddrToPaddr(Loaded(tr[i], exe).pc), 4)
  }

  lemma StreamFeeds(t: Console, tr: seq<State>, exe: seq<u8>, n: nat)
    requires ExeFits(exe) && n < |tr| && t.len < TTY_SIZE
    ensures ConsoleAfter(Feed(t, Stream(tr, exe, n)), Loaded(tr[n], exe), true) == Feed(t, Stream(tr, exe, n + 1))
  {
    hide Feed, PutChar, Loaded, CallsPutchar;
    var s := Loaded(tr[n], exe);
    if CallsPutchar(s) {
      FeedAppend(t, Stream(tr, exe, n), CharOf(s));
    } else {
      assert Stream(tr, exe, n + 1) == Stream(tr, exe, n);
    }
  }

  // One iteration. What psycho_exe_load returns is never zero, so main's test of it
  // never fails, and a bad executable is stepped over.
  method Iterate(ctx: Psycho, exe: seq<u8>)
    requires ctx.Valid() && ExeFits(exe) && StepOk(Loaded(ctx.cpu.S(), exe))
    requires ctx.disasm.traceInstruction ==> LoadOk(VaddrToPaddr(Loaded(ctx.cpu.S(), exe).pc), 4)
    modifies ctx`tracing, ctx.cpu.Footprint(), ctx.disasm, ctx.tty, ctx.tty.data, ctx.result
    ensures ctx.Valid() && ctx.cpu.S() == Step(Loaded(old(ctx.cpu.S()), exe))
    ensures ctx.disasm.traceInstruction == old(ctx.disasm.traceInstruction)
    ensures ctx.tty.Contents() == ConsoleAfter(old(ctx.tty.Contents()), Loaded(old(ctx.cpu.S()), exe), ctx.enableTtyOutput)
  {
    hide StepOk, Step, ExeLoad, ExeFits, ConsoleAfter, CallsPutchar, LoadOk, VaddrToPaddr, ResultAfter;
    if ctx.cpu.pc == SHELL_PC {
      var _ := ctx.LoadExe(exe);
    }
    ctx.Step();
  }

  // The first n iterations of the loop, whose states are tr.
  method Run(ctx: Psycho, exe: seq<u8>, n: nat, ghost tr: seq<State>)
    requires ctx.Valid() && ExeFits(exe) && IsSession(tr, exe) && |tr| == n + 1 && tr[0] == ctx.cpu.S()
    requires ctx.disasm.traceInstruction ==> TraceOk(tr, exe)
    modifies ctx`tracing, ctx.cpu.Footprint(), ctx.disasm, ctx.tty, ctx.tty.data, ctx.result
    ensures ctx.Valid() && ctx.cpu.S() == tr[n]
    ensures ctx.tty.Contents() ==
      if ctx.enableTtyOutput then Feed(old(ctx.tty.Contents()), Stream(tr, exe, n)) else old(ctx.tty.Contents())
  {
    hide StepOk, Step, ExeLoad, ExeFits, Feed, ConsoleAfter, CallsPutchar, LoadOk, VaddrToPaddr, ResultAfter, Loaded;
    ghost var t0 := ctx.tty.Contents();
    assert Feed(t0, []) == t0 by { FeedNothing(t0); }
    var i := 0;
    while i < n
      invariant i <= n && ctx.Valid() && ctx.cpu.S() == tr[i]
      invariant ctx.disasm.traceInstruction == old(ctx.disasm.traceInstruction)
      invariant ctx.tty.Contents() == if ctx.enableTtyOutput then Feed(t0, Stream(tr, exe, i)) else t0
    {
      assert StepOk(Loaded(tr[i], exe)) && tr[i + 1] == Step(Loaded(tr[i], exe));
      StreamFeeds(t0, tr, exe, i);
      DisabledIsSilent(t0, Loaded(tr[i], exe));
      Iterate(ctx, exe);
      i := i + 1;
    }
  }

  lemma FeedNothing(t: Console)
    requires t.len < TTY_SIZE
    ensures Feed(t, []) == t
  {
  }

  lemma DisabledIsSilent(t: Console, s: State)
    requires t.len < TTY_SIZE
    ensures ConsoleAfter(t, s, false) == t
  {
  }

  // Everything main does around its files: after n iterations the messages are the
  // complete lines printed so far and the buffer holds the rest.
  method Boot(ramData: array<u8>, biosData: array<u8>, exe: seq<u8>, n: nat, ghost tr: seq<State>) returns (ctx: Psycho)
    requires ramData.Length == RAM_SIZE && biosData.Length == BIOS_SIZE && ramData != biosData
    requires ExeFits(exe) && IsSession(tr, exe) && |tr| == n + 1 && TraceOk(tr, exe)
    requires tr[0] == InitialState(ramData[..], biosData[..])
    modifies ramData
    ensures ctx.Valid() && ctx.cpu.S() == tr[n] && Inv(tr[n])
    ensures var text, console := Stream(tr, exe, n), ctx.tty.Contents();
            '\0' !in text && LinesFit(text, 0) ==>
              && console.messages == Lines([], text)
              && Concat(console.messages) + console.data[..console.len] == text
  {
    hide StepOk, ExeLoad, ExeFits, Feed, InitialState, IsSession, TraceOk, Inv;
    ghost var ram, bios := ramData[..], biosData[..];
    SessionKeepsInv(tr, ram, bios, exe, n);
    ctx := new Psycho(ramData, biosData);
    ctx.enableTtyOutput := true;
    ctx.disasm.traceInstruction := true;
    Run(ctx, exe, n, tr);
    ghost var text := Stream(tr, exe, n);
    if '\0' !in text && LinesFit(text, 0) {
      MessagesAreLines(text);
    }
  }

  // A session is a history of loads and steps, so it keeps the invariant.
  lemma {:induction false} SessionKeepsInv(tr: seq<State>, ram: Ram, bios: Bios, exe: seq<u8>, n: nat)
    requires ExeFits(exe) && IsSession(tr, exe) && n < |tr| && tr[0] == InitialState(ram, bios)
    ensures Inv(tr[n])
  {
    hide StepOk, Step, ExeLoad, ExeFits;
    if n > 0 {
      SessionKeepsInv(tr, ram, bios, exe, n - 1);
      assert tr[n - 1 + 1] == Step(Loaded(tr[n - 1], exe));
      LoadKeepsInv(tr[n - 1], exe);
      StepInv(Loaded(tr[n - 1], exe));
    }
  }
}
