# A verified model of the psycho CPU core

psycho interprets the PlayStation's MIPS I processor. This project models its core: the
interpreter step with its two-slot load-delay queue and two-deep program-counter pipeline, the
exception and mode machinery of coprocessor 0, the address-decoded bus, the disassembler, the
executable loader, the TTY line buffer and the main loop around them. It proves what these
promise together over whole runs, for every instruction word, every register value and every
memory content.

## How the model is built

The C code changes one context in place, and so does the model: `BusDevice.Bus`,
`Interpreter.Cpu`, `TracerDevice.Tracer`, `Tty.TtyBuffer` and `Context.Psycho` are classes with
the source's fields and arrays, whose methods follow the source's functions and its two-level
switch. Each method is proved against a pure specification:

- `Machine` gives the step as a function from state to state, component by component (what an
  instruction does to one register, to hi and lo, to coprocessor 0, to the program counters, to
  memory) instead of case by case. `Interpreter.Cpu.Step` equals it exactly, memory included.
- A run (`Machine.IsRun`) is a sequence of states, each the step of the one before. Every
  theorem about runs is about all of them.
- `Memory` is the bus as a function; `Words` and `Splice` tie the source's masks and shifts to
  the numbers and bytes they stand for; `Disassembly` is the printed text.

The specification is then held against independent descriptions: a history of register effects
(`LoadDelayQueue`), the delay-slot recurrence (`ControlFlow`), a 32-step shift-and-subtract
divider and exact products (`Arithmetic`), the architecture's exception rule (`Exceptions`), a
stack of mode bits under any nesting (`ModeStack`), a byte map (`Memory`, `Unaligned`,
`Reference`), the second decoder of the same words (`DisassemblyMeaning`,
`DisassemblyExact`), and the lines of a character stream (`Tty`).

`Encoding` writes instruction words from the numbers of the opcode tables, and `Architecture`,
`Operations`, `Faults`, `MemoryMap`, `Image` and `Printing` then state each instruction, exception,
address range, file position and printed line by number, without the model's own tables and
constants. `Runs` carries them to runs.

`dafny verify dfyconfig.toml` checks the whole project.

Words are integers in their range; every wrap, cut and sign extension of the C types is written
out. Storage starts zeroed, as the application's static variables do.

## Where the code differs from what one might expect

- `calc_branch_addr` cuts the shifted offset to 16 bits before extending it. A branch reaches its
  architectural target if and only if its offset lies in -8192..8191
  (`Mips.BranchTargetExact`).
- A misaligned fetch raises before `curr_pc` is updated, so EPC names the previous instruction,
  and the handler's first instruction executes in the same step (`ControlFlow.FetchFaultEntry`).
  From an aligned start this happens exactly two steps after a JR to a misaligned address whose
  delay slot raised nothing (`ControlFlow.FetchFaultCause`).
- The data watchpoint raises but does not stop the access, and a misaligned access under it
  raises twice.
- The source's comment on EPC speaks of a restart location; no branch-delay bit is set and EPC is
  not moved back for an exception in a delay slot. `SystemCall.CallReturns` holds in a delay slot
  too, but then resumes after the delay slot instead of at the branch's target.
- The disassembler has formats for SRLV and SRAV, but both cases fall out of the switch and are
  printed as illegal words. SYSCALL, BREAK, RFE and most BCOND codes have no format
  (`DisassemblyMeaning.ListedIllegal` is exact).
- DIVU is printed as `div`, and a coprocessor register without a name is a null string for
  `%s`; the model renders it as `(null)`. These are the only ambiguities of the text, and
  `DisassemblyExact.TextDeterminesStep` says exactly when they matter.
- What `psycho_exe_load` returns is never zero, so the main loop's test of it never fails.
- Data accesses below 16 MiB fold onto the first 1 MiB, fetches do not
  (`Views.TranslationsAgree`).

## Model

| member | source | states |
|---|---|---|
| Interpreter.Cpu.Step | core/cpu.c:185-690 | the in-place step, from any state whose accesses stay inside the arrays, leaves every register, program counter, queue slot, flag and memory byte as the specification's step does |
| LoadDelayQueue.QueueRefinesHistory | core/cpu.c:67-87 | every instruction of every run sees in every register the last write that landed, where a load lands one effect late and only if that effect is not about its register |
| LoadDelayQueue.LoadLands | core/cpu.c:82-87 | a load issued at step k, its register left alone at k+1, is seen at k+2 with its value and not yet at k+1 |
| LoadDelayQueue.LoadNeverLands | core/cpu.c:159-171 | on a run, when step k+1 writes or loads the register of the load at step k, step k+2 sees the value written or else the value from before, and what any later step sees is what it would see had the queue held any other value, the later effects being what they are (an LWL or LWR at k+1 merges the pending value into its own effect) |
| LoadDelayQueue.LoadCancelled | core/cpu.c:162-165 | in any history, an effect on a register makes the value of a load of it right before irrelevant to every later value |
| LoadDelayQueue.NextFront | core/cpu.c:159-171 | from one executing instruction to the next, a register changes only by a direct write or by the load in ldNext that nobody cancelled, and the queue holds just the new load |
| LoadDelayQueue.StepKeepsInv | core/cpu.c:675-680 | both ways out of the switch keep gpr[0] zero, empty slots zero and the two slots on different registers |
| LoadDelayQueue.RunKeepsInv | core/cpu.c:185-690 | that invariant along any run |
| LoadDelayQueue.FrontInv | core/cpu.c:196-209 | no instruction is ever dispatched with a non-zero gpr[0] or an occupied ldPend |
| Context.ReachableInv | core/ctx.c:57-124 | the invariant in every state reachable from power-on by steps, resets and executable loads in any order |
| ControlFlow.DelaySlot | core/cpu.c:40-65 | if steps n and n+1 raise nothing and the fetch of n+2 is aligned, address n+2 is the target of step n when it transferred control, else address n+1 plus 4 modulo 2^32 |
| ControlFlow.AddressesAligned | core/cpu.c:196-209 | every executed address is a multiple of 4, and in_branch_delay_slot holds exactly after a branch or jump that did not fault |
| ControlFlow.BranchReachesTarget | core/cpu.c:51-53 | a taken branch outside a delay slot is at its architectural target two steps later if and only if its offset is in -8192..8191 |
| ControlFlow.ExceptionEntry | core/cpu.c:123-125 | after an exception the next address is the last vector raised and the one after it the next word, unless the handler raises in turn |
| ControlFlow.FetchFaultEntry | core/cpu.c:201-206 | a misaligned fetch executes at 0x80 in the same step, with EPC at the instruction of the step before |
| ControlFlow.FetchFaultCause | core/cpu.c:239-241 | from an aligned start a fetch faults if and only if the step two before was a JR to a misaligned address and the step between raised nothing |
| ControlFlow.StepPcs | core/cpu.c:201-209 | how the two-deep pipeline of program counters moves through fetch and execution in any step of a run |
| Mips.BranchTargetExact | core/cpu-defs.h:183-187 | the computed target is pc + 4 + 4 * signed(imm) modulo 2^32 if and only if signed(imm) is in -8192..8191 |
| Mips.BranchTargetAligned | core/cpu-defs.h:183-187 | a branch target from an aligned address is aligned, cut offset or not |
| Mips.JumpTargetAligned | core/cpu-defs.h:178-181 | a jump target is aligned from anywhere |
| Mips.CalcJmpAddr | core/cpu-defs.h:178-181 | the OR of the shifted target and the top nibble loses nothing: it is their sum |
| Mips.VaddrToPaddr | core/cpu-defs.h:189-195 | the mask is the remainder by 2^29, but for the cache-control address, which is kept |
| ModeStack.BalancedNesting | core/cpu.c:111-116 | any balanced sequence of exceptions and returns leaves SR above bit 5 alone, the current pair exactly as it was up to depth 2 and zero beyond, the previous pair as it was up to depth 1, the current pair's copy at 2, zero beyond |
| ModeStack.RunRestoresModes | core/cpu.c:429-439 | the same over whole runs in which software does not write SR, counting raises and not steps |
| ModeStack.RunSr | core/cpu.c:89-126 | along such a run SR is the initial SR under exactly the run's raises and returns in order, several to a step when a step raises twice |
| ModeStack.RaisePushes | core/cpu.c:114-116 | the mask-and-shift of an exception pushes kernel mode with interrupts off onto the three pairs and drops the oldest |
| ModeStack.RfePops | core/cpu.c:432-437 | RFE pops the three pairs, the oldest staying in place |
| Machine.RaiseSr | core/cpu.c:114-116 | the value of the pushed SR as a number: the bits above 5 plus four times the low four bits |
| Machine.RfeSr | core/cpu.c:432-437 | the value of the popped SR as a number |
| Machine.RaiseCause | core/cpu.c:120-121 | Cause keeps bits 8-15 and gains the code, nothing else |
| SystemCall.CallReturns | core/cpu.c:256-258 | SYSCALL at a, then MFC0 k0,EPC; ADDIU k0,k0,4; JR k0; RFE at 0x80: five steps later control is at a+4, SR's low four bits and bits above 5 are back, and no register but k0 differs other than by loads already in flight |
| SystemCall.CallRuns | core/cpu.c:204-209 | from every state at such a call with the handler in place those five steps exist: none of them leaves the arrays |
| SystemCall.ModesRestored | core/cpu.c:111-116 | one exception and one RFE restore SR's low four bits and everything above bit 5 |
| Exceptions.RaisesExactly | core/cpu.c:345-371 | from every state an instruction raises the watchpoint exactly when its access matches it, and then exactly the exception of the architecture's rule, stated on exact sums and effective addresses, each once |
| Exceptions.PreciseStep | core/cpu.c:89-126 | a step that raises by that rule changes no memory, hi, lo or register beyond the landing load, queues nothing, records its address in EPC and continues at 0x80, the watchpoint having raised before it or not; JALR changes its link register besides, and cancels a load of it |
| Exceptions.PreciseExec | core/cpu.c:243-254 | the raising instruction as a whole: the state with only the exceptions applied, JALR having written its link first |
| Exceptions.RaiseCop0Meaning | core/cpu.c:108-121 | EPC is the address, Cause keeps only bits 8-15 plus the code, SR keeps bits above 5 with kernel mode and interrupts off, all other coprocessor registers are kept |
| Exceptions.AlignmentOf | core/cpu.c:528-531 | an access faults exactly when the virtual address is misaligned for its width, although the code tests the translated one |
| Arithmetic.DivuIsSerial | core/cpu.c:330-343 | for all operand pairs, zero divisor included, hi and lo are what a 32-iteration restoring divider produces |
| Arithmetic.DivIsSerial | core/cpu.c:300-328 | the same divider on magnitudes with signs put back explains DIV on all operand pairs, the zero divisor and 0x80000000 / -1 included |
| Arithmetic.DividerInvariant | core/cpu.c:301-303 | after i iterations the divider holds quotient and remainder of the top i bits; by zero, i ones and the bits themselves |
| Arithmetic.DivExact | core/cpu.c:323-326 | on non-zero divisors lo * divisor + hi is the dividend if and only if the pair is not 0x80000000 / -1; the remainder is smaller than the divisor and has the dividend's sign |
| Arithmetic.DivuExact | core/cpu.c:330-343 | unsigned quotient and remainder identity on all pairs, and what a zero divisor leaves |
| Arithmetic.MultExact | core/cpu.c:280-288 | hi:lo read as a 64-bit two's-complement number is the exact signed product, although the multiplication is unsigned and wraps |
| Arithmetic.MultuExact | core/cpu.c:290-298 | hi:lo is the exact unsigned product |
| Families.ProductReadBack | core/cpu.c:264-298 | MULT or MULTU followed by MFHI and MFLO puts the exact product in the two registers, whatever loads are in flight |
| Families.ExecUntrapped | core/cpu.c:345-375 | ADD, SUB or ADDI that does not overflow does to the whole state what ADDU, SUBU or ADDIU with the same fields does |
| Families.FamiliesInterchangeable | core/cpu.c:475-489 | replacing every trapping addition of a program that never overflows leaves every state of its execution the same but for the recorded word |
| Unaligned.UnalignedRoundTrip | core/cpu.c:540-557 | SWL and SWR then LWL and LWR, at any alignment and either order in each pair, leave the stored word queued for the destination whatever it held, even when it is the base; exactly the four addressed bytes change |
| Unaligned.UnalignedRun | core/cpu.c:595-612 | the same for a run that fetches the four words from memory the stores do not touch; the instruction after next sees the word |
| Unaligned.PairRoundTrip | core/cpu.c:633-673 | on memory alone: loading a stored pair returns the word for every address, order and old value |
| Unaligned.StorePairBytes | core/cpu.c:633-645 | a store pair writes the register's four bytes at the four addresses and no others |
| Unaligned.LoadPairBytes | core/cpu.c:540-612 | a load pair assembles the four addressed bytes, nothing of the old value remaining |
| Splice.Lwl | core/cpu.c:546-553 | which byte of the result of the masks and shifts comes from the word and which from the register, for each alignment |
| Splice.Lwr | core/cpu.c:601-608 | likewise for the right-hand load |
| Splice.Swl | core/cpu.c:637-641 | likewise for the left-hand store |
| Splice.Swr | core/cpu.c:665-669 | likewise for the right-hand store |
| DisassemblyExact.TextDeterminesStep | core/disasm.c:97-389 | two words printed alike at some address do the same to every state, but for the recorded word, if and only if they are not DIV against DIVU with a dividend that is neither $zero nor the divisor's register, nor MFC0 of different registers to one other than $zero, nor MTC0 to different registers |
| DisassemblyExact.AmbiguitiesOccur | core/disasm.c:179-268 | all three occur: words with the same text and states that they change differently |
| DisassemblyMeaning.ListedIllegal | core/disasm.c:113-386 | a word is printed as illegal if and only if the CPU takes it for illegal or it is SRLV, SRAV, SYSCALL, BREAK, RFE or a BCOND whose rt is not 0, 1 or 16 |
| DisassemblyMeaning.ShiftListedIllegal | core/disasm.c:137-145 | an SRLV word that the CPU executes and the listing calls illegal |
| DisassemblyMeaning.LineReadBack | core/disasm.c:97-389 | equal text means equal format and operands, but for DIV against DIVU and for unnamed coprocessor registers |
| DisassemblyMeaning.LineFields | core/disasm.c:113-381 | an equal line means the words decode alike in the CPU's switch and agree in every field their instruction uses |
| DisassemblyMeaning.AlikeExec | core/cpu.c:211-678 | words that decode alike and agree in the fields used do the same to every state |
| DisassemblyMeaning.TextFits | core/include/core/disasm.h:32-43 | no word's text overruns the result buffer |
| Printing.SpecialText | core/disasm.c:114-228 | the text of every register instruction with a format, its operands in the architecture's order |
| Printing.MainText | core/disasm.c:235-381 | the text of every immediate instruction, load, store and branch, with the address that the branch goes to |
| Printing.JumpText | core/disasm.c:275-281 | the text of a jump, with the address it goes to |
| Printing.Cop0Text | core/disasm.c:257-268 | the text of the moves from and to coprocessor 0, the destination first |
| Printing.NopText | core/disasm.c:117-118 | the zero word is printed as nop |
| Printing.FieldsAreNumbers | core/disasm.c:120-239 | the digits printed for an immediate, an address or a shift amount stand for its value |
| DisassemblyReading.NameReadBack | core/disasm.c:113-386 | the mnemonic can be read back from its text, but for DIVU |
| DisassemblyReading.GprReadBack | core/disasm.c:34-71 | register names are distinct |
| DisassemblyReading.CprReadBack | core/disasm.c:73-89 | coprocessor names are distinct, the unnamed ones being told from all named ones |
| DisassemblyReading.HexInjective | core/disasm.c:238-239 | fixed-width hexadecimal printing is injective on the numbers that fit |
| DisassemblyReading.DecInjective | core/disasm.c:120-121 | decimal printing of shift amounts is injective |
| TracerDevice.Tracer.Instr | core/disasm.c:97-389 | the switch that fills the result buffer, with its cases that fall through, leaves exactly the text and its length |
| TracerDevice.Tracer.TraceBegin | core/disasm.c:391-399 | the result is replaced by the word's text and the current pc |
| TracerDevice.Tracer.Special | core/disasm.c:114-233 | the special group returns with its line in the buffer, or leaves the switch only for words that are to be printed as illegal |
| Memory.LoadIsBytes | core/bus.c:35-100 | in RAM and scratchpad a load of any width is the little-endian combination of byte loads |
| Memory.StoreThenByte | core/bus.c:102-162 | a store changes exactly its own bytes, wherever in RAM or scratchpad one looks afterwards |
| Memory.StoreThenLoad | core/bus.c:35-162 | any later load of any width and overlap sees one byte map |
| Memory.StoreRoundTrip | core/bus.c:102-162 | the stored value is read back, cut to the width of the access |
| Memory.StoreKeepsBios | core/bus.c:115-121 | BIOS bytes survive every store, and a store to an unmapped address does nothing |
| Views.RunKeepsBios | core/bus.c:102-162 | no run changes a byte of the BIOS |
| Views.TranslationsAgree | core/cpu.c:152-156 | data and fetch translations agree on a virtual address if and only if it is outside 0x00100000..0x00FFFFFF |
| Views.ViewsOfRam | core/cpu.c:152-156 | exactly which virtual addresses reach a byte of RAM by fetches, and which by data accesses |
| Views.StoreSeenThroughViews | core/cpu.c:144-157 | a word stored at any virtual address into RAM or scratchpad is what a load at any address with that translation queues, and what a fetch from any such address executes |
| BusDevice.Bus.constructor | core/include/core/bus.h:47-51 | a bus around given RAM and BIOS arrays with zeroed scratchpad |
| BusDevice.Bus.LoadWord | core/bus.c:35-59 | the decoded word read equals the specification's load, all ones where nothing answers |
| BusDevice.Bus.LoadHalfword | core/bus.c:61-81 | likewise for halfwords, which the BIOS does not answer |
| BusDevice.Bus.LoadByte | core/bus.c:83-100 | likewise for bytes |
| BusDevice.Bus.StoreWord | core/bus.c:102-121 | the arrays afterwards are the specification's store of four bytes, everything else kept |
| BusDevice.Bus.StoreHalfword | core/bus.c:123-142 | likewise for two bytes |
| BusDevice.Bus.StoreByte | core/bus.c:144-162 | likewise for one byte |
| Encoding.DecodeEncode | core/cpu-defs.h:34-171 | the word written from any instruction's fields with the architecture's opcode and function numbers decodes to that instruction, and every field is read back |
| Encoding.EncodeDecode | core/cpu-defs.h:34-110 | every word that is not illegal is the encoding of the instruction read from its numeric fields |
| Encoding.IllegalExactly | core/cpu.c:401-403 | a word is illegal if and only if no instruction encodes to it |
| Architecture.BranchLaw | core/cpu.c:407-473 | on the numbers in the two registers, when each branch takes the address of its offset and when next_pc stays; the link register of the linking codes; nothing else changes |
| Architecture.JumpLaw | core/cpu.c:449-457 | J and JAL go to four times the target in the current 256 MiB region, JAL leaving the address after its delay slot in register 31 |
| Architecture.JumpRegisterLaw | core/cpu.c:239-254 | JR goes to its register, JALR to its register if that is aligned, with the address after its delay slot in rd |
| Architecture.HiLoLaw | core/cpu.c:264-278 | which of hi, lo and the register each of the four moves changes, and to what |
| Architecture.Cop0Law | core/cpu.c:419-447 | a move from or to any coprocessor register, by the rs field alone, and RFE on the bits of register 12 |
| Architecture.MultiplyDivideLaw | core/cpu.c:280-343 | the words of the four instructions leave the exact products, and what the bit-serial divider leaves, of rs and rt in that order |
| Operations.ArithLaw | core/cpu.c:345-399 | the ten three-register instructions change rd alone, to the exact or congruent sum or difference, the connective of every bit, or the comparison |
| Operations.ShiftLaw | core/cpu.c:213-237 | the six shifts change rd alone, to the product or quotient by a power of two of rt |
| Operations.ImmediateLaw | core/cpu.c:475-513 | the eight immediate instructions change rt alone, signed and zero-extended immediates told apart |
| Operations.AddressLaw | core/cpu.c:144-157 | the physical address of an access from the register, the signed offset and the three ranges of virtual addresses |
| Operations.LoadLaw | core/cpu.c:515-593 | an aligned load queues for rt the little-endian number at its physical address, extended as its width asks, and cancels a landing load of rt |
| Operations.StoreLaw | core/cpu.c:614-659 | an aligned store writes the low bytes of rt at its physical address and changes no register |
| Operations.IsolatedStoreLaw | core/cpu.c:647-649 | with bit 16 of coprocessor register 12 set SW leaves everything as it was |
| Operations.MergeLoadLaw | core/cpu.c:540-612 | LWL and LWR queue the merge of the aligned word with the value rt is about to have |
| Operations.MergeStoreLaw | core/cpu.c:633-673 | SWL and SWR store the merge of rt with the aligned word |
| Faults.SpecialTrapLaw | core/cpu.c:243-262 | a system call leaves code 8 in Cause, a breakpoint 9, an overflow 12, a jump to a misaligned address 4, with EPC at the instruction and the modes pushed |
| Faults.MainTrapLaw | core/cpu.c:475-659 | ADDI leaves code 12 on overflow, a misaligned load 4 and a misaligned store 5, likewise |
| Faults.FetchTrapLaw | core/cpu.c:201-206 | a misaligned fetch leaves code 4 and dispatches the handler's first instruction |
| Faults.WatchTrapLaw | core/cpu.c:137-141 | the watchpoint alone leaves code 9 and continues at 0x80000040 |
| Faults.WatchLaw | core/cpu.c:128-137 | the watchpoint matches exactly when bit 23 or 25 of register 7 is set and the address agrees with register 5 in every bit selected by register 9 |
| Faults.QuietLaw | core/cpu.c:211-678 | without an exception control goes on, and coprocessor 0 changes only by MTC0 and RFE |
| Runs.BranchRun | core/cpu.c:40-54 | two steps after a branch a run is at the target or past the delay slot, by the numbers in the registers |
| Runs.JumpRun | core/cpu.c:56-65 | two steps after J or JAL a run is at the target |
| Runs.JumpRegisterRun | core/cpu.c:239-254 | two steps after JR or an aligned JALR a run is at the register's address |
| Runs.NextState | core/cpu.c:185-690 | what the laws say of the dispatched instruction holds of the next state of a run |
| Runs.HiLoReadBack | core/cpu.c:264-278 | MTHI then MFHI moves a register through hi and keeps lo, MTLO then MFLO through lo and keeps hi, whatever loads are in flight |
| MemoryMap.LoadMap | core/bus.c:35-100 | by physical address: the bytes of RAM, scratchpad and BIOS that a load of each width reads, no halfwords from the BIOS, ones where nothing answers |
| MemoryMap.StoreMap | core/bus.c:102-162 | by physical address: which bytes of RAM or scratchpad a store overwrites, and that it changes nothing anywhere else |
| MemoryMap.FirstFetch | core/cpu.c:173-183 | after a reset the first instruction is at 0xBFC00000 and is the first word of the BIOS image |
| MemoryMap.FirstPowerOnFetch | core/ctx.c:47-60 | the same at power-on, with every register zero |
| Reference.SignedMeaning | core/cpu.c:305-306 | the signed reading of a word is the one number in two's-complement range congruent to it |
| Reference.LogicalBits | core/cpu.c:377-391 | every bit of AND, OR, XOR, NOR and their immediate forms is the connective of the operands' bits |
| Reference.ShiftMeaning | core/cpu.c:213-237 | left shifts multiply modulo 2^32, right shifts round down the quotient by a power of two, the arithmetic one of the signed value; variable amounts count modulo 32 |
| Reference.SumMeaning | core/cpu.c:357-375 | the wrapping sums and differences are congruent to the exact ones modulo 2^32 |
| Reference.ExactSums | core/cpu.c:345-371 | where ADD, SUB and ADDI do not trap their results are the exact signed sums |
| Reference.LoadMeaning | core/cpu.c:515-593 | aligned loads are the little-endian bytes of memory, zero- or sign-extended |
| Reference.StoreMeaning | core/cpu.c:614-659 | an aligned store puts the register's low bytes at its addresses and keeps every other byte of RAM and scratchpad |
| Machine.BcondTaken | core/cpu.c:409-415 | the XOR with rt's shifted low bit tests for negative or non-negative as that bit says |
| Machine.BcondLinks | core/cpu.c:408-413 | the link mask selects exactly the codes 0x10 and 0x11 |
| Interpreter.Cpu.constructor | app/main.c:44-48 | zeroed storage followed by a reset is the initial state |
| Interpreter.Cpu.Reset | core/cpu.c:173-183 | control and queue are reset and the registers, hi, lo and memory are kept |
| Interpreter.Cpu.BranchIf | core/cpu.c:40-54 | the flag is set, next_pc changes only on a met condition, displaced inside a delay slot |
| Interpreter.Cpu.Jmp | core/cpu.c:56-65 | the flag is set and next_pc is the target, nothing else |
| Interpreter.Cpu.GprSetDelayed | core/cpu.c:67-80 | a load is queued, a landing load of the same register is dropped, a load of register 0 leaves the state alone |
| Interpreter.Cpu.LoadDelayProcess | core/cpu.c:82-87 | one load lands, the queue moves up and its tail is empty |
| Interpreter.Cpu.RaiseException | core/cpu.c:89-126 | coprocessor 0 and the program counters change, nothing else |
| Interpreter.Cpu.DbgDataBpChk | core/cpu.c:128-142 | the watchpoint raises at the debug vector exactly on an enabled match, and otherwise leaves the state alone |
| Interpreter.Cpu.GetPhysAddr | core/cpu.c:144-157 | the folded translation of the effective address, after the watchpoint |
| Interpreter.Cpu.GprSet | core/cpu.c:159-171 | the register is written and a landing load of it dropped |
| Interpreter.Cpu.Prepare | core/cpu.c:196-202 | flags, queue and fetch fault in the source's order |
| Interpreter.Cpu.Fetch | core/cpu.c:196-209 | the state at the switch: word, address and pipeline as the specification has them |
| Interpreter.Cpu.Execute | core/cpu.c:211-678 | the two-level switch has the specified effect on every legal word and leaves the state alone on the others |
| Interpreter.Cpu.ExecuteShift | core/cpu.c:214-224 | the constant shifts have the specified effect on the whole state |
| Interpreter.Cpu.ExecuteShiftVariable | core/cpu.c:226-237 | the variable shifts have the specified effect on the whole state |
| Interpreter.Cpu.ExecuteJumpRegister | core/cpu.c:239-254 | JR and JALR, with JALR reading its target before linking and linking before it faults |
| Interpreter.Cpu.ExecuteTrap | core/cpu.c:256-262 | SYSCALL and BREAK raise and do nothing else |
| Interpreter.Cpu.ExecuteMoveHiLo | core/cpu.c:264-278 | the moves from and to hi and lo |
| Interpreter.Cpu.ExecuteMultiply | core/cpu.c:280-298 | the products in hi and lo, no register touched |
| Interpreter.Cpu.ExecuteDivide | core/cpu.c:300-343 | the quotients and remainders in hi and lo, no register touched |
| Interpreter.Cpu.DivideSigned | core/cpu.c:305-326 | the three branches of DIV together are one function of the operands |
| Interpreter.Cpu.DivideUnsigned | core/cpu.c:330-343 | the two branches of DIVU together are one function of the operands |
| Interpreter.Cpu.ExecuteAddSub | core/cpu.c:345-375 | an overflow raises and writes nothing, otherwise the sum or difference is written |
| Interpreter.Cpu.ExecuteLogical | core/cpu.c:377-391 | the logical group has the specified effect on the whole state |
| Interpreter.Cpu.ExecuteCompare | core/cpu.c:393-399 | the comparisons have the specified effect on the whole state |
| Interpreter.Cpu.ExecuteBcond | core/cpu.c:407-417 | the link is written before the branch, whose condition was read before it |
| Interpreter.Cpu.ExecuteCop0 | core/cpu.c:419-447 | MFC0, MTC0 and RFE |
| Interpreter.Cpu.ExecuteJump | core/cpu.c:449-457 | J and JAL, the latter linking first |
| Interpreter.Cpu.ExecuteBranch | core/cpu.c:459-473 | the four comparing branches |
| Interpreter.Cpu.ExecuteArithImmediate | core/cpu.c:475-497 | the arithmetic immediates, ADDI raising on overflow and writing nothing then |
| Interpreter.Cpu.ExecuteLogicImmediate | core/cpu.c:499-513 | the logical immediates, zero-extended, and LUI |
| Interpreter.Cpu.ExecuteLoad | core/cpu.c:515-593 | watchpoint, alignment check and load in the source's order; a misaligned access under the watchpoint raises twice |
| Interpreter.Cpu.ExecuteLoadUnaligned | core/cpu.c:540-612 | LWL and LWR merge into the value the register is about to have |
| Interpreter.Cpu.ExecuteStore | core/cpu.c:614-659 | the aligned stores; SW does nothing at all while the cache is isolated |
| Interpreter.Cpu.ExecuteStoreUnaligned | core/cpu.c:633-673 | SWL and SWR rewrite their part of the aligned word |
| Interpreter.Cpu.InitPointers | core/ctx.c:110-118 | the stack and frame pointers set in the source's order have their header values, the stack pointer kept when the base is zero |
| Interpreter.Cpu.LoadImage | core/ctx.c:99-118 | program counters, pointers and RAM are replaced, the rest of the state is kept |
| BusDevice.Bus.CopyToRam | core/ctx.c:107-108 | the copy replaces exactly its range of RAM |
| Image.HeaderLaw | core/ctx.c:33-121 | by byte position of the file: the entry address at 16, the global pointer at 20, destination and size at 24 and 28, the stack's base and offset at 48 and 52, the code from 2048 on in exactly its range of RAM, all else unchanged |
| Image.CheckLaw | core/ctx.c:93-97 | the two rejections exactly: fewer than 2048 bytes, or another name in the first eight |
| Image.ShellRunsExecutable | app/main.c:196-209 | when a session reaches 0x80030000 the same iteration executes the word of the file that the entry address names |
| Image.SessionIsRun | app/main.c:196-209 | until then a session is a run |
| Context.PutcharLaw | core/bios-trace.c:123-131 | the low byte of register 4 is printed exactly when pc is 0xB0, register 9 is 0x3D and output is enabled |
| Context.CodeIsInRam | core/ctx.c:104-108 | after a successful load RAM is the file's code on exactly the destination range and unchanged elsewhere |
| Context.FirstInstruction | core/ctx.c:99-108 | when the initial pc is aligned and its word lies in the range, the next step fetches the file's word, and sees the header's GP, SP and FP where no load is about to land |
| Context.Header | core/ctx.c:99-118 | pc, GP, SP and FP after a load in terms of the header, and every other register, the queue, coprocessor 0 and the other memories unchanged |
| Context.Psycho.LoadExe | core/ctx.c:82-124 | the two checks in order with their codes; nothing changes when one fails |
| Context.Psycho.constructor | core/ctx.c:47-60 | the context on zeroed storage around given RAM and BIOS images is in the initial state, with tracing off and an empty console |
| Context.Psycho.Step | core/ctx.c:62-75 | tracing does not disturb the machine; the text traced is that of the word at pc, which is the word and address the step executed unless the fetch faulted; the console and the trace of a putchar call receive its character |
| Context.Psycho.DisasmTraceBegin | core/disasm.c:391-399 | the text of the word at the current pc is printed without changing the machine |
| Context.Psycho.BiosTraceBegin | core/bios-trace.c:123-136 | exactly when pc is 0xB0 and t1 is 0x3D the call is traced with its prototype's text, and its character reaches the console if output is enabled |
| Context.Psycho.BiosTraceEnd | core/bios-trace.c:138-147 | the traced function is forgotten unless its return is awaited |
| Prototype.ProcessPrototype | core/bios-trace.c:97-121 | for any prototype whose text fits, the buffer starts with the prototype with the argument for each %c, then a terminator, and is otherwise unchanged |
| Prototype.TraceText | core/bios-trace.c:32-52 | the text that a call is traced as, for every character |
| Prototype.ProcessArgChar | core/bios-trace.c:82-95 | the quoted argument is written at its place and nothing else |
| Prototype.TraceFits | core/bios-trace.c:32-41 | the traced prototype's text fits the result buffer for every character |
| Prototype.ArgumentReadBack | core/bios-trace.c:43-52 | the text of any prototype with a specifier tells its argument, escaped or not |
| App.Iterate | app/main.c:196-210 | one iteration of the main loop steps the machine, having loaded the executable first if control had reached the shell |
| App.Run | app/main.c:196-210 | after n iterations the machine is the n-th state of the session, and the console has been fed exactly the characters of the session's putchar calls if output is enabled, and nothing otherwise |
| App.Boot | app/main.c:190-210 | from power-on with output enabled, after n iterations the messages are the complete lines printed and with the buffer make up everything printed, whenever the lines fit |
| App.SessionKeepsInv | app/main.c:196-210 | every state of a session has a sound register file and queue |
| Tty.MessagesAreLines | core/bios-trace.c:54-80 | on a stream without NULs whose lines fit, one message per newline, each a complete line, the rest in the buffer, and together the whole stream |
| Tty.ConservedExactly | core/bios-trace.c:71-79 | the stream is conserved with every message terminated inside the buffer if and only if no line exceeds 255 characters with its newline |
| Tty.LinesFitLengths | core/bios-trace.c:72-78 | the lines fit if and only if each has at most 255 characters with its newline, the unfinished one included |
| Tty.WrapsAround | core/bios-trace.c:71-79 | without a newline nothing is handed out and the buffer is a ring: its length counts modulo 256 and it holds the last 256 characters in their places |
| Tty.PutChar | core/bios-trace.c:56-79 | the length is below the buffer size on every entry, for any stream at all |
| Tty.TtyBuffer.HandleOutput | core/bios-trace.c:54-80 | the buffer updated in place, its length and the messages handed out are the specification's |

## Left out

- Accesses past the declared arrays: the bus's inclusive case ranges reach past them, which is
  undefined in C, so a step requires its fetch and its data access to lie inside (`FetchOk`,
  `DataOk`); `Context.Psycho.LoadExe` likewise requires the header's sizes to fit file and RAM, which
  the source does not check.
- Tty.PutChar: a message without a terminator in the buffer ends at the buffer's end, where the C
  reader would run on.
- ControlFlow.BranchReachesTarget: says nothing of a branch inside a delay slot. The displacement
  is in the step, but there is no architectural target to compare it with.
- Exceptions.PreciseStep: makes no claim of restart from a delay slot, for which the source keeps
  too little.
- Logging and message formatting, including the event callback's own effects: the callback is
  taken not to touch the context, and of its events only TTY messages are recorded.
- App.Run: goes on after an illegal instruction, at which the application's event handler ends the
  process, and counts iterations where the application loops for ever.
- The rest of the application in `app/main.c`: files and terminal output.
- Big-endian hosts: `memcpy` conversions are little-endian.
- The switches `psycho_tty_stdout_enable` and `psycho_disasm_trace_instruction_enable`, which
  assign one flag each.
- Hardware the source does not implement: interrupts, timers, GPU, DMA, GTE, caches beyond the
  isolate test of SW.
