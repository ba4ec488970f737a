// The virtual views of memory: where data accesses and fetches agree, and what
// one view sees of a store through another; the BIOS under every run.

module Views {
  import opened Words
  import opened Mips
  import opened Memory
  import opened Machine
  import opened Exceptions
  import opened Unaligned
  import Splice

  // Data and fetch translations agree exactly outside 1 MiB .. 16 MiB.
  lemma TranslationsAgree(v: u32)
    ensures Translate(v) == VaddrToPaddr(v) <==> !(0x0010_0000 <= v <= 0x00FF_FFFF)
  {
    hide And;
  }

  // Which virtual addresses reach byte x of RAM: in every 512 MiB segment the same
  // offset, except that data accesses below 16 MiB repeat the first 1 MiB.
  lemma ViewsOfRam(v: u32, x: u32)
    requires x < RAM_SIZE
    ensures VaddrToPaddr(v) == x <==> v % 0x2000_0000 == x
    ensures Translate(v) == x <==> (if v <= 0x00FF_FFFF then v % 0x10_0000 else v % 0x2000_0000) == x
  {
    hide And;
    if v <= 0x00FF_FFFF {
      SmallMod(v, 0x2000_0000);
      SmallMod(v % 0x10_0000, 0x2000_0000);
    }
  }

  // A word stored at any virtual address is what a load at any address with the
  // same translation queues, and what a fetch from any such address executes.
  lemma StoreSeenThroughViews(s: State, x: u32, t: State, u: State)
    requires x % 4 == 0 && Writable(x, 4)
    requires Kind(s).SW? && !CacheIsolated(s.cop0) && DataPaddr(s) == x && DataOk(s)
    requires t.mem == Exec(s).mem && Kind(t).LW? && InstrRt(t.instr) != 0 && DataPaddr(t) == x && DataOk(t)
    requires u.mem == Exec(s).mem && u.pc % 4 == 0 && VaddrToPaddr(u.pc) == x
    ensures RegEffect(t) == Deferred(InstrRt(t.instr), B(s))
    ensures FetchOk(u) && FetchWord(u) == B(s)
  {
    hide Decode, Exec, Load, LoadOk, Store, StoreOk, DataPaddr, DataOk, FetchOk, FetchWord, CacheIsolated, RegEffect, Writable,
         VaddrToPaddr;
    StoreReaches(s, x);
    WritableLoads(x);
    StoreRoundTrip(s.mem, x, 4, B(s));
    LoadSees(t, x);
    FetchSees(u, x);
  }

  lemma LoadSees(t: State, x: u32)
    requires x % 4 == 0 && Writable(x, 4)
    requires Kind(t).LW? && InstrRt(t.instr) != 0 && DataPaddr(t) == x && DataOk(t)
    ensures LoadOk(x, 4) && RegEffect(t) == Deferred(InstrRt(t.instr), Load(t.mem, x, 4))
  {
    WritableLoads(x);
    AlignmentOfWord(t, x);
    hide Decode, DataPaddr, DataOk, Misaligned, AccessPaddr, Load, LoadOk, Splice.Lwl, Splice.Lwr, Byte, Writable;
  }

  lemma FetchSees(u: State, x: u32)
    requires Writable(x, 4) && u.pc % 4 == 0 && VaddrToPaddr(u.pc) == x
    ensures LoadOk(x, 4) && FetchOk(u) && FetchWord(u) == Load(u.mem, x, 4)
  {
    WritableLoads(x);
    hide VaddrToPaddr, Load, LoadOk, Writable;
  }

  lemma AlignmentOfWord(s: State, x: u32)
    requires x % 4 == 0 && DataPaddr(s) == x && (Kind(s).LW? || Kind(s).SW?)
    ensures !Misaligned(s) && AccessPaddr(s) == x
  {
    hide Decode, DataPaddr, CacheIsolated;
  }

  lemma WritableLoads(x: u32)
    requires Writable(x, 4)
    ensures LoadOk(x, 4) && StoreOk(x, 4)
  {
  }

  lemma StoreReaches(s: State, x: u32)
    requires x % 4 == 0 && Writable(x, 4)
    requires Kind(s).SW? && !CacheIsolated(s.cop0) && DataPaddr(s) == x && DataOk(s)
    ensures StoreOk(x, 4) && Exec(s).mem == Store(s.mem, x, 4, B(s))
  {
    WritableLoads(x);
    AlignmentOfWord(s, x);
    hide Decode, Store, Load, DataVaddr, DataPaddr, AccessPaddr, Misaligned, CacheIsolated, DataOk, GprAfter, Cop0After, HiLoAfter,
         Writable, Byte;
  }

  // ---- the BIOS

  lemma StepKeepsBios(s: State, w: u32)
    requires WordOk(s, w)
    ensures StepWord(s, w).mem.bios == s.mem.bios
  {
    FrontKeeps(s, w);
    var f := Front(s, w);
    hide Front, DataOk, Decode, GprAfter, LdNextAfter, LdPendAfter, HiLoAfter, Cop0After, PcAfter, NextPcAfter, Transfers, StoreValue, Byte;
  }

  // No run ever changes a byte of the BIOS.
  lemma {:induction false} RunKeepsBios(tr: seq<State>, i: nat)
    requires IsRun(tr) && i < |tr|
    ensures tr[i].mem.bios == tr[0].mem.bios
  {
    if i > 0 {
      RunKeepsBios(tr, i - 1);
      RunStep(tr, i - 1);
      StepKeepsBios(tr[i - 1], FetchWord(tr[i - 1]));
    }
  }
}
