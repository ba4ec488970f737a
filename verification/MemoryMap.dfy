// The memory map by number: what answers at each physical address, and the first
// instruction of the machine.

module MemoryMap {
  import opened Words
  import opened Mips
  import opened Memory
  import opened Machine
  import opened Context
  import opened ControlFlow

  // The little-endian number of n bytes of an array.
  function Number(cells: seq<u8>, i: nat, n: Width): u32
    requires i + n <= |cells|
  {
    ComposeFits(cells[i..i + n]);
    Compose(cells[i..i + n])
  }

  lemma ComposeFits(b: seq<u8>)
    requires |b| == 1 || |b| == 2 || |b| == 4
    ensures Compose(b) <= UINT32_MAX
  {
    ComposeGet(b);
  }

  lemma NumberIsGet(cells: seq<u8>, i: nat, n: Width)
    requires i + n <= |cells|
    ensures Number(cells, i, n) == Get(cells, i, n)
  {
    ComposeGet(cells[i..i + n]);
  }

  // Loads. RAM answers from 0, the scratchpad from 0x1F800000 and, to bytes and
  // words only, the BIOS from 0x1FC00000; elsewhere every load reads ones.
  lemma LoadMap(m: Mem, p: u32, n: Width)
    ensures p + n <= 0x20_0000 ==> LoadOk(p, n) && Load(m, p, n) == Number(m.ram, p, n)
    ensures 0x1F80_0000 <= p && p + n <= 0x1F80_03FF ==>
              LoadOk(p, n) && Load(m, p, n) == Number(m.scratchpad, p - 0x1F80_0000, n)
    ensures 0x1FC0_0000 <= p && p + n <= 0x1FC7_FFFF && n != 2 ==>
              LoadOk(p, n) && Load(m, p, n) == Number(m.bios, p - 0x1FC0_0000, n)
    ensures 0x1FC0_0000 <= p && p + n <= 0x1FC7_FFFF && n == 2 ==> LoadOk(p, n) && Load(m, p, n) == 0xFFFF
    ensures 0x20_0000 < p < 0x1F80_0000 || 0x1F80_03FF < p < 0x1FC0_0000 || 0x1FC7_FFFF < p ==>
              LoadOk(p, n) && Load(m, p, n) == if n == 1 then 0xFF else if n == 2 then 0xFFFF else 0xFFFF_FFFF
  {
    hide Get, Compose;
    if p + n <= 0x20_0000 {
      NumberIsGet(m.ram, p, n);
    } else if 0x1F80_0000 <= p && p + n <= 0x1F80_03FF {
      NumberIsGet(m.scratchpad, p - 0x1F80_0000, n);
    } else if 0x1FC0_0000 <= p && p + n <= 0x1FC7_FFFF {
      NumberIsGet(m.bios, p - 0x1FC0_0000, n);
    }
  }

  // cells with the low n bytes of v written at i, the least significant first.
  predicate Overwritten(before: seq<u8>, after: seq<u8>, i: nat, n: Width, v: u32) {
    && |after| == |before|
    && forall j :: 0 <= j < |before| ==> after[j] == if i <= j < i + n then Byte(v, j - i) else before[j]
  }

  // Stores. Only RAM and the scratchpad change, each at its own bytes.
  lemma StoreMap(m: Mem, p: u32, n: Width, v: u32)
    ensures p + n <= 0x20_0000 ==>
              StoreOk(p, n) && var t := Store(m, p, n, v);
              Overwritten(m.ram, t.ram, p, n, v) && t == m.(ram := t.ram)
    ensures 0x1F80_0000 <= p && p + n <= 0x1F80_03FF ==>
              StoreOk(p, n) && var t := Store(m, p, n, v);
              Overwritten(m.scratchpad, t.scratchpad, p - 0x1F80_0000, n, v) && t == m.(scratchpad := t.scratchpad)
    ensures 0x20_0000 < p < 0x1F80_0000 || 0x1F80_03FF < p ==> StoreOk(p, n) && Store(m, p, n, v) == m
  {
    hide Byte;
  }

  // After a reset the first instruction is the first word of the BIOS.
  lemma FirstFetch(s: State, w: u32)
    ensures var t := ResetCpu(s);
            && FetchOk(t) && FetchWord(t) == Number(s.mem.bios, 0, 4)
            && Front(t, w).currPc == 0xBFC0_0000 && Front(t, w).pc == 0xBFC0_0004 && !Front(t, w).inDelaySlot
            && t.gpr == s.gpr && t.mem == s.mem
  {
    var t := ResetCpu(s);
    hide FetchOk, FetchWord, Number, Front;
    assert t.pc == 0xBFC0_0000 && t.nextPc == 0xBFC0_0004;
    BiosFetch(t);
    FrontPcs(t, w);
  }

  lemma BiosFetch(s: State)
    requires s.pc == 0xBFC0_0000
    ensures FetchOk(s) && FetchWord(s) == Number(s.mem.bios, 0, 4)
  {
    hide Number, Load, LoadOk, VaddrToPaddr;
    BiosAddress(s.pc);
    LoadMap(s.mem, 0x1FC0_0000, 4);
  }

  lemma BiosAddress(v: u32)
    requires v == 0xBFC0_0000
    ensures VaddrToPaddr(v) == 0x1FC0_0000
  {
    hide And;
  }

  // The same at power-on, with every register zero.
  lemma FirstPowerOnFetch(ram: Ram, bios: Bios)
    ensures var t := InitialState(ram, bios);
            && t.pc == 0xBFC0_0000 && t.nextPc == 0xBFC0_0004 && FetchOk(t) && FetchWord(t) == Number(bios, 0, 4)
            && (forall r: RegIndex :: t.gpr[r] == 0 && t.cop0[r] == 0)
            && t.mem.ram == ram && t.mem.bios == bios
  {
    var t := InitialState(ram, bios);
    hide FetchOk, FetchWord, Number;
    assert t.pc == 0xBFC0_0000;
    BiosFetch(t);
  }
}
