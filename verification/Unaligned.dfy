// SWL/SWR and LWL/LWR: a word stored at any alignment by the one pair is read
// back by the other.

module Unaligned {
  import opened Words
  import opened Mips
  import opened Memory
  import opened Machine
  import opened Effects
  import opened LoadDelayQueue
  import opened Exceptions
  import opened ControlFlow
  import Splice

  // ---- the four accesses on memory; q is the address of the most significant
  // byte, p that of the least significant one

  predicate WordWritable(p: u32) {
    Writable(Aligned(p), 4)
  }

  lemma AlignedWord(p: u32)
    ensures Aligned(p) % 4 == 0 && p == Aligned(p) + p % 4
    ensures WordWritable(p) ==> Aligned(p) + 4 <= 0x1_0000_0000
    ensures WordWritable(p) ==> LoadOk(Aligned(p), 4) && StoreOk(Aligned(p), 4)
  {
    AlignedIsAligned(p);
    if WordWritable(p) {
      WritableBytes(Aligned(p), 4, 3);
    }
  }

  function StoreLeft(m: Mem, q: u32, x: u32): Mem
    requires WordWritable(q)
  {
    AlignedWord(q);
    Store(m, Aligned(q), 4, Splice.Swl(Load(m, Aligned(q), 4), x, q % 4))
  }

  function StoreRight(m: Mem, p: u32, x: u32): Mem
    requires WordWritable(p)
  {
    AlignedWord(p);
    Store(m, Aligned(p), 4, Splice.Swr(Load(m, Aligned(p), 4), x, p % 4))
  }

  function LoadLeft(m: Mem, q: u32, val: u32): u32
    requires WordWritable(q)
  {
    AlignedWord(q);
    Splice.Lwl(val, Load(m, Aligned(q), 4), q % 4)
  }

  function LoadRight(m: Mem, p: u32, val: u32): u32
    requires WordWritable(p)
  {
    AlignedWord(p);
    Splice.Lwr(val, Load(m, Aligned(p), 4), p % 4)
  }

  // Byte j of a loaded word is the byte j above its address.
  lemma WordByte(m: Mem, a: u32, j: nat)
    requires Writable(a, 4) && j < 4
    ensures a + j <= UINT32_MAX && Writable(a + j, 1) && LoadOk(a, 4)
    ensures Byte(Load(m, a, 4), j) == ByteAt(m, a + j)
  {
    WritableBytes(a, 4, j);
    var c, off := Cells(m, StoreRegion(a)), Offset(a);
    Splice.Le4Bytes(c[off], c[off + 1], c[off + 2], c[off + 3]);
    hide Byte, Offset;
  }

  lemma StoreLeftByte(m: Mem, q: u32, x: u32, y: u32)
    requires WordWritable(q) && Writable(y, 1)
    ensures ByteAt(StoreLeft(m, q, x), y)
         == if Aligned(q) <= y <= q then Byte(x, y + 3 - q) else ByteAt(m, y)
  {
    hide Store, ByteAt, Byte, Load, Writable, Aligned;
    AlignedWord(q);
    var a, k := Aligned(q), q % 4;
    var v := Splice.Swl(Load(m, a, 4), x, k);
    StoreThenByte(m, a, 4, v, y);
    if a <= y < a + 4 {
      WordByte(m, a, y - a);
    }
  }

  lemma StoreRightByte(m: Mem, p: u32, x: u32, y: u32)
    requires WordWritable(p) && Writable(y, 1)
    ensures ByteAt(StoreRight(m, p, x), y)
         == if p <= y < Aligned(p) + 4 then Byte(x, y - p) else ByteAt(m, y)
  {
    hide Store, ByteAt, Byte, Load, Writable, Aligned;
    AlignedWord(p);
    var a, k := Aligned(p), p % 4;
    var v := Splice.Swr(Load(m, a, 4), x, k);
    StoreThenByte(m, a, 4, v, y);
    if a <= y < a + 4 {
      WordByte(m, a, y - a);
    }
  }

  lemma LoadLeftByte(m: Mem, q: u32, val: u32, j: nat)
    requires WordWritable(q) && q >= 3 && j < 4
    ensures q - 3 + j >= Aligned(q) ==> Writable(q - 3 + j, 1)
    ensures Byte(LoadLeft(m, q, val), j)
         == if q - 3 + j >= Aligned(q) then ByteAt(m, q - 3 + j) else Byte(val, j)
  {
    hide ByteAt, Byte, Load, Writable, Aligned;
    AlignedWord(q);
    if q - 3 + j >= Aligned(q) {
      WordByte(m, Aligned(q), j + q % 4 - 3);
    }
  }

  lemma LoadRightByte(m: Mem, p: u32, val: u32, j: nat)
    requires WordWritable(p) && j < 4
    ensures p + j < Aligned(p) + 4 ==> p + j <= UINT32_MAX && Writable(p + j, 1)
    ensures Byte(LoadRight(m, p, val), j)
         == if p + j < Aligned(p) + 4 then ByteAt(m, p + j) else Byte(val, j)
  {
    hide ByteAt, Byte, Load, Writable, Aligned;
    AlignedWord(p);
    if p + j < Aligned(p) + 4 {
      WordByte(m, Aligned(p), j + p % 4);
    }
  }

  // ---- the pairs

  ghost predicate SpanWritable(p: u32) {
    p + 3 <= UINT32_MAX && WordWritable(p) && WordWritable(p + 3)
  }

  ghost function StorePair(m: Mem, p: u32, x: u32, leftFirst: bool): Mem
    requires SpanWritable(p)
  {
    if leftFirst then StoreRight(StoreLeft(m, p + 3, x), p, x)
    else StoreLeft(StoreRight(m, p, x), p + 3, x)
  }

  ghost function LoadPair(m: Mem, p: u32, val: u32, leftFirst: bool): u32
    requires SpanWritable(p)
  {
    if leftFirst then LoadRight(m, p, LoadLeft(m, p + 3, val))
    else LoadLeft(m, p + 3, LoadRight(m, p, val))
  }

  lemma SpanWords(p: u32)
    requires p + 3 <= UINT32_MAX
    ensures Aligned(p) <= Aligned(p + 3) <= Aligned(p) + 4 && Aligned(p + 3) <= p + 3 && p < Aligned(p) + 4
    ensures Aligned(p) <= p <= Aligned(p + 3)
  {
    AlignedWord(p);
    AlignedWord(p + 3);
    var u, v := p / 4, (p + 3) / 4;
    assert Aligned(p) == 4 * u && Aligned(p + 3) == 4 * v && u <= v <= u + 1;
  }

  // The store pair changes exactly the four bytes from p, whatever the order.
  lemma StorePairBytes(m: Mem, p: u32, x: u32, leftFirst: bool, y: u32)
    requires SpanWritable(p) && Writable(y, 1)
    ensures ByteAt(StorePair(m, p, x, leftFirst), y) == if p <= y < p + 4 then Byte(x, y - p) else ByteAt(m, y)
  {
    hide StoreLeft, StoreRight, ByteAt, Byte, Writable, Aligned;
    SpanWords(p);
    StoreLeftByte(m, p + 3, x, y);
    StoreRightByte(m, p, x, y);
    StoreRightByte(StoreLeft(m, p + 3, x), p, x, y);
    StoreLeftByte(StoreRight(m, p, x), p + 3, x, y);
  }

  lemma StorePairBios(m: Mem, p: u32, x: u32, leftFirst: bool)
    requires SpanWritable(p)
    ensures StorePair(m, p, x, leftFirst).bios == m.bios
  {
    hide Load, Byte;
  }

  // The load pair assembles the four bytes from p, whatever the order and the old value.
  lemma LoadPairBytes(m: Mem, p: u32, val: u32, leftFirst: bool, j: nat)
    requires SpanWritable(p) && j < 4
    ensures Writable(p + j, 1)
    ensures Byte(LoadPair(m, p, val, leftFirst), j) == ByteAt(m, p + j)
  {
    hide LoadLeft, LoadRight, ByteAt, Byte, Writable, Aligned;
    SpanWords(p);
    LoadLeftByte(m, p + 3, val, j);
    LoadRightByte(m, p, val, j);
    LoadRightByte(m, p, LoadLeft(m, p + 3, val), j);
    LoadLeftByte(m, p + 3, LoadRight(m, p, val), j);
  }

  lemma PairRoundTrip(m: Mem, p: u32, x: u32, val: u32, storeLeftFirst: bool, loadLeftFirst: bool)
    requires SpanWritable(p)
    ensures LoadPair(StorePair(m, p, x, storeLeftFirst), p, val, loadLeftFirst) == x
  {
    hide StorePair, LoadPair, ByteAt, Byte, Writable;
    var m' := StorePair(m, p, x, storeLeftFirst);
    var r := LoadPair(m', p, val, loadLeftFirst);
    forall j | 0 <= j < 4 ensures Byte(r, j) == Byte(x, j) {
      LoadPairBytes(m', p, val, loadLeftFirst, j);
      StorePairBytes(m, p, x, storeLeftFirst, p + j);
    }
    ByteSum(r);
    ByteSum(x);
  }

  // ---- the instructions

  // No load in flight is about to land in r.
  ghost predicate NotInFlight(s: State, r: RegIndex) {
    r == 0 || (s.ldNext.dst != r && s.ldPend.dst != r)
  }

  // The physical address an instruction of offset imm and base b accesses.
  function Translate(vaddr: u32): u32 {
    VaddrToPaddr(FoldVaddr(vaddr))
  }

  function Accessed(s: State, w: u32): u32 {
    Translate(GetVaddr(InstrImm(w), s.gpr[InstrRs(w)]))
  }

  // A front keeps registers no load is about to land in, and the watchpoint off.
  lemma FrontOperands(s: State, w: u32, r: RegIndex)
    requires Inv(s) && (r == 0 || s.ldNext.dst != r)
    ensures Front(s, w).gpr[r] == s.gpr[r]
    ensures WatchEnabled(Front(s, w).cop0) == WatchEnabled(s.cop0)
  {
    hide RaiseSr, RaiseCause;
  }

  lemma FrontAccess(s: State, w: u32)
    requires Inv(s) && !WatchEnabled(s.cop0) && (InstrRs(w) == 0 || s.ldNext.dst != InstrRs(w))
    ensures var f := Front(s, w); DataPaddr(f) == Accessed(s, w) && WithWatch(f, DataVaddr(f)) == f
  {
    var f := Front(s, w);
    FrontOperands(s, w, InstrRs(w));
    FrontKeeps(s, w);
    hide Front, Decode, WatchEnabled, GetVaddr, VaddrToPaddr, FoldVaddr;
  }

  lemma StoreStep(s: State, w: u32)
    requires WordOk(s, w) && Inv(s) && !WatchEnabled(s.cop0)
    requires Decode(w).SWL? || Decode(w).SWR?
    requires NotInFlight(s, InstrRs(w)) && NotInFlight(s, InstrRt(w))
    requires WordWritable(Accessed(s, w))
    ensures var t, q, x := StepWord(s, w), Accessed(s, w), s.gpr[InstrRt(w)];
            && t.mem == (if Decode(w).SWL? then StoreLeft(s.mem, q, x) else StoreRight(s.mem, q, x))
            && t.gpr == LoadDelay(s).gpr && t.ldNext == s.ldPend && t.ldPend == EMPTY
            && Inv(t) && !WatchEnabled(t.cop0)
  {
    var f := Front(s, w);
    FrontOperands(s, w, InstrRs(w));
    FrontOperands(s, w, InstrRt(w));
    FrontKeeps(s, w);
    FrontInv(s, w);
    StepKeepsInv(s, w);
    FrontAccess(s, w);
    hide Front, DataOk, Decode, Exec, WatchEnabled, WithWatch, DataVaddr, DataPaddr, Accessed, StoreLeft, StoreRight, WordWritable, Inv;
    ExecStorePart(f);
  }

  lemma ExecStorePart(f: State)
    requires DataOk(f) && (Kind(f).SWL? || Kind(f).SWR?) && f.gpr[0] == 0
    requires WordWritable(DataPaddr(f)) && WithWatch(f, DataVaddr(f)) == f
    ensures Exec(f) == f.(mem := if Kind(f).SWL? then StoreLeft(f.mem, DataPaddr(f), B(f))
                                 else StoreRight(f.mem, DataPaddr(f), B(f)))
  {
    hide DataOk, Decode, Exec, WithWatch, DataVaddr, DataPaddr, Splice.Swl, Splice.Swr, Byte, Store, Load, WordWritable;
    assert f.gpr[0 := 0] == f.gpr;
    ExecStoreMerge(f);
  }

  lemma LoadStep(s: State, w: u32)
    requires WordOk(s, w) && Inv(s) && !WatchEnabled(s.cop0)
    requires (Decode(w).LWL? || Decode(w).LWR?) && InstrRt(w) != 0
    requires s.ldNext == EMPTY && WordWritable(Accessed(s, w))
    ensures var t, q, d := StepWord(s, w), Accessed(s, w), InstrRt(w);
            var val := if s.ldPend.dst == d then s.ldPend.val else s.gpr[d];
            && t.ldPend == Slot(d, if Decode(w).LWL? then LoadLeft(s.mem, q, val) else LoadRight(s.mem, q, val))
            && t.ldNext == (if s.ldPend.dst == d then EMPTY else s.ldPend)
            && t.mem == s.mem && t.gpr == s.gpr && Inv(t) && !WatchEnabled(t.cop0)
  {
    var f := Front(s, w);
    FrontOperands(s, w, InstrRs(w));
    FrontOperands(s, w, InstrRt(w));
    FrontKeeps(s, w);
    FrontInv(s, w);
    StepKeepsInv(s, w);
    FrontAccess(s, w);
    assert s.gpr[0 := 0] == s.gpr;
    hide Front, DataOk, Decode, Exec, WatchEnabled, WithWatch, DataVaddr, DataPaddr, Accessed, LoadLeft, LoadRight, WordWritable, Inv;
    ExecLoadPart(f);
  }

  lemma ExecLoadPart(f: State)
    requires DataOk(f) && (Kind(f).LWL? || Kind(f).LWR?) && f.gpr[0] == 0
    requires WordWritable(DataPaddr(f)) && WithWatch(f, DataVaddr(f)) == f
    ensures Exec(f) == WithDelayed(f, InstrRt(f.instr), if Kind(f).LWL? then LoadLeft(f.mem, DataPaddr(f), Forwarded(f))
                                                        else LoadRight(f.mem, DataPaddr(f), Forwarded(f)))
  {
    hide DataOk, Decode, Exec, WithWatch, DataVaddr, DataPaddr, Splice.Lwl, Splice.Lwr, Byte, Load, WordWritable, Forwarded;
    assert f.gpr[0 := 0] == f.gpr;
    ExecLoadMerge(f);
  }

  // ---- four instructions

  // ws is a pair of unaligned accesses to offset imm+3 and imm of base b.
  ghost predicate IsPair(w0: u32, w1: u32, left: Mnemonic, right: Mnemonic, leftFirst: bool, b: RegIndex, r: RegIndex, imm: int) {
    var l, rt := if leftFirst then w0 else w1, if leftFirst then w1 else w0;
    && Decode(l) == left && Decode(rt) == right
    && InstrRs(l) == b && InstrRs(rt) == b && InstrRt(l) == r && InstrRt(rt) == r
    && SignedImm(InstrImm(rt)) == imm && SignedImm(InstrImm(l)) == imm + 3
  }

  lemma OffsetAdds(imm: u16, base: u32)
    ensures GetVaddr(imm, base) == Wrap(base + SignedImm(imm))
  {
    if imm >= 0x8000 {
      WrapIs(SignExt16(imm) + base, (base + SignedImm(imm)) / 0x1_0000_0000 + 1, Wrap(base + SignedImm(imm)));
    }
  }

  lemma PairAddresses(s: State, w0: u32, w1: u32, left: Mnemonic, right: Mnemonic, leftFirst: bool, b: RegIndex, r: RegIndex, imm: int)
    requires IsPair(w0, w1, left, right, leftFirst, b, r, imm)
    ensures var l, rt := if leftFirst then w0 else w1, if leftFirst then w1 else w0;
            && Accessed(s, rt) == Translate(Wrap(s.gpr[b] + imm))
            && Accessed(s, l) == Translate(Wrap(s.gpr[b] + imm + 3))
  {
    hide Decode, InstrRs, InstrRt, InstrImm, Translate, SignedImm, GetVaddr;
    var l, rt := if leftFirst then w0 else w1, if leftFirst then w1 else w0;
    OffsetAdds(InstrImm(l), s.gpr[b]);
    OffsetAdds(InstrImm(rt), s.gpr[b]);
  }

  // v and v+3 translate to consecutive bytes of writable words.
  ghost predicate SpanAt(vaddr: int, p: u32) {
    SpanWritable(p) && Translate(Wrap(vaddr)) == p && Translate(Wrap(vaddr + 3)) == p + 3
  }

  lemma StorePairSteps(s: State, w0: u32, w1: u32, leftFirst: bool, b: RegIndex, r: RegIndex, imm: int, p: u32)
    requires WordOk(s, w0) && WordOk(StepWord(s, w0), w1)
    requires Inv(s) && !WatchEnabled(s.cop0) && NotInFlight(s, b) && NotInFlight(s, r)
    requires IsPair(w0, w1, SWL, SWR, leftFirst, b, r, imm) && SpanAt(s.gpr[b] + imm, p)
    ensures var t := StepWord(StepWord(s, w0), w1);
            && t.mem == StorePair(s.mem, p, s.gpr[r], leftFirst)
            && t.ldNext == EMPTY && t.ldPend == EMPTY && Inv(t) && !WatchEnabled(t.cop0)
            && t.gpr[b] == s.gpr[b]
  {
    hide WordOk, StepWord, WatchEnabled, Decode, Translate, StoreLeft, StoreRight, WordWritable, Accessed, InstrRs, InstrRt;
    PairAddresses(s, w0, w1, SWL, SWR, leftFirst, b, r, imm);
    StoreStep(s, w0);
    var s1 := StepWord(s, w0);
    assert s1.gpr[b] == s.gpr[b] && s1.gpr[r] == s.gpr[r];
    PairAddresses(s1, w0, w1, SWL, SWR, leftFirst, b, r, imm);
    StoreStep(s1, w1);
  }

  lemma LoadPairSteps(s: State, w0: u32, w1: u32, leftFirst: bool, b: RegIndex, r: RegIndex, imm: int, p: u32)
    requires WordOk(s, w0) && WordOk(StepWord(s, w0), w1)
    requires Inv(s) && !WatchEnabled(s.cop0) && s.ldNext == EMPTY && s.ldPend == EMPTY && r != 0
    requires IsPair(w0, w1, LWL, LWR, leftFirst, b, r, imm) && SpanAt(s.gpr[b] + imm, p)
    ensures var t := StepWord(StepWord(s, w0), w1);
            && t.mem == s.mem && t.gpr == s.gpr
            && t.ldPend == Slot(r, LoadPair(s.mem, p, s.gpr[r], leftFirst)) && t.ldNext == EMPTY && Inv(t)
  {
    hide WordOk, StepWord, WatchEnabled, Decode, Translate, LoadLeft, LoadRight, WordWritable, Accessed, InstrRs, InstrRt;
    PairAddresses(s, w0, w1, LWL, LWR, leftFirst, b, r, imm);
    LoadStep(s, w0);
    var s1 := StepWord(s, w0);
    PairAddresses(s1, w0, w1, LWL, LWR, leftFirst, b, r, imm);
    LoadStep(s1, w1);
  }

  // Store a word with SWL and SWR, load it back with LWL and LWR: at any alignment,
  // with either order inside each pair, whatever the destination held, even when it
  // is the base register. The word is left queued for the destination; exactly the
  // four bytes from p have changed.
  lemma UnalignedRoundTrip(s: State, ws: seq<u32>, storeLeftFirst: bool, loadLeftFirst: bool,
                           b: RegIndex, src: RegIndex, dst: RegIndex, imm: int, p: u32)
    requires |ws| == 4 && WordsOk(s, ws)
    requires Inv(s) && !WatchEnabled(s.cop0) && NotInFlight(s, b) && NotInFlight(s, src) && dst != 0
    requires IsPair(ws[0], ws[1], SWL, SWR, storeLeftFirst, b, src, imm)
    requires IsPair(ws[2], ws[3], LWL, LWR, loadLeftFirst, b, dst, imm)
    requires SpanAt(s.gpr[b] + imm, p)
    ensures var t := RunWords(s, ws);
            && t.ldPend == Slot(dst, s.gpr[src]) && t.ldNext == EMPTY
            && t.mem.bios == s.mem.bios
            && forall y: u32 | Writable(y, 1) ::
                 ByteAt(t.mem, y) == if p <= y < p + 4 then Byte(s.gpr[src], y - p) else ByteAt(s.mem, y)
  {
    hide WordOk, StepWord, WatchEnabled, Decode, Translate, StorePair, LoadPair, WordWritable, InstrRs, InstrRt, ByteAt, Byte, IsPair;
    FourWords(s, ws);
    StorePairSteps(s, ws[0], ws[1], storeLeftFirst, b, src, imm, p);
    var s2 := StepWord(StepWord(s, ws[0]), ws[1]);
    LoadPairSteps(s2, ws[2], ws[3], loadLeftFirst, b, dst, imm, p);
    PairRoundTrip(s.mem, p, s.gpr[src], s2.gpr[dst], storeLeftFirst, loadLeftFirst);
    StorePairBios(s.mem, p, s.gpr[src], storeLeftFirst);
    forall y: u32 | Writable(y, 1)
      ensures ByteAt(s2.mem, y) == if p <= y < p + 4 then Byte(s.gpr[src], y - p) else ByteAt(s.mem, y)
    {
      StorePairBytes(s.mem, p, s.gpr[src], storeLeftFirst, y);
    }
  }

  lemma FourWords(s: State, ws: seq<u32>)
    requires |ws| == 4 && WordsOk(s, ws)
    ensures WordOk(s, ws[0]) && WordOk(StepWord(s, ws[0]), ws[1])
    ensures var s2 := StepWord(StepWord(s, ws[0]), ws[1]);
            && WordOk(s2, ws[2]) && WordOk(StepWord(s2, ws[2]), ws[3])
            && RunWords(s, ws) == StepWord(StepWord(s2, ws[2]), ws[3])
  {
    hide StepWord, WordOk;
    var s1 := StepWord(s, ws[0]);
    assert ws[1..][1..] == ws[2..] && ws[2..][1..] == ws[3..] && ws[3..][1..] == [];
    assert WordsOk(s1, ws[1..]);
    var s2 := StepWord(s1, ws[1]);
    assert WordsOk(s2, ws[2..]);
    var s3 := StepWord(s2, ws[2]);
    assert WordsOk(s3, ws[3..]);
    assert RunWords(s3, ws[3..]) == RunWords(StepWord(s3, ws[3]), []);
    assert RunWords(s2, ws[2..]) == RunWords(s3, ws[3..]);
    assert RunWords(s1, ws[1..]) == RunWords(s2, ws[2..]);
  }

  // ---- the same from code in memory

  // m' is m except in the four bytes from p.
  ghost predicate SameOutside(m: Mem, m': Mem, p: u32) {
    && m'.bios == m.bios
    && forall y: u32 | Writable(y, 1) && !(p <= y < p + 4) :: ByteAt(m', y) == ByteAt(m, y)
  }

  predicate Disjoint(f: u32, p: u32) {
    f + 4 <= p || p + 4 <= f
  }

  lemma LoadUnchanged(m: Mem, m': Mem, p: u32, f: u32)
    requires SameOutside(m, m', p) && LoadOk(f, 4) && Disjoint(f, p)
    ensures Load(m', f, 4) == Load(m, f, 4)
  {
    if RegionOf(f) == InRam || RegionOf(f) == InScratchpad {
      forall j | 0 <= j < 4 ensures Byte(Load(m', f, 4), j) == Byte(Load(m, f, 4), j) {
        WordByte(m, f, j);
        WordByte(m', f, j);
      }
      ByteSum(Load(m', f, 4));
      ByteSum(Load(m, f, 4));
    }
    hide Byte, Offset;
  }

  lemma FirstStoreOutside(m: Mem, p: u32, x: u32, leftFirst: bool)
    requires SpanWritable(p)
    ensures SameOutside(m, if leftFirst then StoreLeft(m, p + 3, x) else StoreRight(m, p, x), p)
  {
    hide ByteAt, Byte, Writable, Aligned, Load, Store;
    SpanWords(p);
    var m' := if leftFirst then StoreLeft(m, p + 3, x) else StoreRight(m, p, x);
    forall y: u32 | Writable(y, 1) && !(p <= y < p + 4) ensures ByteAt(m', y) == ByteAt(m, y) {
      StoreLeftByte(m, p + 3, x, y);
      StoreRightByte(m, p, x, y);
    }
    AlignedWord(p);
    AlignedWord(p + 3);
    assert m'.bios == m.bios by { StoreBios(m, p, x, leftFirst); }
  }

  lemma StoreBios(m: Mem, p: u32, x: u32, leftFirst: bool)
    requires SpanWritable(p)
    ensures (if leftFirst then StoreLeft(m, p + 3, x) else StoreRight(m, p, x)).bios == m.bios
  {
    hide Load, Byte;
  }

  lemma PairOutside(m: Mem, p: u32, x: u32, leftFirst: bool)
    requires SpanWritable(p)
    ensures SameOutside(m, StorePair(m, p, x, leftFirst), p)
  {
    hide ByteAt, Byte, Writable, StorePair;
    forall y: u32 | Writable(y, 1) && !(p <= y < p + 4)
      ensures ByteAt(StorePair(m, p, x, leftFirst), y) == ByteAt(m, y)
    {
      StorePairBytes(m, p, x, leftFirst, y);
    }
    StorePairBios(m, p, x, leftFirst);
  }

  predicate IsUnaligned(w: u32) {
    Decode(w).SWL? || Decode(w).SWR? || Decode(w).LWL? || Decode(w).LWR?
  }

  // With the watchpoint off, control just falls through an unaligned access.
  lemma FallsThrough(s: State, w: u32)
    requires WordOk(s, w) && IsUnaligned(w) && Inv(s) && !WatchEnabled(s.cop0) && s.pc % 4 == 0
    ensures StepWord(s, w).pc == s.nextPc && StepWord(s, w).nextPc == Wrap(s.nextPc + 4)
  {
    hide Front, DataOk, WatchEnabled, Exec, Decode, Traps, PcAfter, NextPcAfter, Taken, Target, Misaligned, AccessPaddr, FetchPc, LoadDelay;
    FrontOperands(s, w, 0);
    FrontKeeps(s, w);
    var f := Front(s, w);
    NeverMisaligned(f);
    QuietTraps(f);
    ExecPcs(f);
    QuietPc(f);
  }

  lemma QuietTraps(f: State)
    requires IsUnalignedAccess(Kind(f)) && !WatchEnabled(f.cop0) && !Misaligned(f)
    ensures Traps(f) == [] && !Taken(f)
  {
    hide Decode, WatchEnabled, Misaligned;
  }

  // Where the i-th instruction from the state comes from, if control falls through.
  function CodePc(s: State, i: nat): u32 {
    if i == 0 then s.pc else if i == 1 then s.nextPc else Wrap(CodePc(s, i - 1) + 4)
  }

  function CodeAddr(s: State, i: nat): u32 {
    VaddrToPaddr(CodePc(s, i))
  }

  ghost predicate CodeAt(s: State, m: Mem, i: nat, w: u32) {
    LoadOk(CodeAddr(s, i), 4) && Load(m, CodeAddr(s, i), 4) == w
  }

  // One step of a run over the code, fetched from a memory m that the stores so
  // far have left alone where the code is.
  lemma FetchCode(s: State, w: u32, m: Mem, p: u32)
    requires s.pc % 4 == 0 && LoadOk(VaddrToPaddr(s.pc), 4) && Load(m, VaddrToPaddr(s.pc), 4) == w
    requires s.mem == m || (SameOutside(m, s.mem, p) && Disjoint(VaddrToPaddr(s.pc), p))
    ensures FetchOk(s) && FetchWord(s) == w
  {
    hide LoadOk, Load, SameOutside, VaddrToPaddr;
    if s.mem != m {
      LoadUnchanged(m, s.mem, p, VaddrToPaddr(s.pc));
    }
  }

  lemma CodeAddrs(s: State)
    requires s.nextPc % 4 == 0
    ensures CodeAddr(s, 0) == VaddrToPaddr(s.pc) && CodeAddr(s, 1) == VaddrToPaddr(s.nextPc)
    ensures CodeAddr(s, 2) == VaddrToPaddr(Wrap(s.nextPc + 4)) && Wrap(s.nextPc + 4) % 4 == 0
    ensures CodeAddr(s, 3) == VaddrToPaddr(Wrap(Wrap(s.nextPc + 4) + 4)) && Wrap(Wrap(s.nextPc + 4) + 4) % 4 == 0
  {
    hide VaddrToPaddr, Wrap;
    WrapMod4(s.nextPc + 4);
    WrapMod4(Wrap(s.nextPc + 4) + 4);
    assert CodePc(s, 2) == Wrap(s.nextPc + 4);
  }

  // The run executes exactly the four words.
  lemma RunsCode(tr: seq<State>, ws: seq<u32>, storeLeftFirst: bool, loadLeftFirst: bool,
                 b: RegIndex, src: RegIndex, dst: RegIndex, imm: int, p: u32)
    requires IsRun(tr) && |tr| >= 5 && |ws| == 4
    requires var s := tr[0];
             && Inv(s) && !WatchEnabled(s.cop0) && NotInFlight(s, b) && NotInFlight(s, src) && dst != 0
             && s.pc % 4 == 0 && s.nextPc % 4 == 0
             && SpanAt(s.gpr[b] + imm, p)
             && (forall i :: 0 <= i < 4 ==> CodeAt(s, s.mem, i, ws[i]))
             && (forall i :: 1 <= i < 4 ==> Disjoint(CodeAddr(s, i), p))
    requires IsPair(ws[0], ws[1], SWL, SWR, storeLeftFirst, b, src, imm)
    requires IsPair(ws[2], ws[3], LWL, LWR, loadLeftFirst, b, dst, imm)
    ensures WordsOk(tr[0], ws) && RunWords(tr[0], ws) == tr[4]
  {
    hide WordOk, StepWord, StepOk, Step, WatchEnabled, Decode, FetchOk, FetchWord, Front, RegEffect, Load, LoadOk,
         SameOutside, VaddrToPaddr, Translate, StoreLeft, StoreRight, StorePair, LoadPair, WordWritable, InstrRs, InstrRt, Wrap;
    var s, x := tr[0], tr[0].gpr[src];
    CodeAddrs(s);
    assert CodeAt(s, s.mem, 0, ws[0]) && CodeAt(s, s.mem, 1, ws[1]) && CodeAt(s, s.mem, 2, ws[2]) && CodeAt(s, s.mem, 3, ws[3]);
    assert Disjoint(CodeAddr(s, 1), p) && Disjoint(CodeAddr(s, 2), p) && Disjoint(CodeAddr(s, 3), p);
    RunStep(tr, 0);
    FetchCode(s, ws[0], s.mem, p);
    PairAddresses(s, ws[0], ws[1], SWL, SWR, storeLeftFirst, b, src, imm);
    StoreStep(s, ws[0]);
    FallsThrough(s, ws[0]);
    FirstStoreOutside(s.mem, p, x, storeLeftFirst);
    RunStep(tr, 1);
    FetchCode(tr[1], ws[1], s.mem, p);
    FallsThrough(tr[1], ws[1]);
    StorePairSteps(s, ws[0], ws[1], storeLeftFirst, b, src, imm, p);
    PairOutside(s.mem, p, x, storeLeftFirst);
    RunStep(tr, 2);
    FetchCode(tr[2], ws[2], s.mem, p);
    PairAddresses(tr[2], ws[2], ws[3], LWL, LWR, loadLeftFirst, b, dst, imm);
    LoadStep(tr[2], ws[2]);
    FallsThrough(tr[2], ws[2]);
    RunStep(tr, 3);
    FetchCode(tr[3], ws[3], s.mem, p);
    WordsOf(s, ws);
  }

  lemma WordsOf(s: State, ws: seq<u32>)
    requires |ws| == 4
    requires WordOk(s, ws[0]) && WordOk(StepWord(s, ws[0]), ws[1])
    requires var s2 := StepWord(StepWord(s, ws[0]), ws[1]); WordOk(s2, ws[2]) && WordOk(StepWord(s2, ws[2]), ws[3])
    ensures WordsOk(s, ws)
    ensures var s2 := StepWord(StepWord(s, ws[0]), ws[1]); RunWords(s, ws) == StepWord(StepWord(s2, ws[2]), ws[3])
  {
    hide StepWord, WordOk;
    var s1 := StepWord(s, ws[0]);
    var s2 := StepWord(s1, ws[1]);
    var s3 := StepWord(s2, ws[2]);
    assert ws[1..][1..] == ws[2..] && ws[2..][1..] == ws[3..] && ws[3..][1..] == [];
    assert WordsOk(s3, ws[3..]);
    assert WordsOk(s2, ws[2..]);
    assert WordsOk(s1, ws[1..]);
    FourWords(s, ws);
  }

  // The round trip of a run whose first four instructions are fetched from code
  // that the stores do not overwrite: two instructions later the destination
  // holds the stored word, unless the one in between has claimed it.
  lemma UnalignedRun(tr: seq<State>, ws: seq<u32>, storeLeftFirst: bool, loadLeftFirst: bool,
                     b: RegIndex, src: RegIndex, dst: RegIndex, imm: int, p: u32)
    requires IsRun(tr) && |tr| == 7 && |ws| == 4
    requires var s := tr[0];
             && Inv(s) && !WatchEnabled(s.cop0) && NotInFlight(s, b) && NotInFlight(s, src) && dst != 0
             && s.pc % 4 == 0 && s.nextPc % 4 == 0
             && SpanAt(s.gpr[b] + imm, p)
             && (forall i :: 0 <= i < 4 ==> CodeAt(s, s.mem, i, ws[i]))
             && (forall i :: 1 <= i < 4 ==> Disjoint(CodeAddr(s, i), p))
    requires IsPair(ws[0], ws[1], SWL, SWR, storeLeftFirst, b, src, imm)
    requires IsPair(ws[2], ws[3], LWL, LWR, loadLeftFirst, b, dst, imm)
    ensures !About(EffectAt(tr, 4), dst) ==> At(tr, 5).gpr[dst] == tr[0].gpr[src]
    ensures forall y: u32 | Writable(y, 1) ::
              ByteAt(tr[4].mem, y) == if p <= y < p + 4 then Byte(tr[0].gpr[src], y - p) else ByteAt(tr[0].mem, y)
  {
    hide WordOk, StepWord, StepOk, Step, WatchEnabled, Decode, FetchOk, FetchWord, Front, RegEffect, Load, LoadOk,
         SameOutside, VaddrToPaddr, ByteAt, Byte, Writable, InstrRs, InstrRt, FoldVaddr, Exec, DataOk;
    RunsCode(tr, ws, storeLeftFirst, loadLeftFirst, b, src, dst, imm, p);
    UnalignedRoundTrip(tr[0], ws, storeLeftFirst, loadLeftFirst, b, src, dst, imm, p);
    hide CodeAt, Disjoint, NotInFlight, SpanAt, IsPair, RunWords, WordsOk;
    if !About(EffectAt(tr, 4), dst) {
      RunLandsTwoLater(tr, 4, dst);
    }
  }

  lemma RunLandsTwoLater(tr: seq<State>, i: nat, r: RegIndex)
    requires IsRun(tr) && i + 2 < |tr| && Inv(tr[0]) && r != 0 && tr[i].ldPend.dst == r
    requires !About(EffectAt(tr, i), r)
    ensures At(tr, i + 1).gpr[r] == tr[i].ldPend.val
  {
    hide WordOk, StepWord, StepOk, Step, Front, FetchOk, FetchWord, RegEffect;
    RunStep(tr, i);
    RunStep(tr, i + 1);
    RunKeepsInv(tr, i);
    LandsTwoLater(tr[i], FetchWord(tr[i]), FetchWord(tr[i + 1]), r);
  }

  // A queued load lands after an instruction that is not about its register.
  lemma LandsTwoLater(s: State, w: u32, w': u32, r: RegIndex)
    requires WordOk(s, w) && Inv(s) && r != 0 && s.ldPend.dst == r
    requires !About(RegEffect(Front(s, w)), r)
    ensures Front(StepWord(s, w), w').gpr[r] == s.ldPend.val
  {
    FrontKeeps(s, w);
    hide Front, Exec, DataOk, RegEffect;
    NextFront(Front(s, w), w', r);
  }
}
