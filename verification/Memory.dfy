// What the bus means: three byte arrays behind an address decoder. Accesses are
// little-endian, as the source's memcpy is on a little-endian host.

module Memory {
  import opened Words

  const RAM_SIZE: nat := 0x20_0000
  const SCRATCHPAD_SIZE: nat := 0x3FF
  const BIOS_SIZE: nat := 0x7_FFFF

  const RAM_ADDR_END: u32 := 0x0020_0000
  const SCRATCHPAD_ADDR_START: u32 := 0x1F80_0000
  const SCRATCHPAD_ADDR_END: u32 := 0x1F80_03FF
  const BIOS_ADDR_START: u32 := 0x1FC0_0000
  const BIOS_ADDR_END: u32 := 0x1FC7_FFFF

  type Ram = s: seq<u8> | |s| == RAM_SIZE witness seq(RAM_SIZE, _ => 0)
  type Scratchpad = s: seq<u8> | |s| == SCRATCHPAD_SIZE witness seq(SCRATCHPAD_SIZE, _ => 0)
  type Bios = s: seq<u8> | |s| == BIOS_SIZE witness seq(BIOS_SIZE, _ => 0)

  datatype Mem = Mem(ram: Ram, scratchpad: Scratchpad, bios: Bios)

  // Access widths in bytes.
  type Width = n: nat | n == 1 || n == 2 || n == 4 witness 1

  datatype Region = InRam | InScratchpad | InBios | Unmapped

  // The inclusive case ranges of the bus switches.
  function RegionOf(paddr: u32): Region {
    if paddr <= RAM_ADDR_END then InRam
    else if SCRATCHPAD_ADDR_START <= paddr <= SCRATCHPAD_ADDR_END then InScratchpad
    else if BIOS_ADDR_START <= paddr <= BIOS_ADDR_END then InBios
    else Unmapped
  }

  // Halfword loads do not decode the BIOS.
  function LoadRegion(paddr: u32, n: Width): Region {
    if n == 2 && RegionOf(paddr) == InBios then Unmapped else RegionOf(paddr)
  }

  // No store decodes the BIOS.
  function StoreRegion(paddr: u32): Region {
    if RegionOf(paddr) == InBios then Unmapped else RegionOf(paddr)
  }

  // The array index of an address: the address itself in RAM, a masked one elsewhere.
  function Offset(paddr: u32): (r: nat)
    ensures RegionOf(paddr) == InScratchpad ==> r == paddr - SCRATCHPAD_ADDR_START
    ensures RegionOf(paddr) == InBios ==> r == paddr - BIOS_ADDR_START
    ensures RegionOf(paddr) == InRam ==> r == paddr
  {
    match RegionOf(paddr)
    case InRam => paddr
    case InScratchpad => ScratchpadIndex(paddr)
    case InBios => BiosIndex(paddr)
    case Unmapped => 0
  }

  function ScratchpadIndex(paddr: u32): (r: nat)
    requires RegionOf(paddr) == InScratchpad
    ensures r == paddr - SCRATCHPAD_ADDR_START
  {
    MaskedOffset(paddr, 12, 0x1000);
    DivUnique(paddr, 0x1000, 0x1_F800, paddr - SCRATCHPAD_ADDR_START);
    And(paddr, 0xFFF)
  }

  function BiosIndex(paddr: u32): (r: nat)
    requires RegionOf(paddr) == InBios
    ensures r == paddr - BIOS_ADDR_START
  {
    MaskedOffset(paddr, 20, 0x10_0000);
    DivUnique(paddr, 0x10_0000, 0x1FC, paddr - BIOS_ADDR_START);
    And(paddr, 0xF_FFFF)
  }

  lemma MaskedOffset(paddr: u32, k: nat, p: nat)
    requires (k == 12 && p == 0x1000) || (k == 20 && p == 0x10_0000)
    ensures And(paddr, p - 1) == paddr % p
  {
    Pow2Values();
    MaskLow(paddr, k);
  }

  function Size(r: Region): nat {
    match r
    case InRam => RAM_SIZE
    case InScratchpad => SCRATCHPAD_SIZE
    case InBios => BIOS_SIZE
    case Unmapped => 0
  }

  // The access stays inside the declared array. The source does not check this:
  // the case ranges reach slightly past the arrays.
  predicate LoadOk(paddr: u32, n: Width) {
    var r := LoadRegion(paddr, n);
    r != Unmapped ==> Offset(paddr) + n <= Size(r)
  }

  predicate StoreOk(paddr: u32, n: Width) {
    var r := StoreRegion(paddr);
    r != Unmapped ==> Offset(paddr) + n <= Size(r)
  }

  function Cells(m: Mem, r: Region): (c: seq<u8>)
    ensures |c| == Size(r)
  {
    match r
    case InRam => m.ram
    case InScratchpad => m.scratchpad
    case InBios => m.bios
    case Unmapped => []
  }

  function Byte(v: u32, k: nat): u8
    requires k < 4
  {
    if k == 0 then v % 0x100
    else if k == 1 then v / 0x100 % 0x100
    else if k == 2 then v / 0x100 / 0x100 % 0x100
    else v / 0x100 / 0x100 / 0x100
  }

  function Le2(b0: u8, b1: u8): u16 {
    b0 as int + 0x100 * b1 as int
  }

  function Le4(b0: u8, b1: u8, b2: u8, b3: u8): u32 {
    b0 as int + 0x100 * b1 as int + 0x1_0000 * b2 as int + 0x100_0000 * b3 as int
  }

  function Get(c: seq<u8>, off: nat, n: Width): u32
    requires off + n <= |c|
  {
    if n == 1 then c[off]
    else if n == 2 then Le2(c[off], c[off + 1])
    else Le4(c[off], c[off + 1], c[off + 2], c[off + 3])
  }

  function Put(c: seq<u8>, off: nat, n: Width, v: u32): (r: seq<u8>)
    requires off + n <= |c|
    ensures |r| == |c|
    ensures forall q :: 0 <= q < |c| ==> r[q] == if off <= q < off + n then Byte(v, q - off) else c[q]
  {
    if n == 1 then c[off := Byte(v, 0)]
    else if n == 2 then c[off := Byte(v, 0)][off + 1 := Byte(v, 1)]
    else c[off := Byte(v, 0)][off + 1 := Byte(v, 1)][off + 2 := Byte(v, 2)][off + 3 := Byte(v, 3)]
  }

  // The value of an unmapped load.
  function AllOnes(n: Width): u32 {
    if n == 1 then 0xFF else if n == 2 then 0xFFFF else 0xFFFF_FFFF
  }

  function Load(m: Mem, paddr: u32, n: Width): u32
    requires LoadOk(paddr, n)
  {
    var r := LoadRegion(paddr, n);
    if r == Unmapped then AllOnes(n) else Get(Cells(m, r), Offset(paddr), n)
  }

  function Store(m: Mem, paddr: u32, n: Width, v: u32): Mem
    requires StoreOk(paddr, n)
  {
    match StoreRegion(paddr)
    case InRam => m.(ram := Put(m.ram, Offset(paddr), n, v))
    case InScratchpad => m.(scratchpad := Put(m.scratchpad, Offset(paddr), n, v))
    case _ => m
  }

  // An n-byte access at paddr lies in the declared part of RAM or scratchpad.
  predicate Writable(paddr: u32, n: Width) {
    StoreRegion(paddr) != Unmapped && StoreOk(paddr, n)
  }

  lemma WritableBytes(paddr: u32, n: Width, k: nat)
    requires Writable(paddr, n) && k < n
    ensures paddr + k < 0x1_0000_0000
    ensures Writable(paddr + k, 1) && LoadOk(paddr + k, 1) && LoadOk(paddr, n)
    ensures LoadRegion(paddr + k, 1) == LoadRegion(paddr, n) == StoreRegion(paddr)
    ensures Offset(paddr + k) == Offset(paddr) + k
  {
  }

  function ByteAt(m: Mem, q: u32): u8
    requires Writable(q, 1)
  {
    Load(m, q, 1)
  }

  // The little-endian number made of some bytes.
  function Compose(b: seq<u8>): nat {
    if b == [] then 0 else b[0] as int + 0x100 * Compose(b[1..])
  }

  lemma ComposeGet(b: seq<u8>)
    requires |b| == 1 || |b| == 2 || |b| == 4
    ensures Compose(b) == Get(b, 0, |b|)
  {
    assert Compose([]) == 0;
    if |b| == 1 {
      assert b[1..] == [];
    } else if |b| == 2 {
      assert b[1..][1..] == [];
    } else {
      assert b[1..][1..] == b[2..];
      assert b[2..][1..] == b[3..];
      assert b[3..][1..] == [];
      assert Compose(b[2..]) == b[2] as int + 0x100 * Compose(b[3..]);
    }
  }

  // The n bytes from paddr upwards, one byte load each.
  function BytesAt(m: Mem, paddr: u32, n: Width): (b: seq<u8>)
    requires Writable(paddr, n)
    ensures |b| == n
  {
    WritableBytes(paddr, n, n - 1);
    if n == 1 then [ByteAt(m, paddr)]
    else if n == 2 then [ByteAt(m, paddr), ByteAt(m, paddr + 1)]
    else [ByteAt(m, paddr), ByteAt(m, paddr + 1), ByteAt(m, paddr + 2), ByteAt(m, paddr + 3)]
  }

  lemma BytesAtIndex(m: Mem, paddr: u32, n: Width, k: nat)
    requires Writable(paddr, n) && k < n
    ensures paddr + k < 0x1_0000_0000
    ensures Writable(paddr + k, 1)
    ensures BytesAt(m, paddr, n)[k] == ByteAt(m, paddr + k)
  {
  }

  // Wider loads are the little-endian combination of byte loads.
  lemma LoadIsBytes(m: Mem, paddr: u32, n: Width)
    requires Writable(paddr, n)
    ensures LoadOk(paddr, n)
    ensures Load(m, paddr, n) == Compose(BytesAt(m, paddr, n))
  {
    var b := BytesAt(m, paddr, n);
    forall k | 0 <= k < n ensures b[k] == Cells(m, StoreRegion(paddr))[Offset(paddr) + k] {
      BytesAtIndex(m, paddr, n, k);
      WritableBytes(paddr, n, k);
    }
    WritableBytes(paddr, n, 0);
    ComposeGet(b);
  }

  // A store changes exactly its own n bytes, wherever in RAM or scratchpad one looks.
  lemma StoreThenByte(m: Mem, paddr: u32, n: Width, v: u32, q: u32)
    requires Writable(paddr, n) && Writable(q, 1)
    ensures ByteAt(Store(m, paddr, n, v), q)
         == if paddr <= q < paddr + n then Byte(v, q - paddr) else ByteAt(m, q)
  {
    if StoreRegion(paddr) == StoreRegion(q) {
      assert paddr <= q < paddr + n <==> Offset(paddr) <= Offset(q) < Offset(paddr) + n;
    }
  }

  // Any load after any store sees one byte map.
  lemma StoreThenLoad(m: Mem, paddr: u32, n: Width, v: u32, q: u32, k: Width, b: seq<u8>)
    requires Writable(paddr, n) && Writable(q, k) && |b| == k
    requires forall i :: 0 <= i < k ==>
      b[i] == (if paddr <= q + i < paddr + n then Byte(v, q + i - paddr) else BytesAt(m, q, k)[i])
    ensures LoadOk(q, k)
    ensures Load(Store(m, paddr, n, v), q, k) == Compose(b)
  {
    LoadIsBytes(Store(m, paddr, n, v), q, k);
    forall i | 0 <= i < k ensures BytesAt(Store(m, paddr, n, v), q, k)[i] == b[i] {
      StoreThenByteOf(m, paddr, n, v, q, k, i);
    }
    assert BytesAt(Store(m, paddr, n, v), q, k) == b;
  }

  lemma StoreThenByteOf(m: Mem, paddr: u32, n: Width, v: u32, q: u32, k: Width, i: nat)
    requires Writable(paddr, n) && Writable(q, k) && i < k
    ensures BytesAt(Store(m, paddr, n, v), q, k)[i]
         == if paddr <= q + i < paddr + n then Byte(v, q + i - paddr) else BytesAt(m, q, k)[i]
  {
    hide Store, ByteAt, BytesAt;
    BytesAtIndex(m, q, k, i);
    BytesAtIndex(Store(m, paddr, n, v), q, k, i);
    StoreThenByte(m, paddr, n, v, q + i);
  }

  // The value just stored is read back, cut to the width of the access.
  lemma StoreRoundTrip(m: Mem, paddr: u32, n: Width, v: u32)
    requires Writable(paddr, n)
    ensures LoadOk(paddr, n)
    ensures Load(Store(m, paddr, n, v), paddr, n) == v % (if n == 1 then 0x100 else if n == 2 then 0x1_0000 else 0x1_0000_0000)
  {
    WritableBytes(paddr, n, 0);
    ByteSum(v);
    ByteSum2(v);
    hide Byte;
  }

  lemma ByteSum2(v: u32)
    ensures v % 0x100 == Byte(v, 0)
    ensures v % 0x1_0000 == Le2(Byte(v, 0), Byte(v, 1))
  {
    var q := v / 0x100 / 0x100;
    DivUnique(v, 0x1_0000, q, Le2(Byte(v, 0), Byte(v, 1)));
  }

  lemma ByteSum(v: u32)
    ensures v == Le4(Byte(v, 0), Byte(v, 1), Byte(v, 2), Byte(v, 3))
  {
  }

  // BIOS bytes survive every store; a store that decodes to nothing is ignored.
  lemma StoreKeepsBios(m: Mem, paddr: u32, n: Width, v: u32)
    requires StoreOk(paddr, n)
    ensures Store(m, paddr, n, v).bios == m.bios
    ensures StoreRegion(paddr) == Unmapped ==> Store(m, paddr, n, v) == m
  {
  }
}
