// The address-decoded bus over its three byte arrays, in the form of core/bus.c.

module BusDevice {
  import opened Words
  import opened Memory

  class Bus {
    const ram: array<u8>
    const scratchpad: array<u8>
    const bios: array<u8>

    ghost predicate Valid() {
      && ram.Length == RAM_SIZE && scratchpad.Length == SCRATCHPAD_SIZE && bios.Length == BIOS_SIZE
      && ram != scratchpad && ram != bios && scratchpad != bios
    }

    ghost function Contents(): Mem
      requires Valid()
      reads ram, scratchpad, bios
    {
      Mem(ram[..], scratchpad[..], bios[..])
    }

    // psycho_init attaches the caller's RAM and BIOS images.
    constructor (ramData: array<u8>, biosData: array<u8>)
      requires ramData.Length == RAM_SIZE && biosData.Length == BIOS_SIZE && ramData != biosData
      ensures Valid() && ram == ramData && bios == biosData && fresh(scratchpad)
      ensures Contents() == Mem(ramData[..], seq(SCRATCHPAD_SIZE, _ => 0), biosData[..])
    {
      ram, bios := ramData, biosData;
      scratchpad := new u8[SCRATCHPAD_SIZE](_ => 0);
    }

    method LoadWord(paddr: u32) returns (word: u32)
      requires Valid() && LoadOk(paddr, 4)
      ensures word == Load(Contents(), paddr, 4)
    {
      if paddr <= RAM_ADDR_END {
        word := Le4(ram[paddr], ram[paddr + 1], ram[paddr + 2], ram[paddr + 3]);
      } else if SCRATCHPAD_ADDR_START <= paddr <= SCRATCHPAD_ADDR_END {
        var i := ScratchpadIndex(paddr);
        word := Le4(scratchpad[i], scratchpad[i + 1], scratchpad[i + 2], scratchpad[i + 3]);
      } else if BIOS_ADDR_START <= paddr <= BIOS_ADDR_END {
        var i := BiosIndex(paddr);
        word := Le4(bios[i], bios[i + 1], bios[i + 2], bios[i + 3]);
      } else {
        word := 0xFFFF_FFFF;
      }
    }

    method LoadHalfword(paddr: u32) returns (halfword: u16)
      requires Valid() && LoadOk(paddr, 2)
      ensures halfword == Load(Contents(), paddr, 2)
    {
      if paddr <= RAM_ADDR_END {
        halfword := Le2(ram[paddr], ram[paddr + 1]);
      } else if SCRATCHPAD_ADDR_START <= paddr <= SCRATCHPAD_ADDR_END {
        var i := ScratchpadIndex(paddr);
        halfword := Le2(scratchpad[i], scratchpad[i + 1]);
      } else {
        halfword := 0xFFFF;
      }
    }

    method LoadByte(paddr: u32) returns (byte: u8)
      requires Valid() && LoadOk(paddr, 1)
      ensures byte == Load(Contents(), paddr, 1)
    {
      if paddr <= RAM_ADDR_END {
        byte := ram[paddr];
      } else if SCRATCHPAD_ADDR_START <= paddr <= SCRATCHPAD_ADDR_END {
        var i := ScratchpadIndex(paddr);
        byte := scratchpad[i];
      } else if BIOS_ADDR_START <= paddr <= BIOS_ADDR_END {
        var i := BiosIndex(paddr);
        byte := bios[i];
      } else {
        byte := 0xFF;
      }
    }

    // memcpy of the n low bytes of v into an array, least significant byte first.
    static method CopyIn(a: array<u8>, off: nat, n: Width, v: u32)
      requires off + n <= a.Length
      modifies a
      ensures a[..] == Put(old(a[..]), off, n, v)
    {
      a[off] := Byte(v, 0);
      if n >= 2 {
        a[off + 1] := Byte(v, 1);
      }
      if n == 4 {
        a[off + 2] := Byte(v, 2);
        a[off + 3] := Byte(v, 3);
      }
    }

    // memcpy of a whole image into RAM.
    method CopyToRam(dst: u32, code: seq<u8>)
      requires Valid() && dst + |code| <= RAM_SIZE
      modifies ram
      ensures ram[..] == old(ram[..])[..dst] + code + old(ram[..])[dst + |code|..]
    {
      forall i | 0 <= i < |code| {
        ram[dst + i] := code[i];
      }
    }

    method StoreWord(paddr: u32, word: u32)
      requires Valid() && StoreOk(paddr, 4)
      modifies ram, scratchpad
      ensures Contents() == Store(old(Contents()), paddr, 4, word)
    {
      if paddr <= RAM_ADDR_END {
        CopyIn(ram, paddr, 4, word);
      } else if SCRATCHPAD_ADDR_START <= paddr <= SCRATCHPAD_ADDR_END {
        CopyIn(scratchpad, ScratchpadIndex(paddr), 4, word);
      }
    }

    method StoreHalfword(paddr: u32, halfword: u16)
      requires Valid() && StoreOk(paddr, 2)
      modifies ram, scratchpad
      ensures Contents() == Store(old(Contents()), paddr, 2, halfword)
    {
      if paddr <= RAM_ADDR_END {
        CopyIn(ram, paddr, 2, halfword);
      } else if SCRATCHPAD_ADDR_START <= paddr <= SCRATCHPAD_ADDR_END {
        CopyIn(scratchpad, ScratchpadIndex(paddr), 2, halfword);
      }
    }

    method StoreByte(paddr: u32, byte: u8)
      requires Valid() && StoreOk(paddr, 1)
      modifies ram, scratchpad
      ensures Contents() == Store(old(Contents()), paddr, 1, byte)
    {
      if paddr <= RAM_ADDR_END {
        ram[paddr] := byte;
      } else if SCRATCHPAD_ADDR_START <= paddr <= SCRATCHPAD_ADDR_END {
        scratchpad[ScratchpadIndex(paddr)] := byte;
      }
    }
  }
}
