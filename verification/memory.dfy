/**
  The flat 64 KiB byte store of rgb-core (`FlatMemory`): every 16-bit address
  names one byte, a fresh store is all zeros, and a write changes exactly the
  addressed byte.
 */
module Memory {
  import opened Bits

  /** The key of one byte of the store. */
  datatype Cell = Cell(addr: word)

  /** 64 KiB of bytes, one per address: a map defined at every address. */
  type Mem = m: map<Cell, byte> | forall x: word :: Cell(x) in m witness ZeroMap()

  /** The key of the address whose number is `i`. */
  function CellAt(i: int): Cell
    requires 0 <= i < 0x10000
  {
    Cell(i as word)
  }

  /** The all-zero store. */
  function ZeroMap(): (m: map<Cell, byte>)
    ensures forall x: word :: Cell(x) in m && m[Cell(x)] == 0
  {
    var m := map i: int | 0 <= i < 0x10000 :: CellAt(i) := 0 as byte;
    forall x: word
      ensures Cell(x) in m && m[Cell(x)] == 0
    {
      assert CellAt(x as int) == Cell(x);
    }
    m
  }

  function Load(m: Mem, addr: word): byte
  {
    m[Cell(addr)]
  }

  /** The store with `addr` holding `v`: that byte reads back as `v` and no other byte moves. */
  function Store(m: Mem, addr: word, v: byte): (r: Mem)
    ensures Load(r, addr) == v
    ensures forall x: word :: x != addr ==> Load(r, x) == Load(m, x)
  {
    m[Cell(addr) := v]
  }

  /** Two stores that agree at every address are the same store. */
  lemma Extensionality(m1: Mem, m2: Mem)
    requires forall x: word :: Load(m1, x) == Load(m2, x)
    ensures m1 == m2
  {
    forall k
      ensures k in m1 <==> k in m2
      ensures k in m1 ==> m1[k] == m2[k]
    {
      assert Cell(k.addr) == k;
      assert Load(m1, k.addr) == Load(m2, k.addr);
    }
  }

  /** The emulator's `FlatMemory`. */
  datatype FlatMemory = FlatMemory(bytes: Mem)

  /** `FlatMemory::new`: every address reads 0. */
  function New(): (r: FlatMemory)
    ensures forall x: word :: Read(r, x) == 0
  {
    FlatMemory(ZeroMap())
  }

  function Read(fm: FlatMemory, addr: word): byte
  {
    Load(fm.bytes, addr)
  }

  /** `FlatMemory::write`: `addr` reads back as `v`; every other address is unchanged. */
  function Write(fm: FlatMemory, addr: word, v: byte): (r: FlatMemory)
    ensures Read(r, addr) == v
    ensures forall x: word :: x != addr ==> Read(r, x) == Read(fm, x)
  {
    FlatMemory(Store(fm.bytes, addr, v))
  }

  /** Of two writes to the same address only the second is visible. */
  lemma LastWriteWins(fm: FlatMemory, addr: word, v1: byte, v2: byte)
    ensures Write(Write(fm, addr, v1), addr, v2) == Write(fm, addr, v2)
  {
    var r1, r2 := Write(Write(fm, addr, v1), addr, v2), Write(fm, addr, v2);
    Extensionality(r1.bytes, r2.bytes);
  }

  /** Writes to different addresses commute. */
  lemma WritesCommute(fm: FlatMemory, a1: word, v1: byte, a2: word, v2: byte)
    requires a1 != a2
    ensures Write(Write(fm, a1, v1), a2, v2) == Write(Write(fm, a2, v2), a1, v1)
  {
    var r1, r2 := Write(Write(fm, a1, v1), a2, v2), Write(Write(fm, a2, v2), a1, v1);
    Extensionality(r1.bytes, r2.bytes);
  }

  /** Writing back the byte already stored changes nothing. */
  lemma WriteSameValue(fm: FlatMemory, addr: word)
    ensures Write(fm, addr, Read(fm, addr)) == fm
  {
    Extensionality(Write(fm, addr, Read(fm, addr)).bytes, fm.bytes);
  }
}
