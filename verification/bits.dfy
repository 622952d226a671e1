/**
  Shared vocabulary for the Game Boy model: bytes and words as bit-vectors,
  the little-endian split of a word into two bytes, and a result type for the
  operations that can fail (the emulator's `Result` returns and its panics).
 */
module Bits {

  type byte = bv8
  type word = bv16

  /** Either a value or the reason the operation failed. */
  datatype Result<+T, +E> = Ok(value: T) | Err(error: E)

  /** A value that may be absent. */
  datatype Option<+T> = None | Some(value: T)

  /** The high byte of a word (`(w >> 8) as u8`). */
  function Hi(w: word): (r: byte)
  {
    (w >> 8) as byte
  }

  /** The low byte of a word (`w as u8`, which truncates). */
  function Lo(w: word): (r: byte)
  {
    (w & 0xFF) as byte
  }

  /** The word whose high byte is `hi` and low byte is `lo` (`(hi as u16) << 8 | lo as u16`). */
  function Join(hi: byte, lo: byte): (w: word)
    ensures w >> 8 == hi as word && w & 0xFF == lo as word
  {
    ((hi as word) << 8) | (lo as word)
  }

  /** Splitting a joined word gives back its two bytes. */
  lemma HiLoOfJoin(hi: byte, lo: byte)
    ensures Hi(Join(hi, lo)) == hi && Lo(Join(hi, lo)) == lo
  {
  }

  /** Joining the two halves of a word gives back the word. */
  lemma JoinOfHiLo(w: word)
    ensures Join(Hi(w), Lo(w)) == w
  {
  }

  /** A word is determined by its two bytes. */
  lemma HiLoInjective(w: word, v: word)
    requires Hi(w) == Hi(v) && Lo(w) == Lo(v)
    ensures w == v
  {
    JoinOfHiLo(w);
    JoinOfHiLo(v);
  }

  /** A byte with exactly one bit set. */
  predicate SingleBit(m: byte)
  {
    m != 0 && m & (m - 1) == 0
  }

  /** The byte with only bit `i` set (`1 << i`). */
  function BitMask(i: nat): (m: byte)
    requires i < 8
    ensures SingleBit(m)
  {
    if i == 0 then 0x01 else if i == 1 then 0x02 else if i == 2 then 0x04 else if i == 3 then 0x08
    else if i == 4 then 0x10 else if i == 5 then 0x20 else if i == 6 then 0x40 else 0x80
  }

  /** Bit `i` of a byte. */
  predicate Bit(b: byte, i: nat)
    requires i < 8
  {
    b & BitMask(i) != 0
  }

  /** Equal bytes have equal bits. */
  lemma SameBit(x: byte, y: byte, j: nat)
    requires x == y && j < 8
    ensures Bit(x, j) == Bit(y, j)
  {
  }

  /** Clearing bit `k` (`x & !(1 << k)`) clears that bit and keeps every other. */
  lemma ClearBit(x: byte, k: nat, j: nat)
    requires k < 8 && j < 8
    ensures Bit(x & !BitMask(k), j) <==> j != k && Bit(x, j)
  {
  }

  /** `x & !(1 << k)`: the byte with bit `k` cleared and every other bit kept. */
  function ClearedBit(x: byte, k: nat): (r: byte)
    requires k < 8
    ensures forall j :: 0 <= j < 8 ==> (Bit(r, j) <==> j != k && Bit(x, j))
  {
    forall j | 0 <= j < 8
      ensures Bit(x & !BitMask(k), j) <==> j != k && Bit(x, j)
    {
      ClearBit(x, k, j);
    }
    x & !BitMask(k)
  }

  /** A byte known to be `x` with bit `k` cleared has bit `j` set exactly when `x` has and `j` is not `k`. */
  lemma ClearedBitOf(v: byte, x: byte, k: nat, j: nat)
    requires k < 8 && j < 8 && v == ClearedBit(x, k)
    ensures Bit(v, j) <==> j != k && Bit(x, j)
  {
  }

  /** Each mask is the one below it shifted left by one place. */
  lemma MaskStep(i: nat)
    requires i < 7
    ensures BitMask(i + 1) == BitMask(i) << 1
  {
  }

  /** Sign extension of a byte to a word (`x as i8 as u16`): the low byte is kept, the high byte copies bit 7. */
  function SignExtend(x: byte): (r: word)
    ensures Lo(r) == x
    ensures Hi(r) == if x & 0x80 == 0 then 0x00 else 0xFF
  {
    if x < 0x80 then x as word else (x as word) | 0xFF00
  }

  lemma ByteAsIntInjective(x: byte, y: byte)
    ensures x as int == y as int ==> x == y
  {
  }

  lemma ByteLess(x: byte, y: byte)
    ensures x < y <==> x as int < y as int
  {
  }

  lemma NarrowLess(x: word, y: word)
    requires x <= 0xFF && y <= 0xFF
    ensures x < y <==> x as byte < y as byte
  {
  }

  lemma SplitOrder(w: word, n: word)
    requires w < n
    ensures (w >> 8) < (n >> 8) || ((w >> 8) == (n >> 8) && (w & 0xFF) < (n & 0xFF))
  {
  }

  lemma HiLoOrder(w: word, n: word)
    requires w < n
    ensures Hi(w) < Hi(n) || (Hi(w) == Hi(n) && Lo(w) < Lo(n))
  {
    SplitOrder(w, n);
    NarrowLess(w >> 8, n >> 8);
    NarrowLess(w & 0xFF, n & 0xFF);
  }

  lemma SplitLess(w: word, n: word)
    requires (w >> 8) < (n >> 8) || ((w >> 8) == (n >> 8) && (w & 0xFF) < (n & 0xFF))
    ensures w < n
  {
  }

  lemma LexLess(w: word, n: word)
    requires Hi(w) < Hi(n) || (Hi(w) == Hi(n) && Lo(w) < Lo(n))
    ensures w < n
  {
    NarrowLess(w >> 8, n >> 8);
    NarrowLess(w & 0xFF, n & 0xFF);
    SplitLess(w, n);
  }

  lemma LoInt(w: word)
    ensures Lo(w) as int == (w & 0xFF) as int
  {
  }

  lemma WordSplit(x: word)
    ensures x as int == (x >> 8) as int * 256 + (x & 0xFF) as int
  {
  }

  /** Words compare as their (high byte, low byte) pairs compare. */
  lemma HiLoLess(x: word, y: word)
    ensures x < y <==> Hi(x) < Hi(y) || (Hi(x) == Hi(y) && Lo(x) < Lo(y))
  {
    if x < y {
      HiLoOrder(x, y);
    }
    if Hi(x) < Hi(y) || (Hi(x) == Hi(y) && Lo(x) < Lo(y)) {
      LexLess(x, y);
    }
  }

  lemma WideSum(a: byte, v: byte, c: byte)
    ensures ((a as word) + (v as word) + (c as word)) as int == a as int + v as int + c as int
  {
  }

  lemma TruncatedSum(a: byte, v: byte, c: byte)
    ensures a + v + c == Lo((a as word) + (v as word) + (c as word))
  {
  }

  lemma ModOfSplit(x: int, q: int, r: int)
    requires x == q * 256 + r && 0 <= r < 256
    ensures x % 256 == r
  {
  }

  /** An 8-bit three-way sum is the integer sum modulo 256. */
  lemma ByteSum(a: byte, v: byte, c: byte)
    ensures (a + v + c) as int == (a as int + v as int + c as int) % 256
  {
    var x := (a as word) + (v as word) + (c as word);
    WideSum(a, v, c);
    WordSplit(x);
    LoInt(x);
    TruncatedSum(a, v, c);
    ModOfSplit(x as int, (x >> 8) as int, (x & 0xFF) as int);
  }

  /** Byte subtraction of `v` and one more is addition of its complement. */
  lemma SubOneMore(a: byte, v: byte)
    ensures a - v - 1 == a + !v + 0
  {
  }

  lemma ComplementAsInt(v: byte)
    ensures (!v) as int == 255 - v as int
  {
  }

  /** `a - v - 1` on bytes is the integer difference minus one, modulo 256. */
  lemma ByteSubOneMore(a: byte, v: byte)
    ensures (a - v - 1) as int == (a as int - v as int - 1) % 256
  {
    var n := !v;
    SubOneMore(a, v);
    ByteSum(a, n, 0);
    ComplementAsInt(v);
    ComplementSum(a as int, v as int, n as int);
  }

  lemma ComplementSum(a: int, v: int, n: int)
    requires n == 255 - v
    ensures (a + n + 0) % 256 == (a - v - 1) % 256
  {
    ModPlus256(a - v - 1);
  }

  lemma ModPlus256(x: int)
    ensures (x + 256) % 256 == x % 256
  {
  }

  /** A byte sequence of `n` zeros. */
  function Zeros(n: nat): (r: seq<byte>)
    ensures |r| == n
    ensures forall i :: 0 <= i < n ==> r[i] == 0
  {
    seq(n, _ => 0)
  }
}
