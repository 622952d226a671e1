/**
  The arithmetic and logic helpers of the interpreter, as pure functions on
  bytes and words. Each returns the result together with the four flags
  Z (zero), N (subtract), H (half carry) and C (carry) as the instruction
  leaves them; a flag the instruction does not touch is passed in and comes
  back unchanged.

  The functions compute their flags the way the interpreter does (a widened
  sum compared with 0xFF, a nibble sum compared with 0xF, and so on). The
  lemmas after each group say what those flags mean: that an addition
  carries exactly when the integer sum leaves 0..255, that SUB undoes ADD,
  that each logic result bit is the operation on the operand bits, that the
  rotations are each other's inverses, and that ADD HL is an 8-bit ADD of
  the low bytes followed by an ADC of the high bytes.
 */
module Alu {
  import opened Bits

  datatype Flags = Flags(z: bool, n: bool, h: bool, c: bool)

  /** An 8-bit result and the flags after the operation. */
  datatype Out = Out(value: byte, flags: Flags)

  /** A 16-bit result and the flags after the operation. */
  datatype WordOut = WordOut(value: word, flags: Flags)

  /** The carry flag as the byte the interpreter adds (`if flag_c() { 1 } else { 0 }`). */
  function CarryBit(c: bool): (b: byte)
    ensures b <= 1 && (b == 1 <==> c)
  {
    if c then 1 else 0
  }

  /** The carry flag as a number. */
  function CarryValue(c: bool): (n: int)
    ensures n == CarryBit(c) as int
  {
    if c then 1 else 0
  }

  // ----- 8-bit arithmetic -----

  /** `add_a`: A + v; H from the sum of the low nibbles, C from the widened sum. */
  function AddA(a: byte, v: byte): Out
  {
    var result := a + v;
    Out(result, Flags(result == 0, false, (a & 0xF) + (v & 0xF) > 0xF, (a as word) + (v as word) > 0xFF))
  }

  /** `adc_a`: A + v + carry, the carry taking part in both the nibble and the widened sum. */
  function AdcA(a: byte, v: byte, carry: bool): Out
  {
    var cy := CarryBit(carry);
    var result := a + v + cy;
    Out(result, Flags(result == 0, false, (a & 0xF) + (v & 0xF) + cy > 0xF,
                      (a as word) + (v as word) + (cy as word) > 0xFF))
  }

  /** `sub_a`: A - v; H when v's low nibble exceeds A's, C when v exceeds A. */
  function SubA(a: byte, v: byte): Out
  {
    var result := a - v;
    Out(result, Flags(result == 0, true, (a & 0xF) < (v & 0xF), a < v))
  }

  /** `sbc_a`: A - v - carry, borrowing as SUB does with the carry added to v. */
  function SbcA(a: byte, v: byte, carry: bool): Out
  {
    var cy := CarryBit(carry);
    var result := a - v - cy;
    Out(result, Flags(result == 0, true, (a & 0xF) < (v & 0xF) + cy, (a as word) < (v as word) + (cy as word)))
  }

  /** `cp_a`: the flags of A - v; A itself is left alone by the caller. */
  function CpA(a: byte, v: byte): Flags
  {
    var result := a - v;
    Flags(result == 0, true, (a & 0xF) < (v & 0xF), a < v)
  }

  lemma AddCarryIsWrap(a: byte, v: byte)
    ensures ((a as word) + (v as word) > 0xFF) == (a + v < a)
    ensures ((a & 0xF) + (v & 0xF) > 0xF) == ((a + v) & 0xF < a & 0xF)
  {
  }

  lemma AdcCarryIsWrap(a: byte, v: byte, cy: byte)
    requires cy <= 1
    ensures ((a as word) + (v as word) + (cy as word) > 0xFF) == (a + v + cy < a || (cy == 1 && a + v + cy == a))
  {
  }

  lemma AdcHalfIsWrap(a: byte, v: byte, cy: byte)
    requires cy <= 1
    ensures ((a & 0xF) + (v & 0xF) + cy > 0xF) == ((a + v + cy) & 0xF < a & 0xF || (cy == 1 && (a + v + cy) & 0xF == a & 0xF))
  {
  }

  lemma SubBorrowIsWrap(a: byte, v: byte)
    ensures (a < v) == (a - v > a)
    ensures ((a & 0xF) < (v & 0xF)) == ((a - v) & 0xF > a & 0xF)
  {
  }

  lemma SbcBorrowIsWrap(a: byte, v: byte, cy: byte)
    requires cy <= 1
    ensures ((a as word) < (v as word) + (cy as word)) == (a - v - cy > a || (cy == 1 && a - v - cy == a))
  {
  }

  lemma SbcHalfIsWrap(a: byte, v: byte, cy: byte)
    requires cy <= 1
    ensures ((a & 0xF) < (v & 0xF) + cy) == ((a - v - cy) & 0xF > a & 0xF || (cy == 1 && (a - v - cy) & 0xF == a & 0xF))
  {
  }

  /** ADD carries exactly when the 8-bit result wrapped round below A. */
  lemma AddCarryFlag(a: byte, v: byte)
    ensures AddA(a, v).flags.c == (AddA(a, v).value < a)
  {
    AddCarryIsWrap(a, v);
  }

  /** ADD half-carries exactly when the low nibble of the result wrapped round below A's. */
  lemma AddHalfFlag(a: byte, v: byte)
    ensures AddA(a, v).flags.h == (AddA(a, v).value & 0xF < a & 0xF)
  {
    AddCarryIsWrap(a, v);
  }

  /** ADC carries when the result wrapped below A, or equals A with a carry in. */
  lemma AdcCarryFlag(a: byte, v: byte, carry: bool)
    ensures AdcA(a, v, carry).flags.c == (AdcA(a, v, carry).value < a || (carry && AdcA(a, v, carry).value == a))
  {
    AdcCarryIsWrap(a, v, CarryBit(carry));
  }

  /** ADC half-carries when the low nibble wrapped below A's, or equals it with a carry in. */
  lemma AdcHalfFlag(a: byte, v: byte, carry: bool)
    ensures AdcA(a, v, carry).flags.h ==
      (AdcA(a, v, carry).value & 0xF < a & 0xF || (carry && AdcA(a, v, carry).value & 0xF == a & 0xF))
  {
    AdcHalfIsWrap(a, v, CarryBit(carry));
  }

  /** SUB borrows exactly when the difference wrapped round above A. */
  lemma SubCarryFlag(a: byte, v: byte)
    ensures SubA(a, v).flags.c == (SubA(a, v).value > a)
  {
    SubBorrowIsWrap(a, v);
  }

  /** SUB half-borrows exactly when the low nibble of the difference wrapped round above A's. */
  lemma SubHalfFlag(a: byte, v: byte)
    ensures SubA(a, v).flags.h == (SubA(a, v).value & 0xF > a & 0xF)
  {
    SubBorrowIsWrap(a, v);
  }

  /** SBC borrows when the difference wrapped above A, or equals A with a borrow in. */
  lemma SbcCarryFlag(a: byte, v: byte, carry: bool)
    ensures SbcA(a, v, carry).flags.c == (SbcA(a, v, carry).value > a || (carry && SbcA(a, v, carry).value == a))
  {
    SbcBorrowIsWrap(a, v, CarryBit(carry));
  }

  /** SBC half-borrows when the low nibble wrapped above A's, or equals it with a borrow in. */
  lemma SbcHalfFlag(a: byte, v: byte, carry: bool)
    ensures SbcA(a, v, carry).flags.h ==
      (SbcA(a, v, carry).value & 0xF > a & 0xF || (carry && SbcA(a, v, carry).value & 0xF == a & 0xF))
  {
    SbcHalfIsWrap(a, v, CarryBit(carry));
  }

  /** CP sets exactly the flags SUB would: Z when the two are equal, C when A is the smaller. */
  lemma CompareIsSubtract(a: byte, v: byte)
    ensures CpA(a, v) == SubA(a, v).flags
    ensures CpA(a, v).z == (a == v) && CpA(a, v).c == (a < v)
  {
  }

  lemma AddBack(a: byte, v: byte)
    ensures (a + v) - v == a && (a - v) + v == a
  {
  }

  /** Subtracting v undoes adding v. */
  lemma SubUndoesAdd(a: byte, v: byte)
    ensures SubA(AddA(a, v).value, v).value == a
  {
    AddBack(a, v);
  }

  /** Adding v undoes subtracting v. */
  lemma AddUndoesSub(a: byte, v: byte)
    ensures AddA(SubA(a, v).value, v).value == a
  {
    AddBack(a, v);
  }

  lemma AddBackCarry(a: byte, v: byte)
    ensures ((a + v) < v) == ((a as word) + (v as word) > 0xFF)
    ensures ((a - v) as word) + (v as word) > 0xFF <==> a < v
  {
  }

  /** The borrow of SUB after ADD is ADD's carry, and the carry of ADD after SUB is SUB's borrow. */
  lemma UndoneCarry(a: byte, v: byte)
    ensures SubA(AddA(a, v).value, v).flags.c == AddA(a, v).flags.c
    ensures AddA(SubA(a, v).value, v).flags.c == SubA(a, v).flags.c
  {
    AddBackCarry(a, v);
  }

  lemma AdcBack(a: byte, v: byte, cy: byte)
    ensures (a + v + cy) - v - cy == a && (a - v - cy) + v + cy == a
  {
  }

  /** SBC with the carry ADC was given undoes that ADC. */
  lemma SbcUndoesAdc(a: byte, v: byte, carry: bool)
    ensures SbcA(AdcA(a, v, carry).value, v, carry).value == a
  {
    AdcBack(a, v, CarryBit(carry));
  }

  /** ADC with the carry SBC was given undoes that SBC. */
  lemma AdcUndoesSbc(a: byte, v: byte, carry: bool)
    ensures AdcA(SbcA(a, v, carry).value, v, carry).value == a
  {
    AdcBack(a, v, CarryBit(carry));
  }

  // ----- the arithmetic instructions as integer sums -----

  lemma WordAbove(x: word)
    ensures (x > 0xFF) == (x as int > 255)
  {
  }

  lemma ByteSumCarry(a: byte, v: byte, carry: bool)
    ensures (a + v + CarryBit(carry)) as int == (a as int + v as int + CarryValue(carry)) % 256
  {
    ByteSum(a, v, CarryBit(carry));
  }

  /** ADC computes A + v + carry modulo 256. */
  lemma AdcIsIntegerSum(a: byte, v: byte, carry: bool)
    ensures AdcA(a, v, carry).value as int == (a as int + v as int + CarryValue(carry)) % 256
  {
    ByteSumCarry(a, v, carry);
  }

  /** ADC carries exactly when the integer sum A + v + carry exceeds 255. */
  lemma AdcCarryIsOverflow(a: byte, v: byte, carry: bool)
    ensures AdcA(a, v, carry).flags.c == (a as int + v as int + CarryValue(carry) > 255)
  {
    var cy := CarryBit(carry);
    WideSum(a, v, cy);
    WordAbove((a as word) + (v as word) + (cy as word));
  }

  lemma BorrowCases(a: byte, v: byte, cy: byte)
    requires cy <= 1
    ensures ((a as word) < (v as word) + (cy as word)) == (a < v || (cy == 1 && a == v))
  {
  }

  /** SBC borrows exactly when v + carry exceeds A as integers. */
  lemma SbcCarryIsUnderflow(a: byte, v: byte, carry: bool)
    ensures SbcA(a, v, carry).flags.c == (a as int < v as int + CarryValue(carry))
  {
    BorrowCases(a, v, CarryBit(carry));
    ByteLess(a, v);
    ByteAsIntInjective(a, v);
  }

  lemma AddAsAdc(a: byte, v: byte, cy: byte)
    requires cy == 0
    ensures a + v + cy == a + v
    ensures ((a as word) + (v as word) + (cy as word) > 0xFF) == ((a as word) + (v as word) > 0xFF)
    ensures ((a & 0xF) + (v & 0xF) + cy > 0xF) == ((a & 0xF) + (v & 0xF) > 0xF)
  {
  }

  lemma SubAsSbc(a: byte, v: byte, cy: byte)
    requires cy == 0
    ensures a - v - cy == a - v
    ensures ((a as word) < (v as word) + (cy as word)) == (a < v)
    ensures ((a & 0xF) < (v & 0xF) + cy) == ((a & 0xF) < (v & 0xF))
  {
  }

  lemma AdcFieldsWithoutCarry(a: byte, v: byte)
    ensures AdcA(a, v, false).value == AddA(a, v).value
    ensures AdcA(a, v, false).flags.h == AddA(a, v).flags.h
    ensures AdcA(a, v, false).flags.c == AddA(a, v).flags.c
  {
    AddAsAdc(a, v, CarryBit(false));
  }

  /** ADD is ADC with a clear carry. */
  lemma AddIsAdcWithoutCarry(a: byte, v: byte)
    ensures AdcA(a, v, false) == AddA(a, v)
  {
    AdcFieldsWithoutCarry(a, v);
  }

  lemma SbcFieldsWithoutCarry(a: byte, v: byte)
    ensures SbcA(a, v, false).value == SubA(a, v).value
    ensures SbcA(a, v, false).flags.h == SubA(a, v).flags.h
    ensures SbcA(a, v, false).flags.c == SubA(a, v).flags.c
  {
    SubAsSbc(a, v, CarryBit(false));
  }

  /** SUB is SBC with a clear carry. */
  lemma SubIsSbcWithoutCarry(a: byte, v: byte)
    ensures SbcA(a, v, false) == SubA(a, v)
  {
    SbcFieldsWithoutCarry(a, v);
  }

  lemma WideSumOfTwo(a: byte, v: byte)
    ensures ((a as word) + (v as word)) as int == a as int + v as int
  {
  }

  lemma TruncatedSumOfTwo(a: byte, v: byte)
    ensures a + v == Lo((a as word) + (v as word))
  {
  }

  lemma ByteSumOfTwo(a: byte, v: byte)
    ensures (a + v) as int == (a as int + v as int) % 256
  {
    var x := (a as word) + (v as word);
    WideSumOfTwo(a, v);
    WordSplit(x);
    LoInt(x);
    TruncatedSumOfTwo(a, v);
    ModOfSplit(x as int, (x >> 8) as int, (x & 0xFF) as int);
  }

  /** ADD computes A + v modulo 256. */
  lemma AddIsIntegerSum(a: byte, v: byte)
    ensures AddA(a, v).value as int == (a as int + v as int) % 256
  {
    ByteSumOfTwo(a, v);
  }

  /** ADD carries exactly when the integer sum A + v exceeds 255. */
  lemma AddCarryIsOverflow(a: byte, v: byte)
    ensures AddA(a, v).flags.c == (a as int + v as int > 255)
  {
    WideSumOfTwo(a, v);
    WordAbove((a as word) + (v as word));
  }

  /** SUB borrows exactly when v exceeds A as integers. */
  lemma SubCarryIsUnderflow(a: byte, v: byte)
    ensures SubA(a, v).flags.c == (a as int < v as int)
  {
    ByteLess(a, v);
  }

  // ----- 8-bit logic -----

  /** `and_a`: the bitwise AND; H always set, N and C cleared. */
  function AndA(a: byte, v: byte): Out
  {
    var result := a & v;
    Out(result, Flags(result == 0, false, true, false))
  }

  /** `xor_a`: the bitwise exclusive OR; N, H and C cleared. */
  function XorA(a: byte, v: byte): Out
  {
    var result := a ^ v;
    Out(result, Flags(result == 0, false, false, false))
  }

  /** `or_a`: the bitwise OR; N, H and C cleared. */
  function OrA(a: byte, v: byte): Out
  {
    var result := a | v;
    Out(result, Flags(result == 0, false, false, false))
  }

  lemma AndMask(a: byte, v: byte, m: byte)
    requires SingleBit(m)
    ensures ((a & v) & m != 0) == ((a & m != 0) && (v & m != 0))
  {
  }

  lemma XorMask(a: byte, v: byte, m: byte)
    requires SingleBit(m)
    ensures ((a ^ v) & m != 0) == ((a & m != 0) != (v & m != 0))
  {
  }

  lemma OrMask(a: byte, v: byte, m: byte)
    requires SingleBit(m)
    ensures ((a | v) & m != 0) == ((a & m != 0) || (v & m != 0))
  {
  }

  /** Each bit of AND is set exactly when it is set in both operands; Z when no bit is. */
  lemma AndBits(a: byte, v: byte)
    ensures forall i :: 0 <= i < 8 ==> (Bit(AndA(a, v).value, i) <==> Bit(a, i) && Bit(v, i))
    ensures AndA(a, v).flags == Flags(AndA(a, v).value == 0, false, true, false)
  {
    forall i | 0 <= i < 8
      ensures Bit(AndA(a, v).value, i) <==> Bit(a, i) && Bit(v, i)
    {
      AndMask(a, v, BitMask(i));
    }
  }

  /** Each bit of XOR is set exactly when the operands differ there. */
  lemma XorBits(a: byte, v: byte)
    ensures forall i :: 0 <= i < 8 ==> (Bit(XorA(a, v).value, i) <==> Bit(a, i) != Bit(v, i))
    ensures XorA(a, v).flags == Flags(XorA(a, v).value == 0, false, false, false)
  {
    forall i | 0 <= i < 8
      ensures Bit(XorA(a, v).value, i) <==> Bit(a, i) != Bit(v, i)
    {
      XorMask(a, v, BitMask(i));
    }
  }

  /** Each bit of OR is set exactly when it is set in either operand. */
  lemma OrBits(a: byte, v: byte)
    ensures forall i :: 0 <= i < 8 ==> (Bit(OrA(a, v).value, i) <==> Bit(a, i) || Bit(v, i))
    ensures OrA(a, v).flags == Flags(OrA(a, v).value == 0, false, false, false)
  {
    forall i | 0 <= i < 8
      ensures Bit(OrA(a, v).value, i) <==> Bit(a, i) || Bit(v, i)
    {
      OrMask(a, v, BitMask(i));
    }
  }

  /** XOR A clears A and sets Z; AND A and OR A keep A and set Z exactly when A is zero. */
  lemma LogicWithItself(a: byte)
    ensures XorA(a, a) == Out(0, Flags(true, false, false, false))
    ensures AndA(a, a).value == a && OrA(a, a).value == a
    ensures AndA(a, a).flags.z == (a == 0) && OrA(a, a).flags.z == (a == 0)
  {
  }

  // ----- increment and decrement -----

  /** `inc_byte`: v + 1; H when the low nibble was 0xF; C is not touched. */
  function IncByte(v: byte, f: Flags): Out
  {
    var result := v + 1;
    Out(result, Flags(result == 0, false, v & 0xF == 0xF, f.c))
  }

  /** `dec_byte`: v - 1; H when the low nibble was 0 (a borrow from bit 4); C is not touched. */
  function DecByte(v: byte, f: Flags): Out
  {
    var result := v - 1;
    Out(result, Flags(result == 0, true, v & 0xF == 0, f.c))
  }

  lemma IncDecBack(v: byte)
    ensures (v + 1) - 1 == v && (v - 1) + 1 == v
  {
  }

  /** INC and DEC undo each other and keep C. */
  lemma IncDecInverse(v: byte, f: Flags)
    ensures DecByte(IncByte(v, f).value, f).value == v
    ensures IncByte(DecByte(v, f).value, f).value == v
    ensures IncByte(v, f).flags.c == f.c && DecByte(v, f).flags.c == f.c
  {
    IncDecBack(v);
  }

  lemma IncHalf(v: byte)
    ensures (v & 0xF == 0xF) == ((v & 0xF) + (1 & 0xF) > 0xF)
    ensures (v & 0xF == 0) == ((v & 0xF) < (1 & 0xF))
  {
  }

  /** INC is ADD of 1 and DEC is SUB of 1 in the result, Z, N and H; only C differs, being kept. */
  lemma IncDecAreAddSubOne(v: byte, f: Flags)
    ensures IncByte(v, f).flags == AddA(v, 1).flags.(c := f.c) && IncByte(v, f).value == AddA(v, 1).value
    ensures DecByte(v, f).flags == SubA(v, 1).flags.(c := f.c) && DecByte(v, f).value == SubA(v, 1).value
  {
    IncHalf(v);
  }

  // ----- rotates, shifts, swap -----

  lemma LeftMask(v: byte, low: byte, m: byte)
    requires SingleBit(m) && m != 0x80 && low <= 1
    ensures (((v << 1) | low) & (m << 1) != 0) == (v & m != 0)
  {
  }

  lemma RightMask(v: byte, top: byte, m: byte)
    requires SingleBit(m) && m != 0x01 && (top == 0 || top == 0x80)
    ensures (((v >> 1) | top) & (m >> 1) != 0) == (v & m != 0)
  {
  }

  /** In `x`, v shifted left by one with `low` in bit 0, bit j + 1 is bit j of v. */
  lemma ShiftLeftBits(v: byte, low: byte, x: byte)
    requires low <= 1 && x == (v << 1) | low
    ensures forall j :: 0 <= j < 7 ==> (Bit(x, j + 1) <==> Bit(v, j))
    ensures Bit(x, 0) == (low == 1)
  {
    forall j | 0 <= j < 7
      ensures Bit(x, j + 1) <==> Bit(v, j)
    {
      MaskStep(j);
      LeftMask(v, low, BitMask(j));
    }
  }

  /** In `x`, v shifted right by one with `top` in bit 7, bit j is bit j + 1 of v. */
  lemma ShiftRightBits(v: byte, top: byte, x: byte)
    requires (top == 0 || top == 0x80) && x == (v >> 1) | top
    ensures forall j :: 0 <= j < 7 ==> (Bit(x, j) <==> Bit(v, j + 1))
    ensures Bit(x, 7) == (top == 0x80)
  {
    forall j | 0 <= j < 7
      ensures Bit(x, j) <==> Bit(v, j + 1)
    {
      MaskStep(j);
      RightMask(v, top, BitMask(j + 1));
    }
  }

  /** The flags of the rotate and shift helpers: Z from the result, N and H cleared, C the bit moved out. */
  function ShiftFlags(result: byte, out: bool): Flags
  {
    Flags(result == 0, false, false, out)
  }

  /** `rlc_byte`: rotate left; bit 7 goes to both C and bit 0. */
  function Rlc(v: byte): Out
  {
    var bit7 := v & 0x80 != 0;
    var result := (v << 1) | (if bit7 then 1 else 0);
    Out(result, ShiftFlags(result, bit7))
  }

  /** `rrc_byte`: rotate right; bit 0 goes to both C and bit 7. */
  function Rrc(v: byte): Out
  {
    var bit0 := v & 0x01 != 0;
    var result := (v >> 1) | (if bit0 then 0x80 else 0);
    Out(result, ShiftFlags(result, bit0))
  }

  /** `rl_byte`: rotate left through carry; the old carry enters bit 0 and bit 7 leaves into C. */
  function Rl(v: byte, carry: bool): Out
  {
    var bit7 := v & 0x80 != 0;
    var result := (v << 1) | CarryBit(carry);
    Out(result, ShiftFlags(result, bit7))
  }

  /** `rr_byte`: rotate right through carry; the old carry enters bit 7 and bit 0 leaves into C. */
  function Rr(v: byte, carry: bool): Out
  {
    var bit0 := v & 0x01 != 0;
    var result := (v >> 1) | (if carry then 0x80 else 0);
    Out(result, ShiftFlags(result, bit0))
  }

  /** `sla_byte`: shift left; bit 7 goes to C and bit 0 becomes 0. */
  function Sla(v: byte): Out
  {
    var bit7 := v & 0x80 != 0;
    var result := v << 1;
    Out(result, ShiftFlags(result, bit7))
  }

  /** `sra_byte`: shift right keeping the sign bit; bit 0 goes to C. */
  function Sra(v: byte): Out
  {
    var bit0 := v & 0x01 != 0;
    var result := (v >> 1) | (v & 0x80);
    Out(result, ShiftFlags(result, bit0))
  }

  /** `swap_byte`: exchange the two nibbles; Z when the byte is zero, N, H and C cleared. */
  function Swap(v: byte): Out
  {
    var result := ((v & 0x0F) << 4) | ((v & 0xF0) >> 4);
    Out(result, Flags(result == 0, false, false, false))
  }

  /** RLC moves every bit up one place and bit 7 round to bit 0 and into C. */
  lemma RlcBits(v: byte)
    ensures forall j :: 0 <= j < 7 ==> (Bit(Rlc(v).value, j + 1) <==> Bit(v, j))
    ensures Bit(Rlc(v).value, 0) == Bit(v, 7) && Rlc(v).flags.c == Bit(v, 7)
    ensures Rlc(v).flags == ShiftFlags(Rlc(v).value, Bit(v, 7))
  {
    ShiftLeftBits(v, if v & 0x80 != 0 then 1 else 0, Rlc(v).value);
  }

  /** RRC moves every bit down one place and bit 0 round to bit 7 and into C. */
  lemma RrcBits(v: byte)
    ensures forall j :: 0 <= j < 7 ==> (Bit(Rrc(v).value, j) <==> Bit(v, j + 1))
    ensures Bit(Rrc(v).value, 7) == Bit(v, 0) && Rrc(v).flags.c == Bit(v, 0)
    ensures Rrc(v).flags == ShiftFlags(Rrc(v).value, Bit(v, 0))
  {
    ShiftRightBits(v, if v & 0x01 != 0 then 0x80 else 0, Rrc(v).value);
  }

  /** RL moves every bit up one place, the old carry into bit 0 and bit 7 into C. */
  lemma RlBits(v: byte, carry: bool)
    ensures forall j :: 0 <= j < 7 ==> (Bit(Rl(v, carry).value, j + 1) <==> Bit(v, j))
    ensures Bit(Rl(v, carry).value, 0) == carry && Rl(v, carry).flags.c == Bit(v, 7)
    ensures Rl(v, carry).flags == ShiftFlags(Rl(v, carry).value, Bit(v, 7))
  {
    ShiftLeftBits(v, CarryBit(carry), Rl(v, carry).value);
  }

  /** RR moves every bit down one place, the old carry into bit 7 and bit 0 into C. */
  lemma RrBits(v: byte, carry: bool)
    ensures forall j :: 0 <= j < 7 ==> (Bit(Rr(v, carry).value, j) <==> Bit(v, j + 1))
    ensures Bit(Rr(v, carry).value, 7) == carry && Rr(v, carry).flags.c == Bit(v, 0)
    ensures Rr(v, carry).flags == ShiftFlags(Rr(v, carry).value, Bit(v, 0))
  {
    ShiftRightBits(v, if carry then 0x80 else 0, Rr(v, carry).value);
  }

  /** SLA moves every bit up one place, clears bit 0 and puts bit 7 in C. */
  lemma SlaBits(v: byte)
    ensures forall j :: 0 <= j < 7 ==> (Bit(Sla(v).value, j + 1) <==> Bit(v, j))
    ensures !Bit(Sla(v).value, 0) && Sla(v).flags.c == Bit(v, 7)
    ensures Sla(v).flags == ShiftFlags(Sla(v).value, Bit(v, 7))
  {
    assert Sla(v).value == (v << 1) | 0;
    ShiftLeftBits(v, 0, Sla(v).value);
  }

  /** SRA moves every bit down one place, keeps bit 7 and puts bit 0 in C. */
  lemma SraBits(v: byte)
    ensures forall j :: 0 <= j < 7 ==> (Bit(Sra(v).value, j) <==> Bit(v, j + 1))
    ensures Bit(Sra(v).value, 7) == Bit(v, 7) && Sra(v).flags.c == Bit(v, 0)
    ensures Sra(v).flags == ShiftFlags(Sra(v).value, Bit(v, 0))
  {
    ShiftRightBits(v, v & 0x80, Sra(v).value);
  }

  /** SWAP puts the high nibble low and the low nibble high, and Z tells whether the byte was zero. */
  lemma SwapNibbles(v: byte)
    ensures Swap(v).value & 0x0F == v >> 4 && Swap(v).value >> 4 == v & 0x0F
    ensures Swap(v).flags == Flags(v == 0, false, false, false)
  {
  }

  /** SWAP is an involution. */
  lemma SwapTwice(v: byte)
    ensures Swap(Swap(v).value).value == v
  {
  }

  lemma RotateBack(v: byte)
    ensures var l := (v << 1) | (if v & 0x80 != 0 then 1 else 0); (l >> 1) | (if l & 0x01 != 0 then 0x80 else 0) == v
    ensures var l := (v << 1) | (if v & 0x80 != 0 then 1 else 0); (l & 0x01 != 0) == (v & 0x80 != 0)
    ensures var r := (v >> 1) | (if v & 0x01 != 0 then 0x80 else 0); (r << 1) | (if r & 0x80 != 0 then 1 else 0) == v
    ensures var r := (v >> 1) | (if v & 0x01 != 0 then 0x80 else 0); (r & 0x80 != 0) == (v & 0x01 != 0)
  {
  }

  /** RRC undoes RLC and RLC undoes RRC; the bit put in C is the one the first rotation moved round. */
  lemma RotateInverse(v: byte)
    ensures Rrc(Rlc(v).value).value == v && Rrc(Rlc(v).value).flags.c == Rlc(v).flags.c
    ensures Rlc(Rrc(v).value).value == v && Rlc(Rrc(v).value).flags.c == Rrc(v).flags.c
  {
    RotateBack(v);
  }

  lemma CarryBack(v: byte, cy: byte)
    requires cy <= 1
    ensures var l := (v << 1) | cy; (l >> 1) | (if v & 0x80 != 0 then 0x80 else 0) == v && (l & 0x01 != 0) == (cy == 1)
    ensures var r := (v >> 1) | (if cy == 1 then 0x80 else 0); (r << 1) | (if v & 0x01 != 0 then 1 else 0) == v && (r & 0x80 != 0) == (cy == 1)
  {
  }

  /** RR given the carry RL produced restores both the byte and the original carry, and vice versa. */
  lemma RotateThroughCarryInverse(v: byte, carry: bool)
    ensures Rr(Rl(v, carry).value, Rl(v, carry).flags.c).value == v
    ensures Rr(Rl(v, carry).value, Rl(v, carry).flags.c).flags.c == carry
    ensures Rl(Rr(v, carry).value, Rr(v, carry).flags.c).value == v
    ensures Rl(Rr(v, carry).value, Rr(v, carry).flags.c).flags.c == carry
  {
    CarryBack(v, CarryBit(carry));
  }

  // ----- decimal adjust -----

  /**
    `daa`: after a BCD addition (N clear) add 0x06 when H is set or the low
    digit exceeds 9, and 0x60 when C is set or A exceeds 0x99; after a
    subtraction (N set) subtract the adjustment chosen by H and C alone.
    C is only ever set, H cleared, N kept.
   */
  function Daa(a: byte, f: Flags): Out
  {
    var low := f.h || (!f.n && a & 0x0F > 0x09);
    var high := f.c || (!f.n && a > 0x99);
    var adjust := (if low then 0x06 else 0x00) | (if high then 0x60 else 0x00);
    var result := if f.n then a - adjust else a + adjust;
    Out(result, Flags(result == 0, f.n, false, f.c || high))
  }

  /** DAA never clears C, always clears H, keeps N and sets Z from its result. */
  lemma DaaFlags(a: byte, f: Flags)
    ensures Daa(a, f).flags.z == (Daa(a, f).value == 0) && !Daa(a, f).flags.h && Daa(a, f).flags.n == f.n
    ensures f.c ==> Daa(a, f).flags.c
  {
  }

  /** Both nibbles are decimal digits. */
  predicate IsBcd(v: byte)
  {
    v & 0x0F <= 9 && v >> 4 <= 9
  }

  /** With H and C clear, DAA leaves a valid BCD byte as it is and does not set C. */
  lemma DaaKeepsBcd(a: byte, z: bool, n: bool)
    requires IsBcd(a)
    ensures Daa(a, Flags(z, n, false, false)).value == a && !Daa(a, Flags(z, n, false, false)).flags.c
  {
  }

  // ----- 16-bit arithmetic -----

  /** `add_hl`: HL + v; H from the sum of the low 12 bits, C when HL exceeds 0xFFFF - v; Z is not touched. */
  function AddHl(hl: word, v: word, f: Flags): WordOut
  {
    WordOut(hl + v, Flags(f.z, false, (hl & 0x0FFF) + (v & 0x0FFF) > 0x0FFF, hl > 0xFFFF - v))
  }

  /** The carry out of the low bytes of two words. */
  function LowCarry(hl: word, v: word): bool
  {
    (Lo(hl) as word) + (Lo(v) as word) > 0xFF
  }

  lemma LowHalf(hl: word, v: word)
    ensures Lo(hl + v) == Lo(hl) + Lo(v)
  {
  }

  lemma HighSum(hl: word, v: word)
    ensures (hl + v) >> 8 == ((hl >> 8) + (v >> 8) + (((hl & 0xFF) + (v & 0xFF)) >> 8)) & 0xFF
  {
  }

  lemma HighBridge(p: word, q: word, k: word)
    requires p <= 0xFF && q <= 0xFF && k <= 1
    ensures ((p + q + k) & 0xFF) as byte == p as byte + q as byte + k as byte
  {
  }

  lemma LowCarryBit(hl: word, v: word)
    ensures ((hl & 0xFF) + (v & 0xFF)) >> 8 <= 1
    ensures (((hl & 0xFF) + (v & 0xFF)) >> 8) as byte == CarryBit(LowCarry(hl, v))
  {
  }

  lemma HighHalf(hl: word, v: word)
    ensures Hi(hl + v) == Hi(hl) + Hi(v) + CarryBit(LowCarry(hl, v))
  {
    HighSum(hl, v);
    LowCarryBit(hl, v);
    HighBridge(hl >> 8, v >> 8, ((hl & 0xFF) + (v & 0xFF)) >> 8);
  }

  lemma HalfOfHigh(hl: word, v: word, lc: byte)
    requires lc == CarryBit(LowCarry(hl, v))
    ensures ((hl & 0x0FFF) + (v & 0x0FFF) > 0x0FFF) == ((Hi(hl) & 0xF) + (Hi(v) & 0xF) + lc > 0xF)
  {
  }

  /** The pair (x1, x0) is below (y1, y0) in lexicographic order. */
  predicate PairLess(x1: byte, x0: byte, y1: byte, y0: byte)
  {
    x1 < y1 || (x1 == y1 && x0 < y0)
  }

  lemma SubstPair(b: bool, x1: byte, x0: byte, z1: byte, z0: byte, y1: byte, y0: byte)
    requires b == PairLess(x1, x0, y1, y0)
    requires x1 == z1 && x0 == z0
    ensures b == PairLess(z1, z0, y1, y0)
  {
  }

  lemma CarryAsHalves(hl: word, v: word)
    ensures (hl > 0xFFFF - v) == PairLess(Hi(0xFFFF - v), Lo(0xFFFF - v), Hi(hl), Lo(hl))
  {
    HiLoLess(0xFFFF - v, hl);
  }

  lemma ComplementHalves(v: word)
    ensures Hi(0xFFFF - v) == 0xFF - Hi(v) && Lo(0xFFFF - v) == 0xFF - Lo(v)
  {
  }

  lemma ByteComplementCarry(x: byte, y: byte)
    ensures (0xFF - y < x) == ((x as word) + (y as word) > 0xFF)
    ensures (0xFF - y == x) == ((x as word) + (y as word) == 0xFF)
  {
  }

  lemma AdcCarrySplit(x: byte, y: byte, cy: byte)
    requires cy <= 1
    ensures ((x as word) + (y as word) + (cy as word) > 0xFF) ==
      ((x as word) + (y as word) > 0xFF || ((x as word) + (y as word) == 0xFF && cy == 1))
  {
  }

  lemma PairCarry(x1: byte, x0: byte, y1: byte, y0: byte, lc: bool)
    requires lc == ((x0 as word) + (y0 as word) > 0xFF)
    ensures PairLess(0xFF - y1, 0xFF - y0, x1, x0) ==
      ((x1 as word) + (y1 as word) + (CarryBit(lc) as word) > 0xFF)
  {
    ByteComplementCarry(x1, y1);
    ByteComplementCarry(x0, y0);
    AdcCarrySplit(x1, y1, CarryBit(lc));
  }

  lemma CarryAsComplement(hl: word, v: word)
    ensures (hl > 0xFFFF - v) == PairLess(0xFF - Hi(v), 0xFF - Lo(v), Hi(hl), Lo(hl))
  {
    CarryAsHalves(hl, v);
    ComplementHalves(v);
    SubstPair(hl > 0xFFFF - v, Hi(0xFFFF - v), Lo(0xFFFF - v), 0xFF - Hi(v), 0xFF - Lo(v), Hi(hl), Lo(hl));
  }

  lemma ComplementAsCarry(hl: word, v: word)
    ensures PairLess(0xFF - Hi(v), 0xFF - Lo(v), Hi(hl), Lo(hl)) ==
      ((Hi(hl) as word) + (Hi(v) as word) + (CarryBit(LowCarry(hl, v)) as word) > 0xFF)
  {
    PairCarry(Hi(hl), Lo(hl), Hi(v), Lo(v), LowCarry(hl, v));
  }

  /** HL > 0xFFFF - v exactly when the high bytes, with the low carry, carry. */
  lemma CarryOfHigh(hl: word, v: word)
    ensures (hl > 0xFFFF - v) ==
      ((Hi(hl) as word) + (Hi(v) as word) + (CarryBit(LowCarry(hl, v)) as word) > 0xFF)
  {
    CarryAsComplement(hl, v);
    ComplementAsCarry(hl, v);
  }

  lemma LowCarryIsAdd(hl: word, v: word)
    ensures LowCarry(hl, v) == AddA(Lo(hl), Lo(v)).flags.c
  {
  }

  /** The low byte of ADD HL is the 8-bit ADD of the low bytes. */
  lemma AddHlLow(hl: word, v: word, f: Flags)
    ensures Lo(AddHl(hl, v, f).value) == AddA(Lo(hl), Lo(v)).value
  {
    LowHalf(hl, v);
  }

  /** The high byte of ADD HL is the ADC of the high bytes with the carry of the low ADD. */
  lemma AddHlHigh(hl: word, v: word, f: Flags)
    ensures Hi(AddHl(hl, v, f).value) == AdcA(Hi(hl), Hi(v), AddA(Lo(hl), Lo(v)).flags.c).value
  {
    HighHalf(hl, v);
  }

  /** H of ADD HL, the carry out of bit 11, is the half carry of that high ADC. */
  lemma AddHlHalf(hl: word, v: word, f: Flags)
    ensures AddHl(hl, v, f).flags.h == AdcA(Hi(hl), Hi(v), AddA(Lo(hl), Lo(v)).flags.c).flags.h
  {
    HalfOfHigh(hl, v, CarryBit(LowCarry(hl, v)));
  }

  /** C of ADD HL is the carry of that high ADC; Z is kept and N cleared. */
  lemma AddHlCarryInBytes(hl: word, v: word, f: Flags)
    ensures AddHl(hl, v, f).flags.c == ((Hi(hl) as word) + (Hi(v) as word) + (CarryBit(LowCarry(hl, v)) as word) > 0xFF)
  {
    CarryOfHigh(hl, v);
  }

  lemma AdcOfHighCarry(hl: word, v: word)
    ensures AdcA(Hi(hl), Hi(v), AddA(Lo(hl), Lo(v)).flags.c).flags.c ==
      ((Hi(hl) as word) + (Hi(v) as word) + (CarryBit(LowCarry(hl, v)) as word) > 0xFF)
  {
    LowCarryIsAdd(hl, v);
  }

  lemma AddHlCarry(hl: word, v: word, f: Flags)
    ensures AddHl(hl, v, f).flags.c == AdcA(Hi(hl), Hi(v), AddA(Lo(hl), Lo(v)).flags.c).flags.c
  {
    AddHlCarryInBytes(hl, v, f);
    AdcOfHighCarry(hl, v);
  }

  /** ADD HL keeps Z and clears N. */
  lemma AddHlKeepsZero(hl: word, v: word, f: Flags)
    ensures AddHl(hl, v, f).flags.z == f.z && !AddHl(hl, v, f).flags.n
  {
  }

  /**
    `add_sp_n` and `ld_hl_sp_n`: SP plus the sign-extended offset; Z and N
    cleared, H and C from the addition of the offset to SP's low nibble and
    low byte.
   */
  function SpPlusOffset(sp: word, n: byte): WordOut
  {
    var offset := SignExtend(n);
    WordOut(sp + offset, Flags(false, false, (sp & 0xF) + (offset & 0xF) > 0xF, (sp & 0xFF) + (offset & 0xFF) > 0xFF))
  }

  /** The offset byte read as a two's-complement number. */
  function Signed(n: byte): (k: int)
    ensures -128 <= k < 128
    ensures k % 256 == n as int
  {
    if n < 0x80 then n as int else n as int - 256
  }

  lemma OffsetHalf(sp: word, n: byte)
    ensures ((sp & 0xF) + (SignExtend(n) & 0xF) > 0xF) == ((Lo(sp) & 0xF) + (n & 0xF) > 0xF)
  {
  }

  lemma OffsetCarry(sp: word, n: byte)
    ensures ((sp & 0xFF) + (SignExtend(n) & 0xFF) > 0xFF) == ((Lo(sp) as word) + (n as word) > 0xFF)
  {
  }

  /** H of SP + n is the half carry of an unsigned 8-bit ADD of n to SP's low byte. */
  lemma SpOffsetHalf(sp: word, n: byte)
    ensures SpPlusOffset(sp, n).flags.h == AddA(Lo(sp), n).flags.h
  {
    OffsetHalf(sp, n);
  }

  /** C of SP + n is the carry of an unsigned 8-bit ADD of n to SP's low byte; Z and N are cleared. */
  lemma SpOffsetCarry(sp: word, n: byte)
    ensures SpPlusOffset(sp, n).flags.c == AddA(Lo(sp), n).flags.c
    ensures !SpPlusOffset(sp, n).flags.z && !SpPlusOffset(sp, n).flags.n
  {
    OffsetCarry(sp, n);
  }

  /** The low byte of SP + n is that 8-bit ADD's result. */
  lemma SpOffsetLow(sp: word, n: byte)
    ensures Lo(SpPlusOffset(sp, n).value) == AddA(Lo(sp), n).value
  {
    LowHalf(sp, SignExtend(n));
  }
}
