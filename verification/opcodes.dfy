/**
  The instruction set of the interpreter's dispatch: every opcode the
  `match` in `execute` handles, as a datatype, with the decoder and its
  inverse. An opcode splits into the fields x (bits 7-6), y (bits 5-3) and
  z (bits 2-0); the dispatch table follows that layout, so decoding reads
  the fields and encoding packs them back. The eleven opcodes the Rust code
  treats as illegal and the CB opcodes it does not implement decode to a
  fault, as the Rust code panics on them.
 */
module Opcodes {
  import opened Bits
  import Cpu

  /** The 8-bit operands in field order: B, C, D, E, H, L, the byte at (HL), A. */
  datatype Reg = RegB | RegC | RegD | RegE | RegH | RegL | AtHL | RegA

  /** The 16-bit pairs of LD rr,nn, INC rr, DEC rr and ADD HL,rr. */
  datatype Pair = PairBC | PairDE | PairHL | PairSP

  /** The pairs of PUSH and POP. */
  datatype StackPair = StackBC | StackDE | StackHL | StackAF

  /** The eight accumulator operations of rows 0x80-0xBF and of the immediate forms. */
  datatype AluOp = OpAdd | OpAdc | OpSub | OpSbc | OpAnd | OpXor | OpOr | OpCp

  /** The CB-prefixed operations the Rust code implements (CB 0x00-0x37). */
  datatype ShiftOp = OpRlc | OpRrc | OpRl | OpRr | OpSla | OpSra | OpSwap

  /** RLCA, RRCA, RLA and RRA. */
  datatype RotKind = Rlca | Rrca | Rla | Rra

  /** The address forms of LD (rr),A and LD A,(rr): BC, DE, HL then increment, HL then decrement. */
  datatype Indirect = ViaBC | ViaDE | ViaHLInc | ViaHLDec

  datatype Instr =
    | Nop | StoreSp | Stop | Jr | JrCc(cc: Cpu.Cond)
    | LdPairImm(p: Pair) | AddHlPair(p: Pair)
    | StoreA(via: Indirect) | LoadA(via: Indirect)
    | IncPair(p: Pair) | DecPair(p: Pair)
    | IncReg(r: Reg) | DecReg(r: Reg) | LdRegImm(r: Reg)
    | RotateA(rot: RotKind) | DecimalAdjust | Complement | SetCarry | ComplementCarry
    | Halt | Ld(dst: Reg, src: Reg)
    | AluReg(op: AluOp, r: Reg)
    | RetCc(cc: Cpu.Cond) | LdhStore | AddSp | LdhLoad | LdHlSp
    | Pop(q: StackPair) | Ret | Reti | JpHl | LdSpHl
    | JpCc(cc: Cpu.Cond) | LdhStoreC | StoreAbs | LdhLoadC | LoadAbs
    | Jp | Prefixed | Di | Ei
    | CallCc(cc: Cpu.Cond) | Push(q: StackPair) | Call
    | AluImm(op: AluOp) | Rst(n: nat)

  /** A CB-prefixed instruction. */
  datatype CbInstr = Shift(op: ShiftOp, r: Reg)

  /** The Rust code's panics: an illegal opcode, or a CB opcode it does not implement. */
  datatype Fault = Illegal(opcode: byte) | UnimplementedCb(opcode: byte)

  /**
    The instructions an opcode can stand for: RST n (the call to 8n) has
    n below 8, and LD (HL),(HL) is not a load (its opcode is HALT).
   */
  predicate WellFormed(i: Instr)
  {
    match i
    case Rst(n) => n < 8
    case Ld(d, s) => !(d == AtHL && s == AtHL)
    case _ => true
  }

  // ----- operand fields -----

  function RegIndex(r: Reg): (i: nat)
    ensures i < 8
  {
    match r
    case RegB => 0
    case RegC => 1
    case RegD => 2
    case RegE => 3
    case RegH => 4
    case RegL => 5
    case AtHL => 6
    case RegA => 7
  }

  function RegOf(i: nat): (r: Reg)
    requires i < 8
    ensures RegIndex(r) == i
  {
    if i == 0 then RegB else if i == 1 then RegC else if i == 2 then RegD else if i == 3 then RegE
    else if i == 4 then RegH else if i == 5 then RegL else if i == 6 then AtHL else RegA
  }

  lemma RegOfIndex(r: Reg)
    ensures RegOf(RegIndex(r)) == r
  {
  }

  function PairIndex(p: Pair): (i: nat)
    ensures i < 4
  {
    match p
    case PairBC => 0
    case PairDE => 1
    case PairHL => 2
    case PairSP => 3
  }

  function PairOf(i: nat): (p: Pair)
    requires i < 4
    ensures PairIndex(p) == i
  {
    if i == 0 then PairBC else if i == 1 then PairDE else if i == 2 then PairHL else PairSP
  }

  function StackIndex(q: StackPair): (i: nat)
    ensures i < 4
  {
    match q
    case StackBC => 0
    case StackDE => 1
    case StackHL => 2
    case StackAF => 3
  }

  function StackOf(i: nat): (q: StackPair)
    requires i < 4
    ensures StackIndex(q) == i
  {
    if i == 0 then StackBC else if i == 1 then StackDE else if i == 2 then StackHL else StackAF
  }

  function CondIndex(cc: Cpu.Cond): (i: nat)
    ensures i < 4
  {
    match cc
    case IfNZ => 0
    case IfZ => 1
    case IfNC => 2
    case IfC => 3
  }

  function CondOf(i: nat): (cc: Cpu.Cond)
    requires i < 4
    ensures CondIndex(cc) == i
  {
    if i == 0 then Cpu.IfNZ else if i == 1 then Cpu.IfZ else if i == 2 then Cpu.IfNC else Cpu.IfC
  }

  function AluIndex(op: AluOp): (i: nat)
    ensures i < 8
  {
    match op
    case OpAdd => 0
    case OpAdc => 1
    case OpSub => 2
    case OpSbc => 3
    case OpAnd => 4
    case OpXor => 5
    case OpOr => 6
    case OpCp => 7
  }

  function AluOf(i: nat): (op: AluOp)
    requires i < 8
    ensures AluIndex(op) == i
  {
    if i == 0 then OpAdd else if i == 1 then OpAdc else if i == 2 then OpSub else if i == 3 then OpSbc
    else if i == 4 then OpAnd else if i == 5 then OpXor else if i == 6 then OpOr else OpCp
  }

  function ShiftIndex(op: ShiftOp): (i: nat)
    ensures i < 7
  {
    match op
    case OpRlc => 0
    case OpRrc => 1
    case OpRl => 2
    case OpRr => 3
    case OpSla => 4
    case OpSra => 5
    case OpSwap => 6
  }

  function ShiftOf(i: nat): (op: ShiftOp)
    requires i < 7
    ensures ShiftIndex(op) == i
  {
    if i == 0 then OpRlc else if i == 1 then OpRrc else if i == 2 then OpRl else if i == 3 then OpRr
    else if i == 4 then OpSla else if i == 5 then OpSra else OpSwap
  }

  function IndirectIndex(v: Indirect): (i: nat)
    ensures i < 4
  {
    match v
    case ViaBC => 0
    case ViaDE => 1
    case ViaHLInc => 2
    case ViaHLDec => 3
  }

  function IndirectOf(i: nat): (v: Indirect)
    requires i < 4
    ensures IndirectIndex(v) == i
  {
    if i == 0 then ViaBC else if i == 1 then ViaDE else if i == 2 then ViaHLInc else ViaHLDec
  }

  function RotIndex(k: RotKind): (i: nat)
    ensures i < 4
  {
    match k
    case Rlca => 0
    case Rrca => 1
    case Rla => 2
    case Rra => 3
  }

  function RotOf(i: nat): (k: RotKind)
    requires i < 4
    ensures RotIndex(k) == i
  {
    if i == 0 then Rlca else if i == 1 then Rrca else if i == 2 then Rla else Rra
  }

  lemma PairOfIndex(p: Pair)
    ensures PairOf(PairIndex(p)) == p
  {
  }

  lemma StackOfIndex(q: StackPair)
    ensures StackOf(StackIndex(q)) == q
  {
  }

  lemma CondOfIndex(cc: Cpu.Cond)
    ensures CondOf(CondIndex(cc)) == cc
  {
  }

  lemma AluOfIndex(op: AluOp)
    ensures AluOf(AluIndex(op)) == op
  {
  }

  lemma ShiftOfIndex(op: ShiftOp)
    ensures ShiftOf(ShiftIndex(op)) == op
  {
  }

  lemma IndirectOfIndex(v: Indirect)
    ensures IndirectOf(IndirectIndex(v)) == v
  {
  }

  lemma RotOfIndex(k: RotKind)
    ensures RotOf(RotIndex(k)) == k
  {
  }

  // ----- opcode fields -----

  /** A bit field as a number: the values 0 to 7. */
  function Field(b: byte): (n: nat)
    requires b < 8
    ensures n < 8
  {
    if b == 0 then 0 else if b == 1 then 1 else if b == 2 then 2 else if b == 3 then 3
    else if b == 4 then 4 else if b == 5 then 5 else if b == 6 then 6 else 7
  }

  /** A number below 8 as a bit field. */
  function Small(n: nat): (b: byte)
    requires n < 8
    ensures b < 8 && Field(b) == n
    ensures n < 4 ==> b < 4
    ensures n < 7 ==> b < 7
  {
    if n == 0 then 0 else if n == 1 then 1 else if n == 2 then 2 else if n == 3 then 3
    else if n == 4 then 4 else if n == 5 then 5 else if n == 6 then 6 else 7
  }

  lemma SmallOfField(b: byte)
    requires b < 8
    ensures Small(Field(b)) == b
  {
  }

  /** Bits 7-6 of an opcode. */
  function XOf(op: byte): (x: nat)
    ensures x < 4
  {
    Field(op >> 6)
  }

  /** Bits 5-3 of an opcode. */
  function YOf(op: byte): (y: nat)
    ensures y < 8
  {
    Field((op >> 3) & 7)
  }

  /** Bits 2-0 of an opcode. */
  function ZOf(op: byte): (z: nat)
    ensures z < 8
  {
    Field(op & 7)
  }

  /** Three bit fields packed into a byte. */
  function Join3(x: byte, y: byte, z: byte): (op: byte)
    requires x < 4 && y < 8 && z < 8
    ensures op >> 6 == x && (op >> 3) & 7 == y && op & 7 == z
  {
    (x << 6) | (y << 3) | z
  }

  /** The opcode with fields x, y and z. */
  function Pack(x: nat, y: nat, z: nat): (op: byte)
    requires x < 4 && y < 8 && z < 8
    ensures XOf(op) == x && YOf(op) == y && ZOf(op) == z
  {
    Join3(Small(x), Small(y), Small(z))
  }

  /** A byte is determined by its three bit fields. */
  lemma BitFieldsDetermine(a: byte, b: byte)
    requires a >> 6 == b >> 6 && (a >> 3) & 7 == (b >> 3) & 7 && a & 7 == b & 7
    ensures a == b
  {
  }

  /** An opcode is determined by its three fields. */
  lemma FieldsDetermine(a: byte, b: byte)
    requires XOf(a) == XOf(b) && YOf(a) == YOf(b) && ZOf(a) == ZOf(b)
    ensures a == b
  {
    SmallOfField(a >> 6);
    SmallOfField(b >> 6);
    SmallOfField((a >> 3) & 7);
    SmallOfField((b >> 3) & 7);
    SmallOfField(a & 7);
    SmallOfField(b & 7);
    BitFieldsDetermine(a, b);
  }

  // ----- decoding -----

  /** Rows 0x00-0x3F. */
  function Quadrant0(y: nat, z: nat): Instr
    requires y < 8 && z < 8
  {
    if z == 0 then
      if y == 0 then Nop else if y == 1 then StoreSp else if y == 2 then Stop
      else if y == 3 then Jr else JrCc(CondOf(y - 4))
    else if z == 1 then
      if y % 2 == 0 then LdPairImm(PairOf(y / 2)) else AddHlPair(PairOf(y / 2))
    else if z == 2 then
      if y % 2 == 0 then StoreA(IndirectOf(y / 2)) else LoadA(IndirectOf(y / 2))
    else if z == 3 then
      if y % 2 == 0 then IncPair(PairOf(y / 2)) else DecPair(PairOf(y / 2))
    else if z == 4 then IncReg(RegOf(y))
    else if z == 5 then DecReg(RegOf(y))
    else if z == 6 then LdRegImm(RegOf(y))
    else if y < 4 then RotateA(RotOf(y))
    else if y == 4 then DecimalAdjust else if y == 5 then Complement
    else if y == 6 then SetCarry else ComplementCarry
  }

  /** Rows 0x40-0x7F: loads between registers, with HALT in place of LD (HL),(HL). */
  function Quadrant1(y: nat, z: nat): Instr
    requires y < 8 && z < 8
  {
    if y == 6 && z == 6 then Halt else Ld(RegOf(y), RegOf(z))
  }

  /** Rows 0x80-0xBF: accumulator operations on a register or (HL). */
  function Quadrant2(y: nat, z: nat): Instr
    requires y < 8 && z < 8
  {
    AluReg(AluOf(y), RegOf(z))
  }

  /** Rows 0xC0-0xFF, where the eleven illegal opcodes are (no instruction). */
  function Quadrant3(y: nat, z: nat): Option<Instr>
    requires y < 8 && z < 8
  {
    if z == 0 then
      if y < 4 then Some(RetCc(CondOf(y)))
      else Some(if y == 4 then LdhStore else if y == 5 then AddSp else if y == 6 then LdhLoad else LdHlSp)
    else if z == 1 then
      if y % 2 == 0 then Some(Pop(StackOf(y / 2)))
      else Some(if y == 1 then Ret else if y == 3 then Reti else if y == 5 then JpHl else LdSpHl)
    else if z == 2 then
      if y < 4 then Some(JpCc(CondOf(y)))
      else Some(if y == 4 then LdhStoreC else if y == 5 then StoreAbs else if y == 6 then LdhLoadC else LoadAbs)
    else if z == 3 then
      if y == 0 then Some(Jp) else if y == 1 then Some(Prefixed)
      else if y == 6 then Some(Di) else if y == 7 then Some(Ei) else None
    else if z == 4 then
      if y < 4 then Some(CallCc(CondOf(y))) else None
    else if z == 5 then
      if y % 2 == 0 then Some(Push(StackOf(y / 2)))
      else if y == 1 then Some(Call) else None
    else if z == 6 then Some(AluImm(AluOf(y)))
    else Some(Rst(y))
  }

  /** The three opcode fields of an instruction. */
  datatype Fields = Fields(x: nat, y: nat, z: nat)

  predicate ValidFields(f: Fields)
  {
    f.x < 4 && f.y < 8 && f.z < 8
  }

  /** The instruction with the given opcode fields, if there is one. */
  function DecodeFields(f: Fields): Option<Instr>
    requires ValidFields(f)
  {
    if f.x == 0 then Some(Quadrant0(f.y, f.z))
    else if f.x == 1 then Some(Quadrant1(f.y, f.z))
    else if f.x == 2 then Some(Quadrant2(f.y, f.z))
    else Quadrant3(f.y, f.z)
  }

  /** The fields of an opcode. */
  function FieldsOfOpcode(op: byte): (f: Fields)
    ensures ValidFields(f)
  {
    Fields(XOf(op), YOf(op), ZOf(op))
  }

  /** The instruction an opcode stands for, or the fault the Rust code panics with. */
  function Decode(op: byte): Result<Instr, Fault>
  {
    match DecodeFields(FieldsOfOpcode(op))
    case Some(i) => Ok(i)
    case None => Err(Illegal(op))
  }

  /** The second byte of a CB-prefixed instruction: only CB 0x00-0x37 are implemented. */
  function DecodeCb(cb: byte): Result<CbInstr, Fault>
  {
    if cb < 0x38 then Ok(Shift(ShiftOf(Field(cb >> 3)), RegOf(Field(cb & 7)))) else Err(UnimplementedCb(cb))
  }

  // ----- encoding -----

  /** The opcode fields of an instruction. */
  function FieldsOf(i: Instr): (f: Fields)
    ensures ValidFields(f)
  {
    match i
    case Nop => Fields(0, 0, 0)
    case StoreSp => Fields(0, 1, 0)
    case Stop => Fields(0, 2, 0)
    case Jr => Fields(0, 3, 0)
    case JrCc(cc) => Fields(0, CondIndex(cc) + 4, 0)
    case LdPairImm(p) => Fields(0, 2 * PairIndex(p), 1)
    case AddHlPair(p) => Fields(0, 2 * PairIndex(p) + 1, 1)
    case StoreA(v) => Fields(0, 2 * IndirectIndex(v), 2)
    case LoadA(v) => Fields(0, 2 * IndirectIndex(v) + 1, 2)
    case IncPair(p) => Fields(0, 2 * PairIndex(p), 3)
    case DecPair(p) => Fields(0, 2 * PairIndex(p) + 1, 3)
    case IncReg(r) => Fields(0, RegIndex(r), 4)
    case DecReg(r) => Fields(0, RegIndex(r), 5)
    case LdRegImm(r) => Fields(0, RegIndex(r), 6)
    case RotateA(k) => Fields(0, RotIndex(k), 7)
    case DecimalAdjust => Fields(0, 4, 7)
    case Complement => Fields(0, 5, 7)
    case SetCarry => Fields(0, 6, 7)
    case ComplementCarry => Fields(0, 7, 7)
    case Halt => Fields(1, 6, 6)
    case Ld(d, s) => Fields(1, RegIndex(d), RegIndex(s))
    case AluReg(op, r) => Fields(2, AluIndex(op), RegIndex(r))
    case RetCc(cc) => Fields(3, CondIndex(cc), 0)
    case LdhStore => Fields(3, 4, 0)
    case AddSp => Fields(3, 5, 0)
    case LdhLoad => Fields(3, 6, 0)
    case LdHlSp => Fields(3, 7, 0)
    case Pop(q) => Fields(3, 2 * StackIndex(q), 1)
    case Ret => Fields(3, 1, 1)
    case Reti => Fields(3, 3, 1)
    case JpHl => Fields(3, 5, 1)
    case LdSpHl => Fields(3, 7, 1)
    case JpCc(cc) => Fields(3, CondIndex(cc), 2)
    case LdhStoreC => Fields(3, 4, 2)
    case StoreAbs => Fields(3, 5, 2)
    case LdhLoadC => Fields(3, 6, 2)
    case LoadAbs => Fields(3, 7, 2)
    case Jp => Fields(3, 0, 3)
    case Prefixed => Fields(3, 1, 3)
    case Di => Fields(3, 6, 3)
    case Ei => Fields(3, 7, 3)
    case CallCc(cc) => Fields(3, CondIndex(cc), 4)
    case Push(q) => Fields(3, 2 * StackIndex(q), 5)
    case Call => Fields(3, 1, 5)
    case AluImm(op) => Fields(3, AluIndex(op), 6)
    case Rst(n) => Fields(3, n % 8, 7)
  }

  /** The opcode of an instruction. */
  function Encode(i: Instr): (op: byte)
    ensures FieldsOfOpcode(op) == FieldsOf(i)
  {
    Pack(FieldsOf(i).x, FieldsOf(i).y, FieldsOf(i).z)
  }

  /** The second byte of a CB-prefixed instruction. */
  function EncodeCb(ci: CbInstr): (cb: byte)
  {
    (Small(ShiftIndex(ci.op)) << 3) | Small(RegIndex(ci.r))
  }

  // ----- round trips -----

  lemma Quadrant0Fields(y: nat, z: nat)
    requires y < 8 && z < 8
    ensures FieldsOf(Quadrant0(y, z)) == Fields(0, y, z)
  {
  }

  lemma Quadrant1Fields(y: nat, z: nat)
    requires y < 8 && z < 8
    ensures FieldsOf(Quadrant1(y, z)) == Fields(1, y, z) && WellFormed(Quadrant1(y, z))
  {
  }

  lemma Quadrant2Fields(y: nat, z: nat)
    requires y < 8 && z < 8
    ensures FieldsOf(Quadrant2(y, z)) == Fields(2, y, z)
  {
  }

  lemma Quadrant3Fields(y: nat, z: nat)
    requires y < 8 && z < 8
    ensures Quadrant3(y, z).Some? ==> FieldsOf(Quadrant3(y, z).value) == Fields(3, y, z) && WellFormed(Quadrant3(y, z).value)
  {
    if z < 2 {
      Quadrant3LowFields(y, z);
    } else if z < 4 {
      Quadrant3MiddleFields(y, z);
    } else {
      Quadrant3HighFields(y, z);
    }
  }

  lemma Quadrant3LowFields(y: nat, z: nat)
    requires y < 8 && z < 2
    ensures Quadrant3(y, z).Some? ==> FieldsOf(Quadrant3(y, z).value) == Fields(3, y, z)
  {
  }

  lemma Quadrant3MiddleFields(y: nat, z: nat)
    requires y < 8 && 2 <= z < 4
    ensures Quadrant3(y, z).Some? ==> FieldsOf(Quadrant3(y, z).value) == Fields(3, y, z)
  {
  }

  lemma Quadrant3HighFields(y: nat, z: nat)
    requires y < 8 && 4 <= z < 8
    ensures Quadrant3(y, z).Some? ==> FieldsOf(Quadrant3(y, z).value) == Fields(3, y, z) && WellFormed(Quadrant3(y, z).value)
  {
  }

  /** Whatever the fields decode to has exactly those fields and is well formed. */
  lemma {:induction false} FieldsOfDecoded(f: Fields)
    requires ValidFields(f) && DecodeFields(f).Some?
    ensures FieldsOf(DecodeFields(f).value) == f && WellFormed(DecodeFields(f).value)
  {
    if f.x == 0 {
      Quadrant0Fields(f.y, f.z);
    } else if f.x == 1 {
      Quadrant1Fields(f.y, f.z);
    } else if f.x == 2 {
      Quadrant2Fields(f.y, f.z);
    } else {
      Quadrant3Fields(f.y, f.z);
    }
  }

  /** The opcode with the fields of an instruction is that instruction's encoding. */
  lemma EncodeOfFields(op: byte, i: Instr)
    requires FieldsOf(i) == FieldsOfOpcode(op)
    ensures Encode(i) == op
  {
    FieldsDetermine(Encode(i), op);
  }

  /** Every opcode that decodes is the encoding of what it decodes to, and that instruction is well formed. */
  lemma {:induction false} EncodeDecode(op: byte)
    ensures Decode(op).Ok? ==> Encode(Decode(op).value) == op && WellFormed(Decode(op).value)
  {
    var f := FieldsOfOpcode(op);
    if DecodeFields(f).Some? {
      FieldsOfDecoded(f);
      EncodeOfFields(op, DecodeFields(f).value);
    }
  }

  lemma JrCcFields(cc: Cpu.Cond)
    ensures DecodeFields(FieldsOf(JrCc(cc))) == Some(JrCc(cc))
  {
    CondOfIndex(cc);
  }

  lemma LdPairImmFields(p: Pair)
    ensures DecodeFields(FieldsOf(LdPairImm(p))) == Some(LdPairImm(p))
  {
    PairOfIndex(p);
  }

  lemma AddHlPairFields(p: Pair)
    ensures DecodeFields(FieldsOf(AddHlPair(p))) == Some(AddHlPair(p))
  {
    PairOfIndex(p);
  }

  lemma StoreAFields(v: Indirect)
    ensures DecodeFields(FieldsOf(StoreA(v))) == Some(StoreA(v))
  {
    IndirectOfIndex(v);
  }

  lemma LoadAFields(v: Indirect)
    ensures DecodeFields(FieldsOf(LoadA(v))) == Some(LoadA(v))
  {
    IndirectOfIndex(v);
  }

  lemma IncPairFields(p: Pair)
    ensures DecodeFields(FieldsOf(IncPair(p))) == Some(IncPair(p))
  {
    PairOfIndex(p);
  }

  lemma DecPairFields(p: Pair)
    ensures DecodeFields(FieldsOf(DecPair(p))) == Some(DecPair(p))
  {
    PairOfIndex(p);
  }

  lemma IncRegFields(r: Reg)
    ensures DecodeFields(FieldsOf(IncReg(r))) == Some(IncReg(r))
  {
    RegOfIndex(r);
  }

  lemma DecRegFields(r: Reg)
    ensures DecodeFields(FieldsOf(DecReg(r))) == Some(DecReg(r))
  {
    RegOfIndex(r);
  }

  lemma LdRegImmFields(r: Reg)
    ensures DecodeFields(FieldsOf(LdRegImm(r))) == Some(LdRegImm(r))
  {
    RegOfIndex(r);
  }

  lemma RotateAFields(k: RotKind)
    ensures DecodeFields(FieldsOf(RotateA(k))) == Some(RotateA(k))
  {
    RotOfIndex(k);
  }

  lemma LdFields(d: Reg, r: Reg)
    requires !(d == AtHL && r == AtHL)
    ensures DecodeFields(FieldsOf(Ld(d, r))) == Some(Ld(d, r))
  {
    RegOfIndex(d);
    RegOfIndex(r);
  }

  lemma AluRegFields(op: AluOp, r: Reg)
    ensures DecodeFields(FieldsOf(AluReg(op, r))) == Some(AluReg(op, r))
  {
    AluOfIndex(op);
    RegOfIndex(r);
  }

  lemma RetCcFields(cc: Cpu.Cond)
    ensures DecodeFields(FieldsOf(RetCc(cc))) == Some(RetCc(cc))
  {
    CondOfIndex(cc);
  }

  lemma PopFields(q: StackPair)
    ensures DecodeFields(FieldsOf(Pop(q))) == Some(Pop(q))
  {
    StackOfIndex(q);
  }

  lemma JpCcFields(cc: Cpu.Cond)
    ensures DecodeFields(FieldsOf(JpCc(cc))) == Some(JpCc(cc))
  {
    CondOfIndex(cc);
  }

  lemma CallCcFields(cc: Cpu.Cond)
    ensures DecodeFields(FieldsOf(CallCc(cc))) == Some(CallCc(cc))
  {
    CondOfIndex(cc);
  }

  lemma PushFields(q: StackPair)
    ensures DecodeFields(FieldsOf(Push(q))) == Some(Push(q))
  {
    StackOfIndex(q);
  }

  lemma AluImmFields(op: AluOp)
    ensures DecodeFields(FieldsOf(AluImm(op))) == Some(AluImm(op))
  {
    AluOfIndex(op);
  }

  /** Every well-formed instruction is what its fields decode to. */
  lemma {:induction false} FieldsRoundTrip(i: Instr)
    requires WellFormed(i)
    ensures DecodeFields(FieldsOf(i)) == Some(i)
  {
    match i
    case JrCc(cc) => JrCcFields(cc);
    case LdPairImm(p) => LdPairImmFields(p);
    case AddHlPair(p) => AddHlPairFields(p);
    case StoreA(v) => StoreAFields(v);
    case LoadA(v) => LoadAFields(v);
    case IncPair(p) => IncPairFields(p);
    case DecPair(p) => DecPairFields(p);
    case IncReg(r) => IncRegFields(r);
    case DecReg(r) => DecRegFields(r);
    case LdRegImm(r) => LdRegImmFields(r);
    case RotateA(k) => RotateAFields(k);
    case Ld(d, r) => LdFields(d, r);
    case AluReg(op, r) => AluRegFields(op, r);
    case RetCc(cc) => RetCcFields(cc);
    case Pop(q) => PopFields(q);
    case JpCc(cc) => JpCcFields(cc);
    case CallCc(cc) => CallCcFields(cc);
    case Push(q) => PushFields(q);
    case AluImm(op) => AluImmFields(op);
    case _ =>
  }

  /** Every well-formed instruction decodes from its encoding. */
  lemma DecodeEncode(i: Instr)
    requires WellFormed(i)
    ensures Decode(Encode(i)) == Ok(i)
  {
    FieldsRoundTrip(i);
  }

  /** Opcode 0x00 is NOP. */
  lemma DecodeNop()
    ensures Decode(0x00) == Ok(Nop)
  {
    assert FieldsOfOpcode(0x00) == Fields(0, 0, 0);
  }

  /** Opcode 0x76, where LD (HL),(HL) would sit, is HALT. */
  lemma DecodeHalt()
    ensures Decode(0x76) == Ok(Halt)
  {
    assert FieldsOfOpcode(0x76) == Fields(1, 6, 6);
  }

  /** The opcodes the Rust code rejects as illegal. */
  const IllegalOpcodes: set<byte> := {0xD3, 0xDB, 0xDD, 0xE3, 0xE4, 0xEB, 0xEC, 0xED, 0xF4, 0xFC, 0xFD}

  /** Exactly the eleven illegal opcodes fail to decode, and they fail as illegal. */
  lemma DecodeFails(op: byte)
    ensures Decode(op).Err? <==> op in IllegalOpcodes
    ensures Decode(op).Err? ==> Decode(op).error == Illegal(op)
  {
  }

  /** The CB byte of an implemented operation decodes back to it. */
  lemma DecodeEncodeCb(ci: CbInstr)
    ensures DecodeCb(EncodeCb(ci)) == Ok(ci)
  {
  }

  /** A CB byte decodes exactly when it is below 0x38, and then it is the encoding of its decoding. */
  lemma EncodeDecodeCb(cb: byte)
    ensures DecodeCb(cb).Ok? <==> cb < 0x38
    ensures DecodeCb(cb).Ok? ==> EncodeCb(DecodeCb(cb).value) == cb
    ensures DecodeCb(cb).Err? ==> DecodeCb(cb).error == UnimplementedCb(cb)
  {
  }
}
