/**
  The `execute` step of the interpreter: interrupt dispatch, the delayed
  IME, the halt check, the opcode fetch, and the dispatch of every decoded
  instruction with the cycle count the Rust code charges for it. Operand
  access goes through the register views below; the arithmetic and the
  control transfers are the helpers of the Alu and Cpu modules.
 */
module Execute {
  import opened Bits
  import opened System
  import Alu
  import Cpu
  import opened Opcodes

  // ----- operand views -----

  /** The 8-bit operand `r`: a register, or the byte at (HL). */
  function GetReg(s: State, r: Reg): byte
  {
    match r
    case RegB => s.b
    case RegC => s.c
    case RegD => s.d
    case RegE => s.e
    case RegH => s.h
    case RegL => s.l
    case AtHL => Read(s, HL(s))
    case RegA => s.a
  }

  /** Storing into operand `r`: it reads back as `v`; only that register, or only memory for (HL), changes. */
  function SetReg(s: State, r: Reg, v: byte): (t: State)
    ensures GetReg(t, r) == v
    ensures r == AtHL ==> t.(mem := s.mem) == s
    ensures r != AtHL ==> t.mem == s.mem
    ensures t.(a := s.a, b := s.b, c := s.c, d := s.d, e := s.e, h := s.h, l := s.l, mem := s.mem) == s
  {
    match r
    case RegB => s.(b := v)
    case RegC => s.(c := v)
    case RegD => s.(d := v)
    case RegE => s.(e := v)
    case RegH => s.(h := v)
    case RegL => s.(l := v)
    case AtHL => Write(s, HL(s), v)
    case RegA => s.(a := v)
  }

  /** The 16-bit operand of LD rr,nn, INC rr, DEC rr and ADD HL,rr. */
  function GetPair(s: State, p: Pair): word
  {
    match p
    case PairBC => BC(s)
    case PairDE => DE(s)
    case PairHL => HL(s)
    case PairSP => s.sp
  }

  /** Storing into a pair: it reads back as `v`; only the pair's two registers (or SP) change. */
  function SetPair(s: State, p: Pair, v: word): (t: State)
    ensures GetPair(t, p) == v
    ensures t.(b := s.b, c := s.c, d := s.d, e := s.e, h := s.h, l := s.l, sp := s.sp) == s
  {
    match p
    case PairBC => SetBC(s, v)
    case PairDE => SetDE(s, v)
    case PairHL => SetHL(s, v)
    case PairSP => s.(sp := v)
  }

  /** The pair PUSH stores and POP loads; AF stands where SP stands for the other group. */
  function GetStack(s: State, q: StackPair): word
  {
    match q
    case StackBC => BC(s)
    case StackDE => DE(s)
    case StackHL => HL(s)
    case StackAF => AF(s)
  }

  /** Storing into a stack pair: it reads back as `v`; only the pair's two registers change. */
  function SetStack(s: State, q: StackPair, v: word): (t: State)
    ensures GetStack(t, q) == v
    ensures t.(a := s.a, f := s.f, b := s.b, c := s.c, d := s.d, e := s.e, h := s.h, l := s.l) == s
  {
    match q
    case StackBC => SetBC(s, v)
    case StackDE => SetDE(s, v)
    case StackHL => SetHL(s, v)
    case StackAF => SetAF(s, v)
  }

  /** The address of LD (rr),A and LD A,(rr). */
  function IndirectAddr(s: State, via: Indirect): word
  {
    match via
    case ViaBC => BC(s)
    case ViaDE => DE(s)
    case ViaHLInc => HL(s)
    case ViaHLDec => HL(s)
  }

  /** The HL step after LD (HL+),A, LD (HL-),A and their loads: HL moves by one, wrapping. */
  function StepHL(s: State, via: Indirect, hl: word): (t: State)
    ensures via == ViaHLInc ==> HL(t) == hl + 1
    ensures via == ViaHLDec ==> HL(t) == hl - 1
    ensures via == ViaBC || via == ViaDE ==> t == s
    ensures t.(h := s.h, l := s.l) == s
  {
    match via
    case ViaHLInc => SetHL(s, hl + 1)
    case ViaHLDec => SetHL(s, hl - 1)
    case _ => s
  }

  /** `0xFF00 | n`: the I/O page address of LDH. */
  function HighAddr(n: byte): (addr: word)
    ensures Hi(addr) == 0xFF && Lo(addr) == n
  {
    0xFF00 | n as word
  }

  /** The call target of RST n: 8n, from 0x00 to 0x38. */
  function RstTarget(n: nat): (target: word)
    requires n < 8
    ensures Hi(target) == 0 && Lo(target) & 0xC7 == 0
  {
    if n == 0 then 0x00 else if n == 1 then 0x08 else if n == 2 then 0x10 else if n == 3 then 0x18
    else if n == 4 then 0x20 else if n == 5 then 0x28 else if n == 6 then 0x30 else 0x38
  }

  // ----- the accumulator and shift operations -----

  /** The result and flags of an accumulator operation; CP keeps A and takes SUB's flags. */
  function AluOut(op: AluOp, a: byte, v: byte, carry: bool): Alu.Out
  {
    match op
    case OpAdd => Alu.AddA(a, v)
    case OpAdc => Alu.AdcA(a, v, carry)
    case OpSub => Alu.SubA(a, v)
    case OpSbc => Alu.SbcA(a, v, carry)
    case OpAnd => Alu.AndA(a, v)
    case OpXor => Alu.XorA(a, v)
    case OpOr => Alu.OrA(a, v)
    case OpCp => Alu.Out(a, Alu.CpA(a, v))
  }

  /** A and the flags after `add_a`, `adc_a`, ..., `cp_a` with operand `v`. */
  function ApplyAlu(s: State, op: AluOp, v: byte): State
  {
    var o := AluOut(op, s.a, v, GetFlag(s, C));
    Cpu.WithFlags(s, o.flags).(a := o.value)
  }

  /** The CB-prefixed byte helpers; RL and RR take the carry in. */
  function ShiftOut(op: ShiftOp, v: byte, carry: bool): (o: Alu.Out)
    ensures !o.flags.n && !o.flags.h && o.flags.z == (o.value == 0)
  {
    match op
    case OpRlc => Alu.Rlc(v)
    case OpRrc => Alu.Rrc(v)
    case OpRl => Alu.Rl(v, carry)
    case OpRr => Alu.Rr(v, carry)
    case OpSla => Alu.Sla(v)
    case OpSra => Alu.Sra(v)
    case OpSwap => Alu.Swap(v)
  }

  /** RLCA, RRCA, RLA and RRA: the rotate helpers on A. */
  function RotateOut(k: RotKind, a: byte, carry: bool): Alu.Out
  {
    match k
    case Rlca => Alu.Rlc(a)
    case Rrca => Alu.Rrc(a)
    case Rla => Alu.Rl(a, carry)
    case Rra => Alu.Rr(a, carry)
  }

  /** An operation on operand `r` that writes its result back and sets the flags (INC r, DEC r, the CB group). */
  function Modify(s: State, r: Reg, o: Alu.Out): (t: State)
    ensures GetReg(t, r) == o.value
  {
    SetReg(Cpu.WithFlags(s, o.flags), r, o.value)
  }

  // ----- single instructions -----

  /** LD r,r': the destination takes the source's value. */
  function CopyReg(s: State, dst: Reg, src: Reg): (t: State)
    ensures GetReg(t, dst) == GetReg(s, src)
  {
    SetReg(s, dst, GetReg(s, src))
  }

  /** `inc_b` and the rest, and INC (HL). */
  function IncrementReg(s: State, r: Reg): State
  {
    Modify(s, r, Alu.IncByte(GetReg(s, r), Cpu.FlagsOf(s)))
  }

  /** `dec_b` and the rest, and DEC (HL). */
  function DecrementReg(s: State, r: Reg): State
  {
    Modify(s, r, Alu.DecByte(GetReg(s, r), Cpu.FlagsOf(s)))
  }

  /** `inc_bc` and the rest: the pair plus one, wrapping; no flag changes. */
  function IncrementPair(s: State, p: Pair): State
  {
    SetPair(s, p, GetPair(s, p) + 1)
  }

  /** `dec_bc` and the rest: the pair minus one, wrapping; no flag changes. */
  function DecrementPair(s: State, p: Pair): State
  {
    SetPair(s, p, GetPair(s, p) - 1)
  }

  /** `rlca`, `rrca`, `rla`, `rra`: the rotate helpers on A, then Z cleared. */
  function RotateAccumulator(s: State, k: RotKind): (t: State)
    ensures t.a == RotateOut(k, s.a, GetFlag(s, C)).value
    ensures GetFlag(t, C) == RotateOut(k, s.a, GetFlag(s, C)).flags.c
    ensures !GetFlag(t, Z)
  {
    var o := RotateOut(k, s.a, GetFlag(s, C));
    Cpu.WithFlags(s, o.flags.(z := false)).(a := o.value)
  }

  /** `cpl`: A inverted, N and H set. */
  function ComplementAccumulator(s: State): State
  {
    Cpu.WithFlags(s, Cpu.FlagsOf(s).(n := true, h := true)).(a := !s.a)
  }

  /** `scf`: C set, N and H cleared. */
  function SetCarryFlag(s: State): State
  {
    Cpu.WithFlags(s, Cpu.FlagsOf(s).(n := false, h := false, c := true))
  }

  /** `ccf`: C inverted, N and H cleared. */
  function FlipCarryFlag(s: State): State
  {
    Cpu.WithFlags(s, Cpu.FlagsOf(s).(n := false, h := false, c := !GetFlag(s, C)))
  }

  /** `push_bc` and the rest. */
  function PushPair(s: State, q: StackPair): State
  {
    Cpu.Push(s, GetStack(s, q))
  }

  /** `pop_bc` and the rest. */
  function PopPair(s: State, q: StackPair): State
  {
    var (v, s1) := Cpu.Pop(s);
    SetStack(s1, q, v)
  }

  // ----- the dispatch -----

  /** Whether `i` is one of the loads and stores (the LD family, LDH and POP/PUSH excepted). */
  predicate IsLoad(i: Instr)
  {
    i.Ld? || i.LdRegImm? || i.LdPairImm? || i.StoreA? || i.LoadA? || i.LdhStore? || i.LdhLoad?
    || i.LdhStoreC? || i.LdhLoadC? || i.StoreAbs? || i.LoadAbs? || i.StoreSp? || i.LdSpHl?
  }

  /** Whether `i` is an 8- or 16-bit arithmetic, logic or flag instruction. */
  predicate IsArith(i: Instr)
  {
    i.AluReg? || i.AluImm? || i.IncReg? || i.DecReg? || i.IncPair? || i.DecPair? || i.AddHlPair?
    || i.AddSp? || i.LdHlSp? || i.RotateA? || i.DecimalAdjust? || i.Complement? || i.SetCarry?
    || i.ComplementCarry?
  }

  /** Whether `i` is a call, a return, RST, POP or PUSH. */
  predicate IsStack(i: Instr)
  {
    i.Call? || i.CallCc? || i.Ret? || i.RetCc? || i.Reti? || i.Rst? || i.Pop? || i.Push?
  }

  /** Whether `i` is a jump. */
  predicate IsJump(i: Instr)
  {
    i.Jr? || i.JrCc? || i.Jp? || i.JpCc? || i.JpHl?
  }

  /** Whether `i` is HALT, STOP, DI, EI or NOP. */
  predicate IsMisc(i: Instr)
  {
    i.Nop? || i.Stop? || i.Halt? || i.Di? || i.Ei?
  }

  /**
    The effect of one instruction other than the CB prefix, on the state
    right after its opcode was fetched (PC past the opcode). Immediate
    operands are read at PC and move it past them. No instruction touches
    the cycle count; Step adds the cost to the count it had before.
   */
  function Operate(s: State, i: Instr): (t: State)
    requires WellFormed(i) && !i.Prefixed?
  {
    if IsLoad(i) then OperateLoad(s, i)
    else if IsArith(i) then OperateArith(s, i)
    else if IsStack(i) then OperateStack(s, i)
    else if IsJump(i) then OperateJump(s, i)
    else OperateMisc(s, i)
  }

  /** The loads and stores. */
  function OperateLoad(s: State, i: Instr): (t: State)
    requires WellFormed(i) && IsLoad(i)
  {
    match i
    case Ld(dst, src) => CopyReg(s, dst, src)
    case LdRegImm(r) =>
      var (v, s1) := Cpu.ImmediateByte(s);
      SetReg(s1, r, v)
    case LdPairImm(p) => SetPair(s, p, ReadWord(s, s.pc)).(pc := s.pc + 2)
    case StoreA(via) => StepHL(Write(s, IndirectAddr(s, via), s.a), via, HL(s))
    case LoadA(via) => StepHL(s.(a := Read(s, IndirectAddr(s, via))), via, HL(s))
    case LdhStore =>
      var (n, s1) := Cpu.ImmediateByte(s);
      Write(s1, HighAddr(n), s.a)
    case LdhLoad =>
      var (n, s1) := Cpu.ImmediateByte(s);
      s1.(a := Read(s, HighAddr(n)))
    case LdhStoreC => Write(s, HighAddr(s.c), s.a)
    case LdhLoadC => s.(a := Read(s, HighAddr(s.c)))
    case StoreAbs =>
      var (addr, s1) := Cpu.ImmediateWord(s);
      Write(s1, addr, s.a)
    case LoadAbs =>
      var (addr, s1) := Cpu.ImmediateWord(s);
      s1.(a := Read(s, addr))
    case StoreSp =>
      var (addr, s1) := Cpu.ImmediateWord(s);
      WriteWord(s1, addr, s.sp)
    case LdSpHl => s.(sp := HL(s))
  }

  /** The arithmetic, logic and flag instructions. */
  function OperateArith(s: State, i: Instr): (t: State)
    requires IsArith(i)
  {
    match i
    case AluReg(op, r) => ApplyAlu(s, op, GetReg(s, r))
    case AluImm(op) =>
      var (v, s1) := Cpu.ImmediateByte(s);
      ApplyAlu(s1, op, v)
    case IncReg(r) => IncrementReg(s, r)
    case DecReg(r) => DecrementReg(s, r)
    case IncPair(p) => IncrementPair(s, p)
    case DecPair(p) => DecrementPair(s, p)
    case AddHlPair(p) =>
      var o := Alu.AddHl(HL(s), GetPair(s, p), Cpu.FlagsOf(s));
      SetHL(Cpu.WithFlags(s, o.flags), o.value)
    case AddSp =>
      var (n, s1) := Cpu.ImmediateByte(s);
      var o := Alu.SpPlusOffset(s.sp, n);
      Cpu.WithFlags(s1, o.flags).(sp := o.value)
    case LdHlSp =>
      var (n, s1) := Cpu.ImmediateByte(s);
      var o := Alu.SpPlusOffset(s.sp, n);
      SetHL(Cpu.WithFlags(s1, o.flags), o.value)
    case RotateA(k) => RotateAccumulator(s, k)
    case DecimalAdjust =>
      var o := Alu.Daa(s.a, Cpu.FlagsOf(s));
      Cpu.WithFlags(s, o.flags).(a := o.value)
    case Complement => ComplementAccumulator(s)
    case SetCarry => SetCarryFlag(s)
    case ComplementCarry => FlipCarryFlag(s)
  }

  /** HALT, STOP, DI, EI and NOP. */
  function OperateMisc(s: State, i: Instr): (t: State)
    requires IsMisc(i)
  {
    match i
    case Nop => s
    case Stop => s.(pc := s.pc + 1)
    case Halt => Cpu.Halt(s)
    case Di => s.(diDelay := true)
    case Ei => s.(eiDelay := true)
  }

  /** The jumps. */
  function OperateJump(s: State, i: Instr): (t: State)
    requires IsJump(i)
  {
    match i
    case Jr => Cpu.Jr(s)
    case JrCc(cc) => Cpu.JrCc(s, cc)
    case Jp => Cpu.Jp(s)
    case JpCc(cc) => Cpu.JpCc(s, cc)
    case JpHl => s.(pc := HL(s))
  }

  /** Calls, returns, RST, POP and PUSH: the instructions that move SP. */
  function OperateStack(s: State, i: Instr): (t: State)
    requires WellFormed(i) && IsStack(i)
  {
    match i
    case Call => Cpu.Call(s)
    case CallCc(cc) => Cpu.CallCc(s, cc)
    case Ret => Cpu.Ret(s)
    case RetCc(cc) => Cpu.RetCc(s, cc)
    case Reti => Cpu.Reti(s)
    case Rst(n) => Cpu.Rst(s, RstTarget(n))
    case Pop(q) => PopPair(s, q)
    case Push(q) => PushPair(s, q)
  }

  /** A CB-prefixed instruction on the state after its second byte was read. */
  function OperateCb(s: State, ci: CbInstr): (t: State)
    ensures t.cycles == s.cycles && t.lastOpcode == s.lastOpcode
    ensures GetReg(t, ci.r) == ShiftOut(ci.op, GetReg(s, ci.r), GetFlag(s, C)).value
  {
    Modify(s, ci.r, ShiftOut(ci.op, GetReg(s, ci.r), GetFlag(s, C)))
  }

  /** A whole number of 4-cycle machine cycles, from one (4) to six (24). */
  predicate MachineCycles(n: int)
  {
    n == 4 || n == 8 || n == 12 || n == 16 || n == 20 || n == 24
  }

  /** Every count the dispatch charges is a positive multiple of 4. */
  lemma MachineCyclesPositive(n: int)
    requires MachineCycles(n)
    ensures n > 0 && n % 4 == 0
  {
  }

  /**
    The cycles the Rust code adds for instruction `i`. A conditional RET, JP
    or CALL tests its condition again on the state `t` after the operation,
    as the Rust code does.
   */
  function Cost(i: Instr, t: State): (n: nat)
    requires !i.Prefixed?
    ensures MachineCycles(n)
  {
    match i
    case Nop | Stop | RotateA(_) | DecimalAdjust | Complement | SetCarry | ComplementCarry | Halt | Di | Ei | JpHl => 4
    case Jr | JrCc(_) | AddHlPair(_) | StoreA(_) | LoadA(_) | IncPair(_) | DecPair(_)
      | LdhStoreC | LdhLoadC | LdSpHl | AluImm(_) => 8
    case LdPairImm(_) | Pop(_) | LdhStore | LdhLoad | LdHlSp => 12
    case Ret | Reti | Push(_) | Jp | Rst(_) | AddSp | StoreAbs | LoadAbs => 16
    case StoreSp => 20
    case Call => 24
    case IncReg(r) => if r == AtHL then 12 else 4
    case DecReg(r) => if r == AtHL then 12 else 4
    case LdRegImm(r) => if r == AtHL then 12 else 8
    case Ld(dst, src) => if dst == AtHL || src == AtHL then 8 else 4
    case AluReg(_, r) => if r == AtHL then 8 else 4
    case RetCc(cc) => if Cpu.Holds(t, cc) then 20 else 8
    case JpCc(cc) => if Cpu.Holds(t, cc) then 16 else 12
    case CallCc(cc) => if Cpu.Holds(t, cc) then 24 else 12
  }

  /** The cycles of a CB-prefixed instruction: 16 on (HL), 8 on a register. */
  function CbCost(ci: CbInstr): (n: nat)
    ensures n == 8 || n == 16
  {
    if ci.r == AtHL then 16 else 8
  }

  function Tick(s: State, n: nat): State
  {
    s.(cycles := s.cycles + n)
  }

  /**
    The CB prefix on the state after the 0xCB opcode was fetched: the
    second byte is read as an immediate and run; the Rust code panics on CB
    0x38-0xFF.
   */
  function StepCb(s: State): (r: Result<State, Fault>)
    ensures r.Err? <==> Read(s, s.pc) >= 0x38
    ensures r.Err? ==> r.error == UnimplementedCb(Read(s, s.pc))
    ensures r.Ok? ==> r.value.cycles == s.cycles + 8 || r.value.cycles == s.cycles + 16
  {
    var (cb, s1) := Cpu.ImmediateByte(s);
    EncodeDecodeCb(cb);
    match DecodeCb(cb)
    case Err(e) => Err(e)
    case Ok(ci) => Ok(Tick(OperateCb(s1, ci), CbCost(ci)))
  }

  /** One decoded instruction on the state after its opcode was fetched, cycles included. */
  function Step(s: State, i: Instr): (r: Result<State, Fault>)
    requires WellFormed(i)
    ensures r.Err? <==> i.Prefixed? && Read(s, s.pc) >= 0x38
    ensures r.Ok? ==> MachineCycles(r.value.cycles - s.cycles)
  {
    if i.Prefixed? then StepCb(s)
    else
      var t := Operate(s, i);
      Ok(t.(cycles := s.cycles + Cost(i, t)))
  }

  // ----- fetch and execute -----

  /** `read_immediate_byte` for the opcode, remembered in `last_opcode`; with `repeat` PC stays put. */
  function Fetch(s: State, repeat: bool): (r: (byte, State))
    ensures r.0 == Read(s, s.pc)
    ensures r.1.lastOpcode == r.0
    ensures r.1.pc == if repeat then s.pc else s.pc + 1
    ensures r.1.(pc := s.pc, lastOpcode := s.lastOpcode) == s
  {
    var op := Read(s, s.pc);
    (op, s.(pc := if repeat then s.pc else s.pc + 1, lastOpcode := op))
  }

  /** Decode the fetched opcode and run it; the Rust code panics on the eleven illegal opcodes. */
  function Dispatch(s: State, op: byte): (r: Result<State, Fault>)
    ensures r.Err? <==> op in IllegalOpcodes || (op == 0xCB && Read(s, s.pc) >= 0x38)
    ensures r.Ok? ==> MachineCycles(r.value.cycles - s.cycles)
  {
    EncodeDecode(op);
    DecodeFails(op);
    PrefixOpcode(op);
    match Decode(op)
    case Err(e) => Err(e)
    case Ok(i) => Step(s, i)
  }

  /** Only 0xCB decodes to the prefix. */
  lemma PrefixOpcode(op: byte)
    ensures Decode(op) == Ok(Prefixed) <==> op == 0xCB
  {
    if op == 0xCB {
      assert FieldsOfOpcode(op) == Fields(3, 1, 3);
    }
    if Decode(op) == Ok(Prefixed) {
      EncodeDecode(op);
    }
  }

  /** Where the start of `execute` leaves the CPU: an interrupt was taken, it stays halted, or `op` was fetched. */
  datatype Prepared = Interrupted(state: State) | Halted(state: State) | Fetched(op: byte, state: State)

  /** After the halt check: fetch unless the CPU is still halted. */
  function FetchUnlessHalted(rs: Cpu.Resume): (p: Prepared)
    ensures p.Interrupted? == false
    ensures p.Halted? <==> !rs.run
    ensures p.Halted? ==> p.state == rs.state
    ensures p.Fetched? ==> p.op == Read(rs.state, rs.state.pc) && p.state == Fetch(rs.state, rs.repeat).1
  {
    if !rs.run then Halted(rs.state)
    else
      var (op, s1) := Fetch(rs.state, rs.repeat);
      Fetched(op, s1)
  }

  /**
    The start of `execute` with the HALT bug handled as the hardware shows
    it: a taken interrupt ends the step; otherwise the delayed IME is
    applied, a halted CPU with nothing pending does nothing, and otherwise
    one opcode is fetched.
   */
  function Prepare(s: State): Prepared
  {
    if Cpu.ServiceInterrupts(s).0 then Interrupted(Cpu.ServiceInterrupts(s).1)
    else FetchUnlessHalted(Cpu.HandleHalt(Cpu.HandleDelayedIme(s)))
  }

  /** The start of `execute` as the Rust code writes it, with its HALT-bug handling. */
  function PrepareAsWritten(s: State): Prepared
  {
    if Cpu.ServiceInterrupts(s).0 then Interrupted(Cpu.ServiceInterrupts(s).1)
    else FetchUnlessHalted(Cpu.HandleHaltAsWritten(Cpu.HandleDelayedIme(s)))
  }

  /** The rest of `execute`: run the fetched opcode, if any. */
  function Finish(p: Prepared): Result<State, Fault>
  {
    match p
    case Interrupted(t) => Ok(t)
    case Halted(t) => Ok(t)
    case Fetched(op, t) => Dispatch(t, op)
  }

  /** `execute`, with the HALT bug handled as the hardware shows it. */
  function Execute(s: State): Result<State, Fault>
  {
    Finish(Prepare(s))
  }

  /** `execute` as the Rust code writes it. */
  function ExecuteAsWritten(s: State): Result<State, Fault>
  {
    Finish(PrepareAsWritten(s))
  }

  /** Run `n` steps of `step`, stopping at the first fault. */
  function Iterate(step: State -> Result<State, Fault>, s: State, n: nat): Result<State, Fault>
    decreases n
  {
    if n == 0 then Ok(s)
    else match step(s)
      case Err(e) => Err(e)
      case Ok(t) => Iterate(step, t, n - 1)
  }

  /** The state `s` with the cycle count `c`. */
  function WithCycles(s: State, c: nat): State
  {
    s.(cycles := c)
  }

  /** A step that only adds 4 cycles, from any count, repeated n times only adds 4n cycles. */
  lemma {:induction false} IterateOnlyTicks(step: State -> Result<State, Fault>, s: State, c: nat, n: nat)
    requires forall c': nat :: step(WithCycles(s, c')) == Ok(WithCycles(s, c' + 4))
    ensures Iterate(step, WithCycles(s, c), n) == Ok(WithCycles(s, c + 4 * n))
    decreases n
  {
    if n > 0 {
      IterateOnlyTicks(step, s, c + 4, n - 1);
    }
  }

  // ----- cycle counts -----

  /** The conditions read only F. */
  lemma HoldsOnF(s: State, t: State, cc: Cpu.Cond)
    requires s.f == t.f
    ensures Cpu.Holds(s, cc) == Cpu.Holds(t, cc)
  {
  }

  /** A conditional RET costs 20 cycles when it returns and 8 when it falls through. */
  lemma RetCcCost(s: State, cc: Cpu.Cond)
    ensures Cost(RetCc(cc), Cpu.RetCc(s, cc)) == if Cpu.Holds(s, cc) then 20 else 8
  {
    if Cpu.Holds(s, cc) {
      HoldsOnF(s, Cpu.Ret(s), cc);
    }
  }

  /** A conditional JP costs 16 cycles when it jumps and 12 when it falls through. */
  lemma JpCcCost(s: State, cc: Cpu.Cond)
    ensures Cost(JpCc(cc), Cpu.JpCc(s, cc)) == if Cpu.Holds(s, cc) then 16 else 12
  {
    if Cpu.Holds(s, cc) {
      HoldsOnF(s, Cpu.Jp(s), cc);
    } else {
      HoldsOnF(s, s.(pc := s.pc + 2), cc);
    }
  }

  /** A conditional CALL costs 24 cycles when it calls and 12 when it falls through. */
  lemma CallCcCost(s: State, cc: Cpu.Cond)
    ensures Cost(CallCc(cc), Cpu.CallCc(s, cc)) == if Cpu.Holds(s, cc) then 24 else 12
  {
    if Cpu.Holds(s, cc) {
      HoldsOnF(s, Cpu.Call(s), cc);
    } else {
      HoldsOnF(s, s.(pc := s.pc + 2), cc);
    }
  }

  // ----- operand round trips -----

  /** DEC r right after INC r gives the operand its old value back. */
  lemma IncThenDecReg(s: State, r: Reg)
    ensures GetReg(DecrementReg(IncrementReg(s, r), r), r) == GetReg(s, r)
  {
    Alu.IncDecInverse(GetReg(s, r), Cpu.FlagsOf(s));
  }

  /** Storing a pair's own value changes nothing. */
  lemma SetPairOwn(s: State, p: Pair)
    ensures SetPair(s, p, GetPair(s, p)) == s
  {
    match p
    case PairBC => assert SetPair(s, p, GetPair(s, p)) == s.(b := Hi(BC(s)), c := Lo(BC(s)));
    case PairDE => assert SetPair(s, p, GetPair(s, p)) == s.(d := Hi(DE(s)), e := Lo(DE(s)));
    case PairHL => assert SetPair(s, p, GetPair(s, p)) == s.(h := Hi(HL(s)), l := Lo(HL(s)));
    case PairSP =>
  }

  /** A second store into a pair replaces the first. */
  lemma SetPairTwice(s: State, p: Pair, v: word, w: word)
    ensures SetPair(SetPair(s, p, v), p, w) == SetPair(s, p, w)
  {
    match p
    case PairBC => assert SetPair(s, p, w) == s.(b := Hi(w), c := Lo(w));
    case PairDE => assert SetPair(s, p, w) == s.(d := Hi(w), e := Lo(w));
    case PairHL => assert SetPair(s, p, w) == s.(h := Hi(w), l := Lo(w));
    case PairSP =>
  }

  /** DEC rr right after INC rr restores the whole state. */
  lemma IncThenDecPair(s: State, p: Pair)
    ensures DecrementPair(IncrementPair(s, p), p) == s
  {
    var v := GetPair(s, p);
    var t := IncrementPair(s, p);
    assert GetPair(t, p) - 1 == v;
    SetPairTwice(s, p, v + 1, v);
    SetPairOwn(s, p);
  }

  /** Storing a stack pair's own value changes nothing. */
  lemma SetStackOwn(s: State, q: StackPair)
    ensures SetStack(s, q, GetStack(s, q)) == s
  {
    match q
    case StackBC => assert SetStack(s, q, GetStack(s, q)) == s.(b := Hi(BC(s)), c := Lo(BC(s)));
    case StackDE => assert SetStack(s, q, GetStack(s, q)) == s.(d := Hi(DE(s)), e := Lo(DE(s)));
    case StackHL => assert SetStack(s, q, GetStack(s, q)) == s.(h := Hi(HL(s)), l := Lo(HL(s)));
    case StackAF => assert SetStack(s, q, GetStack(s, q)) == s.(a := Hi(AF(s)), f := Lo(AF(s)));
  }

  /** POP rr right after PUSH rr changes nothing but the two bytes written below SP. */
  lemma PushThenPop(s: State, q: StackPair)
    ensures PopPair(PushPair(s, q), q) == PushPair(s, q).(sp := s.sp)
  {
    var t := PushPair(s, q);
    Cpu.PopAfterPush(s, GetStack(s, q));
    assert GetStack(t.(sp := s.sp), q) == GetStack(s, q);
    SetStackOwn(t.(sp := s.sp), q);
  }

  /** CP is SUB without the write-back: the same flags, A untouched. */
  lemma CompareIsSubtractKeepingA(s: State, v: byte)
    ensures ApplyAlu(s, OpCp, v) == ApplyAlu(s, OpSub, v).(a := s.a)
  {
    var sub := AluOut(OpSub, s.a, v, GetFlag(s, C));
    Alu.CompareIsSubtract(s.a, v);
    assert AluOut(OpCp, s.a, v, GetFlag(s, C)) == Alu.Out(s.a, sub.flags);
  }

  /** RRCA undoes RLCA on A. */
  lemma RotateABack(s: State)
    ensures RotateAccumulator(RotateAccumulator(s, Rlca), Rrca).a == s.a
  {
    Alu.RotateInverse(s.a);
  }

  /** RRA undoes RLA on both A and C. */
  lemma RotateThroughCarryBack(s: State)
    ensures RotateAccumulator(RotateAccumulator(s, Rla), Rra).a == s.a
    ensures GetFlag(RotateAccumulator(RotateAccumulator(s, Rla), Rra), C) == GetFlag(s, C)
  {
    Alu.RotateThroughCarryInverse(s.a, GetFlag(s, C));
  }

  /** CB SWAP applied twice gives the operand its old value back. */
  lemma SwapTwiceRestores(s: State, r: Reg)
    ensures GetReg(OperateCb(OperateCb(s, Shift(OpSwap, r)), Shift(OpSwap, r)), r) == GetReg(s, r)
  {
    Alu.SwapTwice(GetReg(s, r));
  }

  /** CPL twice restores A; CCF twice restores C; SCF leaves C set. */
  lemma ComplementTwice(s: State)
    ensures ComplementAccumulator(ComplementAccumulator(s)).a == s.a
    ensures GetFlag(FlipCarryFlag(FlipCarryFlag(s)), C) == GetFlag(s, C)
    ensures GetFlag(SetCarryFlag(s), C)
  {
  }

  /** Running an encoded instruction is running the instruction. */
  lemma DispatchEncoded(s: State, i: Instr)
    requires WellFormed(i)
    ensures Dispatch(s, Encode(i)) == Step(s, i)
  {
    DecodeEncode(i);
  }

  /** NOP changes nothing but the 4 cycles. */
  lemma StepNop(s: State)
    ensures Step(s, Nop) == Ok(s.(cycles := s.cycles + 4))
  {
    assert !IsLoad(Nop) && !IsArith(Nop) && !IsStack(Nop) && !IsJump(Nop);
    assert Operate(s, Nop) == s;
  }

  /** HALT is Cpu.Halt and 4 cycles. */
  lemma StepHalt(s: State)
    ensures Step(s, Halt) == Ok(Cpu.Halt(s).(cycles := s.cycles + 4))
  {
    assert !IsLoad(Halt) && !IsArith(Halt) && !IsStack(Halt) && !IsJump(Halt);
    assert Operate(s, Halt) == Cpu.Halt(s);
  }

  /** Opcode 0x00 is NOP: nothing changes but the 4 cycles. */
  lemma DispatchNop(s: State)
    ensures Dispatch(s, 0x00) == Ok(s.(cycles := s.cycles + 4))
  {
    DecodeNop();
    StepNop(s);
  }

  /** Opcode 0x76 is HALT, 4 cycles. */
  lemma DispatchHalt(s: State)
    ensures Dispatch(s, Cpu.OpcodeHalt) == Ok(Cpu.Halt(s).(cycles := s.cycles + 4))
  {
    DecodeHalt();
    StepHalt(s);
  }

  // ----- the start of a step -----

  /** The delayed IME touches neither memory, PC nor the pending set. */
  lemma DelayedImeKeepsPending(s: State)
    ensures Cpu.HandleDelayedIme(s).mem == s.mem && Cpu.HandleDelayedIme(s).pc == s.pc
    ensures Cpu.HasPendingInterrupt(Cpu.HandleDelayedIme(s)) == Cpu.HasPendingInterrupt(s)
  {
    var t := Cpu.HandleDelayedIme(s);
    assert t.mem == t.(ime := s.ime, eiDelay := s.eiDelay, diDelay := s.diDelay).mem;
  }

  /** With IME set and an interrupt pending, the interrupt is taken and nothing is fetched. */
  lemma PrepareServicesFirst(s: State)
    requires s.ime && Cpu.HasPendingInterrupt(s)
    ensures Prepare(s) == Interrupted(Cpu.Take(s, Cpu.Chosen(s)))
    ensures PrepareAsWritten(s) == Interrupted(Cpu.Take(s, Cpu.Chosen(s)))
  {
  }

  /** A halted CPU with nothing pending only applies the delayed IME. */
  lemma PrepareWaitsWhileHalted(s: State)
    requires s.halt && !s.haltBug && !Cpu.HasPendingInterrupt(s)
    ensures Prepare(s) == Halted(Cpu.HandleDelayedIme(s))
    ensures PrepareAsWritten(s) == Halted(Cpu.HandleDelayedIme(s))
  {
    DelayedImeKeepsPending(s);
  }

  /** Running, with no interrupt taken and no HALT bug: the byte at PC is fetched and PC moves past it. */
  lemma PrepareFetches(s: State)
    requires !(s.ime && Cpu.HasPendingInterrupt(s)) && !s.halt && !s.haltBug
    ensures Prepare(s) == Fetched(Read(s, s.pc), Cpu.HandleDelayedIme(s).(pc := s.pc + 1, lastOpcode := Read(s, s.pc)))
    ensures PrepareAsWritten(s) == Prepare(s)
  {
    DelayedImeKeepsPending(s);
  }

  /** With the HALT bug armed, the byte at PC is fetched and PC stays: the byte after HALT is read twice. */
  lemma PrepareHaltBug(s: State)
    requires s.haltBug && !(s.ime && Cpu.HasPendingInterrupt(s))
    ensures Prepare(s) == Fetched(Read(s, s.pc), Cpu.HandleDelayedIme(s).(haltBug := false, lastOpcode := Read(s, s.pc)))
  {
    DelayedImeKeepsPending(s);
  }

  /** As written, the armed HALT bug moves PC back one byte first, so the byte before PC is fetched again. */
  lemma PrepareHaltBugAsWritten(s: State)
    requires s.haltBug && !(s.ime && Cpu.HasPendingInterrupt(s))
    ensures PrepareAsWritten(s)
            == Fetched(Read(s, s.pc - 1), Cpu.HandleDelayedIme(s).(haltBug := false, lastOpcode := Read(s, s.pc - 1)))
  {
    PrepareWithoutInterrupt(s);
    DelayedImeKeepsPending(s);
    RefetchAsWritten(Cpu.HandleDelayedIme(s));
  }

  /** With no interrupt taken, the start of a step is the delayed IME, the halt check and the fetch. */
  lemma PrepareWithoutInterrupt(s: State)
    requires !(s.ime && Cpu.HasPendingInterrupt(s))
    ensures Prepare(s) == FetchUnlessHalted(Cpu.HandleHalt(Cpu.HandleDelayedIme(s)))
    ensures PrepareAsWritten(s) == FetchUnlessHalted(Cpu.HandleHaltAsWritten(Cpu.HandleDelayedIme(s)))
  {
  }

  /** The as-written halt check on an armed bug: the fetch happens one byte back, and PC ends where it was. */
  lemma RefetchAsWritten(t: State)
    requires t.haltBug
    ensures FetchUnlessHalted(Cpu.HandleHaltAsWritten(t))
            == Fetched(Read(t, t.pc - 1), t.(haltBug := false, lastOpcode := Read(t, t.pc - 1)))
  {
    var back := t.(haltBug := false, pc := t.pc - 1);
    assert Cpu.HandleHaltAsWritten(t) == Cpu.Resume(back, true, false);
    FetchRuns(back);
    UndoStepBack(t, Read(t, t.pc - 1));
  }

  /** A running CPU fetches the byte at PC and moves PC past it. */
  lemma FetchRuns(b: State)
    ensures FetchUnlessHalted(Cpu.Resume(b, true, false)) == Fetched(Read(b, b.pc), b.(pc := b.pc + 1, lastOpcode := Read(b, b.pc)))
  {
  }

  /** Moving PC back one byte and fetching there brings PC back where it was. */
  lemma UndoStepBack(t: State, op: byte)
    ensures t.(haltBug := false, pc := t.pc - 1).(pc := t.pc - 1 + 1, lastOpcode := op) == t.(haltBug := false, lastOpcode := op)
  {
  }

  // ----- one execute step -----

  /** A taken interrupt is the whole step. */
  lemma ExecuteServicesFirst(s: State)
    requires s.ime && Cpu.HasPendingInterrupt(s)
    ensures Execute(s) == Ok(Cpu.Take(s, Cpu.Chosen(s)))
  {
    PrepareServicesFirst(s);
  }

  /** A halted CPU with nothing pending only applies the delayed IME: no fetch and no cycles. */
  lemma ExecuteWaitsWhileHalted(s: State)
    requires s.halt && !s.haltBug && !Cpu.HasPendingInterrupt(s)
    ensures Execute(s) == Ok(Cpu.HandleDelayedIme(s))
  {
    PrepareWaitsWhileHalted(s);
  }

  /** Running and no interrupt taken, the step fails exactly on an illegal opcode or CB 0x38-0xFF. */
  lemma ExecuteFaults(s: State)
    requires !(s.ime && Cpu.HasPendingInterrupt(s)) && !s.halt && !s.haltBug
    ensures Execute(s).Err? <==> Read(s, s.pc) in IllegalOpcodes || (Read(s, s.pc) == 0xCB && Read(s, s.pc + 1) >= 0x38)
  {
    PrepareFetches(s);
    DelayedImeKeepsPending(s);
  }

  /** The cycle count never moves during the start of a step, except the 20 of a taken interrupt. */
  lemma PrepareCycles(s: State)
    ensures Prepare(s).Interrupted? ==> Prepare(s).state.cycles == s.cycles + 20
    ensures !Prepare(s).Interrupted? ==> Prepare(s).state.cycles == s.cycles
  {
    var t := Cpu.HandleDelayedIme(s);
    assert t.cycles == t.(ime := s.ime, eiDelay := s.eiDelay, diDelay := s.diDelay).cycles;
  }

  /** A step adds 20 cycles for an interrupt, 0 while halted, or a whole number of machine cycles. */
  lemma ExecuteCycles(s: State)
    requires Execute(s).Ok?
    ensures Execute(s).value.cycles - s.cycles == 0 || Execute(s).value.cycles - s.cycles == 20
            || MachineCycles(Execute(s).value.cycles - s.cycles)
  {
    PrepareCycles(s);
  }

  // ----- the HALT bug -----

  /** HALT with IME clear and an interrupt pending arms the bug and costs 4 cycles. */
  lemma ExecuteHaltArmsBug(s: State)
    requires !s.ime && !s.halt && !s.haltBug && !s.eiDelay && !s.diDelay
    requires Cpu.HasPendingInterrupt(s) && Read(s, s.pc) == Cpu.OpcodeHalt
    ensures Execute(s) == Ok(s.(pc := s.pc + 1, lastOpcode := Cpu.OpcodeHalt, haltBug := true, cycles := s.cycles + 4))
  {
    PrepareFetches(s);
    var t := s.(pc := s.pc + 1, lastOpcode := Cpu.OpcodeHalt);
    assert Cpu.HandleDelayedIme(s) == s;
    DispatchHalt(t);
    assert Cpu.Pending(t) == Cpu.Pending(s);
  }

  /**
    As written, when the byte before PC is the HALT that armed the bug, that
    HALT runs again and re-arms it: the state comes back with 4 more cycles,
    whatever the count was.
   */
  lemma HaltBugAsWrittenRepeats(s: State, c: nat)
    requires !s.ime && !s.halt && s.haltBug && !s.eiDelay && !s.diDelay
    requires Cpu.HasPendingInterrupt(s) && Read(s, s.pc - 1) == Cpu.OpcodeHalt && s.lastOpcode == Cpu.OpcodeHalt
    ensures ExecuteAsWritten(WithCycles(s, c)) == Ok(WithCycles(s, c + 4))
  {
    var u := WithCycles(s, c);
    var t := u.(haltBug := false);
    RearmedState(s, c);
    PendingOnMemory(s, u);
    PendingOnMemory(s, t);
    assert Cpu.HandleDelayedIme(u) == u;
    PrepareHaltBugAsWritten(u);
    HaltRearms(t);
  }

  /** The pending set is read from memory alone. */
  lemma PendingOnMemory(s: State, t: State)
    requires s.mem == t.mem
    ensures Cpu.HasPendingInterrupt(s) == Cpu.HasPendingInterrupt(t)
  {
    assert Read(s, IE) == Read(t, IE) && Read(s, IF) == Read(t, IF);
  }

  /** The states the repetition passes through, as record updates of `s`. */
  lemma RearmedState(s: State, c: nat)
    requires s.haltBug && s.lastOpcode == Cpu.OpcodeHalt
    ensures WithCycles(s, c).(haltBug := false, lastOpcode := Cpu.OpcodeHalt) == WithCycles(s, c).(haltBug := false)
    ensures WithCycles(s, c).(haltBug := false).(haltBug := true, cycles := c + 4) == WithCycles(s, c + 4)
  {
  }

  /** HALT with IME clear and an interrupt pending re-arms the bug, in 4 cycles. */
  lemma HaltRearms(t: State)
    requires !t.ime && Cpu.HasPendingInterrupt(t)
    ensures Dispatch(t, Cpu.OpcodeHalt) == Ok(t.(haltBug := true, cycles := t.cycles + 4))
  {
    DispatchHalt(t);
    assert Cpu.Halt(t) == t.(haltBug := true);
  }

  /** As written, the CPU never gets past the HALT: from any cycle count c, n steps only add 4n cycles. */
  lemma HaltBugAsWrittenLivelock(s: State, c: nat, n: nat)
    requires !s.ime && !s.halt && s.haltBug && !s.eiDelay && !s.diDelay
    requires Cpu.HasPendingInterrupt(s) && Read(s, s.pc - 1) == Cpu.OpcodeHalt && s.lastOpcode == Cpu.OpcodeHalt
    ensures Iterate(ExecuteAsWritten, WithCycles(s, c), n) == Ok(WithCycles(s, c + 4 * n))
  {
    HaltBugAsWrittenOnlyTicks(s);
    IterateOnlyTicks(ExecuteAsWritten, s, c, n);
  }

  /** The one-step repetition, from every cycle count at once. */
  lemma HaltBugAsWrittenOnlyTicks(s: State)
    requires !s.ime && !s.halt && s.haltBug && !s.eiDelay && !s.diDelay
    requires Cpu.HasPendingInterrupt(s) && Read(s, s.pc - 1) == Cpu.OpcodeHalt && s.lastOpcode == Cpu.OpcodeHalt
    ensures forall c: nat :: ExecuteAsWritten(WithCycles(s, c)) == Ok(WithCycles(s, c + 4))
  {
    forall c: nat
      ensures ExecuteAsWritten(WithCycles(s, c)) == Ok(WithCycles(s, c + 4))
    {
      HaltBugAsWrittenRepeats(s, c);
    }
  }

  /** Handled as the hardware shows it, a NOP after the armed HALT runs twice and the CPU moves on past it. */
  lemma HaltBugThenNop(s: State)
    requires !s.ime && !s.halt && s.haltBug && !s.eiDelay && !s.diDelay
    requires Cpu.HasPendingInterrupt(s) && Read(s, s.pc) == 0x00
    ensures Iterate(Execute, s, 2) == Ok(s.(haltBug := false, lastOpcode := 0x00, pc := s.pc + 1, cycles := s.cycles + 8))
  {
    HaltBugNopOnce(s);
    var u := s.(haltBug := false, lastOpcode := 0x00, cycles := s.cycles + 4);
    PrepareFetches(u);
    assert Cpu.HandleDelayedIme(u) == u;
    DispatchNop(u.(pc := s.pc + 1));
  }

  /** The first of the two: the NOP runs and PC stays on it. */
  lemma HaltBugNopOnce(s: State)
    requires !s.ime && !s.halt && s.haltBug && !s.eiDelay && !s.diDelay
    requires Cpu.HasPendingInterrupt(s) && Read(s, s.pc) == 0x00
    ensures Execute(s) == Ok(s.(haltBug := false, lastOpcode := 0x00, cycles := s.cycles + 4))
  {
    PrepareHaltBug(s);
    assert Cpu.HandleDelayedIme(s) == s;
    DispatchNop(s.(haltBug := false, lastOpcode := 0x00));
  }
}
