/**
  The control side of the interpreter: the flags as a record, immediate
  operand fetch, the stack, jumps, calls and returns, interrupt dispatch,
  HALT and the delayed effect of EI and DI. Each function takes the state
  before the operation and returns the state after it, together with the
  value the Rust code returns where it returns one.
 */
module Cpu {
  import opened Bits
  import opened System
  import Alu

  const OpcodeDi: byte := 0xF3
  const OpcodeEi: byte := 0xFB
  const OpcodeHalt: byte := 0x76

  // ----- flags as a record -----

  /** The four flags of F as the ALU helpers take them. */
  function FlagsOf(s: State): (fl: Alu.Flags)
    ensures fl.z == GetFlag(s, Z) && fl.n == GetFlag(s, N) && fl.h == GetFlag(s, H) && fl.c == GetFlag(s, C)
  {
    Alu.Flags(GetFlag(s, Z), GetFlag(s, N), GetFlag(s, H), GetFlag(s, C))
  }

  /** F with its four flags taken from `fl`; the low nibble of F and the rest of the state are kept. */
  function WithFlags(s: State, fl: Alu.Flags): (r: State)
    ensures FlagsOf(r) == fl
    ensures r.f & 0x0F == s.f & 0x0F
    ensures r.(f := s.f) == s
  {
    SetFlags(s, fl.z, fl.n, fl.h, fl.c)
  }

  /** The conditions of JR, JP, CALL and RET. */
  datatype Cond = IfNZ | IfZ | IfNC | IfC

  predicate Holds(s: State, cc: Cond)
  {
    match cc
    case IfNZ => !GetFlag(s, Z)
    case IfZ => GetFlag(s, Z)
    case IfNC => !GetFlag(s, C)
    case IfC => GetFlag(s, C)
  }

  // ----- immediate operands -----

  /** `read_immediate_byte`: the byte at PC, and PC moved past it. */
  function ImmediateByte(s: State): (r: (byte, State))
    ensures r.0 == Read(s, s.pc)
    ensures r.1 == s.(pc := s.pc + 1)
  {
    (Read(s, s.pc), s.(pc := s.pc + 1))
  }

  /** `read_immediate_word`: two immediate bytes, low first, and PC moved past both. */
  function ImmediateWord(s: State): (r: (word, State))
    ensures Lo(r.0) == Read(s, s.pc) && Hi(r.0) == Read(s, s.pc + 1)
    ensures r.1 == s.(pc := s.pc + 2)
  {
    var (low, s1) := ImmediateByte(s);
    var (high, s2) := ImmediateByte(s1);
    (Join(high, low), s2)
  }

  /** An immediate word is the little-endian word stored at PC. */
  lemma ImmediateWordIsReadWord(s: State)
    ensures ImmediateWord(s).0 == ReadWord(s, s.pc)
  {
    HiLoInjective(ImmediateWord(s).0, ReadWord(s, s.pc));
  }

  // ----- the stack -----

  /** `push_word`: the high byte goes to SP - 1, the low byte to SP - 2, and SP moves down by two (wrapping). */
  function Push(s: State, v: word): (r: State)
    ensures r.sp == s.sp - 2
    ensures Read(r, s.sp - 2) == Lo(v) && Read(r, s.sp - 1) == Hi(v)
    ensures forall x: word :: x != s.sp - 2 && x != s.sp - 1 ==> Read(r, x) == Read(s, x)
    ensures r.(sp := s.sp, mem := s.mem) == s
  {
    Write(Write(s, s.sp - 1, Hi(v)), s.sp - 2, Lo(v)).(sp := s.sp - 2)
  }

  /** `pop_word`: the low byte from SP, the high byte from SP + 1, and SP moves up by two (wrapping). */
  function Pop(s: State): (r: (word, State))
    ensures Lo(r.0) == Read(s, s.sp) && Hi(r.0) == Read(s, s.sp + 1)
    ensures r.1 == s.(sp := s.sp + 2)
  {
    var low := Read(s, s.sp);
    var high := Read(s, s.sp + 1);
    (Join(high, low), s.(sp := s.sp + 2))
  }

  /** Popping right after a push returns the pushed word, restores SP and changes no register. */
  lemma PopAfterPush(s: State, v: word)
    ensures Pop(Push(s, v)).0 == v
    ensures Pop(Push(s, v)).1.sp == s.sp
    ensures Pop(Push(s, v)).1.(mem := s.mem) == s
  {
    StackSlots(s.sp);
    HiLoInjective(Pop(Push(s, v)).0, v);
  }

  /** The two stack slots below SP, seen from the lowered SP. */
  lemma StackSlots(sp: word)
    ensures (sp - 2) + 1 == sp - 1 && (sp - 2) + 2 == sp
  {
  }

  // ----- jumps, calls and returns -----

  /** `jp`: PC takes the immediate word. */
  function Jp(s: State): (r: State)
    ensures r.pc == ReadWord(s, s.pc)
    ensures r.(pc := s.pc) == s
  {
    ImmediateWordIsReadWord(s);
    var (target, s1) := ImmediateWord(s);
    s1.(pc := target)
  }

  /** `jp_nz` and the rest: the operand is always read; the jump happens only when the condition holds. */
  function JpCc(s: State, cc: Cond): (r: State)
    ensures Holds(s, cc) ==> r.pc == ReadWord(s, s.pc)
    ensures !Holds(s, cc) ==> r.pc == s.pc + 2
    ensures r.(pc := s.pc) == s
  {
    if Holds(s, cc) then Jp(s) else s.(pc := s.pc + 2)
  }

  /** The target of a relative jump: the address after the operand plus the offset read as a signed byte (wrapping). */
  function RelativeTarget(next: word, offset: byte): word
  {
    next + SignExtend(offset)
  }

  /** An offset below 0x80 skips that many bytes forward. */
  lemma RelativeForward(next: word, offset: byte)
    requires offset < 0x80
    ensures RelativeTarget(next, offset) == next + offset as word
  {
  }

  /** An offset n from 0x80 up lands 0x100 - n bytes back. */
  lemma RelativeBackward(next: word, offset: byte)
    requires offset >= 0x80
    ensures RelativeTarget(next, offset) + (0x100 - offset as word) == next
  {
  }

  /** `jr`: PC moves past the offset byte and then by the signed offset. */
  function Jr(s: State): (r: State)
    ensures r.pc == RelativeTarget(s.pc + 1, Read(s, s.pc))
    ensures r.(pc := s.pc) == s
  {
    s.(pc := RelativeTarget(s.pc + 1, Read(s, s.pc)))
  }

  /** `jr_nz` and the rest: the offset is always read; it is added only when the condition holds. */
  function JrCc(s: State, cc: Cond): (r: State)
    ensures Holds(s, cc) ==> r == Jr(s)
    ensures !Holds(s, cc) ==> r == s.(pc := s.pc + 1)
  {
    if Holds(s, cc) then Jr(s) else s.(pc := s.pc + 1)
  }

  /** `JR -2` (offset 0xFE) jumps back to its own opcode, one byte before the operand. */
  lemma JrMinusTwoLoops(s: State)
    requires Read(s, s.pc) == 0xFE
    ensures Jr(s).pc == s.pc - 1
  {
    RelativeBackward(s.pc + 1, Read(s, s.pc));
  }

  /** `call`: push PC + 2 (the address after the operand), then jump as `jp` does. */
  function Call(s: State): (r: State)
    ensures r.sp == s.sp - 2
    ensures Read(r, s.sp - 2) == Lo(s.pc + 2) && Read(r, s.sp - 1) == Hi(s.pc + 2)
    ensures r.pc == ReadWord(Push(s, s.pc + 2), s.pc)
    ensures r.(pc := s.pc, sp := s.sp, mem := s.mem) == s
  {
    Jp(Push(s, s.pc + 2))
  }

  /** `call_nz` and the rest: call when the condition holds, otherwise skip the operand. */
  function CallCc(s: State, cc: Cond): (r: State)
    ensures Holds(s, cc) ==> r == Call(s)
    ensures !Holds(s, cc) ==> r == s.(pc := s.pc + 2)
  {
    if Holds(s, cc) then Call(s) else s.(pc := s.pc + 2)
  }

  /** `ret`: PC takes the word popped from the stack. */
  function Ret(s: State): (r: State)
    ensures r.pc == ReadWord(s, s.sp) && r.sp == s.sp + 2
    ensures r.(pc := s.pc, sp := s.sp) == s
  {
    var (target, s1) := Pop(s);
    HiLoInjective(target, ReadWord(s, s.sp));
    s1.(pc := target)
  }

  /** `ret_nz` and the rest: return only when the condition holds. */
  function RetCc(s: State, cc: Cond): (r: State)
    ensures Holds(s, cc) ==> r == Ret(s)
    ensures !Holds(s, cc) ==> r == s
  {
    if Holds(s, cc) then Ret(s) else s
  }

  /** `reti`: return and set IME at once. */
  function Reti(s: State): (r: State)
    ensures r.pc == ReadWord(s, s.sp) && r.sp == s.sp + 2 && r.ime
    ensures r.(pc := s.pc, sp := s.sp, ime := s.ime) == s
  {
    Ret(s).(ime := true)
  }

  /** `rst_xx`: push PC and jump to the fixed address. */
  function Rst(s: State, target: word): (r: State)
    ensures r.pc == target && r.sp == s.sp - 2
    ensures Read(r, r.sp) == Lo(s.pc) && Read(r, r.sp + 1) == Hi(s.pc)
    ensures r.(pc := s.pc, sp := s.sp, mem := s.mem) == s
  {
    Push(s, s.pc).(pc := target)
  }

  /** A return right after a call comes back to the byte after the call's operand, with SP restored. */
  lemma RetAfterCall(s: State)
    ensures Ret(Call(s)).pc == s.pc + 2
    ensures Ret(Call(s)).sp == s.sp
  {
    var r := Call(s);
    HiLoInjective(ReadWord(r, r.sp), s.pc + 2);
  }

  /** A return right after an RST comes back to where the RST left off, with SP restored. */
  lemma RetAfterRst(s: State, target: word)
    ensures Ret(Rst(s, target)).pc == s.pc
    ensures Ret(Rst(s, target)).sp == s.sp
  {
    var r := Rst(s, target);
    HiLoInjective(ReadWord(r, r.sp), s.pc);
  }

  // ----- interrupts -----

  /** `IE & IF & 0x1F`: the interrupts that are both enabled and requested. */
  function Pending(s: State): (p: byte)
    ensures p & 0xE0 == 0
  {
    Read(s, IE) & Read(s, IF) & 0x1F
  }

  /** `has_pending_interrupt`: some one of the five interrupts is both enabled and requested. */
  predicate HasPendingInterrupt(s: State): (b: bool)
    ensures b <==> exists k :: 0 <= k < 5 && Requested(s, k)
  {
    PendingSomeRequested(s);
    Pending(s) != 0
  }

  /** The pending set is non-empty exactly when one of the five interrupts is requested. */
  lemma PendingSomeRequested(s: State)
    ensures Pending(s) != 0 <==> exists k :: 0 <= k < 5 && Requested(s, k)
  {
    if Pending(s) != 0 {
      PendingBit(s, LowestBit(Pending(s)));
    } else {
      forall k | 0 <= k < 5
        ensures !Requested(s, k)
      {
        PendingBit(s, k);
      }
    }
  }

  /** Interrupt `k` (0 V-Blank, 1 LCD STAT, 2 timer, 3 serial, 4 joypad) is enabled in IE and requested in IF. */
  predicate Requested(s: State, k: nat)
    requires k < 8
  {
    Bit(Read(s, IE), k) && Bit(Read(s, IF), k)
  }

  /** Bit k of the pending set is interrupt k being requested, for the five interrupts, and clear above them. */
  lemma PendingBit(s: State, k: nat)
    requires k < 8
    ensures Bit(Pending(s), k) <==> k < 5 && Requested(s, k)
  {
    var ie, iflags := Read(s, IE), Read(s, IF);
    if k < 5 {
      Alu.AndMask(ie, iflags, BitMask(k));
      Alu.AndMask(ie & iflags, 0x1F, BitMask(k));
    } else {
      Alu.AndMask(ie & iflags, 0x1F, BitMask(k));
    }
  }

  /** `trailing_zeros` of a non-zero byte: the position of its lowest set bit. */
  function LowestBit(p: byte): (k: nat)
    requires p != 0
    ensures k < 8 && Bit(p, k)
    ensures forall j :: 0 <= j < k ==> !Bit(p, j)
  {
    if p & 0x01 != 0 then 0 else if p & 0x02 != 0 then 1 else if p & 0x04 != 0 then 2
    else if p & 0x08 != 0 then 3 else if p & 0x10 != 0 then 4 else if p & 0x20 != 0 then 5
    else if p & 0x40 != 0 then 6 else 7
  }

  /** The handler address of interrupt `k`. */
  function Vector(k: nat): (v: word)
    requires k < 5
    ensures v as int == 0x40 + 8 * k
  {
    match k
    case 0 => 0x40
    case 1 => 0x48
    case 2 => 0x50
    case 3 => 0x58
    case 4 => 0x60
  }

  /** The interrupt `service_interrupts` picks: the lowest set bit of the pending set. */
  function Chosen(s: State): (k: nat)
    requires HasPendingInterrupt(s)
    ensures k < 5 && Requested(s, k)
    ensures forall j :: 0 <= j < k ==> !Requested(s, j)
  {
    PendingBit(s, LowestBit(Pending(s)));
    forall j | 0 <= j < LowestBit(Pending(s))
      ensures !Requested(s, j)
    {
      PendingBit(s, j);
    }
    LowestBit(Pending(s))
  }

  /**
    Taking interrupt `k`: bit k of IF is cleared, then PC is stored low byte
    first below SP, PC jumps to the vector, IME and HALT are cleared and 20
    cycles pass. The IF write comes before the two stack writes, so a stack
    that overlaps IF overwrites it.
   */
  function Take(s: State, k: nat): (r: State)
    requires k < 5
    ensures r.sp == s.sp - 2
    ensures Read(r, s.sp - 2) == Lo(s.pc) && Read(r, s.sp - 1) == Hi(s.pc)
    ensures forall x: word :: x != IF && x != s.sp - 2 && x != s.sp - 1 ==> Read(r, x) == Read(s, x)
    ensures r.pc == Vector(k) && !r.ime && !r.halt && r.cycles == s.cycles + 20
    ensures r.(pc := s.pc, sp := s.sp, mem := s.mem, ime := s.ime, halt := s.halt, cycles := s.cycles) == s
  {
    Write(Write(Write(s, IF, ClearedBit(Read(s, IF), k)), s.sp - 2, Lo(s.pc)), s.sp - 1, Hi(s.pc))
      .(sp := s.sp - 2, ime := false, halt := false, pc := Vector(k), cycles := s.cycles + 20)
  }

  /**
    `service_interrupts`: nothing happens unless IME is set and an interrupt
    is pending; otherwise the lowest-numbered pending interrupt is taken. The
    first component says whether an interrupt was taken. The Rust code's
    fall-back for a bit number above 4 is unreachable: the pending set has no
    bits above 4.
   */
  function ServiceInterrupts(s: State): (r: (bool, State))
    ensures r.0 <==> s.ime && HasPendingInterrupt(s)
    ensures !r.0 ==> r.1 == s
    ensures r.0 ==> r.1 == Take(s, Chosen(s))
  {
    if !s.ime || !HasPendingInterrupt(s) then (false, s) else (true, Take(s, Chosen(s)))
  }

  /** Of IF only bit k is cleared, when the stack does not overlap IF. */
  lemma TakeClearsRequest(s: State, k: nat)
    requires k < 5 && IF != s.sp - 2 && IF != s.sp - 1
    ensures Read(Take(s, k), IF) == ClearedBit(Read(s, IF), k)
  {
  }

  /** Of IF only the taken interrupt's bit is cleared, when the stack does not overlap IF. */
  lemma ServiceClearsRequest(s: State)
    requires s.ime && HasPendingInterrupt(s)
    requires IF != s.sp - 2 && IF != s.sp - 1
    ensures Read(ServiceInterrupts(s).1, IF) == ClearedBit(Read(s, IF), Chosen(s))
  {
    TakeClearsRequest(s, Chosen(s));
  }

  /** Bit by bit: IF bit j is afterwards set exactly when it was set before and j is not the taken interrupt. */
  lemma ServiceClearsOneRequest(s: State, j: nat)
    requires s.ime && HasPendingInterrupt(s) && j < 8
    requires IF != s.sp - 2 && IF != s.sp - 1
    ensures Bit(Read(ServiceInterrupts(s).1, IF), j) <==> j != Chosen(s) && Bit(Read(s, IF), j)
  {
    ServiceClearsRequest(s);
    ClearedBitOf(Read(ServiceInterrupts(s).1, IF), Read(s, IF), Chosen(s), j);
  }

  /** The taken interrupt is requested and no lower-numbered interrupt is, so V-Blank beats STAT beats the rest. */
  lemma ServicePriority(s: State)
    requires s.ime && HasPendingInterrupt(s)
    ensures ServiceInterrupts(s).1 == Take(s, Chosen(s))
    ensures Requested(s, Chosen(s))
    ensures forall j :: 0 <= j < Chosen(s) ==> !Requested(s, j)
  {
  }

  /** RETI at the start of the handler resumes the interrupted code with SP restored and IME set again. */
  lemma RetiResumes(s: State)
    requires s.ime && HasPendingInterrupt(s)
    ensures Reti(ServiceInterrupts(s).1).pc == s.pc
    ensures Reti(ServiceInterrupts(s).1).sp == s.sp
    ensures Reti(ServiceInterrupts(s).1).ime
  {
    var r := ServiceInterrupts(s).1;
    HiLoInjective(ReadWord(r, r.sp), s.pc);
  }

  // ----- HALT and the delayed IME -----

  /** `halt`: with IME clear and an interrupt pending the CPU does not halt but arms the HALT bug. */
  function Halt(s: State): (r: State)
    ensures !s.ime && HasPendingInterrupt(s) ==> r.haltBug && r.halt == s.halt
    ensures s.ime || !HasPendingInterrupt(s) ==> r.halt && r.haltBug == s.haltBug
    ensures r.(halt := s.halt, haltBug := s.haltBug) == s
  {
    if !s.ime && HasPendingInterrupt(s) then s.(haltBug := true) else s.(halt := true)
  }

  /**
    `handle_delayed_ime`: a DI or EI seen at the previous step takes effect
    now unless it was itself the instruction just executed. DI is applied
    first and EI second, so EI wins when both are due.
   */
  function HandleDelayedIme(s: State): (r: State)
    ensures r.ime == if s.eiDelay && s.lastOpcode != OpcodeEi then true
                     else if s.diDelay && s.lastOpcode != OpcodeDi then false
                     else s.ime
    ensures r.eiDelay == (s.eiDelay && s.lastOpcode == OpcodeEi)
    ensures r.diDelay == (s.diDelay && s.lastOpcode == OpcodeDi)
    ensures r.(ime := s.ime, eiDelay := s.eiDelay, diDelay := s.diDelay) == s
  {
    var s1 := if s.diDelay && s.lastOpcode != OpcodeDi then s.(diDelay := false, ime := false) else s;
    if s1.eiDelay && s1.lastOpcode != OpcodeEi then s1.(eiDelay := false, ime := true) else s1
  }

  /** The result of the halt check: the state, whether to fetch, and whether the fetch must not move PC. */
  datatype Resume = Resume(state: State, run: bool, repeat: bool)

  /**
    `handle_halt` as the Rust code writes it: a pending HALT bug is consumed by
    moving PC back one byte (wrapping); a halted CPU wakes when an interrupt
    is pending and otherwise skips the fetch.
   */
  function HandleHaltAsWritten(s: State): (r: Resume)
    ensures !r.repeat
    ensures !r.run <==> !s.haltBug && s.halt && !HasPendingInterrupt(s)
    ensures s.haltBug ==> r.state == s.(haltBug := false, pc := s.pc - 1)
    ensures !s.haltBug ==> r.state == s.(halt := s.halt && !HasPendingInterrupt(s))
  {
    if s.haltBug then Resume(s.(haltBug := false, pc := s.pc - 1), true, false)
    else if s.halt then
      if HasPendingInterrupt(s) then Resume(s.(halt := false), true, false) else Resume(s, false, false)
    else Resume(s, true, false)
  }

  /**
    `handle_halt` with the HALT bug as the hardware shows it: the bug is
    consumed without moving PC and the next fetch does not advance PC, so
    the byte after HALT is read twice. The halted case is as written.
   */
  function HandleHalt(s: State): (r: Resume)
    ensures r.repeat <==> s.haltBug
    ensures !r.run <==> !s.haltBug && s.halt && !HasPendingInterrupt(s)
    ensures s.haltBug ==> r.state == s.(haltBug := false)
    ensures !s.haltBug ==> r.state == s.(halt := s.halt && !HasPendingInterrupt(s))
  {
    if s.haltBug then Resume(s.(haltBug := false), true, true)
    else if s.halt then
      if HasPendingInterrupt(s) then Resume(s.(halt := false), true, false) else Resume(s, false, false)
    else Resume(s, true, false)
  }

  /** A halted CPU with nothing pending stays exactly as it is; once an interrupt is pending it wakes. */
  lemma HaltedWaits(s: State)
    requires s.halt && !s.haltBug
    ensures !HasPendingInterrupt(s) ==> HandleHalt(s) == Resume(s, false, false)
    ensures HasPendingInterrupt(s) ==> HandleHalt(s).run && !HandleHalt(s).state.halt
  {
  }

  /** After HALT with IME set or nothing pending, the CPU sleeps until an interrupt is requested. */
  lemma HaltThenSleep(s: State)
    requires (s.ime || !HasPendingInterrupt(s)) && !s.haltBug
    ensures !HasPendingInterrupt(s) ==> !HandleHalt(Halt(s)).run
    ensures HasPendingInterrupt(s) ==> HandleHalt(Halt(s)).run
  {
  }
}
