/**
  The CPU-side machine state of rgb-core: eight 8-bit registers, PC, SP,
  a flat 64 KiB memory, the interrupt/halt bookkeeping and a cycle counter.
  Registers pair up as AF, BC, DE and HL; F carries the Z, N, H and C flags
  in its upper nibble.
 */
module System {
  import opened Bits
  import opened Memory

  /**
    The register file and memory. `haltBug` and `lastOpcode` are read and
    written by the interpreter although the record declared next to the
    registers does not list them; they are part of the state here.
   */
  datatype State = State(
    a: byte, f: byte, b: byte, c: byte, d: byte, e: byte, h: byte, l: byte,
    pc: word, sp: word,
    mem: Mem,
    ime: bool,
    halt: bool,
    eiDelay: bool,
    diDelay: bool,
    cycles: nat,
    haltBug: bool,
    lastOpcode: byte)

  // Memory-mapped register addresses used by the CPU and the power-on reset.
  const P1: word := 0xFF00
  const DIV: word := 0xFF04
  const TIMA: word := 0xFF05
  const TMA: word := 0xFF06
  const TAC: word := 0xFF07
  const IF: word := 0xFF0F
  const LCDC: word := 0xFF40
  const SCY: word := 0xFF42
  const SCX: word := 0xFF43
  const LYC: word := 0xFF45
  const BGP: word := 0xFF47
  const OBP0: word := 0xFF48
  const OBP1: word := 0xFF49
  const WY: word := 0xFF4A
  const WX: word := 0xFF4B
  const IE: word := 0xFFFF

  /** The four flags of F and their bit masks. */
  datatype Flag = Z | N | H | C

  function Mask(fl: Flag): byte
  {
    match fl
    case Z => 0x80
    case N => 0x40
    case H => 0x20
    case C => 0x10
  }

  // ----- register pairs -----

  function AF(s: State): (r: word)
    ensures Hi(r) == s.a && Lo(r) == s.f
  {
    Join(s.a, s.f)
  }

  function BC(s: State): (r: word)
    ensures Hi(r) == s.b && Lo(r) == s.c
  {
    Join(s.b, s.c)
  }

  function DE(s: State): (r: word)
    ensures Hi(r) == s.d && Lo(r) == s.e
  {
    Join(s.d, s.e)
  }

  function HL(s: State): (r: word)
    ensures Hi(r) == s.h && Lo(r) == s.l
  {
    Join(s.h, s.l)
  }

  /** `set_af`: A takes the high byte and F the low byte; nothing else moves. */
  function SetAF(s: State, v: word): (r: State)
    ensures AF(r) == v
    ensures r.a == Hi(v) && r.f == Lo(v)
    ensures r.(a := s.a, f := s.f) == s
  {
    JoinOfHiLo(v);
    s.(a := Hi(v), f := Lo(v))
  }

  function SetBC(s: State, v: word): (r: State)
    ensures BC(r) == v
    ensures r.b == Hi(v) && r.c == Lo(v)
    ensures r.(b := s.b, c := s.c) == s
  {
    JoinOfHiLo(v);
    s.(b := Hi(v), c := Lo(v))
  }

  function SetDE(s: State, v: word): (r: State)
    ensures DE(r) == v
    ensures r.d == Hi(v) && r.e == Lo(v)
    ensures r.(d := s.d, e := s.e) == s
  {
    JoinOfHiLo(v);
    s.(d := Hi(v), e := Lo(v))
  }

  function SetHL(s: State, v: word): (r: State)
    ensures HL(r) == v
    ensures r.h == Hi(v) && r.l == Lo(v)
    ensures r.(h := s.h, l := s.l) == s
  {
    JoinOfHiLo(v);
    s.(h := Hi(v), l := Lo(v))
  }

  /** Setting one pair leaves the other three pairs, SP, PC and memory as they were. */
  lemma SetPairIsolation(s: State, v: word)
    ensures BC(SetAF(s, v)) == BC(s) && DE(SetAF(s, v)) == DE(s) && HL(SetAF(s, v)) == HL(s)
    ensures AF(SetBC(s, v)) == AF(s) && DE(SetBC(s, v)) == DE(s) && HL(SetBC(s, v)) == HL(s)
    ensures AF(SetDE(s, v)) == AF(s) && BC(SetDE(s, v)) == BC(s) && HL(SetDE(s, v)) == HL(s)
    ensures AF(SetHL(s, v)) == AF(s) && BC(SetHL(s, v)) == BC(s) && DE(SetHL(s, v)) == DE(s)
    ensures SetAF(s, v).sp == s.sp && SetAF(s, v).pc == s.pc && SetAF(s, v).mem == s.mem
    ensures SetBC(s, v).sp == s.sp && SetBC(s, v).pc == s.pc && SetBC(s, v).mem == s.mem
    ensures SetDE(s, v).sp == s.sp && SetDE(s, v).pc == s.pc && SetDE(s, v).mem == s.mem
    ensures SetHL(s, v).sp == s.sp && SetHL(s, v).pc == s.pc && SetHL(s, v).mem == s.mem
  {
  }

  // ----- memory -----

  function Read(s: State, addr: word): byte
  {
    Load(s.mem, addr)
  }

  /** `write`: only the addressed byte changes, and it reads back as written. */
  function Write(s: State, addr: word, v: byte): (r: State)
    ensures Read(r, addr) == v
    ensures forall x: word :: x != addr ==> Read(r, x) == Read(s, x)
    ensures r.(mem := s.mem) == s
  {
    s.(mem := Store(s.mem, addr, v))
  }

  /**
    `read_word`: little-endian, low byte at `addr`. The Rust code's `addr + 1`
    does not wrap; this model wraps it (see README).
   */
  function ReadWord(s: State, addr: word): (r: word)
    ensures Lo(r) == Read(s, addr) && Hi(r) == Read(s, addr + 1)
  {
    Join(Read(s, addr + 1), Read(s, addr))
  }

  /** `write_word`: low byte at `addr`, high byte at `addr + 1`. */
  function WriteWord(s: State, addr: word, v: word): (r: State)
    ensures Read(r, addr) == Lo(v) && Read(r, addr + 1) == Hi(v)
    ensures forall x: word :: x != addr && x != addr + 1 ==> Read(r, x) == Read(s, x)
    ensures r.(mem := s.mem) == s
  {
    Write(Write(s, addr, Lo(v)), addr + 1, Hi(v))
  }

  /** Reading back a written word returns it. */
  lemma WordRoundTrip(s: State, addr: word, v: word)
    ensures ReadWord(WriteWord(s, addr, v), addr) == v
  {
    JoinOfHiLo(v);
  }

  // ----- flags -----

  function GetFlag(s: State, fl: Flag): bool
  {
    s.f & Mask(fl) != 0
  }

  /** `set_flag_x`: the chosen flag reads back as `v`; every other bit of F is untouched. */
  function SetFlag(s: State, fl: Flag, v: bool): (r: State)
    ensures GetFlag(r, fl) == v
    ensures r.f & !Mask(fl) == s.f & !Mask(fl)
    ensures r.f & 0x0F == s.f & 0x0F
    ensures r.(f := s.f) == s
  {
    if v then s.(f := s.f | Mask(fl)) else s.(f := s.f & !Mask(fl))
  }

  /** All four flags written at once, in the order Z, N, H, C the helpers use. */
  function SetFlags(s: State, z: bool, n: bool, hc: bool, cy: bool): (r: State)
    ensures GetFlag(r, Z) == z && GetFlag(r, N) == n && GetFlag(r, H) == hc && GetFlag(r, C) == cy
    ensures r.f & 0x0F == s.f & 0x0F
    ensures r.(f := s.f) == s
  {
    SetFlag(SetFlag(SetFlag(SetFlag(s, Z, z), N, n), H, hc), C, cy)
  }

  // ----- power-on state -----

  /** `reset_cpu`: the post-boot register values. */
  function ResetCpu(s: State): (r: State)
    ensures AF(r) == 0x01B0 && BC(r) == 0x0013 && DE(r) == 0x00D8 && HL(r) == 0x014D
    ensures r.sp == 0xFFFE && r.pc == 0x0100
    ensures r.a == 0x01 && r.f == 0xB0 && r.b == 0x00 && r.c == 0x13 && r.d == 0x00 && r.e == 0xD8 && r.h == 0x01 && r.l == 0x4D
    ensures r.mem == s.mem && r.ime == s.ime && r.halt == s.halt && r.eiDelay == s.eiDelay && r.diDelay == s.diDelay
    ensures r.cycles == s.cycles && r.haltBug == s.haltBug && r.lastOpcode == s.lastOpcode
  {
    SetHL(SetDE(SetBC(SetAF(s, 0x01B0), 0x0013), 0x00D8), 0x014D).(sp := 0xFFFE, pc := 0x0100)
  }

  /** `reset_memory`, joypad and timer part. */
  function ResetTimer(m: Mem): (r: Mem)
    ensures Load(r, P1) == 0xFF && Load(r, DIV) == 0xAF
    ensures Load(r, TIMA) == 0x00 && Load(r, TMA) == 0x00 && Load(r, TAC) == 0x00
    ensures forall x: word :: x != P1 && !(DIV <= x <= TAC) ==> Load(r, x) == Load(m, x)
  {
    Store(Store(Store(Store(Store(m, P1, 0xFF), DIV, 0xAF), TIMA, 0x00), TMA, 0x00), TAC, 0x00)
  }

  /** `reset_memory`, sound channel 1 (NR10 to NR14). */
  function ResetSquare1(m: Mem): (r: Mem)
    ensures Load(r, 0xFF10) == 0x80 && Load(r, 0xFF11) == 0xBF && Load(r, 0xFF12) == 0xF3 && Load(r, 0xFF14) == 0xBF
    ensures forall x: word :: !(0xFF10 <= x <= 0xFF14 && x != 0xFF13) ==> Load(r, x) == Load(m, x)
  {
    Store(Store(Store(Store(m, 0xFF10, 0x80), 0xFF11, 0xBF), 0xFF12, 0xF3), 0xFF14, 0xBF)
  }

  /** `reset_memory`, sound channel 2 (NR21 to NR24). */
  function ResetSquare2(m: Mem): (r: Mem)
    ensures Load(r, 0xFF16) == 0x3F && Load(r, 0xFF17) == 0x00 && Load(r, 0xFF19) == 0xBF
    ensures forall x: word :: !(0xFF16 <= x <= 0xFF19 && x != 0xFF18) ==> Load(r, x) == Load(m, x)
  {
    Store(Store(Store(m, 0xFF16, 0x3F), 0xFF17, 0x00), 0xFF19, 0xBF)
  }

  /** `reset_memory`, sound channel 3 (NR30 to NR34). */
  function ResetWave(m: Mem): (r: Mem)
    ensures Load(r, 0xFF1A) == 0x7F && Load(r, 0xFF1B) == 0xFF && Load(r, 0xFF1C) == 0x9F && Load(r, 0xFF1E) == 0xBF
    ensures forall x: word :: !(0xFF1A <= x <= 0xFF1E && x != 0xFF1D) ==> Load(r, x) == Load(m, x)
  {
    Store(Store(Store(Store(m, 0xFF1A, 0x7F), 0xFF1B, 0xFF), 0xFF1C, 0x9F), 0xFF1E, 0xBF)
  }

  /** `reset_memory`, sound channel 4 (NR41 to NR44). */
  function ResetNoise(m: Mem): (r: Mem)
    ensures Load(r, 0xFF20) == 0xFF && Load(r, 0xFF21) == 0x00 && Load(r, 0xFF22) == 0x00 && Load(r, 0xFF23) == 0xBF
    ensures forall x: word :: !(0xFF20 <= x <= 0xFF23) ==> Load(r, x) == Load(m, x)
  {
    Store(Store(Store(Store(m, 0xFF20, 0xFF), 0xFF21, 0x00), 0xFF22, 0x00), 0xFF23, 0xBF)
  }

  /** `reset_memory`, sound control (NR50 to NR52). */
  function ResetSoundControl(m: Mem): (r: Mem)
    ensures Load(r, 0xFF24) == 0x77 && Load(r, 0xFF25) == 0xF3 && Load(r, 0xFF26) == 0xF1
    ensures forall x: word :: !(0xFF24 <= x <= 0xFF26) ==> Load(r, x) == Load(m, x)
  {
    Store(Store(Store(m, 0xFF24, 0x77), 0xFF25, 0xF3), 0xFF26, 0xF1)
  }

  /** The joypad and timer bytes after `reset_memory`. */
  predicate TimerPowerOn(r: Mem)
  {
    Load(r, P1) == 0xFF && Load(r, DIV) == 0xAF && Load(r, TIMA) == 0x00 && Load(r, TMA) == 0x00
    && Load(r, TAC) == 0x00
  }

  /** The 19 sound register bytes after `reset_memory`, NR10 to NR52. */
  predicate SoundPowerOn(r: Mem)
  {
    Load(r, 0xFF10) == 0x80 && Load(r, 0xFF11) == 0xBF && Load(r, 0xFF12) == 0xF3 && Load(r, 0xFF14) == 0xBF
    && Load(r, 0xFF16) == 0x3F && Load(r, 0xFF17) == 0x00 && Load(r, 0xFF19) == 0xBF
    && Load(r, 0xFF1A) == 0x7F && Load(r, 0xFF1B) == 0xFF && Load(r, 0xFF1C) == 0x9F && Load(r, 0xFF1E) == 0xBF
    && Load(r, 0xFF20) == 0xFF && Load(r, 0xFF21) == 0x00 && Load(r, 0xFF22) == 0x00 && Load(r, 0xFF23) == 0xBF
    && Load(r, 0xFF24) == 0x77 && Load(r, 0xFF25) == 0xF3 && Load(r, 0xFF26) == 0xF1
  }

  /** The sound addresses `reset_memory` does not write: NR13, NR23 and the unused bytes between channels. */
  predicate SoundGap(x: word)
  {
    x == 0xFF13 || x == 0xFF15 || x == 0xFF18 || x == 0xFF1D || x == 0xFF1F
  }

  /** The LCD control and scroll bytes after `reset_memory`. */
  predicate LcdPowerOn(r: Mem)
  {
    Load(r, LCDC) == 0x91 && Load(r, SCY) == 0x00 && Load(r, SCX) == 0x00 && Load(r, LYC) == 0x00
  }

  /** The palette, window and interrupt enable bytes after `reset_memory`. */
  predicate PalettesPowerOn(r: Mem)
  {
    Load(r, BGP) == 0xFC && Load(r, OBP0) == 0xFF && Load(r, OBP1) == 0xFF
    && Load(r, WY) == 0x00 && Load(r, WX) == 0x00 && Load(r, IE) == 0x00
  }

  /** The 33 addresses `reset_memory` writes. */
  predicate ResetAddress(x: word)
  {
    (0xFF00 <= x <= 0xFF07 && x != 0xFF01 && x != 0xFF02 && x != 0xFF03)
    || (0xFF10 <= x <= 0xFF26 && !SoundGap(x))
    || x == LCDC || x == SCY || x == SCX || x == LYC
    || (0xFF47 <= x <= 0xFF4B) || x == IE
  }

  /** `reset_memory`, all sound registers: each gets its power-on byte, and NR13, NR23 and the gaps keep theirs. */
  function ResetSound(m: Mem): (r: Mem)
    ensures Load(r, 0xFF10) == 0x80 && Load(r, 0xFF26) == 0xF1
    ensures forall x: word :: !(0xFF10 <= x <= 0xFF26) ==> Load(r, x) == Load(m, x)
  {
    ResetSoundControl(ResetNoise(ResetWave(ResetSquare2(ResetSquare1(m)))))
  }

  /** The sound part of `reset_memory` sets all 19 registers it writes and keeps NR13, NR23 and the unused bytes. */
  lemma ResetSoundValues(m: Mem)
    ensures SoundPowerOn(ResetSound(m))
    ensures forall x: word :: SoundGap(x) ==> Load(ResetSound(m), x) == Load(m, x)
  {
    ResetSoundSets(m);
    ResetSoundGaps(m);
  }

  lemma ResetSoundGaps(m: Mem)
    ensures forall x: word :: SoundGap(x) ==> Load(ResetSound(m), x) == Load(m, x)
  {
  }

  lemma ResetSoundSets(m: Mem)
    ensures SoundPowerOn(ResetSound(m))
  {
    var s1 := ResetSquare1(m);
    var s2 := ResetSquare2(s1);
    var s3 := ResetWave(s2);
    var s4 := ResetNoise(s3);
    assert Load(s4, 0xFF10) == 0x80 && Load(s4, 0xFF11) == 0xBF && Load(s4, 0xFF12) == 0xF3 && Load(s4, 0xFF14) == 0xBF;
    assert Load(s4, 0xFF16) == 0x3F && Load(s4, 0xFF17) == 0x00 && Load(s4, 0xFF19) == 0xBF;
    assert Load(s4, 0xFF1A) == 0x7F && Load(s4, 0xFF1B) == 0xFF && Load(s4, 0xFF1C) == 0x9F && Load(s4, 0xFF1E) == 0xBF;
  }

  /** `reset_memory`, LCD control and scroll registers. */
  function ResetLcd(m: Mem): (r: Mem)
    ensures Load(r, LCDC) == 0x91 && Load(r, SCY) == 0x00 && Load(r, SCX) == 0x00 && Load(r, LYC) == 0x00
    ensures forall x: word :: !(0xFF40 <= x <= 0xFF45 && x != 0xFF41 && x != 0xFF44) ==> Load(r, x) == Load(m, x)
  {
    Store(Store(Store(Store(m, LCDC, 0x91), SCY, 0x00), SCX, 0x00), LYC, 0x00)
  }

  /** `reset_memory`, palettes, window position and the interrupt enable register. */
  function ResetPalettes(m: Mem): (r: Mem)
    ensures Load(r, BGP) == 0xFC && Load(r, OBP0) == 0xFF && Load(r, OBP1) == 0xFF
    ensures Load(r, WY) == 0x00 && Load(r, WX) == 0x00 && Load(r, IE) == 0x00
    ensures forall x: word :: !(0xFF47 <= x <= 0xFF4B) && x != IE ==> Load(r, x) == Load(m, x)
  {
    var m1 := Store(Store(Store(m, BGP, 0xFC), OBP0, 0xFF), OBP1, 0xFF);
    Store(Store(Store(m1, WY, 0x00), WX, 0x00), IE, 0x00)
  }

  /**
    `reset_memory` on the address space: the post-boot I/O register values.
    Only the 33 registers it writes change; IF and everything outside the I/O
    page keep their bytes.
   */
  function ResetMemory(m: Mem): (r: Mem)
    ensures forall x: word :: !ResetAddress(x) ==> Load(r, x) == Load(m, x)
    ensures Load(r, IF) == Load(m, IF)
  {
    ResetKeepsOthers(m);
    ResetPalettes(ResetLcd(ResetSound(ResetTimer(m))))
  }

  /** An address `reset_memory` does not write keeps its byte through each of its parts. */
  lemma ResetKeeps(m: Mem, x: word)
    requires !ResetAddress(x)
    ensures Load(ResetPalettes(ResetLcd(ResetSound(ResetTimer(m)))), x) == Load(m, x)
  {
    var timer := ResetTimer(m);
    var sound := ResetSound(timer);
    var lcd := ResetLcd(sound);
    ResetSoundValues(timer);
    assert Load(timer, x) == Load(m, x);
    assert Load(sound, x) == Load(timer, x);
    assert Load(lcd, x) == Load(sound, x);
  }

  lemma ResetKeepsOthers(m: Mem)
    ensures forall x: word :: !ResetAddress(x) ==>
      Load(ResetPalettes(ResetLcd(ResetSound(ResetTimer(m)))), x) == Load(m, x)
  {
    forall x: word | !ResetAddress(x)
      ensures Load(ResetPalettes(ResetLcd(ResetSound(ResetTimer(m)))), x) == Load(m, x)
    {
      ResetKeeps(m, x);
    }
  }

  /** `reset_memory` writes only I/O registers: ROM, RAM and everything else below 0xFF00 keep their bytes. */
  lemma ResetKeepsLowMemory(m: Mem)
    ensures forall x: word :: x < 0xFF00 ==> Load(ResetMemory(m), x) == Load(m, x)
  {
    forall x: word | x < 0xFF00
      ensures Load(ResetMemory(m), x) == Load(m, x)
    {
      assert !ResetAddress(x);
    }
  }

  /** `reset_memory` gives each of the 33 registers it writes its post-boot byte. */
  lemma ResetMemoryValues(m: Mem)
    ensures TimerPowerOn(ResetMemory(m)) && SoundPowerOn(ResetMemory(m))
    ensures LcdPowerOn(ResetMemory(m)) && PalettesPowerOn(ResetMemory(m))
  {
    var timer := ResetTimer(m);
    var sound := ResetSound(timer);
    var lcd := ResetLcd(sound);
    ResetSoundValues(timer);
    assert TimerPowerOn(sound);
    assert TimerPowerOn(lcd) && SoundPowerOn(lcd);
  }

  /** Every register, flag and byte zero: the state before the resets. */
  function Blank(): (r: State)
    ensures !r.ime && !r.halt && !r.eiDelay && !r.diDelay && r.cycles == 0
    ensures forall x: word :: Read(r, x) == 0
  {
    State(0, 0, 0, 0, 0, 0, 0, 0, 0, 0, Memory.New().bytes, false, false, false, false, 0, false, 0)
  }

  /** `reset_cpu` then `reset_memory`, applied to any state. */
  function PowerOn(s: State): (r: State)
    ensures AF(r) == 0x01B0 && BC(r) == 0x0013 && DE(r) == 0x00D8 && HL(r) == 0x014D
    ensures r.sp == 0xFFFE && r.pc == 0x0100
    ensures r.a == 0x01 && r.f == 0xB0 && r.b == 0x00 && r.c == 0x13 && r.d == 0x00 && r.e == 0xD8 && r.h == 0x01 && r.l == 0x4D
    ensures r.ime == s.ime && r.halt == s.halt && r.eiDelay == s.eiDelay && r.diDelay == s.diDelay && r.cycles == s.cycles
    ensures Read(r, LCDC) == 0x91 && Read(r, BGP) == 0xFC && Read(r, IE) == 0x00
    ensures Read(r, IF) == Read(s, IF)
  {
    var cpu := ResetCpu(s);
    ResetMemoryValues(cpu.mem);
    cpu.(mem := ResetMemory(cpu.mem))
  }

  /** `State::new`: zeroed machine, then the register and I/O resets. */
  function New(): (r: State)
    ensures AF(r) == 0x01B0 && BC(r) == 0x0013 && DE(r) == 0x00D8 && HL(r) == 0x014D
    ensures r.sp == 0xFFFE && r.pc == 0x0100
    ensures r.a == 0x01 && r.f == 0xB0 && r.b == 0x00 && r.c == 0x13 && r.d == 0x00 && r.e == 0xD8 && r.h == 0x01 && r.l == 0x4D
    ensures !r.ime && !r.halt && !r.eiDelay && !r.diDelay && r.cycles == 0
    ensures Read(r, LCDC) == 0x91 && Read(r, BGP) == 0xFC && Read(r, IE) == 0x00 && Read(r, IF) == 0x00
  {
    PowerOn(Blank())
  }
}
