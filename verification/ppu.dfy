/**
  The picture processing unit's timing state machine and its pixel helpers.

  A frame is 154 lines of 456 dots. On lines 0..143 a line spends dots
  0..79 in OAM search, 80..251 in pixel transfer and 252..455 in H-blank;
  lines 144..153 are V-blank. STAT bits 1..0 report the mode, bit 2 the
  LY = LYC coincidence, and bits 6..3 enable the STAT interrupt sources.

  LY and the dot counter are naturals here; under `Valid` they stay below
  154 and 456, so the emulator's `u8`/`u16` counters never overflow.
 */
module Ppu {
  import opened Bits

  datatype Mode = HBlank | VBlank | OamSearch | PixelTransfer

  /** The STAT encoding of a mode (`mode as u8`). */
  function ModeBits(mode: Mode): (r: byte)
    ensures r <= 3
  {
    match mode
    case HBlank => 0
    case VBlank => 1
    case OamSearch => 2
    case PixelTransfer => 3
  }

  /** Scroll, window and palette registers, which the timing logic never touches. */
  datatype ViewRegisters = ViewRegisters(scy: byte, scx: byte, bgp: byte, obp0: byte, obp1: byte, wy: byte, wx: byte)

  /** Where the PPU is in the frame: LY, the dot within the line, and the mode. */
  datatype Clock = Clock(ly: nat, dots: nat, mode: Mode)

  /**
    STAT, kept as its parts: the interrupt-enable bits (only bits 6..3 of
    `enables` are ever set) and the coincidence bit; bits 1..0 are the clock's
    mode and bit 7 is never stored. LYC is held as the number written.
   */
  datatype StatRegister = StatRegister(enables: byte, coincidence: bool, lyc: nat)

  /** The flags the PPU raises for the rest of the system. */
  datatype Signals = Signals(vblankInterrupt: bool, statInterrupt: bool, shouldScanOam: bool, shouldRenderScanline: bool)

  datatype Ppu = Ppu(clock: Clock, lcdc: byte, stat: StatRegister, signals: Signals, view: ViewRegisters)

  const DotsPerLine: nat := 456
  const LinesPerFrame: nat := 154
  const DotsPerFrame: nat := 456 * 154

  /** The STAT byte as stored. */
  function Stat(p: Ppu): (r: byte)
    ensures r & 0x03 == ModeBits(p.clock.mode)
    ensures (r & 0x04 != 0) == p.stat.coincidence
    ensures r & 0x78 == p.stat.enables & 0x78 && r & 0x80 == 0
  {
    (p.stat.enables & 0x78) | (if p.stat.coincidence then 0x04 else 0x00) | ModeBits(p.clock.mode)
  }

  /** `Ppu::new`: line 0 in H-blank at dot 252, LCD on, STAT zero apart from the mode. */
  function New(): (p: Ppu)
    ensures p.clock == Clock(0, 252, HBlank) && p.lcdc == 0x91 && Stat(p) == 0x00
    ensures p.view.bgp == 0xFC && p.view.obp0 == 0xFF && p.view.obp1 == 0xFF
    ensures !p.signals.vblankInterrupt && !p.signals.statInterrupt
  {
    Ppu(Clock(0, 252, HBlank), 0x91, StatRegister(0, false, 0), Signals(false, false, false, false),
        ViewRegisters(0, 0, 0xFC, 0xFF, 0xFF, 0, 0))
  }

  predicate LcdEnabled(p: Ppu)
  {
    p.lcdc & 0x80 != 0
  }

  /** The mode a line and dot belong to. */
  function ModeFor(ly: nat, dots: nat): Mode
  {
    if ly >= 144 then VBlank
    else if dots < 80 then OamSearch
    else if dots < 252 then PixelTransfer
    else HBlank
  }

  /** The timing invariant: a position inside the frame and the mode that position belongs to. */
  predicate Valid(p: Ppu)
  {
    var c := p.clock;
    c.ly < LinesPerFrame && c.dots < DotsPerLine && c.mode == ModeFor(c.ly, c.dots)
  }

  /** The invariant bounds the dot counter in each mode and puts V-blank exactly on lines 144..153. */
  lemma ValidModeBounds(p: Ppu)
    requires Valid(p)
    ensures p.clock.mode == OamSearch ==> p.clock.dots < 80
    ensures p.clock.mode == PixelTransfer ==> 80 <= p.clock.dots < 252
    ensures p.clock.mode == HBlank ==> 252 <= p.clock.dots < 456
    ensures p.clock.mode == VBlank ==> p.clock.dots < 456
    ensures p.clock.ly <= 153 && (p.clock.mode == VBlank <==> p.clock.ly >= 144)
  {
  }

  lemma NewValid()
    ensures Valid(New()) && LcdEnabled(New())
  {
  }

  // ----- STAT -----

  /** Whether the enable bits allow the interrupt for entering `mode`; pixel transfer has no source. */
  predicate ModeInterruptEnabled(enables: byte, mode: Mode)
  {
    match mode
    case HBlank => enables & 0x08 != 0
    case VBlank => enables & 0x10 != 0
    case OamSearch => enables & 0x20 != 0
    case PixelTransfer => false
  }

  /** `set_mode`: switch mode (and with it STAT bits 1..0), raising the STAT interrupt on an enabled change. */
  function SetMode(p: Ppu, mode: Mode): (r: Ppu)
    ensures r.clock.mode == mode && Stat(r) & 0x03 == ModeBits(mode)
    ensures r.signals.statInterrupt ==
      (p.signals.statInterrupt || (p.clock.mode != mode && ModeInterruptEnabled(p.stat.enables, mode)))
  {
    var raise := ModeInterruptEnabled(p.stat.enables, mode) && p.clock.mode != mode;
    p.(clock := p.clock.(mode := mode), signals := p.signals.(statInterrupt := p.signals.statInterrupt || raise))
  }

  /** `update_lyc_flag`: STAT bit 2 reports LY = LYC, raising the STAT interrupt if that source is enabled. */
  function UpdateLycFlag(p: Ppu): (r: Ppu)
    ensures (Stat(r) & 0x04 != 0) == (p.clock.ly == p.stat.lyc)
    ensures r.signals.statInterrupt ==
      (p.signals.statInterrupt || (p.clock.ly == p.stat.lyc && p.stat.enables & 0x40 != 0))
  {
    var equal := p.clock.ly == p.stat.lyc;
    p.(stat := p.stat.(coincidence := equal),
       signals := p.signals.(statInterrupt := p.signals.statInterrupt || (equal && p.stat.enables & 0x40 != 0)))
  }

  /** `read_stat`: the stored byte with bit 7 forced to 1. */
  function ReadStat(p: Ppu): (r: byte)
    ensures r & 0x80 == 0x80
    ensures r & 0x03 == ModeBits(p.clock.mode)
    ensures (r & 0x04 != 0) == p.stat.coincidence && r & 0x78 == p.stat.enables & 0x78
  {
    Stat(p) | 0x80
  }

  /** `write_stat`: only the four interrupt-enable bits 6..3 are writable. */
  function WriteStat(p: Ppu, v: byte): (r: Ppu)
    ensures Stat(r) & 0x07 == Stat(p) & 0x07 && Stat(r) & 0x78 == v & 0x78
    ensures r.clock == p.clock && r.signals == p.signals
  {
    p.(stat := p.stat.(enables := v & 0x78))
  }

  /** `write_lyc`: store LYC and recompute the coincidence flag. */
  function WriteLyc(p: Ppu, v: byte): (r: Ppu)
    ensures r.stat.lyc == v as int
    ensures (Stat(r) & 0x04 != 0) == (p.clock.ly == v as int)
    ensures Stat(r) & 0x7B == Stat(p) & 0x7B
    ensures r.signals.statInterrupt ==
      (p.signals.statInterrupt || (p.clock.ly == v as int && p.stat.enables & 0x40 != 0))
  {
    UpdateLycFlag(p.(stat := p.stat.(lyc := v as int)))
  }

  /** `write_lcdc`: turning the LCD off resets the position to line 0, dot 0, OAM search. */
  function WriteLcdc(p: Ppu, v: byte): (r: Ppu)
    ensures r.lcdc == v
    ensures LcdEnabled(p) && v & 0x80 == 0 ==> r.clock == Clock(0, 0, OamSearch) && Stat(r) & 0x03 == ModeBits(OamSearch)
    ensures !(LcdEnabled(p) && v & 0x80 == 0) ==> r == p.(lcdc := v)
  {
    if LcdEnabled(p) && v & 0x80 == 0 then p.(lcdc := v, clock := Clock(0, 0, OamSearch))
    else p.(lcdc := v)
  }

  /** `write_lcdc`, `write_stat` and `write_lyc` keep the timing invariant. */
  lemma WritesKeepValid(p: Ppu, v: byte)
    requires Valid(p)
    ensures Valid(WriteLcdc(p, v)) && Valid(WriteStat(p, v)) && Valid(WriteLyc(p, v))
  {
  }

  // ----- the dot clock -----

  /** The clock one dot later, with no transition. */
  function NextDot(p: Ppu): Ppu
  {
    p.(clock := p.clock.(dots := p.clock.dots + 1))
  }

  /** A dot of OAM search: pixel transfer begins at dot 80. */
  function OamDot(p: Ppu): Ppu
  {
    if p.clock.dots + 1 == 80 then SetMode(NextDot(p), PixelTransfer) else NextDot(p)
  }

  /** A dot of pixel transfer: the line is ready to render and H-blank begins at dot 252. */
  function TransferDot(p: Ppu): Ppu
  {
    if p.clock.dots + 1 == 252 then
      SetMode(NextDot(p).(signals := p.signals.(shouldRenderScanline := true)), HBlank)
    else NextDot(p)
  }

  function RaiseVBlank(p: Ppu): Ppu
  {
    p.(signals := p.signals.(vblankInterrupt := true))
  }

  /** A dot of H-blank: at dot 456 the next line starts, in V-blank (raising its interrupt) if it is line 144. */
  function HBlankDot(p: Ppu): Ppu
  {
    if p.clock.dots + 1 < 456 then NextDot(p)
    else if p.clock.ly + 1 == 144 then
      UpdateLycFlag(RaiseVBlank(SetMode(p.(clock := Clock(144, 0, p.clock.mode)), VBlank)))
    else
      UpdateLycFlag(SetMode(p.(clock := Clock(p.clock.ly + 1, 0, p.clock.mode),
                               signals := p.signals.(shouldScanOam := true)), OamSearch))
  }

  /** A dot of V-blank: at dot 456 the next line starts, and after line 153 the frame restarts at line 0. */
  function VBlankDot(p: Ppu): Ppu
  {
    if p.clock.dots + 1 < 456 then NextDot(p)
    else if p.clock.ly + 1 == 154 then
      UpdateLycFlag(SetMode(p.(clock := Clock(0, 0, p.clock.mode), signals := p.signals.(shouldScanOam := true)), OamSearch))
    else
      UpdateLycFlag(p.(clock := Clock(p.clock.ly + 1, 0, p.clock.mode)))
  }

  /** One iteration of `step`'s loop: advance one dot and take the transition due at it. */
  function Tick(p: Ppu): Ppu
  {
    match p.clock.mode
    case OamSearch => OamDot(p)
    case PixelTransfer => TransferDot(p)
    case HBlank => HBlankDot(p)
    case VBlank => VBlankDot(p)
  }

  /** `n` iterations of the loop. */
  function Run(p: Ppu, n: nat): Ppu
    decreases n
  {
    if n == 0 then p else Run(Tick(p), n - 1)
  }

  /** `Ppu::step`: advance `n` dots, or nothing at all while the LCD is off. */
  function Step(p: Ppu, n: nat): (r: Ppu)
    ensures !LcdEnabled(p) ==> r == p
    ensures LcdEnabled(p) ==> r == Run(p, n)
  {
    if !LcdEnabled(p) then p else Run(p, n)
  }

  /** The position of a valid state within its frame. */
  function Position(p: Ppu): nat
  {
    p.clock.ly * DotsPerLine + p.clock.dots
  }

  /** Positions inside a frame: one more position wraps to 0 only at the very end. */
  lemma NextPosition(pos: nat)
    requires pos < DotsPerFrame
    ensures (pos + 1) % DotsPerFrame == if pos + 1 == DotsPerFrame then 0 else pos + 1
  {
  }

  /** A position inside a frame names exactly one line and dot. */
  lemma SamePosition(l1: nat, d1: nat, l2: nat, d2: nat)
    requires d1 < DotsPerLine && d2 < DotsPerLine
    requires l1 * DotsPerLine + d1 == l2 * DotsPerLine + d2
    ensures l1 == l2 && d1 == d2
  {
  }

  lemma OamDotValid(p: Ppu)
    requires Valid(p) && p.clock.mode == OamSearch
    ensures Valid(OamDot(p)) && Position(OamDot(p)) == Position(p) + 1
  {
  }

  lemma TransferDotValid(p: Ppu)
    requires Valid(p) && p.clock.mode == PixelTransfer
    ensures Valid(TransferDot(p)) && Position(TransferDot(p)) == Position(p) + 1
  {
  }

  lemma HBlankDotValid(p: Ppu)
    requires Valid(p) && p.clock.mode == HBlank
    ensures Valid(HBlankDot(p)) && Position(HBlankDot(p)) == Position(p) + 1
  {
  }

  lemma VBlankDotValid(p: Ppu)
    requires Valid(p) && p.clock.mode == VBlank
    ensures Valid(VBlankDot(p))
    ensures Position(VBlankDot(p)) == if Position(p) + 1 == DotsPerFrame then 0 else Position(p) + 1
  {
  }

  /** One dot keeps the invariant and moves one position forward, wrapping at the end of the frame. */
  lemma TickValid(p: Ppu)
    requires Valid(p)
    ensures Valid(Tick(p))
    ensures Position(Tick(p)) == (Position(p) + 1) % DotsPerFrame
  {
    NextPosition(Position(p));
    match p.clock.mode
    case OamSearch => OamDotValid(p);
    case PixelTransfer => TransferDotValid(p);
    case HBlank => HBlankDotValid(p);
    case VBlank => VBlankDotValid(p);
  }

  /** One dot changes neither LCDC, LYC, the view registers nor the STAT enable bits. */
  lemma TickKeepsRegisters(p: Ppu)
    ensures Tick(p).lcdc == p.lcdc && Tick(p).stat.lyc == p.stat.lyc && Tick(p).view == p.view
    ensures Tick(p).stat.enables == p.stat.enables
  {
  }

  /** What one dot does to the coincidence bit and the interrupt flags. */
  predicate TickFlags(p: Ppu, r: Ppu)
  {
    (r.clock.ly != p.clock.ly ==> (r.stat.coincidence <==> r.clock.ly == p.stat.lyc))
    && (r.clock.ly == p.clock.ly ==> r.stat.coincidence == p.stat.coincidence)
    && r.signals.vblankInterrupt == (p.signals.vblankInterrupt || (r.clock.ly != p.clock.ly && r.clock.ly == 144))
    && r.signals.statInterrupt ==
      (p.signals.statInterrupt
       || (r.clock.mode != p.clock.mode && ModeInterruptEnabled(p.stat.enables, r.clock.mode))
       || (r.clock.ly != p.clock.ly && r.clock.ly == p.stat.lyc && p.stat.enables & 0x40 != 0))
  }

  lemma OamDotFlags(p: Ppu)
    requires Valid(p) && p.clock.mode == OamSearch
    ensures TickFlags(p, OamDot(p))
  {
  }

  lemma TransferDotFlags(p: Ppu)
    requires Valid(p) && p.clock.mode == PixelTransfer
    ensures TickFlags(p, TransferDot(p))
  {
  }

  lemma HBlankDotFlags(p: Ppu)
    requires Valid(p) && p.clock.mode == HBlank
    ensures TickFlags(p, HBlankDot(p))
  {
  }

  lemma VBlankDotFlags(p: Ppu)
    requires Valid(p) && p.clock.mode == VBlank
    ensures TickFlags(p, VBlankDot(p))
  {
  }

  /**
    The flags of one dot: a line change recomputes the coincidence bit, the
    V-blank interrupt is raised exactly on entering line 144, and the STAT
    interrupt is raised exactly on an enabled mode change or on reaching an
    LYC line with that source enabled. The PPU never lowers either flag.
   */
  lemma TickInterrupts(p: Ppu)
    requires Valid(p)
    ensures Tick(p).clock.ly != p.clock.ly ==> (Tick(p).stat.coincidence <==> Tick(p).clock.ly == p.stat.lyc)
    ensures Tick(p).clock.ly == p.clock.ly ==> Tick(p).stat.coincidence == p.stat.coincidence
    ensures Tick(p).signals.vblankInterrupt ==
      (p.signals.vblankInterrupt || (Tick(p).clock.ly != p.clock.ly && Tick(p).clock.ly == 144))
    ensures Tick(p).signals.statInterrupt ==
      (p.signals.statInterrupt
       || (Tick(p).clock.mode != p.clock.mode && ModeInterruptEnabled(p.stat.enables, Tick(p).clock.mode))
       || (Tick(p).clock.ly != p.clock.ly && Tick(p).clock.ly == p.stat.lyc && p.stat.enables & 0x40 != 0))
  {
    match p.clock.mode
    case OamSearch => OamDotFlags(p);
    case PixelTransfer => TransferDotFlags(p);
    case HBlank => HBlankDotFlags(p);
    case VBlank => VBlankDotFlags(p);
  }

  lemma ModShift(a: nat, b: nat)
    ensures ((a % DotsPerFrame) + b) % DotsPerFrame == (a + b) % DotsPerFrame
    ensures a < DotsPerFrame ==> a % DotsPerFrame == a
  {
  }

  /** Any number of dots keeps the invariant and advances the position by that many, modulo a frame. */
  lemma {:induction false} RunValid(p: Ppu, n: nat)
    requires Valid(p)
    ensures Valid(Run(p, n))
    ensures Position(Run(p, n)) == (Position(p) + n) % DotsPerFrame
    decreases n
  {
    if n == 0 {
      ModShift(Position(p), 0);
    } else {
      var q := Tick(p);
      TickValid(p);
      RunValid(q, n - 1);
      assert Run(p, n) == Run(q, n - 1);
      ModShift(Position(p) + 1, n - 1);
    }
  }

  /** Running the clock never touches LCDC, so `step`'s single LCD check holds for the whole call. */
  lemma {:induction false} RunKeepsLcdc(p: Ppu, n: nat)
    ensures Run(p, n).lcdc == p.lcdc
    decreases n
  {
    if n > 0 {
      TickKeepsRegisters(p);
      RunKeepsLcdc(Tick(p), n - 1);
    }
  }

  /** `step` keeps the timing invariant. */
  lemma StepValid(p: Ppu, n: nat)
    requires Valid(p)
    ensures Valid(Step(p, n))
  {
    if LcdEnabled(p) {
      RunValid(p, n);
    }
  }

  lemma LineArithmetic(ly: nat, d: nat)
    requires ly < LinesPerFrame && d < DotsPerLine
    ensures (ly * DotsPerLine + d + DotsPerLine) % DotsPerFrame == ((ly + 1) % LinesPerFrame) * DotsPerLine + d
  {
  }

  lemma FrameArithmetic(pos: nat)
    requires pos < DotsPerFrame
    ensures (pos + DotsPerFrame) % DotsPerFrame == pos
  {
  }

  /** Stepping one line's worth of dots advances LY by one, wrapping after line 153, at the same dot. */
  lemma StepLine(p: Ppu)
    requires Valid(p) && LcdEnabled(p)
    ensures Step(p, DotsPerLine).clock.ly == (p.clock.ly + 1) % LinesPerFrame
    ensures Step(p, DotsPerLine).clock.dots == p.clock.dots
  {
    var r := Step(p, DotsPerLine);
    RunValid(p, DotsPerLine);
    LineArithmetic(p.clock.ly, p.clock.dots);
    SamePosition(r.clock.ly, r.clock.dots, (p.clock.ly + 1) % LinesPerFrame, p.clock.dots);
  }

  /** Stepping a whole frame returns to the same line, dot and mode. */
  lemma StepFrame(p: Ppu)
    requires Valid(p) && LcdEnabled(p)
    ensures Step(p, DotsPerFrame).clock == p.clock
  {
    var r := Step(p, DotsPerFrame);
    RunValid(p, DotsPerFrame);
    FrameArithmetic(Position(p));
    SamePosition(r.clock.ly, r.clock.dots, p.clock.ly, p.clock.dots);
  }

  /** The clock of the valid state at a position of the frame. */
  function ClockAt(pos: nat): (c: Clock)
    requires pos < DotsPerFrame
    ensures c.ly < LinesPerFrame && c.dots < DotsPerLine && c.ly * DotsPerLine + c.dots == pos
    ensures c.mode == ModeFor(c.ly, c.dots)
  {
    Clock(pos / DotsPerLine, pos % DotsPerLine, ModeFor(pos / DotsPerLine, pos % DotsPerLine))
  }

  /** Where `n` dots of `step` leave a running PPU: the clock is a function of the old position plus `n` alone. */
  lemma StepClock(p: Ppu, n: nat)
    requires Valid(p) && LcdEnabled(p)
    ensures Step(p, n).clock == ClockAt((Position(p) + n) % DotsPerFrame)
  {
    var r := Step(p, n);
    var c := ClockAt((Position(p) + n) % DotsPerFrame);
    RunValid(p, n);
    SamePosition(r.clock.ly, r.clock.dots, c.ly, c.dots);
  }

  /** Running `a` dots and then `b` more is running `a + b` dots. */
  lemma {:induction false} RunSplit(p: Ppu, a: nat, b: nat)
    ensures Run(Run(p, a), b) == Run(p, a + b)
    decreases a
  {
    if a > 0 {
      RunSplit(Tick(p), a - 1, b);
      assert Run(p, a + b) == Run(Tick(p), a - 1 + b);
    }
  }

  /** Two calls of `step` add up, because stepping never turns the LCD off. */
  lemma StepTwice(p: Ppu, a: nat, b: nat)
    ensures Step(Step(p, a), b) == Step(p, a + b)
  {
    if LcdEnabled(p) {
      RunKeepsLcdc(p, a);
      RunSplit(p, a, b);
    }
  }

  /** The PPU only raises the interrupt flags; clearing them is the interrupt handler's job. */
  lemma {:induction false} RunKeepsFlags(p: Ppu, n: nat)
    requires Valid(p)
    ensures p.signals.vblankInterrupt ==> Run(p, n).signals.vblankInterrupt
    ensures p.signals.statInterrupt ==> Run(p, n).signals.statInterrupt
    decreases n
  {
    if n > 0 {
      TickValid(p);
      TickInterrupts(p);
      RunKeepsFlags(Tick(p), n - 1);
    }
  }

  /** STAT bit 2 agrees with the comparison of LY and LYC. */
  predicate LycAgrees(p: Ppu)
  {
    p.stat.coincidence <==> p.clock.ly == p.stat.lyc
  }

  /** Writing LYC makes the coincidence bit agree, and the dot clock keeps it agreeing. */
  lemma {:induction false} RunKeepsLycAgrees(p: Ppu, n: nat)
    requires Valid(p) && LycAgrees(p)
    ensures LycAgrees(Run(p, n))
    decreases n
  {
    if n > 0 {
      TickValid(p);
      TickInterrupts(p);
      TickKeepsRegisters(p);
      RunKeepsLycAgrees(Tick(p), n - 1);
    }
  }

  lemma WriteLycAgrees(p: Ppu, v: byte)
    ensures LycAgrees(WriteLyc(p, v))
  {
  }

  /** The state `Ppu::new` leaves the dot clock in: a running LCD in H-blank at dot 252 of line 0. */
  predicate AtStart(p: Ppu)
  {
    LcdEnabled(p) && p.clock == Clock(0, 252, HBlank)
  }

  /** Before the end of the frame, `n` dots from the start reach position 252 + n. */
  lemma StartStep(p: Ppu, n: nat)
    requires AtStart(p) && 252 + n < DotsPerFrame
    ensures Step(p, n).clock == ClockAt(252 + n)
  {
    StepClock(p, n);
  }

  lemma NewAtStart()
    ensures AtStart(New())
  {
  }

  /**
    A line from the start: 204 dots reach OAM search on line 1, 80 more pixel
    transfer, 172 more H-blank, and a partial line leaves LY alone.
   */
  lemma StartLineModes(p: Ppu)
    requires AtStart(p)
    ensures Step(p, 100).clock.ly == 0
    ensures Step(p, 204).clock == Clock(1, 0, OamSearch)
    ensures Step(p, 204 + 80).clock == Clock(1, 80, PixelTransfer)
    ensures Step(p, 204 + 80 + 172).clock == Clock(1, 252, HBlank)
    ensures Step(p, 456 + 204).clock == Clock(2, 0, OamSearch)
  {
    StartStep(p, 100);
    StartStep(p, 204);
    StartStep(p, 204 + 80);
    StartStep(p, 204 + 80 + 172);
    StartStep(p, 456 + 204);
  }

  /** From the start, V-blank begins exactly at line 144, lasts through line 153, and a frame wraps to the start. */
  lemma StartFrameLines(p: Ppu)
    requires AtStart(p)
    ensures Step(p, 456 * 143).clock == Clock(143, 252, HBlank)
    ensures Step(p, 456 * 144).clock == Clock(144, 252, VBlank)
    ensures Step(p, 456 * 153).clock == Clock(153, 252, VBlank)
    ensures Step(p, DotsPerFrame).clock == p.clock
  {
    StartStep(p, 456 * 143);
    StartStep(p, 456 * 144);
    StartStep(p, 456 * 153);
    StepFrame(p);
  }

  /** The last dot of line 143 enters V-blank and raises its interrupt. */
  lemma VBlankEntry(q: Ppu)
    requires q.clock == Clock(143, 455, HBlank)
    ensures Valid(Tick(q)) && Tick(q).clock == Clock(144, 0, VBlank) && Tick(q).signals.vblankInterrupt
  {
  }

  /** After 456 * 144 dots from the start the V-blank interrupt has been raised. */
  lemma StartVBlankInterrupt(p: Ppu)
    requires AtStart(p)
    ensures Step(p, 456 * 144).clock.mode == VBlank
    ensures Step(p, 456 * 144).signals.vblankInterrupt
  {
    StartStep(p, 456 * 144);
    var q := Run(p, 65411);
    StartStep(p, 65411);
    VBlankEntry(q);
    RunKeepsFlags(Tick(q), 252);
    RunSplit(p, 65411, 1);
    assert Run(q, 1) == Tick(q);
    RunSplit(p, 65412, 252);
  }

  /** From the start, once LYC is set to 5, five lines later the coincidence bit is set. */
  lemma StartLycMatch(p: Ppu)
    requires AtStart(p)
    ensures ReadStat(Step(WriteLyc(p, 5), 456 * 5)) & 0x04 == 0x04
  {
    var q := WriteLyc(p, 5);
    assert Valid(q) && AtStart(q);
    WriteLycAgrees(p, 5);
    RunKeepsLycAgrees(q, 456 * 5);
    RunKeepsRegisters(q, 456 * 5);
    StartStep(q, 456 * 5);
  }

  /** Running the clock keeps LYC. */
  lemma {:induction false} RunKeepsRegisters(p: Ppu, n: nat)
    ensures Run(p, n).stat.lyc == p.stat.lyc && Run(p, n).view == p.view
    decreases n
  {
    if n > 0 {
      TickKeepsRegisters(p);
      RunKeepsRegisters(Tick(p), n - 1);
    }
  }
}
