/**
  The memory management unit: the Game Boy address map over 0x0000..0xFFFF
  and the MBC1, MBC3 and MBC5 bank controllers behind the ROM area.

  Bank numbers are unbounded naturals, as the emulator's `usize` fields are
  never near overflow. The emulator's bit operations on them act on disjoint
  bit ranges and are written here as the arithmetic they amount to: `b & 0x1F`
  is `b % 32`, `(b >> 8) & 1` is `(b / 256) % 2`, and OR-ing a value below
  `2^k` with `u << k` is `value + u * 2^k`.
 */
module Mmu {
  import opened Bits
  import Cartridge

  type Ram8K = s: seq<byte> | |s| == 0x2000 witness Zeros(0x2000)
  type OamBytes = s: seq<byte> | |s| == 0xA0 witness Zeros(0xA0)
  type IoBytes = s: seq<byte> | |s| == 0x80 witness Zeros(0x80)
  type HramBytes = s: seq<byte> | |s| == 0x7F witness Zeros(0x7F)

  datatype Mmu = Mmu(
    cartridge: Cartridge.Cartridge,
    romBank: nat,
    ramBank: nat,
    ramEnabled: bool,
    externalRam: seq<byte>,
    vram: Ram8K,
    wram: Ram8K,
    hram: HramBytes,
    oam: OamBytes,
    io: IoBytes,
    mbc1Mode: byte,
    mbc1UpperBits: byte)

  /** The only way an MMU write can fail: reducing a bank number modulo zero banks. */
  datatype MmuFault = NoRomBanks

  /** `Mmu::new`: bank 1 switched in, RAM disabled, all RAM zero, external RAM sized from the header. */
  function New(cart: Cartridge.Cartridge): (m: Mmu)
    ensures m.romBank == 1 && m.ramBank == 0 && !m.ramEnabled
    ensures |m.externalRam| == cart.header.ramSize
    ensures m.mbc1Mode == 0 && m.mbc1UpperBits == 0 && m.cartridge == cart
    ensures forall i :: 0 <= i < 0x2000 ==> m.vram[i] == 0 && m.wram[i] == 0
  {
    Mmu(cart, 1, 0, false, Zeros(cart.header.ramSize),
        Zeros(0x2000), Zeros(0x2000), Zeros(0x7F), Zeros(0xA0), Zeros(0x80), 0, 0)
  }

  /** Number of 16 KiB banks in the image (`rom.len() / 0x4000`). */
  function Banks(m: Mmu): nat
  {
    |m.cartridge.rom| / 0x4000
  }

  // ----- address decoding -----

  /** A 16-bit bus address, as the natural number it denotes. */
  type Address = a: int | 0 <= a < 0x10000

  /** The storage an address reaches. */
  datatype Location =
    | RomFixed
    | RomSwitchable
    | VramAt(i: nat)
    | ExternalRam
    | WramAt(i: nat)
    | OamAt(i: nat)
    | Prohibited
    | IoAt(i: nat)
    | HramAt(i: nat)

  /**
    The memory map: ROM bank 0, switchable ROM, VRAM, external RAM, WRAM and
    its echo at 0xE000..0xFDFF, OAM, the prohibited range, I/O, HRAM, and the
    interrupt enable register at 0xFFFF stored in the last I/O byte.
   */
  function Decode(addr: Address): (loc: Location)
    ensures loc.VramAt? || loc.WramAt? ==> loc.i < 0x2000
    ensures loc.OamAt? ==> loc.i < 0xA0
    ensures loc.IoAt? ==> loc.i < 0x80
    ensures loc.HramAt? ==> loc.i < 0x7F
  {
    if addr <= 0x3FFF then RomFixed
    else if addr <= 0x7FFF then RomSwitchable
    else if addr <= 0x9FFF then VramAt(addr - 0x8000)
    else if addr <= 0xBFFF then ExternalRam
    else if addr <= 0xDFFF then WramAt(addr - 0xC000)
    else if addr <= 0xFDFF then WramAt(addr - 0xE000)
    else if addr <= 0xFE9F then OamAt(addr - 0xFE00)
    else if addr <= 0xFEFF then Prohibited
    else if addr <= 0xFF7F then IoAt(addr - 0xFF00)
    else if addr <= 0xFFFE then HramAt(addr - 0xFF80)
    else IoAt(0x7F)
  }

  /** Locations backed by the MMU's own RAM arrays. */
  predicate IsInternalRam(loc: Location)
  {
    loc.VramAt? || loc.WramAt? || loc.OamAt? || loc.IoAt? || loc.HramAt?
  }

  /** The byte stored at an internal RAM location that `Decode` can produce. */
  function Fetch(m: Mmu, loc: Location): byte
    requires IsInternalRam(loc)
    requires loc.VramAt? || loc.WramAt? ==> loc.i < 0x2000
    requires loc.OamAt? ==> loc.i < 0xA0
    requires loc.IoAt? ==> loc.i < 0x80
    requires loc.HramAt? ==> loc.i < 0x7F
  {
    match loc
    case VramAt(i) => m.vram[i]
    case WramAt(i) => m.wram[i]
    case OamAt(i) => m.oam[i]
    case IoAt(i) => m.io[i]
    case HramAt(i) => m.hram[i]
  }

  // ----- reads -----

  /** Offset into the image of a switchable-ROM address. */
  function RomOffset(m: Mmu, addr: Address): nat
    requires 0x4000 <= addr <= 0x7FFF
  {
    m.romBank * 0x4000 + (addr - 0x4000)
  }

  /** Offset into external RAM of a cartridge-RAM address. */
  function RamOffset(m: Mmu, addr: Address): nat
    requires 0xA000 <= addr <= 0xBFFF
  {
    m.ramBank * 0x2000 + (addr - 0xA000)
  }

  /** External RAM answers only while enabled and present. */
  predicate RamAccessible(m: Mmu)
  {
    m.ramEnabled && |m.externalRam| > 0
  }

  /** `Mmu::read`. */
  function Read(m: Mmu, addr: Address): (r: byte)
  {
    if addr <= 0x3FFF then Cartridge.Read(m.cartridge, addr)
    else if addr <= 0x7FFF then
      var offset := RomOffset(m, addr);
      if offset < |m.cartridge.rom| then m.cartridge.rom[offset] else 0xFF
    else if addr <= 0x9FFF then m.vram[addr - 0x8000]
    else if addr <= 0xBFFF then
      if RamAccessible(m) then
        var offset := RamOffset(m, addr);
        if offset < |m.externalRam| then m.externalRam[offset] else 0xFF
      else 0xFF
    else if addr <= 0xDFFF then m.wram[addr - 0xC000]
    else if addr <= 0xFDFF then m.wram[addr - 0xE000]
    else if addr <= 0xFE9F then m.oam[addr - 0xFE00]
    else if addr <= 0xFEFF then 0xFF
    else if addr <= 0xFF7F then m.io[addr - 0xFF00]
    else if addr <= 0xFFFE then m.hram[addr - 0xFF80]
    else m.io[0x7F]
  }

  // ----- writes -----

  /** `Mmu::write`. Only a bank-register write on an image with no whole bank can fail. */
  function Write(m: Mmu, addr: Address, v: byte): (r: Result<Mmu, MmuFault>)
    ensures addr > 0x7FFF ==> r.Ok?
    ensures r.Ok? ==> r.value.cartridge == m.cartridge
    ensures r.Ok? && addr > 0x7FFF ==> r.value.romBank == m.romBank && r.value.ramBank == m.ramBank
  {
    if addr <= 0x7FFF then MbcWrite(m, addr, v)
    else if addr <= 0x9FFF then Ok(m.(vram := m.vram[addr - 0x8000 := v]))
    else if addr <= 0xBFFF then
      if RamAccessible(m) then
        var offset := RamOffset(m, addr);
        if offset < |m.externalRam| then Ok(m.(externalRam := m.externalRam[offset := v])) else Ok(m)
      else Ok(m)
    else if addr <= 0xDFFF then Ok(m.(wram := m.wram[addr - 0xC000 := v]))
    else if addr <= 0xFDFF then Ok(m.(wram := m.wram[addr - 0xE000 := v]))
    else if addr <= 0xFE9F then Ok(m.(oam := m.oam[addr - 0xFE00 := v]))
    else if addr <= 0xFEFF then Ok(m)
    else if addr <= 0xFF7F then Ok(m.(io := m.io[addr - 0xFF00 := v]))
    else if addr <= 0xFFFE then Ok(m.(hram := m.hram[addr - 0xFF80 := v]))
    else Ok(m.(io := m.io[0x7F := v]))
  }

  /** `mbc_write`: route a ROM-area write to the cartridge's controller; ROM-only and unsupported types ignore it. */
  function MbcWrite(m: Mmu, addr: Address, v: byte): (r: Result<Mmu, MmuFault>)
    requires addr <= 0x7FFF
  {
    match m.cartridge.header.cartridgeType
    case RomOnly => Ok(m)
    case Mbc1 => Mbc1Write(m, addr, v)
    case Mbc1Ram => Mbc1Write(m, addr, v)
    case Mbc3 => Mbc3Write(m, addr, v)
    case Mbc3Ram => Mbc3Write(m, addr, v)
    case Mbc5 => Mbc5Write(m, addr, v)
    case Mbc5Ram => Mbc5Write(m, addr, v)
    case Unsupported(_) => Ok(m)
  }

  /** `bank % max_banks`, which panics on zero banks. */
  function ReduceBank(m: Mmu, bank: nat): (r: Result<nat, MmuFault>)
    ensures r.Ok? <==> Banks(m) > 0
    ensures r.Ok? ==> r.value < Banks(m) && r.value == bank % Banks(m)
  {
    if Banks(m) == 0 then Err(NoRomBanks) else Ok(bank % Banks(m))
  }

  /** The RAM-enable register shared by all three controllers. */
  function RamEnable(v: byte): bool
  {
    v & 0x0F == 0x0A
  }

  /** The MBC1 low bank register: bits 4..0 of `v`, with 0 read as 1 because bank 0 cannot be switched in. */
  function Mbc1Low(v: byte): (r: nat)
    ensures 1 <= r <= 31
    ensures v & 0x1F != 0 ==> r == (v & 0x1F) as int
    ensures v & 0x1F == 0 ==> r == 1
  {
    var low := (v & 0x1F) as int;
    if low == 0 then 1 else low
  }

  /** Bits 4..0 of a bank number joined with two upper bits, with 0 read as 1. */
  function Mbc1Joined(bank: nat, upper: byte): (r: nat)
    requires upper <= 0x03
    ensures r >= 1
    ensures r % 32 == (if bank % 32 == 0 && upper == 0 then 1 else bank % 32)
  {
    var joined := bank % 32 + (upper as int) * 32;
    if joined == 0 then 1 else joined
  }

  /** `mbc1_write`. */
  function Mbc1Write(m: Mmu, addr: Address, v: byte): (r: Result<Mmu, MmuFault>)
    requires addr <= 0x7FFF
    ensures 0x2000 <= addr <= 0x3FFF ==> (r.Ok? <==> Banks(m) > 0)
    ensures 0x2000 <= addr <= 0x3FFF && r.Ok? ==> r.value.romBank < Banks(m)
    ensures 0x2000 <= addr <= 0x3FFF && r.Ok? && m.mbc1Mode != 0 ==>
      r.value == m.(romBank := Mbc1Low(v) % Banks(m))
    ensures 0x2000 <= addr <= 0x3FFF && r.Ok? && m.mbc1Mode == 0 ==>
      r.value == m.(romBank := (Mbc1Low(v) + (m.mbc1UpperBits as int) * 32) % Banks(m))
    ensures 0x4000 <= addr <= 0x5FFF ==> (r.Ok? <==> (m.mbc1Mode != 0 || Banks(m) > 0))
    ensures 0x4000 <= addr <= 0x5FFF && r.Ok? ==> r.value.mbc1UpperBits == v & 0x03
    ensures 0x4000 <= addr <= 0x5FFF && r.Ok? && m.mbc1Mode == 0 ==> r.value.romBank < Banks(m)
    ensures 0x4000 <= addr <= 0x5FFF && r.Ok? && m.mbc1Mode == 0 ==>
      r.value == m.(mbc1UpperBits := v & 0x03, romBank := Mbc1Joined(m.romBank, v & 0x03) % Banks(m))
    ensures 0x4000 <= addr <= 0x5FFF && r.Ok? && m.mbc1Mode != 0 ==>
      r.value == m.(mbc1UpperBits := v & 0x03, ramBank := (v & 0x03) as int)
    ensures 0x6000 <= addr ==> r.Ok? && r.value.mbc1Mode == v & 0x01
    ensures 0x6000 <= addr && v & 0x01 == 0 ==> r == Ok(m.(mbc1Mode := 0, ramBank := 0))
    ensures 0x6000 <= addr && v & 0x01 != 0 ==> 1 <= r.value.romBank <= 31 && r.value.romBank <= m.romBank + 1
    ensures 0x6000 <= addr && v & 0x01 != 0 ==>
      r == Ok(m.(mbc1Mode := 1, romBank := if m.romBank % 32 == 0 then 1 else m.romBank % 32))
    ensures r.Ok? ==> r.value.cartridge == m.cartridge
  {
    if addr <= 0x1FFF then Ok(m.(ramEnabled := RamEnable(v)))
    else if addr <= 0x3FFF then
      var bank := if m.mbc1Mode == 0 then Mbc1Low(v) + (m.mbc1UpperBits as int) * 32 else Mbc1Low(v);
      match ReduceBank(m, bank)
      case Err(e) => Err(e)
      case Ok(b) => Ok(m.(romBank := b))
    else if addr <= 0x5FFF then
      var upper := v & 0x03;
      var m1 := m.(mbc1UpperBits := upper);
      if m.mbc1Mode == 0 then
        match ReduceBank(m, Mbc1Joined(m.romBank, upper))
        case Err(e) => Err(e)
        case Ok(b) => Ok(m1.(romBank := b))
      else Ok(m1.(ramBank := (upper & 0x03) as int))
    else
      var mode := v & 0x01;
      if mode == 0 then Ok(m.(mbc1Mode := mode, ramBank := 0))
      else
        var low := m.romBank % 32;
        Ok(m.(mbc1Mode := mode, romBank := if low == 0 then 1 else low))
  }

  /** `mbc3_write`; the real-time clock registers are not implemented and writes to them do nothing. */
  function Mbc3Write(m: Mmu, addr: Address, v: byte): (r: Result<Mmu, MmuFault>)
    requires addr <= 0x7FFF
    ensures 0x2000 <= addr <= 0x3FFF ==> (r.Ok? <==> Banks(m) > 0)
    ensures 0x2000 <= addr <= 0x3FFF && r.Ok? ==>
      r.value.romBank < Banks(m) && r.value.romBank == (if v & 0x7F == 0 then 1 else (v & 0x7F) as int) % Banks(m)
    ensures 0x4000 <= addr <= 0x5FFF ==> r.Ok? && r.value.ramBank == (if v <= 0x03 then (v & 0x03) as int else m.ramBank)
    ensures 0x4000 <= addr ==> r.Ok? && r.value.romBank == m.romBank
    ensures 0x6000 <= addr ==> r == Ok(m)
    ensures r.Ok? ==> r.value.cartridge == m.cartridge
  {
    if addr <= 0x1FFF then Ok(m.(ramEnabled := RamEnable(v)))
    else if addr <= 0x3FFF then
      var low := (v & 0x7F) as int;
      match ReduceBank(m, if low == 0 then 1 else low)
      case Err(e) => Err(e)
      case Ok(b) => Ok(m.(romBank := b))
    else if addr <= 0x5FFF then
      if v <= 0x03 then Ok(m.(ramBank := (v & 0x03) as int))
      else Ok(m)
    else Ok(m)
  }

  /** MBC5 reduces a bank number only when it is out of range (`if rom_bank >= max_banks { rom_bank %= max_banks }`). */
  function ReduceIfOutOfRange(m: Mmu, bank: nat): (r: Result<nat, MmuFault>)
    ensures r.Ok? <==> bank < Banks(m) || Banks(m) > 0
    ensures r.Ok? ==> r.value < Banks(m)
    ensures bank < Banks(m) ==> r == Ok(bank)
    ensures bank >= Banks(m) && Banks(m) > 0 ==> r == Ok(bank % Banks(m))
    ensures r.Ok? ==> r.value == bank % Banks(m)
  {
    if bank >= Banks(m) then ReduceBank(m, bank) else ModSmall(bank, Banks(m)); Ok(bank)
  }

  /** A 9-bit bank number with its low eight bits replaced by `v`: bit 8 is kept. */
  function WithLowByte(bank: nat, v: byte): (r: nat)
    ensures r % 256 == v as int && (r / 256) == (bank / 256) % 2
  {
    (bank / 256) % 2 * 256 + v as int
  }

  /** A bank number with bit 8 replaced by bit 0 of `v`: the low eight bits are kept. */
  function WithBit8(bank: nat, v: byte): (r: nat)
    ensures r % 256 == bank % 256 && r / 256 == (v & 0x01) as int
  {
    ((v & 0x01) as int) * 256 + bank % 256
  }

  /** `mbc5_write`: a 9-bit ROM bank split over two registers and a 4-bit RAM bank. */
  function Mbc5Write(m: Mmu, addr: Address, v: byte): (r: Result<Mmu, MmuFault>)
    requires addr <= 0x7FFF
    ensures 0x2000 <= addr <= 0x3FFF ==> (r.Ok? <==> Banks(m) > 0)
    ensures 0x2000 <= addr <= 0x3FFF && r.Ok? ==> r.value.romBank < Banks(m)
    ensures 0x2000 <= addr <= 0x2FFF && WithLowByte(m.romBank, v) < Banks(m) ==>
      r == Ok(m.(romBank := WithLowByte(m.romBank, v)))
    ensures 0x3000 <= addr <= 0x3FFF && WithBit8(m.romBank, v) < Banks(m) ==>
      r == Ok(m.(romBank := WithBit8(m.romBank, v)))
    ensures 0x2000 <= addr <= 0x2FFF && r.Ok? ==> r.value == m.(romBank := WithLowByte(m.romBank, v) % Banks(m))
    ensures 0x3000 <= addr <= 0x3FFF && r.Ok? ==> r.value == m.(romBank := WithBit8(m.romBank, v) % Banks(m))
    ensures 0x4000 <= addr <= 0x5FFF ==> r == Ok(m.(ramBank := (v & 0x0F) as int))
    ensures 0x6000 <= addr ==> r == Ok(m)
    ensures r.Ok? ==> r.value.cartridge == m.cartridge
  {
    if addr <= 0x1FFF then Ok(m.(ramEnabled := RamEnable(v)))
    else if addr <= 0x2FFF then
      match ReduceIfOutOfRange(m, WithLowByte(m.romBank, v))
      case Err(e) => Err(e)
      case Ok(b) => Ok(m.(romBank := b))
    else if addr <= 0x3FFF then
      match ReduceIfOutOfRange(m, WithBit8(m.romBank, v))
      case Err(e) => Err(e)
      case Ok(b) => Ok(m.(romBank := b))
    else if addr <= 0x5FFF then Ok(m.(ramBank := (v & 0x0F) as int))
    else Ok(m)
  }

  // ----- properties of the address map -----

  /** Controllers that respond to ROM-area writes. */
  predicate HasController(m: Mmu)
  {
    var t := m.cartridge.header.cartridgeType;
    t.Mbc1? || t.Mbc1Ram? || t.Mbc3? || t.Mbc3Ram? || t.Mbc5? || t.Mbc5Ram?
  }

  predicate IsMbc3Or5(m: Mmu)
  {
    var t := m.cartridge.header.cartridgeType;
    t.Mbc3? || t.Mbc3Ram? || t.Mbc5? || t.Mbc5Ram?
  }

  /** An address in internal RAM reads the byte stored at its decoded location. */
  lemma ReadInternal(m: Mmu, addr: Address)
    requires IsInternalRam(Decode(addr))
    ensures Read(m, addr) == Fetch(m, Decode(addr))
  {
  }

  /** The MMU with an internal RAM location holding `v`. */
  function Put(m: Mmu, loc: Location, v: byte): (r: Mmu)
    requires IsInternalRam(loc)
    requires loc.VramAt? || loc.WramAt? ==> loc.i < 0x2000
    requires loc.OamAt? ==> loc.i < 0xA0
    requires loc.IoAt? ==> loc.i < 0x80
    requires loc.HramAt? ==> loc.i < 0x7F
    ensures Fetch(r, loc) == v
    ensures r.cartridge == m.cartridge && r.romBank == m.romBank && r.ramBank == m.ramBank
    ensures r.ramEnabled == m.ramEnabled && r.externalRam == m.externalRam
  {
    match loc
    case VramAt(i) => m.(vram := m.vram[i := v])
    case WramAt(i) => m.(wram := m.wram[i := v])
    case OamAt(i) => m.(oam := m.oam[i := v])
    case IoAt(i) => m.(io := m.io[i := v])
    case HramAt(i) => m.(hram := m.hram[i := v])
  }

  /** A write to internal RAM stores into the decoded location and cannot fail. */
  lemma WriteInternal(m: Mmu, a: Address, v: byte)
    requires IsInternalRam(Decode(a))
    ensures Write(m, a, v) == Ok(Put(m, Decode(a), v))
  {
  }

  /** Storing at one location leaves every other location as it was. */
  lemma FetchPut(m: Mmu, loc: Location, v: byte, other: Location)
    requires IsInternalRam(loc) && IsInternalRam(other)
    requires loc.VramAt? || loc.WramAt? ==> loc.i < 0x2000
    requires loc.OamAt? ==> loc.i < 0xA0
    requires loc.IoAt? ==> loc.i < 0x80
    requires loc.HramAt? ==> loc.i < 0x7F
    requires other.VramAt? || other.WramAt? ==> other.i < 0x2000
    requires other.OamAt? ==> other.i < 0xA0
    requires other.IoAt? ==> other.i < 0x80
    requires other.HramAt? ==> other.i < 0x7F
    ensures Fetch(Put(m, loc, v), other) == if other == loc then v else Fetch(m, other)
  {
  }

  /** Reads of ROM, external RAM and the prohibited range depend only on the cartridge and banking state. */
  lemma ReadOutsideInternal(m: Mmu, m': Mmu, x: Address)
    requires !IsInternalRam(Decode(x))
    requires m'.cartridge == m.cartridge && m'.romBank == m.romBank && m'.ramBank == m.ramBank
    requires m'.ramEnabled == m.ramEnabled && m'.externalRam == m.externalRam
    ensures Read(m', x) == Read(m, x)
  {
  }

  /**
    A write to internal RAM succeeds, reads back at every address that
    decodes to the same location (the written address and its echo), and
    changes no other address.
   */
  lemma ReadAfterWrite(m: Mmu, a: Address, v: byte, x: Address)
    requires IsInternalRam(Decode(a))
    ensures Write(m, a, v).Ok?
    ensures Decode(x) == Decode(a) ==> Read(Write(m, a, v).value, x) == v
    ensures Decode(x) != Decode(a) ==> Read(Write(m, a, v).value, x) == Read(m, x)
  {
    WriteInternal(m, a, v);
    var w := Put(m, Decode(a), v);
    if IsInternalRam(Decode(x)) {
      ReadInternal(m, x);
      ReadInternal(w, x);
      FetchPut(m, Decode(a), v, Decode(x));
    } else {
      ReadOutsideInternal(m, w, x);
    }
  }

  /** 0xE000..0xFDFF mirrors 0xC000..0xDDFF for reads and for writes. */
  lemma EchoMirrors(m: Mmu, a: Address, v: byte)
    requires 0xE000 <= a <= 0xFDFF
    ensures Decode(a) == Decode(a - 0x2000)
    ensures Read(m, a) == Read(m, a - 0x2000)
    ensures Write(m, a, v) == Write(m, a - 0x2000, v)
  {
  }

  /** The prohibited range reads 0xFF and ignores writes. */
  lemma ProhibitedIgnored(m: Mmu, a: Address, v: byte)
    requires 0xFEA0 <= a <= 0xFEFF
    ensures Read(m, a) == 0xFF
    ensures Write(m, a, v) == Ok(m)
  {
  }

  /** The interrupt enable register at 0xFFFF is the same byte as I/O address 0xFF7F. */
  lemma InterruptEnableAlias(m: Mmu, v: byte)
    ensures Decode(0xFFFF) == Decode(0xFF7F)
    ensures Read(m, 0xFFFF) == Read(m, 0xFF7F)
    ensures Write(m, 0xFFFF, v) == Write(m, 0xFF7F, v)
  {
  }

  /**
    ROM reads: bank 0 is the start of the image; the switchable window shows
    the current bank, and reads past the end of the image give 0xFF.
   */
  lemma RomReads(m: Mmu, a: Address)
    requires a <= 0x7FFF
    ensures a <= 0x3FFF ==> Read(m, a) == if a < |m.cartridge.rom| then m.cartridge.rom[a] else 0xFF
    ensures 0x4000 <= a && m.romBank * 0x4000 + (a - 0x4000) < |m.cartridge.rom| ==>
      Read(m, a) == m.cartridge.rom[m.romBank * 0x4000 + (a - 0x4000)]
    ensures 0x4000 <= a && m.romBank * 0x4000 + (a - 0x4000) >= |m.cartridge.rom| ==> Read(m, a) == 0xFF
  {
  }

  /**
    External RAM: while disabled or absent it reads 0xFF and ignores writes;
    otherwise the selected bank is read and written, and offsets past its end
    read 0xFF and ignore writes.
   */
  lemma ExternalRamGate(m: Mmu, a: Address, v: byte)
    requires 0xA000 <= a <= 0xBFFF
    ensures !RamAccessible(m) ==> Read(m, a) == 0xFF && Write(m, a, v) == Ok(m)
    ensures RamAccessible(m) && RamOffset(m, a) < |m.externalRam| ==>
      Read(m, a) == m.externalRam[RamOffset(m, a)] &&
      Write(m, a, v).Ok? && Read(Write(m, a, v).value, a) == v
    ensures RamAccessible(m) && RamOffset(m, a) >= |m.externalRam| ==>
      Read(m, a) == 0xFF && Write(m, a, v) == Ok(m)
  {
  }

  /** On every controller, a write below 0x2000 enables RAM exactly when its low nibble is 0xA, and does nothing else. */
  lemma RamEnableRegister(m: Mmu, a: Address, v: byte)
    requires HasController(m) && a <= 0x1FFF
    ensures Write(m, a, v) == Ok(m.(ramEnabled := v & 0x0F == 0x0A))
    ensures RamAccessible(Write(m, a, v).value) <==> v & 0x0F == 0x0A && |m.externalRam| > 0
  {
  }

  /** ROM-only and unsupported cartridges ignore every ROM-area write. */
  lemma RomWritesIgnored(m: Mmu, a: Address, v: byte)
    requires !HasController(m) && a <= 0x7FFF
    ensures Write(m, a, v) == Ok(m)
  {
  }

  /** A write fails only on a bank-number register of a controller whose image holds no whole bank. */
  lemma FaultOnlyWithoutBanks(m: Mmu, a: Address, v: byte)
    ensures Write(m, a, v).Err? ==> HasController(m) && Banks(m) == 0 && 0x2000 <= a <= 0x5FFF
    ensures Banks(m) > 0 ==> Write(m, a, v).Ok?
  {
  }

  /** The banking invariant: at least two banks, and the selected one exists. */
  predicate BankValid(m: Mmu)
  {
    Banks(m) >= 2 && m.romBank < Banks(m)
  }

  /** A fresh MMU selects bank 1, so it is valid exactly when the image holds two banks. */
  lemma NewBankValid(cart: Cartridge.Cartridge)
    ensures BankValid(New(cart)) <==> |cart.rom| >= 0x8000
  {
  }

  /** Every write keeps the banking invariant. */
  lemma WritePreservesBankValid(m: Mmu, a: Address, v: byte)
    requires BankValid(m)
    ensures Write(m, a, v).Ok? && BankValid(Write(m, a, v).value)
  {
    FaultOnlyWithoutBanks(m, a, v);
  }

  lemma ModSmall(x: nat, n: nat)
    requires x < n
    ensures x % n == x
  {
  }

  /** A byte of a bank that exists lies inside the image. */
  lemma BankFits(bank: nat, k: nat, n: nat)
    requires bank < n / 0x4000 && k < 0x4000
    ensures bank * 0x4000 + k < n
  {
    assert (bank + 1) * 0x4000 <= (n / 0x4000) * 0x4000;
  }

  /** Under the invariant, every switchable-ROM address reads a byte of the image. */
  lemma BankValidReadsImage(m: Mmu, a: Address)
    requires BankValid(m) && 0x4000 <= a <= 0x7FFF
    ensures RomOffset(m, a) < |m.cartridge.rom|
    ensures Read(m, a) == m.cartridge.rom[RomOffset(m, a)]
  {
    BankFits(m.romBank, a - 0x4000, |m.cartridge.rom|);
  }

  /**
    MBC1 in ROM banking mode: writing the upper two bits to 0x4000 and then
    the low five bits to 0x2000 selects the bank `low + 32 * upper` (a low
    value of 0 read as 1) when the image holds it.
   */
  lemma Mbc1SelectBank(m: Mmu, low: byte, upper: byte)
    requires m.mbc1Mode == 0 && upper <= 0x03
    requires Mbc1Low(low) + (upper as int) * 32 < Banks(m)
    ensures Mbc1Write(m, 0x4000, upper).Ok?
    ensures Mbc1Write(Mbc1Write(m, 0x4000, upper).value, 0x2000, low).Ok?
    ensures Mbc1Write(Mbc1Write(m, 0x4000, upper).value, 0x2000, low).value.romBank == Mbc1Low(low) + (upper as int) * 32
  {
    Mbc1UpperWrite(m, upper);
    var m1 := Mbc1Write(m, 0x4000, upper).value;
    Mbc1LowWrite(m1, low);
  }

  lemma Mbc1UpperWrite(m: Mmu, upper: byte)
    requires m.mbc1Mode == 0 && upper <= 0x03 && Banks(m) > 0
    ensures Mbc1Write(m, 0x4000, upper).Ok?
    ensures Mbc1Write(m, 0x4000, upper).value.mbc1UpperBits == upper
    ensures Mbc1Write(m, 0x4000, upper).value.mbc1Mode == 0
    ensures Banks(Mbc1Write(m, 0x4000, upper).value) == Banks(m)
  {
    assert upper & 0x03 == upper;
  }

  /** In ROM banking mode, a low-bank write below the bank count is selected without reduction. */
  lemma Mbc1LowWrite(m: Mmu, low: byte)
    requires m.mbc1Mode == 0
    requires Mbc1Low(low) + (m.mbc1UpperBits as int) * 32 < Banks(m)
    ensures Mbc1Write(m, 0x2000, low).Ok?
    ensures Mbc1Write(m, 0x2000, low).value.romBank == Mbc1Low(low) + (m.mbc1UpperBits as int) * 32
  {
    ModSmall(Mbc1Low(low) + (m.mbc1UpperBits as int) * 32, Banks(m));
  }

  /** MBC3 selects a bank number from 1 to 0x7F below the bank count as written. */
  lemma Mbc3SelectBank(m: Mmu, bank: byte)
    requires 0 < bank <= 0x7F && bank as int < Banks(m)
    ensures Mbc3Write(m, 0x2000, bank) == Ok(m.(romBank := bank as int))
  {
    assert bank & 0x7F == bank;
    ByteLess(0, bank);
    ModSmall(bank as int, Banks(m));
  }

  /** MBC5 selects a low bank number below the bank count as written while bit 8 of the bank is clear. */
  lemma Mbc5SelectBank(m: Mmu, bank: byte)
    requires bank as int < Banks(m) && m.romBank < 256
    ensures Mbc5Write(m, 0x2000, bank) == Ok(m.(romBank := bank as int))
  {
    assert m.romBank / 256 == 0;
  }

  /** On MBC3 and MBC5 a bank number below the bank count written to 0x2000 is selected as is. */
  lemma SelectBank(m: Mmu, bank: byte)
    requires IsMbc3Or5(m)
    requires 0 < bank <= 0x7F && bank as int < Banks(m) && m.romBank < 256
    ensures Write(m, 0x2000, bank).Ok? && Write(m, 0x2000, bank).value.romBank == bank as int
  {
    var t := m.cartridge.header.cartridgeType;
    if t.Mbc3? || t.Mbc3Ram? {
      Mbc3SelectBank(m, bank);
    } else {
      Mbc5SelectBank(m, bank);
    }
  }

  /**
    Selecting ROM bank `bank` on an MBC3 or MBC5 cartridge and then reading
    the switchable window shows that bank of the image.
   */
  lemma SelectBankThenRead(m: Mmu, bank: byte, k: nat)
    requires IsMbc3Or5(m)
    requires 0 < bank <= 0x7F && bank as int < Banks(m) && k < 0x4000
    requires m.romBank < 256
    ensures Write(m, 0x2000, bank).Ok?
    ensures Read(Write(m, 0x2000, bank).value, 0x4000 + k) == m.cartridge.rom[bank as int * 0x4000 + k]
  {
    SelectBank(m, bank);
    BankFits(bank as int, k, |m.cartridge.rom|);
  }
}
