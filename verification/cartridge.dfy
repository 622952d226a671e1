/**
  Cartridge images and their header (bytes 0x0100..0x014F of the ROM): the
  controller type byte, the ROM and RAM size codes and the header checksum.
 */
module Cartridge {
  import opened Bits

  /** The memory-bank controller named by header byte 0x0147. */
  datatype CartridgeType =
    | RomOnly
    | Mbc1 | Mbc1Ram
    | Mbc3 | Mbc3Ram
    | Mbc5 | Mbc5Ram
    | Unsupported(code: byte)

  /** The type codes the emulator recognises. */
  predicate KnownCode(b: byte)
  {
    b in {0x00, 0x01, 0x02, 0x03, 0x11, 0x12, 0x13, 0x19, 0x1A, 0x1B}
  }

  /** `has_ram`. */
  predicate HasRam(t: CartridgeType)
  {
    t == Mbc1Ram || t == Mbc3Ram || t == Mbc5Ram
  }

  /**
    `CartridgeType::from_byte`, total: the ten known codes map to their
    controller (the battery-backed variants 0x03/0x13/0x1B fold into the RAM
    variant) and every other byte is kept inside `Unsupported`.
   */
  function FromByte(b: byte): (t: CartridgeType)
    ensures t.Unsupported? <==> !KnownCode(b)
    ensures t.Unsupported? ==> t.code == b
    ensures HasRam(t) <==> b in {0x02, 0x03, 0x12, 0x13, 0x1A, 0x1B}
    ensures t == RomOnly <==> b == 0x00
    ensures (t == Mbc1 || t == Mbc1Ram) <==> 0x01 <= b <= 0x03
    ensures (t == Mbc3 || t == Mbc3Ram) <==> 0x11 <= b <= 0x13
    ensures (t == Mbc5 || t == Mbc5Ram) <==> 0x19 <= b <= 0x1B
  {
    match b
    case 0x00 => RomOnly
    case 0x01 => Mbc1
    case 0x02 => Mbc1Ram
    case 0x03 => Mbc1Ram
    case 0x11 => Mbc3
    case 0x12 => Mbc3Ram
    case 0x13 => Mbc3Ram
    case 0x19 => Mbc5
    case 0x1A => Mbc5Ram
    case 0x1B => Mbc5Ram
    case _ => Unsupported(b)
  }

  /** 2 to the power `k`. */
  function Pow2(k: nat): nat
  {
    if k == 0 then 1 else 2 * Pow2(k - 1)
  }

  /** The ROM size table of header byte 0x0148, in bytes. */
  function RomSize(code: byte): (r: Option<nat>)
    ensures r.Some? <==> code <= 8
  {
    match code
    case 0x00 => Some(32 * 1024)
    case 0x01 => Some(64 * 1024)
    case 0x02 => Some(128 * 1024)
    case 0x03 => Some(256 * 1024)
    case 0x04 => Some(512 * 1024)
    case 0x05 => Some(1024 * 1024)
    case 0x06 => Some(2 * 1024 * 1024)
    case 0x07 => Some(4 * 1024 * 1024)
    case 0x08 => Some(8 * 1024 * 1024)
    case _ => None
  }

  /** Code `k` means 32 KiB times 2^k, that is 2^(k+1) banks of 16 KiB. */
  lemma RomSizeIsPowerOfTwo(code: byte)
    requires code <= 8
    ensures RomSize(code) == Some(32 * 1024 * Pow2(code as int))
    ensures RomSize(code).value == 0x4000 * Pow2(code as int + 1)
  {
    assert Pow2(1) == 2 && Pow2(2) == 4 && Pow2(3) == 8 && Pow2(4) == 16 && Pow2(5) == 32;
    assert Pow2(6) == 64 && Pow2(7) == 128 && Pow2(8) == 256 && Pow2(9) == 512;
  }

  /** The RAM size table of header byte 0x0149, in bytes. */
  function RamSize(code: byte): (r: Option<nat>)
    ensures r.Some? <==> code <= 5
    ensures r.Some? && code >= 2 ==> r.value % 0x2000 == 0 && r.value > 0
    ensures r == Some(0) <==> code == 0
  {
    match code
    case 0x00 => Some(0)
    case 0x01 => Some(2 * 1024)
    case 0x02 => Some(8 * 1024)
    case 0x03 => Some(32 * 1024)
    case 0x04 => Some(128 * 1024)
    case 0x05 => Some(64 * 1024)
    case _ => None
  }

  /** One step of the checksum loop: `c.wrapping_sub(b).wrapping_sub(1)`. */
  function ChecksumStep(c: byte, b: byte): (r: byte)
    ensures r as int == (c as int - b as int - 1) % 256
  {
    ByteSubOneMore(c, b);
    c - b - 1
  }

  /** The checksum loop over `bytes` in order, starting from 0. */
  function ChecksumOf(bytes: seq<byte>): byte
    decreases |bytes|
  {
    if |bytes| == 0 then 0 else ChecksumStep(ChecksumOf(bytes[..|bytes| - 1]), bytes[|bytes| - 1])
  }

  /** The header checksum of an image at least 0x150 bytes long: the loop over 0x0134..=0x014C. */
  function HeaderChecksum(rom: seq<byte>): (c: byte)
    requires |rom| >= 0x150
    ensures c as int == (-(Sum(rom[0x134..0x14D]) as int) - 25) % 256
  {
    ChecksumClosed(rom[0x134..0x14D]);
    ChecksumOf(rom[0x134..0x14D])
  }

  /** The sum of the bytes as natural numbers. */
  function Sum(bytes: seq<byte>): nat
    decreases |bytes|
  {
    if |bytes| == 0 then 0 else Sum(bytes[..|bytes| - 1]) + bytes[|bytes| - 1] as int
  }

  /** Reducing modulo 256 before a subtraction does not change the result modulo 256. */
  lemma ModThenSub(a: int, k: int)
    ensures (a % 256 - k) % 256 == (a - k) % 256
  {
    var q := a / 256;
    assert a == 256 * q + a % 256;
    assert (a - k) == (a % 256 - k) + 256 * q;
  }

  lemma ClosedStep(c: int, sum: int, n: int, b: int)
    requires c == (-sum - n) % 256
    ensures (c - b - 1) % 256 == (-(sum + b) - (n + 1)) % 256
  {
    ModThenSub(-sum - n, b + 1);
  }

  /**
    The checksum in closed form: each step subtracts the byte and one more,
    so the loop over n bytes gives minus their sum minus n, modulo 256.
   */
  lemma {:induction false} ChecksumClosed(bytes: seq<byte>)
    ensures ChecksumOf(bytes) as int == (-(Sum(bytes) as int) - |bytes|) % 256
    decreases |bytes|
  {
    if |bytes| > 0 {
      var init := bytes[..|bytes| - 1];
      var b := bytes[|bytes| - 1];
      var c := ChecksumOf(init);
      ChecksumClosed(init);
      assert ChecksumOf(bytes) == ChecksumStep(c, b);
      assert Sum(bytes) == Sum(init) + b as int;
      ClosedStep(c as int, Sum(init), |init|, b as int);
    }
  }

  /** The checksum loop as the emulator runs it, one byte at a time: minus the header bytes' sum, minus 25. */
  method ComputeHeaderChecksum(rom: seq<byte>) returns (c: byte)
    requires |rom| >= 0x150
    ensures c as int == (-(Sum(rom[0x134..0x14D]) as int) - 25) % 256
    ensures c == HeaderChecksum(rom)
  {
    c := 0;
    var i := 0x134;
    while i <= 0x14C
      invariant 0x134 <= i <= 0x14D
      invariant c == ChecksumOf(rom[0x134..i])
    {
      assert rom[0x134..i + 1][..i - 0x134] == rom[0x134..i];
      c := ChecksumStep(c, rom[i]);
      i := i + 1;
    }
    assert rom[0x134..i] == rom[0x134..0x14D];
    assert c == HeaderChecksum(rom);
  }

  /** Header fields other than the title, whose text decoding is not modelled. */
  datatype Header = Header(
    title: seq<byte>,
    cartridgeType: CartridgeType,
    romSize: nat,
    ramSize: nat,
    romVersion: byte,
    headerChecksum: byte)

  /** Why `parse` rejects an image. */
  datatype ParseError =
    | TooSmall(length: nat)
    | UnknownRomSize(romCode: byte)
    | UnknownRamSize(ramCode: byte)
    | ChecksumMismatch(calculated: byte, expected: byte)

  /**
    `CartridgeHeader::parse`. The checks run in order: length, ROM size
    code, RAM size code, checksum; the first failing one is reported.
   */
  function Parse(rom: seq<byte>): (r: Result<Header, ParseError>)
    ensures |rom| < 0x150 ==> r == Err(TooSmall(|rom|))
    ensures r.Ok? <==>
      |rom| >= 0x150 && RomSize(rom[0x148]).Some? && RamSize(rom[0x149]).Some?
      && HeaderChecksum(rom) == rom[0x14D]
    ensures r.Ok? ==>
      r.value.cartridgeType == FromByte(rom[0x147])
      && Some(r.value.romSize) == RomSize(rom[0x148])
      && Some(r.value.ramSize) == RamSize(rom[0x149])
      && r.value.romVersion == rom[0x14C]
      && r.value.headerChecksum == rom[0x14D]
      && r.value.title == rom[0x134..0x144]
    ensures |rom| >= 0x150 && RomSize(rom[0x148]).None? ==> r == Err(UnknownRomSize(rom[0x148]))
    ensures |rom| >= 0x150 && RomSize(rom[0x148]).Some? && RamSize(rom[0x149]).None? ==>
      r == Err(UnknownRamSize(rom[0x149]))
    ensures r.Err? && r.error.ChecksumMismatch? ==>
      r.error == ChecksumMismatch(HeaderChecksum(rom), rom[0x14D]) && r.error.calculated != r.error.expected
  {
    if |rom| < 0x150 then Err(TooSmall(|rom|))
    else
      var title := rom[0x134..0x144];
      var cartridgeType := FromByte(rom[0x147]);
      match RomSize(rom[0x148])
      case None => Err(UnknownRomSize(rom[0x148]))
      case Some(romSize) =>
        match RamSize(rom[0x149])
        case None => Err(UnknownRamSize(rom[0x149]))
        case Some(ramSize) =>
          var checksum := HeaderChecksum(rom);
          if checksum != rom[0x14D] then Err(ChecksumMismatch(checksum, rom[0x14D]))
          else Ok(Header(title, cartridgeType, romSize, ramSize, rom[0x14C], rom[0x14D]))
  }

  /**
    With known size codes, an image parses exactly when its byte 0x014D is
    minus the sum of bytes 0x0134..=0x014C, minus 25, modulo 256.
   */
  lemma ParseChecksum(rom: seq<byte>)
    requires |rom| >= 0x150 && RomSize(rom[0x148]).Some? && RamSize(rom[0x149]).Some?
    ensures Parse(rom).Ok? <==> rom[0x14D] as int == (-(Sum(rom[0x134..0x14D]) as int) - 25) % 256
  {
  }

  /** The image with byte 0x014D replaced by the checksum its header bytes call for. */
  function WithChecksum(rom: seq<byte>): (r: seq<byte>)
    requires |rom| >= 0x150
    ensures |r| == |rom| && r[0x14D] == HeaderChecksum(rom)
    ensures forall i :: 0 <= i < |rom| && i != 0x14D ==> r[i] == rom[i]
  {
    rom[0x14D := HeaderChecksum(rom)]
  }

  /**
    The checksum byte covers only the bytes before it: fixing it makes any
    image with known size codes parse, and leaves every other header field.
   */
  lemma WithChecksumParses(rom: seq<byte>)
    requires |rom| >= 0x150 && RomSize(rom[0x148]).Some? && RamSize(rom[0x149]).Some?
    ensures Parse(WithChecksum(rom)).Ok?
    ensures Parse(WithChecksum(rom)).value.cartridgeType == FromByte(rom[0x147])
  {
    var fixed := WithChecksum(rom);
    assert fixed[0x134..0x14D] == rom[0x134..0x14D];
  }

  /** A cartridge: a parsed header and the whole image. */
  datatype Cartridge = Cartridge(header: Header, rom: seq<byte>)

  /** `Cartridge::from_bytes`: the image is kept unchanged exactly when its header parses. */
  function FromBytes(rom: seq<byte>): (r: Result<Cartridge, ParseError>)
    ensures r.Ok? <==> Parse(rom).Ok?
    ensures r.Ok? ==> r.value.rom == rom && r.value.header == Parse(rom).value
    ensures r.Err? ==> r.error == Parse(rom).error
  {
    match Parse(rom)
    case Ok(header) => Ok(Cartridge(header, rom))
    case Err(e) => Err(e)
  }

  /** `Cartridge::read` at a 16-bit address, given as its number: the image byte, or 0xFF past its end. */
  function Read(c: Cartridge, addr: nat): (r: byte)
    requires addr < 0x10000
    ensures addr < |c.rom| ==> r == c.rom[addr]
    ensures addr >= |c.rom| ==> r == 0xFF
  {
    if addr < |c.rom| then c.rom[addr] else 0xFF
  }

  /** Reading a loaded cartridge at the header addresses gives back what the header recorded. */
  lemma ReadHeaderBytes(rom: seq<byte>)
    requires FromBytes(rom).Ok?
    ensures FromByte(Read(FromBytes(rom).value, 0x0147)) == FromBytes(rom).value.header.cartridgeType
    ensures Read(FromBytes(rom).value, 0x014C) == FromBytes(rom).value.header.romVersion
    ensures Read(FromBytes(rom).value, 0x014D) == FromBytes(rom).value.header.headerChecksum
  {
  }
}
