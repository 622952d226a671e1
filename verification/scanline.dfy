/**
  The pieces of scanline work the PPU does that are not drawing: picking the
  sprites of a line from OAM, decoding a pixel of a tile row, and mapping a
  colour number through a palette.

  OAM holds 40 entries of four bytes: Y + 16, X + 8, tile number, attributes.
  A tile row is two bytes; pixel x (0 leftmost) takes its low colour bit from
  bit 7 - x of the first byte and its high bit from bit 7 - x of the second.
  A palette byte holds four two-bit shades, colour 0 in bits 1..0.
 */
module Scanline {
  import opened Bits

  const OamEntries: nat := 40
  const MaxSpritesPerLine: nat := 10

  /** One OAM entry with its coordinates converted to screen space. */
  datatype Sprite = Sprite(y: int, x: int, tile: byte, attributes: byte)

  /** `sprite_size`: 16 lines tall when LCDC bit 2 is set, otherwise 8. */
  function SpriteHeight(lcdc: byte): (h: nat)
    ensures h == 8 || h == 16
    ensures h == 16 <==> lcdc & 0x04 != 0
  {
    if lcdc & 0x04 != 0 then 16 else 8
  }

  /** OAM entry `i`, decoded. */
  function Entry(oam: seq<byte>, i: nat): (s: Sprite)
    requires i < OamEntries && |oam| >= 4 * OamEntries
    ensures s.y == oam[4 * i] as int - 16 && s.x == oam[4 * i + 1] as int - 8
    ensures s.tile == oam[4 * i + 2] && s.attributes == oam[4 * i + 3]
  {
    Sprite(oam[4 * i] as int - 16, oam[4 * i + 1] as int - 8, oam[4 * i + 2], oam[4 * i + 3])
  }

  /** A sprite covers line `ly` when `y <= ly < y + height`. */
  predicate OnLine(s: Sprite, ly: int, height: nat)
  {
    s.y <= ly < s.y + height
  }

  /** Reference definition: the entries among the first `n` that cover the line, in OAM order. */
  function Covering(oam: seq<byte>, ly: int, height: nat, n: nat): (r: seq<Sprite>)
    requires n <= OamEntries && |oam| >= 4 * OamEntries
    ensures |r| <= n
  {
    if n == 0 then []
    else if OnLine(Entry(oam, n - 1), ly, height) then Covering(oam, ly, height, n - 1) + [Entry(oam, n - 1)]
    else Covering(oam, ly, height, n - 1)
  }

  /** Looking at more entries only adds sprites at the end. */
  lemma {:induction false} CoveringPrefix(oam: seq<byte>, ly: int, height: nat, n: nat, m: nat)
    requires n <= m <= OamEntries && |oam| >= 4 * OamEntries
    ensures Covering(oam, ly, height, n) <= Covering(oam, ly, height, m)
    decreases m - n
  {
    if n < m {
      CoveringPrefix(oam, ly, height, n, m - 1);
    }
  }

  /** Every sprite the reference picks covers the line and is some OAM entry. */
  lemma {:induction false} CoveringSound(oam: seq<byte>, ly: int, height: nat, n: nat)
    requires n <= OamEntries && |oam| >= 4 * OamEntries
    ensures forall s :: s in Covering(oam, ly, height, n) ==>
      OnLine(s, ly, height) && exists i :: 0 <= i < n && s == Entry(oam, i)
  {
    if n > 0 {
      CoveringSound(oam, ly, height, n - 1);
    }
  }

  /** An entry that covers the line is picked by the reference. */
  lemma {:induction false} CoveringComplete(oam: seq<byte>, ly: int, height: nat, n: nat, i: nat)
    requires i < n <= OamEntries && |oam| >= 4 * OamEntries
    requires OnLine(Entry(oam, i), ly, height)
    ensures Entry(oam, i) in Covering(oam, ly, height, n)
  {
    if i < n - 1 {
      CoveringComplete(oam, ly, height, n - 1, i);
    }
  }

  /** The first `k` elements of a sequence, or all of it when it is shorter. */
  function Take<T>(s: seq<T>, k: nat): (r: seq<T>)
    ensures |r| <= k && r <= s
    ensures |s| <= k ==> r == s
  {
    if |s| <= k then s else s[..k]
  }

  /**
    `scan_oam`: walk the 40 entries in order, keep those covering line `ly`,
    and stop once ten are kept. The result is the first ten covering entries.
   */
  method ScanOam(oam: seq<byte>, ly: nat, lcdc: byte) returns (buffer: seq<Sprite>)
    requires |oam| >= 4 * OamEntries
    ensures buffer == Take(Covering(oam, ly, SpriteHeight(lcdc), OamEntries), MaxSpritesPerLine)
    ensures |buffer| <= MaxSpritesPerLine
  {
    var height := SpriteHeight(lcdc);
    buffer := [];
    var i := 0;
    while i < OamEntries
      invariant 0 <= i <= OamEntries
      invariant buffer == Covering(oam, ly, height, i)
      invariant |buffer| < MaxSpritesPerLine
    {
      var sprite := Entry(oam, i);
      if OnLine(sprite, ly, height) {
        buffer := buffer + [sprite];
        if |buffer| >= MaxSpritesPerLine {
          CoveringPrefix(oam, ly, height, i + 1, OamEntries);
          return;
        }
      }
      i := i + 1;
    }
  }

  /** The line buffer holds only covering sprites, and every covering entry when fewer than ten do. */
  lemma ScanResult(oam: seq<byte>, ly: nat, lcdc: byte, i: nat)
    requires |oam| >= 4 * OamEntries && i < OamEntries
    ensures forall s :: s in Take(Covering(oam, ly, SpriteHeight(lcdc), OamEntries), MaxSpritesPerLine) ==>
      OnLine(s, ly, SpriteHeight(lcdc))
    ensures OnLine(Entry(oam, i), ly, SpriteHeight(lcdc)) && |Covering(oam, ly, SpriteHeight(lcdc), OamEntries)| <= MaxSpritesPerLine
      ==> Entry(oam, i) in Take(Covering(oam, ly, SpriteHeight(lcdc), OamEntries), MaxSpritesPerLine)
  {
    var all := Covering(oam, ly, SpriteHeight(lcdc), OamEntries);
    CoveringSound(oam, ly, SpriteHeight(lcdc), OamEntries);
    forall s | s in Take(all, MaxSpritesPerLine)
      ensures OnLine(s, ly, SpriteHeight(lcdc))
    {
      assert s in all;
    }
    if OnLine(Entry(oam, i), ly, SpriteHeight(lcdc)) {
      CoveringComplete(oam, ly, SpriteHeight(lcdc), OamEntries, i);
    }
  }

  // ----- tiles -----

  /** Colour bit `x` of a tile-row byte, counting from the left (bit 7). */
  function RowBit(b: byte, x: nat): (r: byte)
    requires x < 8
    ensures r <= 1
  {
    (b >> (7 - x) as bv8) & 1
  }

  /** `get_tile_pixel` on one row: the colour number of pixel `x`. */
  function TilePixel(low: byte, high: byte, x: nat): (r: byte)
    requires x < 8
    ensures r <= 3
    ensures r & 1 == RowBit(low, x) && r >> 1 == RowBit(high, x)
  {
    (RowBit(high, x) << 1) | RowBit(low, x)
  }

  /** `get_tile_pixel`: row `y` of the tile at `tileAddr` lives at `tileAddr + 2y` and the byte after it. */
  function TilePixelAt(vram: seq<byte>, tileAddr: nat, x: nat, y: nat): (r: byte)
    requires x < 8 && 0x8000 <= tileAddr && tileAddr - 0x8000 + 2 * y + 1 < |vram|
    ensures r <= 3
    ensures r & 1 == RowBit(vram[tileAddr - 0x8000 + 2 * y], x)
    ensures r >> 1 == RowBit(vram[tileAddr - 0x8000 + 2 * y + 1], x)
  {
    var row := tileAddr - 0x8000 + 2 * y;
    TilePixel(vram[row], vram[row + 1], x)
  }

  /** A row of eight colour numbers. */
  type Row = r: seq<byte> | |r| == 8 && forall i :: 0 <= i < 8 ==> r[i] <= 3
    witness [0, 0, 0, 0, 0, 0, 0, 0]

  /** Bit `k` of each pixel packed into one byte, leftmost pixel in bit 7. */
  function Plane(px: Row, k: bv8): byte
    requires k < 2
  {
    (((px[0] >> k) & 1) << 7) | (((px[1] >> k) & 1) << 6) | (((px[2] >> k) & 1) << 5)
    | (((px[3] >> k) & 1) << 4) | (((px[4] >> k) & 1) << 3) | (((px[5] >> k) & 1) << 2)
    | (((px[6] >> k) & 1) << 1) | ((px[7] >> k) & 1)
  }

  /** The two tile-row bytes that display a row of colours: the inverse of `TilePixel`. */
  function EncodeRow(px: Row): (bytes: (byte, byte))
  {
    (Plane(px, 0), Plane(px, 1))
  }

  /** Decoding an encoded row gives back every pixel. */
  lemma DecodeEncodeRow(px: Row, x: nat)
    requires x < 8
    ensures TilePixel(EncodeRow(px).0, EncodeRow(px).1, x) == px[x]
  {
    assert px[x] <= 3;
    if x == 0 {} else if x == 1 {} else if x == 2 {} else if x == 3 {}
    else if x == 4 {} else if x == 5 {} else if x == 6 {} else {}
  }

  /** Encoding the decoded pixels of a row gives back its two bytes. */
  lemma EncodeDecodeRow(low: byte, high: byte)
    ensures EncodeRow([TilePixel(low, high, 0), TilePixel(low, high, 1), TilePixel(low, high, 2),
                       TilePixel(low, high, 3), TilePixel(low, high, 4), TilePixel(low, high, 5),
                       TilePixel(low, high, 6), TilePixel(low, high, 7)]) == (low, high)
  {
  }

  // ----- palettes -----

  /** `apply_palette`: colour `c` takes the shade in bits 2c+1..2c; an out-of-range colour gives 0. */
  function ApplyPalette(color: byte, palette: byte): (shade: byte)
    ensures shade <= 3
    ensures color > 3 ==> shade == 0
  {
    match color
    case 0 => palette & 0x03
    case 1 => (palette >> 2) & 0x03
    case 2 => (palette >> 4) & 0x03
    case 3 => (palette >> 6) & 0x03
    case _ => 0
  }

  /** The palette byte that maps colours 0..3 to the given shades. */
  function EncodePalette(s0: byte, s1: byte, s2: byte, s3: byte): byte
    requires s0 <= 3 && s1 <= 3 && s2 <= 3 && s3 <= 3
  {
    s0 | (s1 << 2) | (s2 << 4) | (s3 << 6)
  }

  /** A palette built from four shades maps each colour to its shade. */
  lemma PaletteOfShades(s0: byte, s1: byte, s2: byte, s3: byte)
    requires s0 <= 3 && s1 <= 3 && s2 <= 3 && s3 <= 3
    ensures ApplyPalette(0, EncodePalette(s0, s1, s2, s3)) == s0
    ensures ApplyPalette(1, EncodePalette(s0, s1, s2, s3)) == s1
    ensures ApplyPalette(2, EncodePalette(s0, s1, s2, s3)) == s2
    ensures ApplyPalette(3, EncodePalette(s0, s1, s2, s3)) == s3
  {
  }

  /** A palette is determined by the shades it gives the four colours. */
  lemma ShadesOfPalette(palette: byte)
    ensures EncodePalette(ApplyPalette(0, palette), ApplyPalette(1, palette),
                          ApplyPalette(2, palette), ApplyPalette(3, palette)) == palette
  {
  }
}
