/**
 * 4-bit-per-pixel packing (the packing loop of loadImage4BitFromImage) and its
 * inverse, renderPreviewFrom4bpp.
 *
 * A pixel's level is its darkness in sixteen steps, `(255 - gray) >> 4`.
 * Pixel `p` of a 384-wide raster, counted row by row, is a nibble of byte
 * `p / 2`: the high nibble when `p` is even, the low one when it is odd.
 *
 * Positions are written with the literals 384 (`LinePixels`) and 192 (bytes
 * per line) so that the solver sees linear arithmetic.
 */
module FourBit {
  import opened Raster


  /** The darkness of a gray value: 0 for white up to 15 for black. */
  function Level(gray: bv8): (level: bv8)
    ensures level <= 15
  {
    (255 - gray) >> 4
  }

  /**
   * A level moved to its place in the byte: Go's `level << shift`, where
   * `shift` is `((x & 1) ^ 1) << 2`, that is 4 for an even pixel and 0 for an odd one.
   */
  function Placed(level: bv8, odd: bool): bv8 {
    if odd then level else level << 4
  }

  /** The first `n` nibbles (0, 1 or 2) of byte `i`. */
  function Nibbles(g: seq<bv8>, i: nat, n: nat): bv8
    requires n <= 2 && 2 * i + 2 <= |g|
  {
    if n == 0 then 0
    else if n == 1 then Placed(Level(g[2 * i]), false)
    else Placed(Level(g[2 * i]), false) | Placed(Level(g[2 * i + 1]), true)
  }

  /** How many pixels of byte `i` are among the first `limit`. */
  function Done(i: nat, limit: nat): (n: nat)
    ensures n <= 2
  {
    if limit <= 2 * i then 0 else if limit >= 2 * i + 2 then 2 else 1
  }

  /** Byte `i` once the first `limit` pixels of `g` are packed. */
  function PartialByte(g: seq<bv8>, i: nat, limit: nat): bv8
    requires 2 * i + 2 <= |g|
  {
    Nibbles(g, i, Done(i, limit))
  }

  /** The first `n` bytes of the output buffer once the first `limit` pixels of `g` are packed. */
  function PackedPrefix(g: seq<bv8>, limit: nat, n: nat): (pixels: seq<bv8>)
    requires 2 * n <= |g|
    ensures |pixels| == n
  {
    if n == 0 then [] else PackedPrefix(g, limit, n - 1) + [PartialByte(g, n - 1, limit)]
  }

  lemma {:induction false} PackedPrefixIndex(g: seq<bv8>, limit: nat, n: nat, i: nat)
    requires 2 * n <= |g| && i < n
    ensures PackedPrefix(g, limit, n)[i] == PartialByte(g, i, limit)
  {
    if i < n - 1 {
      PackedPrefixIndex(g, limit, n - 1, i);
    }
  }

  /** The output buffer once the first `limit` pixels of `g` are packed. */
  function PartialPacking(g: seq<bv8>, limit: nat): (pixels: seq<bv8>)
    requires |g| % 2 == 0
    ensures |pixels| == |g| / 2
  {
    PackedPrefix(g, limit, |g| / 2)
  }

  lemma PartialPackingIndex(g: seq<bv8>, limit: nat, i: nat)
    requires |g| % 2 == 0 && i < |g| / 2
    ensures 2 * i + 2 <= |g|
    ensures PartialPacking(g, limit)[i] == PartialByte(g, i, limit)
  {
    PackedPrefixIndex(g, limit, |g| / 2, i);
  }

  /** Packing a flat gray sequence of even length. */
  function PackFlat(g: seq<bv8>): (pixels: seq<bv8>)
    requires |g| % 2 == 0
  {
    PartialPacking(g, |g|)
  }

  lemma DivOfSplit(i: nat, k: nat)
    requires k < 2
    ensures (2 * i + k) / 2 == i && (2 * i + k) % 2 == k
  {
  }

  /** The flat view of a raster 384 pixels wide has even length. */
  lemma FlatLength(rows: seq<seq<bv8>>)
    requires PrinterWide(Raster(384, rows))
    ensures |Flatten(rows)| == 384 * |rows| && |Flatten(rows)| % 2 == 0
    ensures |Flatten(rows)| / 2 == 192 * |rows|
  {
    FlattenLength(rows, 384);
    DivOfSplit(192 * |rows|, 0);
  }

  /** The packed raster as a value. */
  function Packed(r: Raster): (pixels: seq<bv8>)
    requires PrinterWide(r)
    ensures |pixels| == 192 * Height(r)
  {
    FlatLength(r.rows);
    PackFlat(Flatten(r.rows))
  }

  /** Packing pixel `p` leaves every byte but byte `p / 2` as it was. */
  lemma OtherByteUnchanged(g: seq<bv8>, i: nat, p: nat)
    requires 2 * i + 2 <= |g| && i != p / 2
    ensures PartialByte(g, i, p + 1) == PartialByte(g, i, p)
  {
    DivOfSplit(p / 2, p % 2);
    assert Done(i, p + 1) == Done(i, p);
  }

  /** Packing pixel `p` ORs its level into byte `p / 2`. */
  lemma OwnByteStep(g: seq<bv8>, p: nat)
    requires p < |g| && |g| % 2 == 0
    ensures 2 * (p / 2) + 2 <= |g|
    ensures PartialByte(g, p / 2, p + 1) == PartialByte(g, p / 2, p) | Placed(Level(g[p]), p % 2 == 1)
  {
    var i, k := p / 2, p % 2;
    DivOfSplit(i, k);
    assert Done(i, p + 1) == k + 1 && Done(i, p) == k;
    if k == 0 {
      assert 0 | Placed(Level(g[p]), false) == Placed(Level(g[p]), false);
    }
  }

  /** Before any pixel is packed the buffer is all zero, as `make` leaves it. */
  lemma PackingStart(g: seq<bv8>)
    requires |g| % 2 == 0
    ensures PartialPacking(g, 0) == seq(|g| / 2, _ => 0)
  {
    forall i | 0 <= i < |g| / 2 {
      PartialPackingIndex(g, 0, i);
    }
  }

  /** Packing pixel `p` ORs its placed level into byte `p / 2` of the buffer and changes nothing else. */
  lemma PackPixel(g: seq<bv8>, p: nat)
    requires p < |g| && |g| % 2 == 0
    ensures p / 2 < |g| / 2
    ensures PartialPacking(g, p + 1) ==
      PartialPacking(g, p)[p / 2 := PartialPacking(g, p)[p / 2] | Placed(Level(g[p]), p % 2 == 1)]
  {
    forall i | 0 <= i < |g| / 2 && i != p / 2
      ensures PartialPacking(g, p + 1)[i] == PartialPacking(g, p)[i]
    {
      OtherByteUnchanged(g, i, p);
      PartialPackingIndex(g, p, i);
      PartialPackingIndex(g, p + 1, i);
    }
    OwnByteStep(g, p);
    PartialPackingIndex(g, p, p / 2);
    PartialPackingIndex(g, p + 1, p / 2);
  }

  /** Pixel (y, x) of a printer line lies in byte `p / 2`, where `p = 384 * y + x`, with the parity of `x`. */
  lemma NibblePosition(y: nat, x: nat)
    requires x < 384
    ensures (y * 384 + x) % 2 == x % 2
    ensures (y * 384 + x) / 2 == 192 * y + x / 2
  {
    DivOfSplit(192 * y + x / 2, x % 2);
  }

  /** One pass of the inner loop, in the loop's own terms: pixel (y, x) of a 384-wide raster. */
  lemma PackRasterPixel(rows: seq<seq<bv8>>, y: nat, x: nat)
    requires PrinterWide(Raster(384, rows))
    requires y < |rows| && x < 384
    ensures |Flatten(rows)| % 2 == 0
    ensures (y * 384 + x) / 2 < |Flatten(rows)| / 2
    ensures var before := PartialPacking(Flatten(rows), y * 384 + x);
      var idx := (y * 384 + x) / 2;
      PartialPacking(Flatten(rows), y * 384 + x + 1) ==
        before[idx := before[idx] | Placed(Level(rows[y][x]), x % 2 == 1)]
  {
    var g, p := Flatten(rows), y * 384 + x;
    assert |g| % 2 == 0 && p < |g| && g[p] == rows[y][x] && p % 2 == x % 2 by {
      FlatLength(rows);
      FlattenIndex(rows, 384, y, x);
      NibblePosition(y, x);
    }
    PackPixel(g, p);
  }

  /** The inner loop of the packing: pixels (y, 0) to (y, 383) are ORed into the buffer. */
  method PackLine(pixels: array<bv8>, r: Raster, y: nat)
    requires PrinterWide(r) && y < Height(r)
    requires |Flatten(r.rows)| % 2 == 0
    requires pixels[..] == PartialPacking(Flatten(r.rows), y * 384)
    modifies pixels
    ensures pixels[..] == PartialPacking(Flatten(r.rows), (y + 1) * 384)
  {
    for x := 0 to 384
      invariant pixels[..] == PartialPacking(Flatten(r.rows), y * 384 + x)
    {
      PackRasterPixel(r.rows, y, x);
      var gray := r.rows[y][x];
      var level := (255 - gray) >> 4;
      var idx := (y * 384 + x) / 2;
      var placed := if x % 2 == 1 then level else level << 4;
      assert placed == Placed(Level(r.rows[y][x]), x % 2 == 1);
      pixels[idx] := pixels[idx] | placed;
    }
  }

  /** The packing loop of loadImage4BitFromImage, over a grayscale raster 384 pixels wide. */
  method PackFourBit(r: Raster) returns (pixels: array<bv8>)
    requires PrinterWide(r)
    ensures fresh(pixels)
    ensures pixels[..] == Packed(r)
  {
    FlatLength(r.rows);
    var height := |r.rows|;
    pixels := new bv8[(384 * height) / 2](_ => 0);
    PackingStart(Flatten(r.rows));
    for y := 0 to height
      invariant pixels[..] == PartialPacking(Flatten(r.rows), y * 384)
    {
      PackLine(pixels, r, y);
    }
  }

  // Reading the packed levels back.

  /** The nibble of byte `b` that holds an even (high) or odd (low) pixel: Go's `(b >> shift) & 0x0F`. */
  function Nibble(b: bv8, odd: bool): (level: bv8)
    ensures level <= 15
  {
    if odd then b & 0x0F else (b >> 4) & 0x0F
  }

  /** A byte holding two levels gives each of them back. */
  lemma NibblesOfPair(hi: bv8, lo: bv8)
    requires hi <= 15 && lo <= 15
    ensures Nibble(Placed(hi, false) | Placed(lo, true), false) == hi
    ensures Nibble(Placed(hi, false) | Placed(lo, true), true) == lo
  {
  }

  /** Byte `i` of a packed flat sequence holds the levels of pixels `2 * i` and `2 * i + 1`. */
  lemma PackFlatByte(g: seq<bv8>, i: nat)
    requires |g| % 2 == 0 && i < |g| / 2
    ensures 2 * i + 2 <= |g|
    ensures PackFlat(g)[i] == Placed(Level(g[2 * i]), false) | Placed(Level(g[2 * i + 1]), true)
  {
    PartialPackingIndex(g, |g|, i);
  }

  /** The nibble of byte `p / 2` chosen by the parity of `p` is the level of pixel `p`. */
  lemma PackFlatNibble(g: seq<bv8>, p: nat)
    requires |g| % 2 == 0 && p < |g|
    ensures p / 2 < |PackFlat(g)|
    ensures Nibble(PackFlat(g)[p / 2], p % 2 == 1) == Level(g[p])
  {
    var i := p / 2;
    DivOfSplit(i, p % 2);
    PackFlatByte(g, i);
    NibblesOfPair(Level(g[2 * i]), Level(g[2 * i + 1]));
  }

  /** The nibble of pixel (y, x) in the packed raster is the pixel's level. */
  lemma PackedNibbleIsLevel(r: Raster, y: nat, x: nat)
    requires PrinterWide(r) && y < Height(r) && x < 384
    ensures (y * 384 + x) / 2 < |Packed(r)|
    ensures Nibble(Packed(r)[(y * 384 + x) / 2], x % 2 == 1) == Level(r.rows[y][x])
  {
    FlatLength(r.rows);
    NibblePosition(y, x);
    FlattenIndex(r.rows, 384, y, x);
    PackFlatNibble(Flatten(r.rows), y * 384 + x);
  }

  /**
   * A raster of one gray packs to one repeated byte, its level in both
   * nibbles; an all-white raster packs to zeros.
   */
  lemma UniformPacking(r: Raster, gray: bv8)
    requires PrinterWide(r)
    requires forall y, x | 0 <= y < Height(r) && 0 <= x < r.width :: r.rows[y][x] == gray
    ensures forall i | 0 <= i < |Packed(r)| :: Packed(r)[i] == Placed(Level(gray), false) | Placed(Level(gray), true)
    ensures gray == White ==> forall i | 0 <= i < |Packed(r)| :: Packed(r)[i] == 0
  {
    var g := Flatten(r.rows);
    FlatLength(r.rows);
    FlattenConstant(r.rows, gray);
    forall i | 0 <= i < |Packed(r)|
      ensures Packed(r)[i] == Placed(Level(gray), false) | Placed(Level(gray), true)
    {
      PackFlatByte(g, i);
    }
  }

  // renderPreviewFrom4bpp.

  /** The gray shown for a level: `255 - 17 * level`, the sixteen evenly spaced grays from white to black. */
  function Shade(level: bv8): (gray: bv8)
    requires level <= 15
  {
    255 - level * 17
  }

  /** Shading a pixel's level gives a gray within 15 of the original. */
  lemma ShadeOfLevel(gray: bv8)
    ensures gray as int - 15 <= Shade(Level(gray)) as int <= gray as int + 15
  {
  }

  /** Darker pixels never get a lighter shade. */
  lemma LevelMonotone(a: bv8, b: bv8)
    requires a <= b
    ensures Level(b) <= Level(a) && Shade(Level(a)) <= Shade(Level(b))
  {
  }

  /** Pixel (y, x) of the preview of a 4-bpp buffer read as `width` by `height`. */
  function PreviewPixel(pixels: seq<bv8>, width: nat, height: nat, y: nat, x: nat): bv8
    requires width * height <= 2 * |pixels| && y < height && x < width
  {
    CellIndex(width, height, y, x);
    Shade(Nibble(pixels[(y * width + x) / 2], x % 2 == 1))
  }

  /** renderPreviewFrom4bpp: a `height` by `width` gray image, filled row by row. */
  method RenderPreview(pixels: seq<bv8>, width: nat, height: nat) returns (img: array2<bv8>)
    requires width * height <= 2 * |pixels|
    ensures fresh(img)
    ensures img.Length0 == height && img.Length1 == width
    ensures forall y, x | 0 <= y < height && 0 <= x < width :: img[y, x] == PreviewPixel(pixels, width, height, y, x)
  {
    img := new bv8[height, width];
    for y := 0 to height
      invariant forall j, x | 0 <= j < y && 0 <= x < width :: img[j, x] == PreviewPixel(pixels, width, height, j, x)
    {
      for x := 0 to width
        invariant forall j, i | 0 <= j < y && 0 <= i < width :: img[j, i] == PreviewPixel(pixels, width, height, j, i)
        invariant forall i | 0 <= i < x :: img[y, i] == PreviewPixel(pixels, width, height, y, i)
      {
        CellIndex(width, height, y, x);
        var idx := (y * width + x) / 2;
        var val: bv8;
        if x % 2 == 1 {
          val := pixels[idx] & 0x0F;
        } else {
          val := (pixels[idx] >> 4) & 0x0F;
        }
        img[y, x] := 255 - val * 17;
      }
    }
  }

  /** The preview of a packed raster shows each pixel as the shade of its level. */
  lemma PreviewOfPacked(r: Raster, y: nat, x: nat)
    requires PrinterWide(r) && y < Height(r) && x < 384
    ensures 384 * Height(r) <= 2 * |Packed(r)|
    ensures PreviewPixel(Packed(r), 384, Height(r), y, x) == Shade(Level(r.rows[y][x]))
  {
    PackedNibbleIsLevel(r, y, x);
  }
}
