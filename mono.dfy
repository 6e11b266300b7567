/**
 * 1-bit-per-pixel packing (the packing loop of loadImageMonoFromImage) and its
 * inverse, renderPreviewFrom1bpp.
 *
 * Pixel `p` of a 384-wide raster, counted row by row, is bit `p % 8` of byte
 * `p / 8`; the bit is set when the pixel is dark (gray below 128).
 *
 * Positions are written with the literals 384 (`LinePixels`) and 48 (bytes
 * per line) so that the solver sees linear arithmetic.
 */
module Mono {
  import opened Raster


  predicate Dark(g: bv8) {
    g < 128
  }

  /** Go's `1 << k` for a bit position `k` below 8. */
  function Mask(k: nat): bv8
    requires k < 8
  {
    if k == 0 then 0x01 else if k == 1 then 0x02 else if k == 2 then 0x04
    else if k == 3 then 0x08 else if k == 4 then 0x10 else if k == 5 then 0x20
    else if k == 6 then 0x40 else 0x80
  }

  lemma MaskIsShift(k: nat)
    requires k < 8
    ensures Mask(k) == (1 as bv8) << k
  {
    if k == 0 {} else if k == 1 {} else if k == 2 {} else if k == 3 {}
    else if k == 4 {} else if k == 5 {} else if k == 6 {} else {}
  }

  /** The low `n` bits of byte `i`: bit `k` is set when pixel `8 * i + k` is dark. */
  function Bits(g: seq<bv8>, i: nat, n: nat): bv8
    requires n <= 8 && 8 * i + 8 <= |g|
  {
    if n == 0 then 0
    else Bits(g, i, n - 1) | (if Dark(g[8 * i + n - 1]) then Mask(n - 1) else 0)
  }

  /** How many pixels of byte `i` are among the first `limit`. */
  function Done(i: nat, limit: nat): (n: nat)
    ensures n <= 8
  {
    if limit <= 8 * i then 0 else if limit >= 8 * i + 8 then 8 else limit - 8 * i
  }

  /** Byte `i` once the first `limit` pixels of `g` are packed. */
  function PartialByte(g: seq<bv8>, i: nat, limit: nat): bv8
    requires 8 * i + 8 <= |g|
  {
    Bits(g, i, Done(i, limit))
  }

  /** The first `n` bytes of the output buffer once the first `limit` pixels of `g` are packed. */
  function PackedPrefix(g: seq<bv8>, limit: nat, n: nat): (pixels: seq<bv8>)
    requires 8 * n <= |g|
    ensures |pixels| == n
  {
    if n == 0 then [] else PackedPrefix(g, limit, n - 1) + [PartialByte(g, n - 1, limit)]
  }

  lemma {:induction false} PackedPrefixIndex(g: seq<bv8>, limit: nat, n: nat, i: nat)
    requires 8 * n <= |g| && i < n
    ensures PackedPrefix(g, limit, n)[i] == PartialByte(g, i, limit)
  {
    if i < n - 1 {
      PackedPrefixIndex(g, limit, n - 1, i);
    }
  }

  /** The output buffer once the first `limit` pixels of `g` are packed. */
  function PartialPacking(g: seq<bv8>, limit: nat): (pixels: seq<bv8>)
    requires |g| % 8 == 0
    ensures |pixels| == |g| / 8
  {
    PackedPrefix(g, limit, |g| / 8)
  }

  /** Byte `i` of the buffer is byte `i` as packed so far. */
  lemma PartialPackingIndex(g: seq<bv8>, limit: nat, i: nat)
    requires |g| % 8 == 0 && i < |g| / 8
    ensures 8 * i + 8 <= |g|
    ensures PartialPacking(g, limit)[i] == PartialByte(g, i, limit)
  {
    PackedPrefixIndex(g, limit, |g| / 8, i);
  }

  /** Packing a flat gray sequence whose length is a multiple of eight. */
  function PackFlat(g: seq<bv8>): (pixels: seq<bv8>)
    requires |g| % 8 == 0
  {
    PartialPacking(g, |g|)
  }

  /** The packed raster as a value. */
  function Packed(r: Raster): (pixels: seq<bv8>)
    requires PrinterWide(r)
    ensures |pixels| == 48 * Height(r)
  {
    FlattenLength(r.rows, 384);
    DivOfSplit(48 * |r.rows|, 0);
    assert |Flatten(r.rows)| == 8 * (48 * |r.rows|);
    PackFlat(Flatten(r.rows))
  }

  lemma DivOfSplit(i: nat, k: nat)
    requires k < 8
    ensures (8 * i + k) / 8 == i && (8 * i + k) % 8 == k
  {
  }

  /** Packing pixel `p` leaves every byte but byte `p / 8` as it was. */
  lemma OtherByteUnchanged(g: seq<bv8>, i: nat, p: nat)
    requires 8 * i + 8 <= |g| && i != p / 8
    ensures PartialByte(g, i, p + 1) == PartialByte(g, i, p)
  {
    DivOfSplit(p / 8, p % 8);
    assert Done(i, p + 1) == Done(i, p);
  }

  /** Packing pixel `p` ORs its bit into byte `p / 8`. */
  lemma OwnByteStep(g: seq<bv8>, p: nat)
    requires p < |g| && |g| % 8 == 0
    ensures 8 * (p / 8) + 8 <= |g|
    ensures PartialByte(g, p / 8, p + 1) ==
      PartialByte(g, p / 8, p) | (if Dark(g[p]) then Mask(p % 8) else 0)
  {
    var i, k := p / 8, p % 8;
    DivOfSplit(i, k);
    assert Done(i, p + 1) == k + 1 && Done(i, p) == k;
  }

  /** Before any pixel is packed the buffer is all zero, as `make` leaves it. */
  lemma PackingStart(g: seq<bv8>)
    requires |g| % 8 == 0
    ensures PartialPacking(g, 0) == seq(|g| / 8, _ => 0)
  {
    forall i | 0 <= i < |g| / 8 {
      PartialPackingIndex(g, 0, i);
    }
  }

  lemma PackOthers(g: seq<bv8>, p: nat)
    requires p < |g| && |g| % 8 == 0
    ensures forall i | 0 <= i < |g| / 8 && i != p / 8 :: PartialPacking(g, p + 1)[i] == PartialPacking(g, p)[i]
  {
    forall i | 0 <= i < |g| / 8 && i != p / 8
      ensures PartialPacking(g, p + 1)[i] == PartialPacking(g, p)[i]
    {
      OtherByteUnchanged(g, i, p);
      PartialPackingIndex(g, p, i);
      PartialPackingIndex(g, p + 1, i);
    }
  }

  lemma PackOwn(g: seq<bv8>, p: nat)
    requires p < |g| && |g| % 8 == 0
    ensures p / 8 < |g| / 8
    ensures PartialPacking(g, p + 1)[p / 8] ==
      PartialPacking(g, p)[p / 8] | (if Dark(g[p]) then Mask(p % 8) else 0)
  {
    OwnByteStep(g, p);
    PartialPackingIndex(g, p, p / 8);
    PartialPackingIndex(g, p + 1, p / 8);
  }

  /** Packing pixel `p` ORs its bit into byte `p / 8` of the buffer and changes nothing else. */
  lemma PackPixel(g: seq<bv8>, p: nat)
    requires p < |g| && |g| % 8 == 0
    ensures p / 8 < |g| / 8
    ensures Dark(g[p]) ==>
      PartialPacking(g, p + 1) == PartialPacking(g, p)[p / 8 := PartialPacking(g, p)[p / 8] | Mask(p % 8)]
    ensures !Dark(g[p]) ==> PartialPacking(g, p + 1) == PartialPacking(g, p)
  {
    PackOthers(g, p);
    PackOwn(g, p);
    var before := PartialPacking(g, p);
    if !Dark(g[p]) {
      assert before[p / 8] | 0 == before[p / 8];
    }
  }

  /** Pixel (y, x) of a printer line lies in byte `p / 8` at bit `x % 8`, where `p = 384 * y + x`. */
  lemma BitPosition(y: nat, x: nat)
    requires x < 384
    ensures (y * 384 + x) % 8 == x % 8
    ensures (y * 384 + x) / 8 == 48 * y + x / 8
  {
    DivOfSplit(48 * y + x / 8, x % 8);
  }

  /** One pass of the inner loop, in the loop's own terms: pixel (y, x) of a 384-wide raster. */
  lemma PackRasterPixel(rows: seq<seq<bv8>>, y: nat, x: nat)
    requires PrinterWide(Raster(384, rows))
    requires y < |rows| && x < 384
    ensures |Flatten(rows)| % 8 == 0
    ensures (y * 384 + x) / 8 < |Flatten(rows)| / 8
    ensures rows[y][x] < 128 ==>
      var before := PartialPacking(Flatten(rows), y * 384 + x);
      var idx := (y * 384 + x) / 8;
      PartialPacking(Flatten(rows), y * 384 + x + 1) == before[idx := before[idx] | Mask(x % 8)]
    ensures !(rows[y][x] < 128) ==>
      PartialPacking(Flatten(rows), y * 384 + x + 1) == PartialPacking(Flatten(rows), y * 384 + x)
  {
    var g, p := Flatten(rows), y * 384 + x;
    assert |g| % 8 == 0 && p < |g| && g[p] == rows[y][x] && p % 8 == x % 8 by {
      FlattenLength(rows, 384);
      DivOfSplit(48 * |rows|, 0);
      FlattenIndex(rows, 384, y, x);
      BitPosition(y, x);
    }
    PackPixel(g, p);
  }

  /** The inner loop of the packing: pixels (y, 0) to (y, 383) are ORed into the buffer. */
  method PackLine(pixels: array<bv8>, r: Raster, y: nat)
    requires PrinterWide(r) && y < Height(r)
    requires |Flatten(r.rows)| % 8 == 0
    requires pixels[..] == PartialPacking(Flatten(r.rows), y * 384)
    modifies pixels
    ensures pixels[..] == PartialPacking(Flatten(r.rows), (y + 1) * 384)
  {
    for x := 0 to 384
      invariant pixels[..] == PartialPacking(Flatten(r.rows), y * 384 + x)
    {
      PackRasterPixel(r.rows, y, x);
      var gray := r.rows[y][x];
      if gray < 128 {
        var idx := (y * 384 + x) / 8;
        pixels[idx] := pixels[idx] | Mask(x % 8);
      }
    }
  }

  /** The packing loop of loadImageMonoFromImage, over a grayscale raster 384 pixels wide. */
  method PackMono(r: Raster) returns (pixels: array<bv8>)
    requires PrinterWide(r)
    ensures fresh(pixels)
    ensures pixels[..] == Packed(r)
  {
    FlattenLength(r.rows, 384);
    var height := |r.rows|;
    DivOfSplit(48 * height, 0);
    pixels := new bv8[(384 * height) / 8](_ => 0);
    PackingStart(Flatten(r.rows));
    for y := 0 to height
      invariant pixels[..] == PartialPacking(Flatten(r.rows), y * 384)
    {
      PackLine(pixels, r, y);
    }
  }

  // Reading the packed bits back.

  lemma MaskMeets(j: nat, k: nat)
    requires j < 8 && k < 8
    ensures (Mask(j) & Mask(k) != 0) <==> j == k
  {
    if j == 0 {} else if j == 1 {} else if j == 2 {} else if j == 3 {}
    else if j == 4 {} else if j == 5 {} else if j == 6 {} else {}
  }

  lemma OrTest(a: bv8, b: bv8, m: bv8)
    ensures ((a | b) & m != 0) <==> (a & m != 0) || (b & m != 0)
  {
  }

  /** Bit `k` of the low `n` bits of byte `i` is set exactly when `k < n` and pixel `8 * i + k` is dark. */
  lemma {:induction false} BitsTest(g: seq<bv8>, i: nat, n: nat, k: nat)
    requires n <= 8 && 8 * i + 8 <= |g| && k < 8
    ensures (Bits(g, i, n) & Mask(k) != 0) <==> k < n && Dark(g[8 * i + k])
  {
    if n > 0 {
      BitsTest(g, i, n - 1, k);
      if Dark(g[8 * i + n - 1]) {
        MaskMeets(n - 1, k);
        OrTest(Bits(g, i, n - 1), Mask(n - 1), Mask(k));
      } else {
        assert Bits(g, i, n - 1) | 0 == Bits(g, i, n - 1);
      }
    }
  }

  /** Byte `i` of a packed flat sequence. */
  lemma PackFlatByte(g: seq<bv8>, i: nat)
    requires |g| % 8 == 0 && i < |g| / 8
    ensures 8 * i + 8 <= |g|
    ensures PackFlat(g)[i] == Bits(g, i, 8)
  {
    PartialPackingIndex(g, |g|, i);
  }

  /** Bit `p % 8` of byte `p / 8` of a packed flat sequence is set exactly when pixel `p` is dark. */
  lemma PackFlatBit(g: seq<bv8>, p: nat)
    requires |g| % 8 == 0 && p < |g|
    ensures p / 8 < |PackFlat(g)|
    ensures (PackFlat(g)[p / 8] & Mask(p % 8) != 0) <==> Dark(g[p])
  {
    PackFlatByte(g, p / 8);
    BitsTest(g, p / 8, 8, p % 8);
  }

  /** The flat view of a raster 384 pixels wide, whose length is a multiple of eight. */
  lemma PackedIsFlat(r: Raster)
    requires PrinterWide(r)
    ensures |Flatten(r.rows)| == 384 * Height(r) && |Flatten(r.rows)| % 8 == 0
    ensures Packed(r) == PackFlat(Flatten(r.rows))
  {
    FlattenLength(r.rows, 384);
    DivOfSplit(48 * |r.rows|, 0);
  }

  /**
   * Bit `x % 8` of byte `(384 * y + x) / 8` of the packed raster is set
   * exactly when pixel (y, x) is darker than 128.
   */
  lemma PackedBitIsDark(r: Raster, y: nat, x: nat)
    requires PrinterWide(r) && y < Height(r) && x < 384
    ensures (y * 384 + x) / 8 < |Packed(r)|
    ensures (Packed(r)[(y * 384 + x) / 8] & Mask(x % 8) != 0) <==> r.rows[y][x] < 128
  {
    PackedIsFlat(r);
    BitPosition(y, x);
    FlattenIndex(r.rows, 384, y, x);
    PackFlatBit(Flatten(r.rows), y * 384 + x);
  }

  /** The value of the low `n` bits all set. */
  function Ones(n: nat): bv8
    requires n <= 8
  {
    if n == 0 then 0x00 else if n == 1 then 0x01 else if n == 2 then 0x03
    else if n == 3 then 0x07 else if n == 4 then 0x0F else if n == 5 then 0x1F
    else if n == 6 then 0x3F else if n == 7 then 0x7F else 0xFF
  }

  lemma {:induction false} BitsOfUniform(g: seq<bv8>, i: nat, n: nat, dark: bool)
    requires n <= 8 && 8 * i + 8 <= |g|
    requires forall p | 8 * i <= p < 8 * i + n :: Dark(g[p]) == dark
    ensures Bits(g, i, n) == if dark then Ones(n) else 0
  {
    if n > 0 {
      BitsOfUniform(g, i, n - 1, dark);
      assert Dark(g[8 * i + n - 1]) == dark;
    }
  }

  /** Every packed byte of a raster whose pixels are all dark, or all light, is 0xFF, or 0x00. */
  lemma UniformPacking(r: Raster, dark: bool)
    requires PrinterWide(r)
    requires forall y, x | 0 <= y < Height(r) && 0 <= x < r.width :: Dark(r.rows[y][x]) == dark
    ensures forall i | 0 <= i < |Packed(r)| :: Packed(r)[i] == if dark then 0xFF else 0x00
  {
    var g := Flatten(r.rows);
    PackedIsFlat(r);
    FlattenUniform(r.rows, dark);
    forall i | 0 <= i < |Packed(r)|
      ensures Packed(r)[i] == if dark then 0xFF else 0x00
    {
      PackFlatByte(g, i);
      BitsOfUniform(g, i, 8, dark);
    }
  }

  lemma {:induction false} FlattenUniform(rows: seq<seq<bv8>>, dark: bool)
    requires forall y, x | 0 <= y < |rows| && 0 <= x < |rows[y]| :: Dark(rows[y][x]) == dark
    ensures forall p | 0 <= p < |Flatten(rows)| :: Dark(Flatten(rows)[p]) == dark
  {
    if rows != [] {
      FlattenUniform(rows[1..], dark);
      assert Flatten(rows) == rows[0] + Flatten(rows[1..]);
    }
  }

  // renderPreviewFrom1bpp.

  /**
   * Pixel (y, x) of the preview of a 1-bpp buffer read as `width` by `height`:
   * black when bit `x % 8` of byte `(y * width + x) / 8` is set, white otherwise.
   */
  function PreviewPixel(pixels: seq<bv8>, width: nat, height: nat, y: nat, x: nat): (gray: bv8)
    requires width * height <= 8 * |pixels| && y < height && x < width
    ensures gray == 0 || gray == 255
  {
    CellIndex(width, height, y, x);
    if pixels[(y * width + x) / 8] & Mask(x % 8) != 0 then 0 else 255
  }

  /** renderPreviewFrom1bpp: a `height` by `width` gray image, filled row by row. */
  method RenderPreview(pixels: seq<bv8>, width: nat, height: nat) returns (img: array2<bv8>)
    requires width * height <= 8 * |pixels|
    ensures fresh(img)
    ensures img.Length0 == height && img.Length1 == width
    ensures forall y, x | 0 <= y < height && 0 <= x < width :: img[y, x] == PreviewPixel(pixels, width, height, y, x)
  {
    img := new bv8[height, width];
    for y := 0 to height
      invariant forall j, x | 0 <= j < y && 0 <= x < width :: img[j, x] == PreviewPixel(pixels, width, height, j, x)
    {
      for x := 0 to width
        invariant forall j, i | 0 <= j < y && 0 <= i < width :: img[j, i] == PreviewPixel(pixels, width, height, j, i)
        invariant forall i | 0 <= i < x :: img[y, i] == PreviewPixel(pixels, width, height, y, i)
      {
        CellIndex(width, height, y, x);
        var idx := (y * width + x) / 8;
        if pixels[idx] & Mask(x % 8) != 0 {
          img[y, x] := 0;
        } else {
          img[y, x] := 255;
        }
      }
    }
  }

  /** The preview of a packed raster shows each pixel black when it is darker than 128 and white otherwise. */
  lemma PreviewOfPacked(r: Raster, y: nat, x: nat)
    requires PrinterWide(r) && y < Height(r) && x < 384
    ensures 384 * Height(r) <= 8 * |Packed(r)|
    ensures PreviewPixel(Packed(r), 384, Height(r), y, x) == if r.rows[y][x] < 128 then 0 else 255
  {
    PackedBitIsDark(r, y, x);
  }
}
