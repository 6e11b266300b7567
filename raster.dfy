/**
 * Grayscale rasters as the driver sees them once an image has been decoded:
 * rows of 8-bit gray values, 0 black and 255 white, and padImageToMinLines.
 */
module Raster {
  /** Printer line width in dots (main.go, `linePixels`). */
  const LinePixels: nat := 384

  /** The firmware refuses to print anything shorter (main.go, `minLines`). */
  const MinLines: nat := 86

  const White: bv8 := 255

  datatype Raster = Raster(width: nat, rows: seq<seq<bv8>>)

  /** Every row is `width` pixels wide. */
  predicate WellFormed(r: Raster) {
    forall y | 0 <= y < |r.rows| :: |r.rows[y]| == r.width
  }

  function Height(r: Raster): nat {
    |r.rows|
  }

  /** A raster the printer takes as it is: well formed and one printer line wide. */
  predicate PrinterWide(r: Raster) {
    WellFormed(r) && r.width == LinePixels
  }

  /** The rows laid end to end: the raster as a flat sequence of pixels, row by row. */
  function Flatten(rows: seq<seq<bv8>>): seq<bv8> {
    if rows == [] then [] else rows[0] + Flatten(rows[1..])
  }

  lemma {:induction false} FlattenLength(rows: seq<seq<bv8>>, width: nat)
    requires forall y | 0 <= y < |rows| :: |rows[y]| == width
    ensures |Flatten(rows)| == width * |rows|
  {
    if rows != [] {
      FlattenLength(rows[1..], width);
      assert width * |rows| == width + width * |rows[1..]|;
    }
  }

  /** Pixel (y, x) sits at position `y * width + x` of the flattened raster. */
  lemma {:induction false} FlattenIndex(rows: seq<seq<bv8>>, width: nat, y: nat, x: nat)
    requires forall j | 0 <= j < |rows| :: |rows[j]| == width
    requires y < |rows| && x < width
    ensures y * width + x < |Flatten(rows)|
    ensures Flatten(rows)[y * width + x] == rows[y][x]
  {
    FlattenLength(rows, width);
    if y == 0 {
    } else {
      FlattenIndex(rows[1..], width, y - 1, x);
      assert y * width + x == width + ((y - 1) * width + x);
    }
  }

  /** A raster whose pixels all have one value flattens to that value everywhere. */
  lemma {:induction false} FlattenConstant(rows: seq<seq<bv8>>, v: bv8)
    requires forall y, x | 0 <= y < |rows| && 0 <= x < |rows[y]| :: rows[y][x] == v
    ensures forall p | 0 <= p < |Flatten(rows)| :: Flatten(rows)[p] == v
  {
    if rows != [] {
      FlattenConstant(rows[1..], v);
      assert Flatten(rows) == rows[0] + Flatten(rows[1..]);
    }
  }

  /** Cell (y, x) of a `width` by `height` grid, counted row by row, lies inside the grid. */
  lemma CellIndex(width: nat, height: nat, y: nat, x: nat)
    requires y < height && x < width
    ensures y * width + x < width * height
  {
    assert y * width + x < (y + 1) * width;
    assert (y + 1) * width <= height * width by {
      MulMonotone(y + 1, height, width);
    }
  }

  lemma MulMonotone(a: nat, b: nat, c: nat)
    requires a <= b
    ensures a * c <= b * c
  {
  }

  function WhiteRows(width: nat, count: nat): (rows: seq<seq<bv8>>)
    ensures |rows| == count
    ensures forall y | 0 <= y < count :: |rows[y]| == width
    ensures forall y, x | 0 <= y < count && 0 <= x < width :: rows[y][x] == White
  {
    seq(count, _ => seq(width, _ => White))
  }

  /**
   * padImageToMinLines: a raster with fewer than `minLines` rows is pasted at
   * the top of a white canvas `minLines` rows high; a taller one is returned
   * as it is.
   */
  function PadToMinLines(r: Raster, minLines: nat): (p: Raster)
    requires WellFormed(r)
    ensures WellFormed(p) && p.width == r.width
    ensures Height(r) >= minLines ==> p == r
    ensures Height(r) < minLines ==> Height(p) == minLines
    ensures p.rows[..Height(r)] == r.rows
    ensures forall y, x | Height(r) <= y < Height(p) && 0 <= x < p.width :: p.rows[y][x] == White
  {
    if |r.rows| >= minLines then r
    else
      var p := Raster(r.width, r.rows + WhiteRows(r.width, minLines - |r.rows|));
      assert p.rows[..|r.rows|] == r.rows;
      p
  }

  /** Padding twice is padding once. */
  lemma PadIdempotent(r: Raster, minLines: nat)
    requires WellFormed(r)
    ensures PadToMinLines(PadToMinLines(r, minLines), minLines) == PadToMinLines(r, minLines)
  {
  }
}
