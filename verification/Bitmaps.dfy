/** The Windows `BitmapHolder`: a row-major pixel store built either on the
    legacy `int[]` array or on the newer byte array, and its pixel accessors.

    Pixels are 32-bit words (`bv32`); a null array is `None`. */
module Bitmaps {
  import opened Common
  import opened ColorPacking

  datatype BitmapHolder = BitmapHolder(
    optimized: bool,               // built by the byte-array constructor
    pixels: Option<seq<bv32>>,     // the legacy `int[]` backing store
    pixelData: Option<seq<bv8>>,   // the byte-array backing store
    width: int,
    height: int)

  /** A holder on the `int[]` path whose array covers the `width * height` grid. */
  predicate WellFormed(h: BitmapHolder) {
    && !h.optimized
    && h.pixels.Some?
    && 0 <= h.width && 0 <= h.height
    && |h.pixels.value| == h.width * h.height
  }

  /** The legacy constructor `BitmapHolder(int[] pixels, int width, int height)`. */
  function FromPixels(pixels: Option<seq<bv32>>, width: int, height: int): (h: BitmapHolder)
    ensures !h.optimized && h.pixels == pixels && h.pixelData.None?
    ensures h.width == width && h.height == height
  {
    BitmapHolder(false, pixels, None, width, height)
  }

  /** The optimized constructor `BitmapHolder(byte[] pixels, int width, int height)`. */
  function FromPixelData(pixelData: Option<seq<bv8>>, width: int, height: int): (h: BitmapHolder)
    ensures h.optimized && h.pixelData == pixelData && h.pixels.None?
    ensures h.width == width && h.height == height
  {
    BitmapHolder(true, None, pixelData, width, height)
  }

  /** The `Pixels` getter: the stored array on the `int[]` path; on the
      byte-array path the still unimplemented conversion, which yields null. */
  function Pixels(h: BitmapHolder): (r: Option<seq<bv32>>)
    ensures !h.optimized ==> r == h.pixels
    ensures h.optimized ==> r.None?
  {
    if h.optimized then ToIntPixelArray(h.pixelData) else h.pixels
  }

  /** The `PixelData` getter: the stored bytes on the byte-array path; on the
      `int[]` path the unimplemented conversion, which yields null. */
  function PixelData(h: BitmapHolder): (r: Option<seq<bv8>>)
    ensures h.optimized ==> r == h.pixelData
    ensures !h.optimized ==> r.None?
  {
    if !h.optimized then ToBytePixelArray(h.pixels) else h.pixelData
  }

  /** Index of cell (x, y) in a row-major grid of the given width: `y * Width + x`. */
  function CellIndex(width: int, x: int, y: int): int {
    y * width + x
  }

  /** Inside the grid the index lands inside the `width * height` array. */
  lemma CellIndexInGrid(width: int, height: int, x: int, y: int)
    requires 0 <= x < width && 0 <= y < height
    ensures 0 <= CellIndex(width, x, y) < width * height
  {
    assert y * width <= (height - 1) * width by {
      MulMonotone(y, height - 1, width);
    }
    assert (height - 1) * width == height * width - width;
  }

  lemma MulMonotone(a: int, b: int, w: int)
    requires a <= b && 0 <= w
    ensures a * w <= b * w
  {
    assert b * w - a * w == (b - a) * w;
  }

  /** `SetPixel(int x, int y, int color)` on the `int[]` path, as written: the
      guard tests only `x < Width && y < Height`; a null array or an index
      outside the array raises. The byte-array path is not modelled. */
  function SetPixel(h: BitmapHolder, x: int, y: int, color: bv32): (r: Result<BitmapHolder>)
    requires !h.optimized
    ensures !(x < h.width && y < h.height) ==> r == Ok(h)
    ensures x < h.width && y < h.height && h.pixels.None? ==> r == Raised(NullReference)
    ensures r.Ok? ==> r.value.width == h.width && r.value.height == h.height
    ensures r.Ok? ==> r.value.optimized == h.optimized && r.value.pixelData == h.pixelData
    ensures r.Ok? ==> r.value.pixels.Some? == h.pixels.Some?
  {
    if x < h.width && y < h.height then
      if h.pixels.None? then Raised(NullReference)
      else
        var i := CellIndex(h.width, x, y);
        if 0 <= i < |h.pixels.value| then Ok(h.(pixels := Some(h.pixels.value[i := color])))
        else Raised(IndexOutOfRange)
    else Ok(h)
  }

  /** Inside the grid of a well-formed holder, `SetPixel` succeeds, writes
      `color` at index `y * Width + x`, and leaves every other pixel alone. */
  lemma SetPixelInGrid(h: BitmapHolder, x: int, y: int, color: bv32)
    requires WellFormed(h) && 0 <= x < h.width && 0 <= y < h.height
    ensures var r := SetPixel(h, x, y, color);
      && r.Ok? && r.value.pixels.Some?
      && |r.value.pixels.value| == |h.pixels.value|
      && r.value.pixels.value[y * h.width + x] == color
      && forall i :: 0 <= i < |h.pixels.value| && i != y * h.width + x ==>
           r.value.pixels.value[i] == h.pixels.value[i]
  {
    CellIndexInGrid(h.width, h.height, x, y);
  }

  /** `SetPixel(int x, int y, Color color)`: the colour packed by `ToInt` and
      handed to the `int` overload. */
  function SetPixelColor(h: BitmapHolder, x: int, y: int, color: Color): (r: Result<BitmapHolder>)
    requires !h.optimized
    ensures !(x < h.width && y < h.height) ==> r == Ok(h)
    ensures color.a == 0 ==> r == SetPixel(h, x, y, 0)
  {
    SetPixel(h, x, y, ToInt(color))
  }

  /** Inside the grid of a well-formed holder, the colour overload writes the
      packed colour into cell (x, y) and nothing else. */
  lemma SetPixelColorInGrid(h: BitmapHolder, x: int, y: int, color: Color)
    requires WellFormed(h) && 0 <= x < h.width && 0 <= y < h.height
    ensures var r := SetPixelColor(h, x, y, color);
      && r.Ok? && r.value.pixels.Some?
      && |r.value.pixels.value| == |h.pixels.value|
      && r.value.pixels.value[y * h.width + x] == ToInt(color)
      && forall i :: 0 <= i < |h.pixels.value| && i != y * h.width + x ==>
           r.value.pixels.value[i] == h.pixels.value[i]
  {
    SetPixelInGrid(h, x, y, ToInt(color));
  }

  /** `FreePixels`: drops both backing arrays and keeps everything else. */
  function FreePixels(h: BitmapHolder): (r: BitmapHolder)
    ensures r.pixels.None? && r.pixelData.None?
    ensures r.optimized == h.optimized && r.width == h.width && r.height == h.height
  {
    h.(pixels := None, pixelData := None)
  }

  /** Freeing twice is the same as freeing once. */
  lemma FreePixelsIdempotent(h: BitmapHolder)
    ensures FreePixels(FreePixels(h)) == FreePixels(h)
    ensures Pixels(FreePixels(h)).None? && PixelData(FreePixels(h)).None?
  {
  }

  /** With a negative column and a row below the first, the guard of
      `SetPixel` lets the call through and the write lands on the last cell of
      the previous row: on a 2 x 2 bitmap, `SetPixel(-1, 1, c)` overwrites
      index 1, which is cell (1, 0), exactly as `SetPixel(1, 0, c)` does. */
  lemma SetPixelNegativeColumnWrapsToPreviousRow(p: seq<bv32>, c: bv32)
    requires |p| == 4
    ensures SetPixel(BitmapHolder(false, Some(p), None, 2, 2), -1, 1, c)
         == Ok(BitmapHolder(false, Some(p[1 := c]), None, 2, 2))
    ensures SetPixel(BitmapHolder(false, Some(p), None, 2, 2), 1, 0, c)
         == Ok(BitmapHolder(false, Some(p[1 := c]), None, 2, 2))
  {
    assert CellIndex(2, -1, 1) == 1;
    assert CellIndex(2, 1, 0) == 1;
  }

  /** `SetPixel` with the guard the source evidently intends,
      `0 <= x < Width && 0 <= y < Height`: a call outside the grid changes
      nothing, and on a well-formed holder a call never raises and can change
      only the pixel of cell (x, y). */
  function SetPixelGuarded(h: BitmapHolder, x: int, y: int, color: bv32): (r: Result<BitmapHolder>)
    requires !h.optimized
    ensures !(0 <= x < h.width && 0 <= y < h.height) ==> r == Ok(h)
    ensures r.Ok? ==> r.value.width == h.width && r.value.height == h.height
    ensures r.Ok? ==> r.value.optimized == h.optimized && r.value.pixelData == h.pixelData
    ensures WellFormed(h) ==> r.Ok? && r.value.pixels.Some? && |r.value.pixels.value| == |h.pixels.value|
    ensures WellFormed(h) ==> forall i :: 0 <= i < |h.pixels.value| && h.pixels.value[i] != r.value.pixels.value[i] ==>
      0 <= x < h.width && 0 <= y < h.height && i == y * h.width + x
  {
    if 0 <= x < h.width && 0 <= y < h.height then
      if WellFormed(h) then
        SetPixelInGrid(h, x, y, color);
        SetPixel(h, x, y, color)
      else SetPixel(h, x, y, color)
    else Ok(h)
  }

  /** The corrected guard rejects the call that the source lets through. */
  lemma SetPixelGuardedIgnoresNegativeColumn(p: seq<bv32>, c: bv32)
    requires |p| == 4
    ensures SetPixelGuarded(BitmapHolder(false, Some(p), None, 2, 2), -1, 1, c)
         == Ok(BitmapHolder(false, Some(p), None, 2, 2))
  {
  }
}
