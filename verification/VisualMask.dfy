/** Visual comparison: ignored rectangles are painted over the baseline with the
    current image, and what is left is measured as a mean difference of luma. */
module VisualMask {
  import opened Common

  /** In page coordinates, which need not be whole pixels. */
  datatype Rectangle = Rectangle(x: real, y: real, width: real, height: real)

  function Ceil(x: real): int { -((-x).Floor) }

  /** The rectangle reaches into pixel (x, y), the unit square from (x, y) to (x + 1, y + 1). */
  predicate Touches(r: Rectangle, x: int, y: int) {
    && r.x < (x + 1) as real && x as real < r.x + r.width
    && r.y < (y + 1) as real && y as real < r.y + r.height
  }

  /** Byte `k` of an image `width` pixels wide belongs to a pixel some rectangle reaches into. */
  predicate Masked(rectangles: seq<Rectangle>, width: nat, k: nat)
    requires width > 0
  {
    exists i | 0 <= i < |rectangles| :: Touches(rectangles[i], (k / 4) % width, (k / 4) / width)
  }

  /** Bytes past the end read as zero. */
  function At(data: seq<byte>, k: nat): byte {
    if k < |data| then data[k] else 0
  }

  /** The image after masking. */
  ghost predicate IsMasking(before: seq<byte>, after: seq<byte>, source: seq<byte>,
                            rectangles: seq<Rectangle>, width: nat) {
    && |after| == |before|
    && forall k | 0 <= k < |before| && width > 0 ::
         after[k] == if Masked(rectangles, width, k) then At(source, k) else before[k]
  }

  class Png {
    const width: nat
    const height: nat
    const data: array<byte>

    predicate Valid() { data.Length == 4 * (width * height) }

    constructor (width: nat, height: nat)
      ensures this.width == width && this.height == height
      ensures Valid() && fresh(data)
    {
      this.width, this.height := width, height;
      data := new byte[4 * (width * height)](_ => 0);
    }
  }

  /** Pixel p lies in columns [left, right) and rows [top, bottom). */
  predicate InBlock(p: nat, width: nat, left: int, right: int, top: int, bottom: int)
    requires width > 0
  {
    top <= p / width < bottom && left <= p % width < right
  }

  lemma RowOfPixel(p: nat, width: nat, y: nat, left: nat, right: nat)
    requires width > 0 && right <= width
    ensures y * width + left <= p < y * width + right <==> p / width == y && left <= p % width < right
  {
    var q, m := p / width, p % width;
    assert p == q * width + m;
    if q < y {
      assert (q + 1) * width <= y * width;
    } else if q > y {
      assert (y + 1) * width <= q * width;
    }
  }

  lemma RowFits(width: nat, height: nat, y: nat)
    requires y < height
    ensures y * width + width <= width * height
  {
    assert (y + 1) * width <= height * width;
  }

  lemma BlockGrows(p: nat, width: nat, left: nat, right: nat, top: nat, y: nat)
    requires width > 0 && right <= width && top <= y
    ensures InBlock(p, width, left, right, top, y + 1)
       <==> InBlock(p, width, left, right, top, y) || y * width + left <= p < y * width + right
  {
    RowOfPixel(p, width, y, left, right);
  }

  lemma RowInImage(p: nat, width: nat, height: nat)
    requires width > 0 && p < width * height
    ensures p / width < height
  {
    assert p == p / width * width + p % width;
    assert height * width <= p / width * width || p / width < height;
  }

  lemma FloorMeans(v: real, n: int)
    ensures v.Floor <= n <==> v < (n + 1) as real
    ensures n < Ceil(v) <==> n as real < v
  {
  }

  function Left(r: Rectangle): nat { Max(0, r.x.Floor) }
  function Top(r: Rectangle): nat { Max(0, r.y.Floor) }
  function Right(r: Rectangle, width: nat): int { Min(width, Ceil(r.x + r.width)) }
  function Bottom(r: Rectangle, height: nat): int { Min(height, Ceil(r.y + r.height)) }

  /** Rounding outwards and clipping select exactly the pixels the rectangle reaches into. */
  lemma ClippedBlockIsTouched(r: Rectangle, p: nat, width: nat, height: nat)
    requires width > 0 && p < width * height
    ensures InBlock(p, width, Left(r), Right(r, width), Top(r), Bottom(r, height))
       <==> Touches(r, p % width, p / width)
  {
    RowInImage(p, width, height);
    FloorMeans(r.x, p % width);
    FloorMeans(r.y, p / width);
    FloorMeans(r.x + r.width, p % width);
    FloorMeans(r.y + r.height, p / width);
  }

  /** One row of a rectangle. */
  method MaskRow(png: Png, source: Png, y: nat, left: nat, right: nat)
    requires png.Valid() && y < png.height && right <= png.width && source.data != png.data
    modifies png.data
    ensures forall k | 0 <= k < png.data.Length ::
      png.data[k] == if y * png.width + left <= k / 4 < y * png.width + right then At(source.data[..], k)
                     else old(png.data[k])
  {
    RowFits(png.width, png.height, y);
    ghost var base := y * png.width;
    var x := left;
    while x < right
      invariant left <= x && (x <= right || x == left)
      invariant forall k | 0 <= k < png.data.Length ::
        png.data[k] == if base + left <= k / 4 < base + x then At(source.data[..], k) else old(png.data[k])
    {
      var offset := (y * png.width + x) * 4;
      for channel := 0 to 4
        invariant forall k | 0 <= k < png.data.Length ::
          png.data[k] == if base + left <= k / 4 < base + x || offset <= k < offset + channel
                         then At(source.data[..], k) else old(png.data[k])
      {
        png.data[offset + channel] :=
          if offset + channel < source.data.Length then source.data[offset + channel] else 0;
      }
      x := x + 1;
    }
  }

  method MaskBlock(png: Png, source: Png, left: nat, right: int, top: nat, bottom: int)
    requires png.Valid() && png.width > 0 && right <= png.width && bottom <= png.height
    requires source.data != png.data
    modifies png.data
    ensures forall k | 0 <= k < png.data.Length ::
      png.data[k] == if InBlock(k / 4, png.width, left, right, top, bottom) then At(source.data[..], k)
                     else old(png.data[k])
  {
    if right <= 0 { return; }
    var y := top;
    while y < bottom
      invariant top <= y && (y <= bottom || y == top)
      invariant forall k | 0 <= k < png.data.Length ::
        png.data[k] == if InBlock(k / 4, png.width, left, right, top, y) then At(source.data[..], k)
                       else old(png.data[k])
    {
      forall p: nat {
        BlockGrows(p, png.width, left, right, top, y);
      }
      MaskRow(png, source, y, left, right);
      y := y + 1;
    }
  }

  lemma MaskedByOneMore(rectangles: seq<Rectangle>, r: Rectangle, width: nat, k: nat)
    requires width > 0
    ensures Masked(rectangles + [r], width, k)
       <==> Masked(rectangles, width, k) || Touches(r, (k / 4) % width, (k / 4) / width)
  {
    var x, y := (k / 4) % width, (k / 4) / width;
    if Touches(r, x, y) { assert (rectangles + [r])[|rectangles|] == r; }
    if Masked(rectangles, width, k) {
      var i :| 0 <= i < |rectangles| && Touches(rectangles[i], x, y);
      assert (rectangles + [r])[i] == rectangles[i];
    }
  }

  ghost predicate IsBlockMasking(before: seq<byte>, after: seq<byte>, source: seq<byte>, r: Rectangle,
                                 width: nat, height: nat) {
    && |after| == |before|
    && forall k | 0 <= k < |before| && width > 0 ::
         after[k] == if InBlock(k / 4, width, Left(r), Right(r, width), Top(r), Bottom(r, height))
                     then At(source, k) else before[k]
  }

  lemma MaskingOneMore(before: seq<byte>, middle: seq<byte>, after: seq<byte>, source: seq<byte>,
                       rectangles: seq<Rectangle>, r: Rectangle, width: nat, height: nat)
    requires |before| == 4 * (width * height)
    requires IsMasking(before, middle, source, rectangles, width)
    requires IsBlockMasking(middle, after, source, r, width, height)
    ensures IsMasking(before, after, source, rectangles + [r], width)
  {
    forall k: nat | k < |before| && width > 0
      ensures after[k] == if Masked(rectangles + [r], width, k) then At(source, k) else before[k]
    {
      MaskedByOneMore(rectangles, r, width, k);
      ClippedBlockIsTouched(r, k / 4, width, height);
    }
  }

  /** Paints every pixel that some rectangle reaches into with the pixel of
      `source` at the same place, and no other. */
  method RectanglePixels(png: Png, rectangles: seq<Rectangle>, source: Png)
    requires png.Valid() && source.data != png.data
    modifies png.data
    ensures IsMasking(old(png.data[..]), png.data[..], source.data[..], rectangles, png.width)
    ensures forall k | 0 <= k < png.data.Length && png.width > 0 ::
      var x, y := (k / 4) % png.width, (k / 4) / png.width;
      var masked := exists i | 0 <= i < |rectangles| :: Touches(rectangles[i], x, y);
      && (masked && k < source.data.Length ==> png.data[k] == source.data[k])
      && (masked && k >= source.data.Length ==> png.data[k] == 0)
      && (!masked ==> png.data[k] == old(png.data[k]))
  {
    for i := 0 to |rectangles|
      invariant IsMasking(old(png.data[..]), png.data[..], source.data[..], rectangles[..i], png.width)
    {
      var r := rectangles[i];
      ghost var middle := png.data[..];
      if png.width > 0 {
        MaskBlock(png, source, Left(r), Right(r, png.width), Top(r), Bottom(r, png.height));
      }
      MaskingOneMore(old(png.data[..]), middle, png.data[..], source.data[..], rectangles[..i], r,
                     png.width, png.height);
      assert rectangles[..i] + [r] == rectangles[..i + 1];
    }
    assert rectangles[..|rectangles|] == rectangles;
  }

  // The measure.

  /** The grey level of the pixel at `offset`. */
  function Luma(data: seq<byte>, offset: nat): real {
    0.2126 * (At(data, offset) as real) + 0.7152 * (At(data, offset + 1) as real)
      + 0.0722 * (At(data, offset + 2) as real)
  }

  function Abs(x: real): real { if x < 0.0 then -x else x }

  function PixelDifference(first: seq<byte>, second: seq<byte>, offset: nat): real {
    Abs(Luma(first, offset) - Luma(second, offset)) / 255.0
  }

  /** Over the first `n` pixels. */
  function TotalDifference(first: seq<byte>, second: seq<byte>, n: nat): real {
    if n == 0 then 0.0
    else TotalDifference(first, second, n - 1) + PixelDifference(first, second, 4 * (n - 1))
  }

  /** The mean over `pixels` pixels; an empty image differs from nothing. */
  function Difference(first: seq<byte>, second: seq<byte>, pixels: nat): real {
    if pixels == 0 then 0.0 else TotalDifference(first, second, pixels) / pixels as real
  }

  /** Of a single pixel the measure is the difference of the weighted colours; its
      transparency does not count. */
  lemma OnePixelDifference(a: seq<byte>, b: seq<byte>)
    requires |a| == |b| == 4
    ensures var d := 0.2126 * (a[0] as real - b[0] as real) + 0.7152 * (a[1] as real - b[1] as real)
                     + 0.0722 * (a[2] as real - b[2] as real);
            Difference(a, b, 1) == (if d >= 0.0 then d else -d) / 255.0
  {
    assert TotalDifference(a, b, 1) == TotalDifference(a, b, 0) + PixelDifference(a, b, 0);
  }

  lemma SamePixelLuma(a: seq<byte>, c: seq<byte>, p: nat, q: nat)
    requires 4 * p + 4 <= |a| && 4 * q + 4 <= |c| && a[4 * p..4 * p + 4] == c[4 * q..4 * q + 4]
    ensures Luma(a, 4 * p) == Luma(c, 4 * q)
  {
    var x, y := a[4 * p..4 * p + 4], c[4 * q..4 * q + 4];
    assert x[0] == y[0] && x[1] == y[1] && x[2] == y[2];
  }

  lemma SamePixelDifference(a: seq<byte>, b: seq<byte>, c: seq<byte>, d: seq<byte>, p: nat, q: nat)
    requires 4 * p + 4 <= |a| && 4 * p + 4 <= |b| && 4 * q + 4 <= |c| && 4 * q + 4 <= |d|
    requires a[4 * p..4 * p + 4] == c[4 * q..4 * q + 4] && b[4 * p..4 * p + 4] == d[4 * q..4 * q + 4]
    ensures PixelDifference(a, b, 4 * p) == PixelDifference(c, d, 4 * q)
  {
    SamePixelLuma(a, c, p, q);
    SamePixelLuma(b, d, p, q);
  }

  lemma BackSlice(a: seq<byte>, c: seq<byte>, p: nat, i: nat)
    requires |a| == 4 * p && 4 * i + 4 <= |c|
    ensures (a + c)[4 * (p + i)..4 * (p + i) + 4] == c[4 * i..4 * i + 4]
  {
  }

  lemma LastOfBack(a: seq<byte>, b: seq<byte>, c: seq<byte>, d: seq<byte>, p: nat, q: nat)
    requires |a| == |b| == 4 * p && 0 < 4 * q <= |c| && |c| == |d|
    ensures PixelDifference(a + c, b + d, 4 * (p + q - 1)) == PixelDifference(c, d, 4 * (q - 1))
  {
    BackSlice(a, c, p, q - 1);
    BackSlice(b, d, p, q - 1);
    SamePixelDifference(a + c, b + d, c, d, p + q - 1, q - 1);
  }

  lemma {:induction false} TotalOfParts(a: seq<byte>, b: seq<byte>, c: seq<byte>, d: seq<byte>, p: nat, q: nat)
    requires |a| == |b| == 4 * p && 4 * q <= |c| == |d|
    ensures TotalDifference(a + c, b + d, p + q) == TotalDifference(a, b, p) + TotalDifference(c, d, q)
  {
    if q > 0 {
      TotalOfParts(a, b, c, d, p, q - 1);
      LastOfBack(a, b, c, d, p, q);
    } else {
      TotalOfFront(a, b, c, d, p);
    }
  }

  lemma {:induction false} TotalOfFront(a: seq<byte>, b: seq<byte>, c: seq<byte>, d: seq<byte>, p: nat)
    requires |a| == |b| && 4 * p <= |a|
    ensures TotalDifference(a + c, b + d, p) == TotalDifference(a, b, p)
  {
    if p > 0 {
      TotalOfFront(a, b, c, d, p - 1);
      assert (a + c)[4 * (p - 1)..4 * (p - 1) + 4] == a[4 * (p - 1)..4 * (p - 1) + 4];
      assert (b + d)[4 * (p - 1)..4 * (p - 1) + 4] == b[4 * (p - 1)..4 * (p - 1) + 4];
      SamePixelDifference(a + c, b + d, a, b, p - 1, p - 1);
    }
  }

  /** And of an image put together of two it is the mean of theirs, each counted by its
      number of pixels: so in all it is the mean over the single pixels. */
  lemma DifferenceOfParts(a: seq<byte>, b: seq<byte>, c: seq<byte>, d: seq<byte>, p: nat, q: nat)
    requires |a| == |b| == 4 * p && |c| == |d| == 4 * q
    ensures Difference(a + c, b + d, p + q) * (p + q) as real
         == Difference(a, b, p) * p as real + Difference(c, d, q) * q as real
  {
    ScaledParts(a, b, p, c, d, q);
    Scaled(a + c, b + d, p + q);
    TotalOfParts(a, b, c, d, p, q);
  }

  lemma ScaledParts(a: seq<byte>, b: seq<byte>, p: nat, c: seq<byte>, d: seq<byte>, q: nat)
    ensures Difference(a, b, p) * p as real + Difference(c, d, q) * q as real
         == TotalDifference(a, b, p) + TotalDifference(c, d, q)
  {
    Scaled(a, b, p);
    Scaled(c, d, q);
  }

  lemma Scaled(first: seq<byte>, second: seq<byte>, pixels: nat)
    ensures Difference(first, second, pixels) * pixels as real == TotalDifference(first, second, pixels)
  {
    if pixels > 0 {
      Quotient(TotalDifference(first, second, pixels), pixels as real);
    }
  }

  lemma Quotient(total: real, n: real)
    requires n > 0.0
    ensures total / n * n == total
  {
  }

  method PerceptualDifference(first: Png, second: Png) returns (difference: real)
    requires first.Valid()
    ensures difference == Difference(first.data[..], second.data[..], first.width * first.height)
  {
    var total := 0.0;
    var pixels := first.width * first.height;
    var offset: nat := 0;
    ghost var n: nat := 0;
    while offset < first.data.Length
      invariant offset == 4 * n && n <= pixels
      invariant total == TotalDifference(first.data[..], second.data[..], n)
    {
      total := total + PixelDifference(first.data[..], second.data[..], offset);
      offset, n := offset + 4, n + 1;
    }
    return if pixels == 0 then 0.0 else total / pixels as real;
  }

  lemma LumaRange(data: seq<byte>, offset: nat)
    ensures 0.0 <= Luma(data, offset) <= 255.0
  {
  }

  lemma {:induction false} TotalRange(first: seq<byte>, second: seq<byte>, n: nat)
    ensures 0.0 <= TotalDifference(first, second, n) <= n as real
  {
    if n > 0 {
      TotalRange(first, second, n - 1);
      LumaRange(first, 4 * (n - 1));
      LumaRange(second, 4 * (n - 1));
    }
  }

  lemma {:induction false} TotalSymmetric(first: seq<byte>, second: seq<byte>, n: nat)
    ensures TotalDifference(first, second, n) == TotalDifference(second, first, n)
  {
    if n > 0 { TotalSymmetric(first, second, n - 1); }
  }

  lemma {:induction false} TotalZero(first: seq<byte>, second: seq<byte>, n: nat)
    ensures TotalDifference(first, second, n) == 0.0
       <==> forall p | 0 <= p < n :: Luma(first, 4 * p) == Luma(second, 4 * p)
  {
    if n > 0 {
      TotalZero(first, second, n - 1);
      TotalRange(first, second, n - 1);
    }
  }

  lemma MeanIsMonotone(a: real, b: real, pixels: nat)
    requires a <= b && pixels > 0
    ensures a / pixels as real <= b / pixels as real
    ensures a / pixels as real == 0.0 <==> a == 0.0
    ensures pixels as real / pixels as real == 1.0
  {
    var p := pixels as real;
    assert a / p * p == a && b / p * p == b;
  }

  /** The measure is a number from 0 to 1, symmetric, and 0 exactly when every
      pixel has the same luma in both images. */
  lemma DifferenceIsAMeasure(first: seq<byte>, second: seq<byte>, pixels: nat)
    ensures 0.0 <= Difference(first, second, pixels) <= 1.0
    ensures Difference(first, second, pixels) == Difference(second, first, pixels)
    ensures Difference(first, second, pixels) == 0.0
       <==> forall p | 0 <= p < pixels :: Luma(first, 4 * p) == Luma(second, 4 * p)
  {
    if pixels > 0 {
      var total := TotalDifference(first, second, pixels);
      TotalRange(first, second, pixels);
      TotalSymmetric(first, second, pixels);
      TotalZero(first, second, pixels);
      MeanIsMonotone(0.0, total, pixels);
      MeanIsMonotone(total, pixels as real, pixels);
    }
  }

  /** Masking moves every pixel either not at all or onto the current image. */
  lemma MaskedPixel(before: seq<byte>, after: seq<byte>, current: seq<byte>,
                    rectangles: seq<Rectangle>, width: nat, p: nat)
    requires width > 0 && IsMasking(before, after, current, rectangles, width) && 4 * p + 3 < |before|
    ensures PixelDifference(after, current, 4 * p)
         == if Masked(rectangles, width, 4 * p) then 0.0 else PixelDifference(before, current, 4 * p)
  {
    assert forall k | 4 * p <= k < 4 * p + 3 ::
      after[k] == if Masked(rectangles, width, 4 * p) then At(current, k) else before[k];
  }

  /** The sum over the pixels no rectangle reaches into. */
  ghost function UnmaskedTotal(before: seq<byte>, current: seq<byte>, rectangles: seq<Rectangle>,
                               width: nat, n: nat): real
    requires width > 0
  {
    if n == 0 then 0.0
    else
      var last := if Masked(rectangles, width, 4 * (n - 1)) then 0.0
                  else PixelDifference(before, current, 4 * (n - 1));
      UnmaskedTotal(before, current, rectangles, width, n - 1) + last
  }

  lemma {:induction false} MaskedTotal(before: seq<byte>, after: seq<byte>, current: seq<byte>,
                                       rectangles: seq<Rectangle>, width: nat, n: nat)
    requires width > 0 && IsMasking(before, after, current, rectangles, width) && 4 * n <= |before|
    ensures TotalDifference(after, current, n) == UnmaskedTotal(before, current, rectangles, width, n)
    ensures TotalDifference(after, current, n) <= TotalDifference(before, current, n)
  {
    if n > 0 {
      MaskedTotal(before, after, current, rectangles, width, n - 1);
      MaskedPixel(before, after, current, rectangles, width, n - 1);
    }
  }

  /** Masking never makes two images look less alike, and afterwards the measure
      counts the unmasked pixels and nothing else. */
  lemma MaskingNeverIncreases(before: seq<byte>, after: seq<byte>, current: seq<byte>,
                              rectangles: seq<Rectangle>, width: nat, height: nat)
    requires IsMasking(before, after, current, rectangles, width) && |before| == 4 * (width * height)
    ensures Difference(after, current, width * height) <= Difference(before, current, width * height)
    ensures width * height > 0 ==>
      Difference(after, current, width * height)
        == UnmaskedTotal(before, current, rectangles, width, width * height) / (width * height) as real
  {
    if width * height > 0 {
      var pixels := width * height;
      assert width > 0;
      MaskedTotal(before, after, current, rectangles, width, pixels);
      MeanIsMonotone(TotalDifference(after, current, pixels), TotalDifference(before, current, pixels), pixels);
    }
  }

  /** What the runner does with a baseline of the same size: the baseline as
      read is lost, and the measure is taken of the masked one. */
  method CompareMasked(baseline: Png, current: Png, ignored: seq<Rectangle>) returns (difference: real)
    requires baseline.Valid() && current.Valid() && baseline.data != current.data
    requires baseline.width == current.width && baseline.height == current.height
    modifies baseline.data
    ensures 0.0 <= difference
         <= Difference(old(baseline.data[..]), current.data[..], baseline.width * baseline.height) <= 1.0
    ensures (forall k | 0 <= k < baseline.data.Length && baseline.width > 0
               && !Masked(ignored, baseline.width, k) :: old(baseline.data[k]) == current.data[k])
            ==> difference == 0.0
  {
    RectanglePixels(baseline, ignored, current);
    difference := PerceptualDifference(baseline, current);
    var pixels := baseline.width * baseline.height;
    MaskingNeverIncreases(old(baseline.data[..]), baseline.data[..], current.data[..], ignored,
                          baseline.width, baseline.height);
    DifferenceIsAMeasure(baseline.data[..], current.data[..], pixels);
    DifferenceIsAMeasure(old(baseline.data[..]), current.data[..], pixels);
    if forall k | 0 <= k < baseline.data.Length && baseline.width > 0
         && !Masked(ignored, baseline.width, k) :: old(baseline.data[k]) == current.data[k] {
      assert baseline.data[..] == current.data[..];
    }
  }
}
