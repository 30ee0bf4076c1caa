/**
 * Bitmaps as the image pipeline handles them: a fixed width and height, the
 * ARGB pixel words in row-major order, and the `recycled` flag that marks a
 * bitmap whose memory has been handed back. Every stage consumes its input
 * (recycles it) and hands out a fresh bitmap.
 */
module Bitmaps {
  import opened Wrappers

  /**
   * An ARGB_8888 pixel word: alpha in the top byte, then red, green, blue. The
   * source keeps it in a signed 32-bit `Int`; here the same 32 bits are read
   * as an unsigned number.
   */
  type Pixel = x: int | 0 <= x < 0x1_0000_0000

  class Bitmap {
    const width: int
    const height: int
    /** The pixel at column x, row y is `pixels[y * width + x]`. */
    var pixels: seq<Pixel>
    var recycled: bool

    ghost predicate Valid()
      reads this
    {
      0 < width && 0 < height && |pixels| == width * height
    }

    /** `Bitmap.createBitmap` followed by writing the given pixels. */
    constructor (width: int, height: int, pixels: seq<Pixel>)
      requires 0 < width && 0 < height && |pixels| == width * height
      ensures this.width == width && this.height == height && this.pixels == pixels
      ensures !recycled && Valid()
    {
      this.width := width;
      this.height := height;
      this.pixels := pixels;
      recycled := false;
    }

    /** `recycle()`: the bitmap may no longer be used; its dimensions and contents are left as they were. */
    method Recycle()
      modifies this
      ensures recycled && pixels == old(pixels)
    {
      recycled := true;
    }
  }

  function Max(a: int, b: int): (m: int)
    ensures m >= a && m >= b && (m == a || m == b)
  {
    if a >= b then a else b
  }

  function Min(a: int, b: int): (m: int)
    ensures m <= a && m <= b && (m == a || m == b)
  {
    if a <= b then a else b
  }

  lemma MulMono(a: int, b: int, c: int)
    requires a <= b && 0 <= c
    ensures a * c <= b * c
  {
    assert b * c - a * c == (b - a) * c;
  }

  /** Dividing both sides of a * c <= b * c by a positive c. */
  lemma MulCancel(a: int, b: int, c: int)
    requires 0 < c && a * c <= b * c
    ensures a <= b
  {
    if a > b {
      MulMono(b + 1, a, c);
    }
  }

  lemma DivModUnique(n: int, w: int, q: int, r: int)
    requires 0 < w && 0 <= r < w && n == q * w + r
    ensures n / w == q && n % w == r
  {
    var q', r' := n / w, n % w;
    if q' < q {
      MulMono(q' + 1, q, w);
    } else if q < q' {
      MulMono(q + 1, q', w);
    }
  }

  /** Row-major addressing: (x, y) lands inside the buffer and can be read back. */
  lemma RowMajor(x: int, y: int, w: int, h: int)
    requires 0 <= x < w && 0 <= y < h
    ensures 0 <= y * w + x < w * h
    ensures (y * w + x) / w == y && (y * w + x) % w == x
  {
    MulMono(y, h - 1, w);
    MulMono(0, y, w);
    DivModUnique(y * w + x, w, y, x);
  }

  // ---------------------------------------------------------------------------
  // reduceBitmapQuality
  // ---------------------------------------------------------------------------

  /** Kotlin's `Float.toInt()` on a finite value: rounds toward zero. */
  function TruncToInt(r: real): (i: int)
    ensures r >= 0.0 ==> 0 <= i && i as real <= r < i as real + 1.0
    ensures r < 0.0 ==> i <= 0 && i as real - 1.0 < r <= i as real
  {
    if r >= 0.0 then r.Floor else -((-r).Floor)
  }

  /** `(d * scaleFactor).toInt()`: one side of the reduced bitmap. */
  function ScaledSize(d: int, scaleFactor: real): int {
    TruncToInt(d as real * scaleFactor)
  }

  /** What `reduceBitmapQuality` does with a bitmap of the given size. */
  datatype Reduction =
    | KeepSize                        // small enough: an exact copy
    | ScaleTo(width: int, height: int) // resampled to this size
    | ScaleFails                      // the target size is not positive; the platform throws

  /** `maxSize.toFloat() / width.coerceAtLeast(height)`. */
  function ScaleFactor(width: int, height: int, maxSize: int): real
    requires 0 < width && 0 < height
  {
    maxSize as real / Max(width, height) as real
  }

  function ReductionFor(width: int, height: int, maxSize: int): Reduction
    requires 0 < width && 0 < height
  {
    var scaleFactor := ScaleFactor(width, height, maxSize);
    if scaleFactor >= 1.0 then KeepSize
    else
      var newWidth := ScaledSize(width, scaleFactor);
      var newHeight := ScaledSize(height, scaleFactor);
      if newWidth <= 0 || newHeight <= 0 then ScaleFails else ScaleTo(newWidth, newHeight)
  }

  lemma RealMulMono(a: real, b: real, c: real)
    requires a <= b && 0.0 <= c
    ensures a * c <= b * c
  {
    assert b * c - a * c == (b - a) * c;
  }

  lemma RealMulStrict(a: real, b: real, c: real)
    requires a < b && 0.0 < c
    ensures a * c < b * c
  {
    assert b * c - a * c == (b - a) * c;
  }

  /** A proper fraction r / m of reals lies in [0, 1). */
  lemma ProperFraction(r: int, m: int)
    requires 0 <= r < m
    ensures 0.0 <= r as real / m as real < 1.0
  {
    var f := r as real / m as real;
    assert f * m as real == r as real;
    if f >= 1.0 {
      RealMulMono(1.0, f, m as real);
    }
  }

  /** (n * m + r) / m splits into its whole part n and the fraction r / m. */
  lemma SplitQuotient(n: int, r: int, m: int)
    requires 0 < m
    ensures (n * m + r) as real / m as real == n as real + r as real / m as real
  {
    var mr := m as real;
    assert (n * m + r) as real == n as real * mr + r as real;
    assert (n as real * mr + r as real) / mr == n as real * mr / mr + r as real / mr;
  }

  /** Truncating p / m is integer division when p >= 0. */
  lemma TruncQuotient(p: int, m: int)
    requires 0 <= p && 0 < m
    ensures var n := TruncToInt(p as real / m as real);
            0 <= n && n * m <= p < (n + 1) * m
  {
    var n, r := p / m, p % m;
    assert p == n * m + r;
    assert 0 <= n by {
      if n < 0 {
        MulMono(n, -1, m);
      }
    }
    SplitQuotient(n, r, m);
    ProperFraction(r, m);
    var f := r as real / m as real;
    assert p as real / m as real == n as real + f;
    assert TruncToInt(n as real + f) == n;
  }

  /**
   * The integer facts behind one scaled side: n is d * maxSize / m rounded
   * down, with 0 < d <= m and 0 < maxSize < m.
   */
  lemma QuotientSide(n: int, d: int, m: int, maxSize: int)
    requires 0 < d <= m && 0 < maxSize < m
    requires 0 <= n && n * m <= d * maxSize < (n + 1) * m
    ensures 0 <= n < d && n <= maxSize
    ensures n == 0 <==> d * maxSize < m
    ensures d == m ==> n == maxSize
  {
    MulMono(d, m, maxSize);
    assert n * m <= maxSize * m;
    MulCancel(n, maxSize, m);
    MulMono(maxSize + 1, m, d);
    assert d * maxSize < d * m;
    if d <= n {
      MulMono(d, n, m);
    }
    if 0 < n {
      MulMono(1, n, m);
    }
    if d == m && n < maxSize {
      MulMono(n + 1, maxSize, m);
    }
  }

  /** Scaling d by a / m is the quotient (d * a) / m. */
  lemma ScaleByQuotient(d: int, a: int, m: int)
    requires 0 < m
    ensures d as real * (a as real / m as real) == (d * a) as real / m as real
  {
    var q := a as real / m as real;
    assert q * m as real == a as real;
    assert (d as real * q) * m as real == d as real * a as real;
  }

  /**
   * One side d of a bitmap whose larger side is m, scaled by maxSize / m with
   * 0 < maxSize < m: it shrinks, stays within maxSize, is exactly maxSize when
   * it is the larger side, and is zero exactly when d * maxSize < m.
   */
  lemma ScaledSide(d: int, m: int, maxSize: int, s: real)
    requires 0 < d <= m && 0 < maxSize < m && s == maxSize as real / m as real
    ensures var n := ScaledSize(d, s);
            && 0 <= n < d && n <= maxSize
            && (n == 0 <==> d * maxSize < m)
            && (d == m ==> n == maxSize)
            && n * m <= d * maxSize < (n + 1) * m
  {
    var n := ScaledSize(d, s);
    ScaleByQuotient(d, maxSize, m);
    assert n == TruncToInt((d * maxSize) as real / m as real);
    TruncQuotient(d * maxSize, m);
    QuotientSide(n, d, m, maxSize);
  }

  /**
   * A bitmap is copied exactly when its larger side is at most maxSize; it
   * fails exactly when the smaller side would shrink to zero (or maxSize is
   * not positive); otherwise both sides shrink, the larger one to exactly
   * maxSize, and each is the truncation of its share of maxSize.
   */
  lemma ReductionFacts(width: int, height: int, maxSize: int)
    requires 0 < width && 0 < height
    ensures var p := ReductionFor(width, height, maxSize);
            && (p.KeepSize? <==> Max(width, height) <= maxSize)
            && (p.ScaleFails? <==> maxSize < Max(width, height) && Min(width, height) * maxSize < Max(width, height))
            && (p.ScaleTo? ==>
                  && 0 < p.width < width && 0 < p.height < height
                  && Max(p.width, p.height) == maxSize
                  && p.width * Max(width, height) <= width * maxSize < (p.width + 1) * Max(width, height)
                  && p.height * Max(width, height) <= height * maxSize < (p.height + 1) * Max(width, height))
  {
    var m := Max(width, height);
    KeepSizeExactly(width, height, maxSize);
    if m <= maxSize {
    } else if maxSize <= 0 {
      NonPositiveTargetFails(width, height, maxSize);
      MulMono(maxSize, 0, Min(width, height));
    } else {
      var s := ScaleFactor(width, height, maxSize);
      var nw := ScaledSize(width, s);
      var nh := ScaledSize(height, s);
      ScaledSide(width, m, maxSize, s);
      ScaledSide(height, m, maxSize, s);
      ShrunkSides(nw, nh, width, height, m, maxSize);
      if nw <= 0 || nh <= 0 {
        assert ReductionFor(width, height, maxSize) == ScaleFails;
      } else {
        assert ReductionFor(width, height, maxSize) == ScaleTo(nw, nh);
      }
    }
  }

  /** How the two truncated sides relate to the smaller and larger original side. */
  lemma ShrunkSides(nw: int, nh: int, width: int, height: int, m: int, maxSize: int)
    requires 0 < width && 0 < height && m == Max(width, height) && 0 < maxSize < m
    requires 0 <= nw && (nw == 0 <==> width * maxSize < m) && (width == m ==> nw == maxSize) && nw <= maxSize
    requires 0 <= nh && (nh == 0 <==> height * maxSize < m) && (height == m ==> nh == maxSize) && nh <= maxSize
    ensures nw <= 0 || nh <= 0 <==> Min(width, height) * maxSize < m
    ensures 0 < nw && 0 < nh ==> Max(nw, nh) == maxSize
  {
    if width <= height {
      MulMono(width, height, maxSize);
    } else {
      MulMono(height, width, maxSize);
    }
  }

  lemma KeepSizeExactly(width: int, height: int, maxSize: int)
    requires 0 < width && 0 < height
    ensures ScaleFactor(width, height, maxSize) >= 1.0 <==> Max(width, height) <= maxSize
  {
    QuotientAtLeastOne(maxSize as real, Max(width, height) as real);
  }

  /** x / m is at least 1 exactly when m <= x, for a positive m. */
  lemma QuotientAtLeastOne(x: real, m: real)
    requires 0.0 < m
    ensures x / m >= 1.0 <==> m <= x
  {
    var s := x / m;
    assert s * m == x;
    if s >= 1.0 {
      RealMulMono(1.0, s, m);
    } else {
      RealMulStrict(s, 1.0, m);
    }
  }

  lemma NonPositiveTargetFails(width: int, height: int, maxSize: int)
    requires 0 < width && 0 < height && maxSize <= 0
    ensures ReductionFor(width, height, maxSize) == ScaleFails
  {
    var m := Max(width, height) as real;
    var s := ScaleFactor(width, height, maxSize);
    assert s * m == maxSize as real;
    if s > 0.0 {
      RealMulStrict(0.0, s, m);
    }
    RealMulMono(s, 0.0, width as real);
    assert width as real * s <= 0.0;
  }

  lemma ReduceLandscapeExample()
    ensures ReductionFor(2000, 1000, 1000) == ScaleTo(1000, 500)
  {
    ReductionFacts(2000, 1000, 1000);
  }

  lemma ReduceSmallExample()
    ensures ReductionFor(200, 100, 1000) == KeepSize
  {
    ReductionFacts(200, 100, 1000);
  }

  /** A 1 x 2001 strip scaled to 1000 would be 0 pixels wide. */
  lemma ReduceStripExample()
    ensures ReductionFor(1, 2001, 1000) == ScaleFails
  {
    ReductionFacts(1, 2001, 1000);
  }

  /** The pixels the platform's filtered resampling produces, given per destination pixel. */
  function Resampled(width: int, height: int, sample: (int, int) -> Pixel): (px: seq<Pixel>)
    requires 0 < width && 0 < height
    ensures |px| == width * height
  {
    seq(width * height, i requires 0 <= i < width * height => sample(i % width, i / width))
  }

  /**
   * `reduceBitmapQuality`: copy the bitmap when it already fits in maxSize,
   * resample it otherwise; either way the input is recycled and the result is
   * a new bitmap. When the target size is not positive the platform's `scale`
   * throws before anything is recycled.
   */
  method ReduceBitmapQuality(bitmap: Bitmap, maxSize: int, sample: (int, int) -> Pixel) returns (result: Option<Bitmap>)
    requires bitmap.Valid() && !bitmap.recycled
    modifies bitmap
    ensures bitmap.pixels == old(bitmap.pixels)
    ensures match ReductionFor(bitmap.width, bitmap.height, maxSize)
            case KeepSize =>
              && result.Some? && fresh(result.value) && result.value.Valid() && !result.value.recycled
              && result.value.width == bitmap.width && result.value.height == bitmap.height
              && result.value.pixels == bitmap.pixels
              && bitmap.recycled
            case ScaleTo(w, h) =>
              && result.Some? && fresh(result.value) && result.value.Valid() && !result.value.recycled
              && result.value.width == w && result.value.height == h
              && result.value.pixels == Resampled(w, h, sample)
              && bitmap.recycled
            case ScaleFails =>
              result.None? && !bitmap.recycled
  {
    var width := bitmap.width;
    var height := bitmap.height;
    var scaleFactor := maxSize as real / Max(width, height) as real;
    ghost var reduction := ReductionFor(width, height, maxSize);
    assert scaleFactor == ScaleFactor(width, height, maxSize);

    if scaleFactor >= 1.0 {
      assert reduction == KeepSize;
      var copy := new Bitmap(width, height, bitmap.pixels);
      bitmap.Recycle();
      result := Some(copy);
    } else {
      var newWidth := ScaledSize(width, scaleFactor);
      var newHeight := ScaledSize(height, scaleFactor);
      if newWidth <= 0 || newHeight <= 0 {
        assert reduction == ScaleFails;
        return None;
      }
      assert reduction == ScaleTo(newWidth, newHeight);
      var scaled := new Bitmap(newWidth, newHeight, Resampled(newWidth, newHeight, sample));
      bitmap.Recycle();
      result := Some(scaled);
    }
  }

  // ---------------------------------------------------------------------------
  // mergeImages
  // ---------------------------------------------------------------------------

  /** The width of the dividing line between the two images. */
  const LineWidth := 10

  /** An untouched pixel of a fresh RGB_565 bitmap reads as opaque black. */
  const Unpainted: Pixel := 0xFF00_0000

  /** Where a pixel of the merged image comes from. */
  datatype Origin =
    | FromLeft(x: int, y: int)
    | Line
    | FromRight(x: int, y: int)
    | Background

  function MergedWidth(leftWidth: int, rightWidth: int): int {
    leftWidth + rightWidth + LineWidth
  }

  function MergedHeight(leftHeight: int, rightHeight: int): int {
    Max(leftHeight, rightHeight)
  }

  /**
   * The layout drawn by `mergeImages`: the left image at (0, 0), the line over
   * columns [leftWidth, leftWidth + 10) and the full height, the right image at
   * (leftWidth + 10, 0); both images are top-anchored.
   */
  function OriginAt(leftWidth: int, leftHeight: int, rightHeight: int, x: int, y: int): Origin {
    if x < leftWidth then
      if y < leftHeight then FromLeft(x, y) else Background
    else if x < leftWidth + LineWidth then Line
    else if y < rightHeight then FromRight(x - leftWidth - LineWidth, y)
    else Background
  }

  function PixelFrom(o: Origin, left: seq<Pixel>, leftWidth: int, right: seq<Pixel>, rightWidth: int, lineColor: Pixel): Pixel {
    match o
    case FromLeft(x, y) => if 0 <= y * leftWidth + x < |left| then left[y * leftWidth + x] else Unpainted
    case Line => lineColor
    case FromRight(x, y) => if 0 <= y * rightWidth + x < |right| then right[y * rightWidth + x] else Unpainted
    case Background => Unpainted
  }

  function MergedPixels(left: seq<Pixel>, leftWidth: int, leftHeight: int,
                        right: seq<Pixel>, rightWidth: int, rightHeight: int, lineColor: Pixel): (px: seq<Pixel>)
    requires 0 < leftWidth && 0 < leftHeight && 0 < rightWidth && 0 < rightHeight
    ensures |px| == MergedWidth(leftWidth, rightWidth) * MergedHeight(leftHeight, rightHeight)
  {
    var w := MergedWidth(leftWidth, rightWidth);
    seq(w * MergedHeight(leftHeight, rightHeight),
        i requires 0 <= i => PixelFrom(OriginAt(leftWidth, leftHeight, rightHeight, i % w, i / w), left, leftWidth, right, rightWidth, lineColor))
  }

  /** The merged pixel at (x, y) is the one its origin names. */
  lemma MergedPixelAt(left: seq<Pixel>, leftWidth: int, leftHeight: int,
                      right: seq<Pixel>, rightWidth: int, rightHeight: int, lineColor: Pixel, x: int, y: int)
    requires 0 < leftWidth && 0 < leftHeight && 0 < rightWidth && 0 < rightHeight
    requires 0 <= x < MergedWidth(leftWidth, rightWidth) && 0 <= y < MergedHeight(leftHeight, rightHeight)
    ensures var w := MergedWidth(leftWidth, rightWidth);
            0 <= y * w + x < w * MergedHeight(leftHeight, rightHeight)
            && MergedPixels(left, leftWidth, leftHeight, right, rightWidth, rightHeight, lineColor)[y * w + x]
               == PixelFrom(OriginAt(leftWidth, leftHeight, rightHeight, x, y), left, leftWidth, right, rightWidth, lineColor)
  {
    RowMajor(x, y, MergedWidth(leftWidth, rightWidth), MergedHeight(leftHeight, rightHeight));
  }

  /** The left image appears unchanged with its corner at (0, 0). */
  lemma MergeKeepsLeftImage(left: seq<Pixel>, leftWidth: int, leftHeight: int,
                            right: seq<Pixel>, rightWidth: int, rightHeight: int, lineColor: Pixel, x: int, y: int)
    requires 0 < leftWidth && 0 < leftHeight && 0 < rightWidth && 0 < rightHeight
    requires |left| == leftWidth * leftHeight
    requires 0 <= x < leftWidth && 0 <= y < leftHeight
    ensures var w := MergedWidth(leftWidth, rightWidth);
            0 <= y * w + x < w * MergedHeight(leftHeight, rightHeight)
            && 0 <= y * leftWidth + x < |left|
            && MergedPixels(left, leftWidth, leftHeight, right, rightWidth, rightHeight, lineColor)[y * w + x]
               == left[y * leftWidth + x]
  {
    MergedPixelAt(left, leftWidth, leftHeight, right, rightWidth, rightHeight, lineColor, x, y);
    RowMajor(x, y, leftWidth, leftHeight);
  }

  /** The right image appears unchanged with its corner at (leftWidth + 10, 0). */
  lemma MergeKeepsRightImage(left: seq<Pixel>, leftWidth: int, leftHeight: int,
                             right: seq<Pixel>, rightWidth: int, rightHeight: int, lineColor: Pixel, x: int, y: int)
    requires 0 < leftWidth && 0 < leftHeight && 0 < rightWidth && 0 < rightHeight
    requires |right| == rightWidth * rightHeight
    requires 0 <= x < rightWidth && 0 <= y < rightHeight
    ensures var w := MergedWidth(leftWidth, rightWidth);
            0 <= y * w + (leftWidth + LineWidth + x) < w * MergedHeight(leftHeight, rightHeight)
            && 0 <= y * rightWidth + x < |right|
            && MergedPixels(left, leftWidth, leftHeight, right, rightWidth, rightHeight, lineColor)[y * w + (leftWidth + LineWidth + x)]
               == right[y * rightWidth + x]
  {
    MergedPixelAt(left, leftWidth, leftHeight, right, rightWidth, rightHeight, lineColor, leftWidth + LineWidth + x, y);
    RowMajor(x, y, rightWidth, rightHeight);
  }

  /** Every row of columns [leftWidth, leftWidth + 10) is the line colour, over the full height. */
  lemma MergeDrawsLine(left: seq<Pixel>, leftWidth: int, leftHeight: int,
                       right: seq<Pixel>, rightWidth: int, rightHeight: int, lineColor: Pixel, x: int, y: int)
    requires 0 < leftWidth && 0 < leftHeight && 0 < rightWidth && 0 < rightHeight
    requires leftWidth <= x < leftWidth + LineWidth && 0 <= y < MergedHeight(leftHeight, rightHeight)
    ensures var w := MergedWidth(leftWidth, rightWidth);
            0 <= y * w + x < w * MergedHeight(leftHeight, rightHeight)
            && MergedPixels(left, leftWidth, leftHeight, right, rightWidth, rightHeight, lineColor)[y * w + x] == lineColor
  {
    MergedPixelAt(left, leftWidth, leftHeight, right, rightWidth, rightHeight, lineColor, x, y);
  }

  /** Below the shorter image nothing is drawn. */
  lemma MergeLeavesGapUnpainted(left: seq<Pixel>, leftWidth: int, leftHeight: int,
                                right: seq<Pixel>, rightWidth: int, rightHeight: int, lineColor: Pixel, x: int, y: int)
    requires 0 < leftWidth && 0 < leftHeight && 0 < rightWidth && 0 < rightHeight
    requires 0 <= x < MergedWidth(leftWidth, rightWidth) && 0 <= y < MergedHeight(leftHeight, rightHeight)
    requires (x < leftWidth && leftHeight <= y) || (leftWidth + LineWidth <= x && rightHeight <= y)
    ensures var w := MergedWidth(leftWidth, rightWidth);
            0 <= y * w + x < w * MergedHeight(leftHeight, rightHeight)
            && MergedPixels(left, leftWidth, leftHeight, right, rightWidth, rightHeight, lineColor)[y * w + x] == Unpainted
  {
    MergedPixelAt(left, leftWidth, leftHeight, right, rightWidth, rightHeight, lineColor, x, y);
  }

  /** 100 x 50 beside 80 x 60 gives 190 x 60; column 100 is the line; (189, 59) is the right image's last pixel. */
  lemma MergeExample()
    ensures MergedWidth(100, 80) == 190 && MergedHeight(50, 60) == 60
    ensures OriginAt(100, 50, 60, 100, 0) == Line
    ensures OriginAt(100, 50, 60, 189, 59) == FromRight(79, 59)
    ensures OriginAt(100, 50, 60, 99, 55) == Background
  {
  }

  /**
   * `mergeImages`: a new bitmap with the left image, a 10-pixel line and the
   * right image side by side. The inputs are not recycled.
   */
  method MergeImages(leftImage: Bitmap, rightImage: Bitmap, lineColor: Pixel) returns (result: Bitmap)
    requires leftImage.Valid() && !leftImage.recycled
    requires rightImage.Valid() && !rightImage.recycled
    ensures fresh(result) && result.Valid() && !result.recycled
    ensures result.width == leftImage.width + rightImage.width + LineWidth
    ensures result.height == Max(leftImage.height, rightImage.height)
    ensures result.pixels == MergedPixels(leftImage.pixels, leftImage.width, leftImage.height,
                                          rightImage.pixels, rightImage.width, rightImage.height, lineColor)
  {
    var targetHeight := Max(leftImage.height, rightImage.height);
    var totalWidth := leftImage.width + rightImage.width + LineWidth;
    result := new Bitmap(totalWidth, targetHeight,
                         MergedPixels(leftImage.pixels, leftImage.width, leftImage.height,
                                      rightImage.pixels, rightImage.width, rightImage.height, lineColor));
  }
}
