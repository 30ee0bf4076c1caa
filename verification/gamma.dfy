/**
 * Exact gamma correction: the 8-bit channels of an ARGB word, the 256-entry
 * lookup table built from `Math.pow`, and the per-pixel pass that rewrites
 * R, G and B through the table and keeps alpha.
 */
module GammaCorrection {
  import opened Bitmaps

  /** One 8-bit channel of an ARGB word. */
  type Channel = c: int | 0 <= c < 0x100

  // The shifts and masks of the source, on the unsigned reading of the word:
  // `x shr k` is x / 2^k and `and 0xff` is % 0x100.

  /** `(pixel shr 24) and 0xff` */
  function Alpha(p: Pixel): Channel {
    p / 0x100_0000
  }

  /** `(pixel shr 16) and 0xff` */
  function Red(p: Pixel): Channel {
    p / 0x1_0000 % 0x100
  }

  /** `(pixel shr 8) and 0xff` */
  function Green(p: Pixel): Channel {
    p / 0x100 % 0x100
  }

  /** `pixel and 0xff` */
  function Blue(p: Pixel): Channel {
    p % 0x100
  }

  /** `(a shl 24) or (r shl 16) or (g shl 8) or b`: the bytes do not overlap, so `or` is `+`. */
  function Pack(a: Channel, r: Channel, g: Channel, b: Channel): Pixel {
    a * 0x100_0000 + r * 0x1_0000 + g * 0x100 + b
  }

  /** Packing and unpacking are inverse: each channel reads back what was packed ... */
  lemma PackChannels(a: Channel, r: Channel, g: Channel, b: Channel)
    ensures var p := Pack(a, r, g, b);
            Alpha(p) == a && Red(p) == r && Green(p) == g && Blue(p) == b
  {
    var p := Pack(a, r, g, b);
    DivModUnique(p, 0x100_0000, a, r * 0x1_0000 + g * 0x100 + b);
    DivModUnique(p, 0x1_0000, a * 0x100 + r, g * 0x100 + b);
    DivModUnique(a * 0x100 + r, 0x100, a, r);
    DivModUnique(p, 0x100, a * 0x1_0000 + r * 0x100 + g, b);
    DivModUnique(a * 0x1_0000 + r * 0x100 + g, 0x100, a * 0x100 + r, g);
  }

  /** ... and a word is the packing of its own four channels. */
  lemma ChannelsPack(p: Pixel)
    ensures Pack(Alpha(p), Red(p), Green(p), Blue(p)) == p
  {
    var q1 := p / 0x100;
    var q2 := p / 0x1_0000;
    DivModUnique(p, 0x1_0000, q1 / 0x100, q1 % 0x100 * 0x100 + Blue(p));
    DivModUnique(p, 0x100_0000, q2 / 0x100, q2 % 0x100 * 0x1_0000 + q1 % 0x100 * 0x100 + Blue(p));
  }

  /** Bitmaps with more pixels than this skip the gamma pass (4000 x 4000). */
  const MaxGammaPixels := 4000 * 4000

  /**
   * `(corrected * 255f).coerceIn(0f, 255f).toInt()`: the corrected intensity
   * on the 0..255 scale, clamped, then truncated (not rounded).
   */
  function LutEntry(corrected: real): (e: int)
    ensures 0 <= e <= 255
    ensures corrected * 255.0 <= 0.0 ==> e == 0
    ensures corrected * 255.0 >= 255.0 ==> e == 255
    ensures 0.0 <= corrected * 255.0 <= 255.0 ==> e as real <= corrected * 255.0 < e as real + 1.0
  {
    var scaled := corrected * 255.0;
    var clamped := if scaled < 0.0 then 0.0 else if scaled > 255.0 then 255.0 else scaled;
    clamped.Floor
  }

  /** A larger corrected intensity never gives a smaller entry. */
  lemma LutEntryMonotone(x: real, y: real)
    requires x <= y
    ensures LutEntry(x) <= LutEntry(y)
  {
  }

  predicate IsLut(lut: seq<int>) {
    |lut| == 256 && forall i :: 0 <= i < 256 ==> 0 <= lut[i] <= 255
  }

  /**
   * The table for one exponent: entry i is `pow(i / 255, gamma)` on the 0..255
   * scale. `pow` stands for `Math.pow`, which this model does not define.
   */
  function GammaLut(gamma: real, pow: (real, real) -> real): (lut: seq<int>)
    ensures IsLut(lut)
  {
    seq(256, i => LutEntry(pow(i as real / 255.0, gamma)))
  }

  /** An exponent of 1 gives the identity table, whenever pow(x, 1) is x on [0, 1]. */
  lemma UnitGammaIsIdentity(pow: (real, real) -> real)
    requires forall x :: 0.0 <= x <= 1.0 ==> pow(x, 1.0) == x
    ensures forall i :: 0 <= i < 256 ==> GammaLut(1.0, pow)[i] == i
  {
    forall i | 0 <= i < 256
      ensures GammaLut(1.0, pow)[i] == i
    {
      var x := i as real / 255.0;
      assert 0.0 <= x <= 1.0;
      assert x * 255.0 == i as real;
    }
  }

  /** A pow that is non-decreasing in its base on [0, 1] gives a non-decreasing table. */
  lemma GammaLutMonotone(gamma: real, pow: (real, real) -> real)
    requires forall x, y :: 0.0 <= x <= y <= 1.0 ==> pow(x, gamma) <= pow(y, gamma)
    ensures forall i, j :: 0 <= i <= j < 256 ==> GammaLut(gamma, pow)[i] <= GammaLut(gamma, pow)[j]
  {
    forall i, j | 0 <= i <= j < 256
      ensures GammaLut(gamma, pow)[i] <= GammaLut(gamma, pow)[j]
    {
      var x, y := i as real / 255.0, j as real / 255.0;
      assert 0.0 <= x <= y <= 1.0;
      LutEntryMonotone(pow(x, gamma), pow(y, gamma));
    }
  }

  /** Black stays black and white stays white when pow fixes 0 and 1. */
  lemma GammaLutEndpoints(gamma: real, pow: (real, real) -> real)
    requires pow(0.0, gamma) == 0.0 && pow(1.0, gamma) == 1.0
    ensures GammaLut(gamma, pow)[0] == 0 && GammaLut(gamma, pow)[255] == 255
  {
    assert 255 as real / 255.0 == 1.0;
  }

  /** One pixel through the table: alpha is kept, R, G and B are looked up. */
  function CorrectPixel(p: Pixel, lut: seq<int>): (q: Pixel)
    requires IsLut(lut)
  {
    Pack(Alpha(p), lut[Red(p)], lut[Green(p)], lut[Blue(p)])
  }

  /** The corrected pixel keeps alpha and carries the table's values for R, G and B. */
  lemma CorrectPixelChannels(p: Pixel, lut: seq<int>)
    requires IsLut(lut)
    ensures Alpha(CorrectPixel(p, lut)) == Alpha(p)
    ensures Red(CorrectPixel(p, lut)) == lut[Red(p)]
    ensures Green(CorrectPixel(p, lut)) == lut[Green(p)]
    ensures Blue(CorrectPixel(p, lut)) == lut[Blue(p)]
  {
    PackChannels(Alpha(p), lut[Red(p)], lut[Green(p)], lut[Blue(p)]);
  }

  /** Every pixel of a buffer through the table. */
  function MapPixels(px: seq<Pixel>, lut: seq<int>): (out: seq<Pixel>)
    requires IsLut(lut)
    ensures |out| == |px|
  {
    seq(|px|, i requires 0 <= i < |px| => CorrectPixel(px[i], lut))
  }

  /** The identity table leaves every pixel as it was. */
  lemma IdentityLutKeepsPixels(px: seq<Pixel>, lut: seq<int>)
    requires IsLut(lut)
    requires forall i :: 0 <= i < 256 ==> lut[i] == i
    ensures MapPixels(px, lut) == px
  {
    forall i | 0 <= i < |px|
      ensures MapPixels(px, lut)[i] == px[i]
    {
      var p := px[i];
      CorrectPixelChannels(p, lut);
      ChannelsPack(p);
      PackChannels(Alpha(p), Red(p), Green(p), Blue(p));
    }
  }

  /**
   * `IntArray(256) { i -> ... }`: the table for one exponent, filled entry by
   * entry.
   */
  method BuildGammaLut(gamma: real, pow: (real, real) -> real) returns (gammaLut: array<int>)
    ensures fresh(gammaLut)
    ensures gammaLut[..] == GammaLut(gamma, pow)
  {
    gammaLut := new int[256];
    for i := 0 to 256
      invariant forall j :: 0 <= j < i ==> gammaLut[j] == GammaLut(gamma, pow)[j]
    {
      var normalized := i as real / 255.0;
      var corrected := pow(normalized, gamma);
      gammaLut[i] := LutEntry(corrected);
    }
  }

  /** The body of the loop in `applyGammaToBitmap`: unpack, look up R, G and B, repack. */
  method CorrectWord(pixel: Pixel, gammaLut: seq<int>) returns (corrected: Pixel)
    requires IsLut(gammaLut)
    ensures corrected == CorrectPixel(pixel, gammaLut)
  {
    var a := Alpha(pixel);
    var r := Red(pixel);
    var g := Green(pixel);
    var b := Blue(pixel);

    var rCorrected := gammaLut[r];
    var gCorrected := gammaLut[g];
    var bCorrected := gammaLut[b];

    corrected := Pack(a, rCorrected, gCorrected, bCorrected);
  }

  /**
   * The loop of `applyGammaToBitmap`: every pixel word rewritten in place
   * through the table (which the loop only reads).
   */
  method CorrectPixelsInPlace(pixels: array<Pixel>, gammaLut: seq<int>)
    requires IsLut(gammaLut)
    modifies pixels
    ensures pixels[..] == MapPixels(old(pixels[..]), gammaLut)
  {
    ghost var original := pixels[..];
    for i := 0 to pixels.Length
      invariant forall j :: 0 <= j < i ==> pixels[j] == CorrectPixel(original[j], gammaLut)
      invariant forall j :: i <= j < pixels.Length ==> pixels[j] == original[j]
    {
      pixels[i] := CorrectWord(pixels[i], gammaLut);
    }
  }

  /**
   * `applyGammaToBitmap`: a bitmap above MaxGammaPixels is handed back as it
   * is, neither recycled nor changed. Otherwise the table is built, the pixels
   * are copied out and rewritten, a new bitmap of the same size receives them
   * and the input is recycled.
   */
  method ApplyGammaToBitmap(bitmap: Bitmap, gamma: real, pow: (real, real) -> real) returns (result: Bitmap)
    requires bitmap.Valid() && !bitmap.recycled
    modifies bitmap
    ensures bitmap.pixels == old(bitmap.pixels)
    ensures bitmap.width * bitmap.height > MaxGammaPixels ==> result == bitmap && !bitmap.recycled
    ensures bitmap.width * bitmap.height <= MaxGammaPixels ==>
              && fresh(result) && result.Valid() && !result.recycled
              && result.width == bitmap.width && result.height == bitmap.height
              && result.pixels == MapPixels(bitmap.pixels, GammaLut(gamma, pow))
              && bitmap.recycled
  {
    var width := bitmap.width;
    var height := bitmap.height;
    if width * height > MaxGammaPixels {
      return bitmap;
    }

    var gammaLut := BuildGammaLut(gamma, pow);

    // getPixels
    var source := bitmap.pixels;
    var pixels := new Pixel[width * height](i requires 0 <= i < width * height => source[i]);
    assert pixels[..] == source;

    CorrectPixelsInPlace(pixels, gammaLut[..]);

    result := new Bitmap(width, height, pixels[..]);
    bitmap.Recycle();
  }
}
