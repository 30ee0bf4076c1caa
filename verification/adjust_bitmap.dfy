/**
 * `applyImageAdjustmentsToBitmap`: draw the bitmap through the cached colour
 * filter (built without the gamma step) into a new bitmap, recycle the input,
 * then run the exact gamma pass when the stored gamma is not 100.
 */
module ImageAdjustment {
  import opened Wrappers
  import opened Preferences
  import opened ColorMatrix
  import opened AdjustmentFilter
  import opened Bitmaps
  import opened GammaCorrection

  /** A pixel's channels on the 0..255 scale a colour matrix works in. */
  function ColorOf(p: Pixel): Color {
    Color(Red(p) as real, Green(p) as real, Blue(p) as real, Alpha(p) as real)
  }

  /** A filtered channel back to 8 bits: clamped to [0, 255], then rounded to nearest. */
  function ToChannel(v: real): (c: Channel)
    ensures v <= 0.0 ==> c == 0
    ensures v >= 255.0 ==> c == 255
    ensures 0.0 <= v <= 255.0 ==> c as real - 0.5 <= v < c as real + 0.5
  {
    var clamped := if v < 0.0 then 0.0 else if v > 255.0 then 255.0 else v;
    (clamped + 0.5).Floor
  }

  /** An 8-bit value passes through ToChannel unchanged. */
  lemma ToChannelOfChannel(c: Channel)
    ensures ToChannel(c as real) == c
  {
  }

  /**
   * One pixel drawn through a `ColorMatrixColorFilter`: each output channel is
   * its matrix row applied to the pixel's channels, clamped and rounded.
   */
  function FilterPixel(m: Matrix, p: Pixel): Pixel {
    var c := Apply(m, ColorOf(p));
    Pack(ToChannel(c.a), ToChannel(c.r), ToChannel(c.g), ToChannel(c.b))
  }

  /** The identity matrix leaves the pixel as it was. */
  lemma FilterIdentityKeepsPixel(p: Pixel)
    ensures FilterPixel(Identity, p) == p
  {
    var c := ColorOf(p);
    assert Apply(Identity, c) == c;
    ToChannelOfChannel(Alpha(p));
    ToChannelOfChannel(Red(p));
    ToChannelOfChannel(Green(p));
    ToChannelOfChannel(Blue(p));
    ChannelsPack(p);
  }

  /** The filtered pixel's channels are its colour's matrix rows, each brought back to 8 bits. */
  lemma FilterChannels(m: Matrix, p: Pixel)
    ensures var c := Apply(m, ColorOf(p));
            && Alpha(FilterPixel(m, p)) == ToChannel(c.a) && Red(FilterPixel(m, p)) == ToChannel(c.r)
            && Green(FilterPixel(m, p)) == ToChannel(c.g) && Blue(FilterPixel(m, p)) == ToChannel(c.b)
  {
    var c := Apply(m, ColorOf(p));
    PackChannels(ToChannel(c.a), ToChannel(c.r), ToChannel(c.g), ToChannel(c.b));
  }

  /** A channelwise matrix (every adjustment filter is one) keeps each pixel's alpha. */
  lemma ChannelwiseFilterKeepsAlpha(m: Matrix, p: Pixel)
    requires IsChannelwise(m)
    ensures Alpha(FilterPixel(m, p)) == Alpha(p)
  {
    FilterChannels(m, p);
    ChannelwiseApply(m, ColorOf(p));
    ToChannelOfChannel(Alpha(p));
  }

  /** What `canvas.drawBitmap` with the paint writes: a copy, or every pixel through the filter. */
  function Rendered(px: seq<Pixel>, filter: Option<Matrix>): (out: seq<Pixel>)
    ensures |out| == |px|
    ensures filter.None? ==> out == px
  {
    match filter
    case None => px
    case Some(m) => seq(|px|, i requires 0 <= i < |px| => FilterPixel(m, px[i]))
  }

  /**
   * The pixels `applyImageAdjustmentsToBitmap` produces from the filter and the
   * stored gamma: rendered through the filter, then through the gamma table for
   * gamma / 100 unless gamma is 100 or the bitmap is too large.
   */
  function AdjustedPixels(filter: Option<Matrix>, gamma: int, width: int, height: int, px: seq<Pixel>,
                          pow: (real, real) -> real): (out: seq<Pixel>)
    ensures |out| == |px|
  {
    GammaPass(gamma, width, height, Rendered(px, filter), pow)
  }

  /**
   * The gamma step: the drawn pixels through the gamma table for gamma / 100,
   * unless gamma is 100 or the bitmap is too large for the gamma pass.
   */
  function GammaPass(gamma: int, width: int, height: int, px: seq<Pixel>, pow: (real, real) -> real): (out: seq<Pixel>)
    ensures |out| == |px|
  {
    if gamma == 100 || width * height > MaxGammaPixels then px
    else MapPixels(px, GammaLut(gamma as real / 100.0, pow))
  }

  /**
   * The drawing step of `applyImageAdjustmentsToBitmap`: a new bitmap of the
   * same size receives the input drawn through the paint, and the input is
   * recycled.
   */
  method DrawThroughFilter(bitmap: Bitmap, filter: Option<Matrix>) returns (result: Bitmap)
    requires bitmap.Valid() && !bitmap.recycled
    modifies bitmap
    ensures bitmap.recycled && bitmap.pixels == old(bitmap.pixels)
    ensures fresh(result) && result.Valid() && !result.recycled
    ensures result.width == bitmap.width && result.height == bitmap.height
    ensures result.pixels == Rendered(old(bitmap.pixels), filter)
  {
    var filtered := Rendered(bitmap.pixels, filter);
    result := new Bitmap(bitmap.width, bitmap.height, filtered);
    bitmap.Recycle();
  }

  /**
   * The gamma step of `applyImageAdjustmentsToBitmap` on the drawn bitmap:
   * skipped for gamma 100, otherwise `applyGammaToBitmap` with gamma / 100,
   * which hands a too-large bitmap back untouched.
   */
  method GammaStep(drawn: Bitmap, gamma: int, pow: (real, real) -> real) returns (result: Bitmap)
    requires drawn.Valid() && !drawn.recycled
    modifies drawn
    ensures result == drawn || fresh(result)
    ensures result.Valid() && !result.recycled
    ensures result.width == drawn.width && result.height == drawn.height
    ensures result.pixels == GammaPass(gamma, drawn.width, drawn.height, old(drawn.pixels), pow)
  {
    if gamma == 100 {
      return drawn;
    }
    result := ApplyGammaToBitmap(drawn, gamma as real / 100.0, pow);
  }

  method AdjustWith(bitmap: Bitmap, filter: Option<Matrix>, gamma: int, pow: (real, real) -> real)
    returns (result: Bitmap)
    requires bitmap.Valid() && !bitmap.recycled
    modifies bitmap
    ensures bitmap.recycled && bitmap.pixels == old(bitmap.pixels)
    ensures fresh(result) && result.Valid() && !result.recycled
    ensures result.width == bitmap.width && result.height == bitmap.height
    ensures result.pixels == AdjustedPixels(filter, gamma, bitmap.width, bitmap.height, old(bitmap.pixels), pow)
  {
    var drawn := DrawThroughFilter(bitmap, filter);
    result := GammaStep(drawn, gamma, pow);
  }

  /**
   * `applyImageAdjustmentsToBitmap`, on the preferences as they stand when it
   * reads them: the input is always recycled and the result is always a new
   * bitmap of the same size, even when there is no filter and no gamma pass;
   * the cache stays consistent.
   */
  method ApplyImageAdjustmentsToBitmap(bitmap: Bitmap, entries: Entries, cache: FilterCache,
                                       pow: (real, real) -> real) returns (result: Bitmap)
    requires bitmap.Valid() && !bitmap.recycled && cache.Valid()
    modifies bitmap, cache
    ensures cache.Valid()
    ensures bitmap.recycled && bitmap.pixels == old(bitmap.pixels)
    ensures fresh(result) && result.Valid() && !result.recycled
    ensures result.width == bitmap.width && result.height == bitmap.height
    ensures result.pixels == AdjustedPixels(ExpectedFilter(entries, false), StoredGamma(entries),
                                            bitmap.width, bitmap.height, old(bitmap.pixels), pow)
  {
    var gamma := CoerceIn(GetInt(entries, GammaKey, 100), 10, 300);
    assert gamma == StoredGamma(entries);
    var filter := cache.GetImageAdjustmentFilter(entries, false);
    result := AdjustWith(bitmap, filter, gamma, pow);
  }

  /**
   * With the adjustments switched off and gamma at 100 the result is an exact
   * copy of the input.
   */
  lemma SwitchedOffIsCopy(entries: Entries, width: int, height: int, px: seq<Pixel>, pow: (real, real) -> real)
    requires !GetBoolean(entries, AdjustmentsKey, false) && StoredGamma(entries) == 100
    ensures AdjustedPixels(ExpectedFilter(entries, false), StoredGamma(entries), width, height, px, pow) == px
  {
  }

  /**
   * The gamma pass does not look at the `imageAdjustments` switch: switched
   * off, a stored gamma other than 100 is still applied, and exactly through
   * the gamma table.
   */
  lemma GammaAppliedWhenSwitchedOff(entries: Entries, width: int, height: int, px: seq<Pixel>, pow: (real, real) -> real)
    requires !GetBoolean(entries, AdjustmentsKey, false)
    requires StoredGamma(entries) != 100 && width * height <= MaxGammaPixels
    ensures AdjustedPixels(ExpectedFilter(entries, false), StoredGamma(entries), width, height, px, pow)
            == MapPixels(px, GammaLut(StoredGamma(entries) as real / 100.0, pow))
  {
  }

  /** Every filter the stored settings produce is channelwise. */
  lemma ExpectedFilterIsChannelwise(entries: Entries, includeGamma: bool)
    ensures ExpectedFilter(entries, includeGamma).Some? ==> IsChannelwise(ExpectedFilter(entries, includeGamma).value)
  {
    if ExpectedSettings(entries, includeGamma).Some? {
      var a := ExpectedSettings(entries, includeGamma).value;
      ComposeChannelwise(EnabledSteps(a.brightness, a.contrast, a.red, a.green, a.blue, a.gamma));
    }
  }

  /** Drawing through a channelwise filter and the gamma pass both keep each pixel's alpha. */
  lemma AdjustedKeepsAlpha(filter: Option<Matrix>, gamma: int, width: int, height: int, px: seq<Pixel>,
                           pow: (real, real) -> real, i: int)
    requires 0 <= i < |px|
    requires filter.Some? ==> IsChannelwise(filter.value)
    ensures Alpha(AdjustedPixels(filter, gamma, width, height, px, pow)[i]) == Alpha(px[i])
  {
    var filtered := Rendered(px, filter);
    if filter.Some? {
      ChannelwiseFilterKeepsAlpha(filter.value, px[i]);
    }
    assert Alpha(filtered[i]) == Alpha(px[i]);
    if !(gamma == 100 || width * height > MaxGammaPixels) {
      var lut := GammaLut(gamma as real / 100.0, pow);
      CorrectPixelChannels(filtered[i], lut);
      assert GammaPass(gamma, width, height, filtered, pow)[i] == CorrectPixel(filtered[i], lut);
    }
  }

  /** Every pixel `applyImageAdjustmentsToBitmap` produces has the input pixel's alpha. */
  lemma AdjustmentKeepsAlpha(entries: Entries, width: int, height: int, px: seq<Pixel>, pow: (real, real) -> real, i: int)
    requires 0 <= i < |px|
    ensures Alpha(AdjustedPixels(ExpectedFilter(entries, false), StoredGamma(entries), width, height, px, pow)[i]) == Alpha(px[i])
  {
    ExpectedFilterIsChannelwise(entries, false);
    AdjustedKeepsAlpha(ExpectedFilter(entries, false), StoredGamma(entries), width, height, px, pow, i);
  }
}
