/**
 * The image-adjustment colour filter: the stored slider settings, clamped and
 * keyed, the builder that composes their matrices, and the one-entry cache that
 * the pipeline keeps so that the matrix is rebuilt only when a setting changes.
 */
module AdjustmentFilter {
  import opened Wrappers
  import opened Preferences
  import opened ColorMatrix

  const AdjustmentsKey := "imageAdjustments"
  const BrightnessKey := "image_brightness"
  const ContrastKey := "image_contrast"
  const RedKey := "image_red_channel"
  const GreenKey := "image_green_channel"
  const BlueKey := "image_blue_channel"
  const GammaKey := "image_gamma"

  /** Kotlin's `coerceIn(lo, hi)`. */
  function CoerceIn(v: int, lo: int, hi: int): (r: int)
    requires lo <= hi
    ensures lo <= r <= hi
    ensures lo <= v <= hi ==> r == v
    ensures v < lo ==> r == lo
    ensures v > hi ==> r == hi
  {
    if v < lo then lo else if v > hi then hi else v
  }

  /** The six integer settings the filter is built from. */
  datatype Adjustments = Adjustments(brightness: int, contrast: int, red: int, green: int, blue: int, gamma: int)

  predicate InRange(a: Adjustments) {
    && -100 <= a.brightness <= 100 && -100 <= a.contrast <= 100
    && -100 <= a.red <= 100 && -100 <= a.green <= 100 && -100 <= a.blue <= 100
    && 10 <= a.gamma <= 300
  }

  /** Neutral settings: nothing to adjust. */
  predicate IsNeutral(a: Adjustments) {
    a.brightness == 0 && a.contrast == 0 && a.red == 0 && a.green == 0 && a.blue == 0 && a.gamma == 100
  }

  /** The stored gamma, clamped to [10, 300] (default 100). */
  function StoredGamma(entries: Entries): (g: int)
    ensures 10 <= g <= 300
  {
    CoerceIn(GetInt(entries, GammaKey, 100), 10, 300)
  }

  /**
   * The settings as the filter reads them: every value clamped to its range,
   * and gamma taken as 100 when the caller excludes it.
   */
  function ReadAdjustments(entries: Entries, includeGamma: bool): (a: Adjustments)
    ensures InRange(a)
    ensures !includeGamma ==> a.gamma == 100
  {
    Adjustments(CoerceIn(GetInt(entries, BrightnessKey, 0), -100, 100),
                CoerceIn(GetInt(entries, ContrastKey, 0), -100, 100),
                CoerceIn(GetInt(entries, RedKey, 0), -100, 100),
                CoerceIn(GetInt(entries, GreenKey, 0), -100, 100),
                CoerceIn(GetInt(entries, BlueKey, 0), -100, 100),
                if includeGamma then StoredGamma(entries) else 100)
  }

  /** The seven-integer cache key: the six settings and 1 or -1 for whether gamma is included. */
  function CacheKey(a: Adjustments, includeGamma: bool): (key: seq<int>)
    ensures |key| == 7
  {
    [a.brightness, a.contrast, a.red, a.green, a.blue, a.gamma, if includeGamma then 1 else -1]
  }

  function KeyAdjustments(key: seq<int>): Adjustments
    requires |key| == 7
  {
    Adjustments(key[0], key[1], key[2], key[3], key[4], key[5])
  }

  /** The key loses nothing: equal keys mean equal settings and the same gamma choice. */
  lemma CacheKeyInjective(a: Adjustments, includeGamma: bool, b: Adjustments, includeGamma': bool)
    ensures CacheKey(a, includeGamma) == CacheKey(b, includeGamma') <==> a == b && includeGamma == includeGamma'
    ensures KeyAdjustments(CacheKey(a, includeGamma)) == a
  {
    if CacheKey(a, includeGamma) == CacheKey(b, includeGamma') {
      assert CacheKey(a, includeGamma)[6] == CacheKey(b, includeGamma')[6];
    }
  }

  /** The matrix the builder produces for a set of settings. */
  function FilterMatrix(a: Adjustments): Matrix {
    Compose(EnabledSteps(a.brightness, a.contrast, a.red, a.green, a.blue, a.gamma))
  }

  /** The settings the lookup builds a filter from: none when adjustments are off or neutral. */
  function ExpectedSettings(entries: Entries, includeGamma: bool): (s: Option<Adjustments>)
    ensures s.None? <==> !GetBoolean(entries, AdjustmentsKey, false) || IsNeutral(ReadAdjustments(entries, includeGamma))
    ensures s.Some? ==> s.value == ReadAdjustments(entries, includeGamma) && InRange(s.value)
  {
    var a := ReadAdjustments(entries, includeGamma);
    if !GetBoolean(entries, AdjustmentsKey, false) || IsNeutral(a) then None else Some(a)
  }

  /** What the filter lookup answers for a store. */
  function ExpectedFilter(entries: Entries, includeGamma: bool): Option<Matrix> {
    match ExpectedSettings(entries, includeGamma)
    case None => None
    case Some(a) => Some(FilterMatrix(a))
  }

  /** Out-of-range brightness behaves like the nearest bound: 150 is read as 100. */
  lemma BrightnessIsClamped(entries: Entries, v: int, includeGamma: bool)
    ensures ExpectedSettings(entries[BrightnessKey := IntPref(v)], includeGamma)
         == ExpectedSettings(entries[BrightnessKey := IntPref(CoerceIn(v, -100, 100))], includeGamma)
  {
    var e1, e2 := entries[BrightnessKey := IntPref(v)], entries[BrightnessKey := IntPref(CoerceIn(v, -100, 100))];
    assert ReadAdjustments(e1, includeGamma) == ReadAdjustments(e2, includeGamma);
  }

  /** Out-of-range gamma behaves like the nearest bound: 5 is read as 10. */
  lemma GammaIsClamped(entries: Entries, v: int, includeGamma: bool)
    ensures ExpectedSettings(entries[GammaKey := IntPref(v)], includeGamma)
         == ExpectedSettings(entries[GammaKey := IntPref(CoerceIn(v, 10, 300))], includeGamma)
  {
    var e1, e2 := entries[GammaKey := IntPref(v)], entries[GammaKey := IntPref(CoerceIn(v, 10, 300))];
    assert ReadAdjustments(e1, includeGamma) == ReadAdjustments(e2, includeGamma);
  }

  /** Without gamma, the stored gamma is ignored: any value gives the same answer. */
  lemma GammaIgnoredWhenExcluded(entries: Entries, v: int)
    ensures ExpectedSettings(entries[GammaKey := IntPref(v)], false) == ExpectedSettings(entries, false)
  {
    assert ReadAdjustments(entries[GammaKey := IntPref(v)], false) == ReadAdjustments(entries, false);
  }

  lemma {:induction false} ComposeFromSnoc(acc: Matrix, steps: seq<Step>, s: Step)
    ensures ComposeFrom(acc, steps + [s]) == PostConcat(ComposeFrom(acc, steps), StepMatrix(s))
    decreases |steps|
  {
    if steps == [] {
      assert [] + [s] == [s];
    } else {
      assert (steps + [s])[1..] == steps[1..] + [s];
      ComposeFromSnoc(PostConcat(acc, StepMatrix(steps[0])), steps[1..], s);
    }
  }

  function Optional(enabled: bool, s: Step): seq<Step> {
    if enabled then [s] else []
  }

  /** One block of the builder: postConcat a step when it is enabled, keep the matrix otherwise. */
  lemma ExtendComposition(m: Matrix, done: seq<Step>, enabled: bool, s: Step, next: Matrix)
    requires m == Compose(done)
    requires next == if enabled then PostConcat(m, StepMatrix(s)) else m
    ensures next == Compose(done + Optional(enabled, s))
  {
    if enabled {
      ComposeFromSnoc(Identity, done, s);
    } else {
      assert done + [] == done;
    }
  }

  lemma EnabledStepsBlocks(brightness: int, contrast: int, red: int, green: int, blue: int, gamma: int)
    ensures EnabledSteps(brightness, contrast, red, green, blue, gamma)
         == [] + Optional(brightness != 0, Brightness(brightness)) + Optional(contrast != 0, Contrast(contrast))
            + Optional(red != 0 || green != 0 || blue != 0, ChannelGain(red, green, blue))
            + Optional(gamma != 100, GammaApprox(gamma))
  {
    assert [] + Optional(brightness != 0, Brightness(brightness)) == Optional(brightness != 0, Brightness(brightness));
  }

  /** A composed matrix applies its steps in order and never mixes channels. */
  lemma ComposedMeaning(steps: seq<Step>)
    ensures forall c :: Apply(Compose(steps), c) == ApplySteps(steps, c)
    ensures IsChannelwise(Compose(steps))
  {
    forall c
      ensures Apply(Compose(steps), c) == ApplySteps(steps, c)
    {
      ComposeApplies(steps, c);
    }
    ComposeChannelwise(steps);
  }

  /** The brightness block: postConcat a uniform offset of `brightness` when it is non-zero. */
  method BrightnessBlock(m: Matrix, brightness: int) returns (next: Matrix)
    ensures next == if brightness != 0 then PostConcat(m, StepMatrix(Brightness(brightness))) else m
  {
    next := m;
    if brightness != 0 {
      var brightnessMatrix := Uniform(1.0, brightness as real);
      assert brightnessMatrix == StepMatrix(Brightness(brightness));
      next := PostConcat(m, brightnessMatrix);
    }
  }

  /** The contrast block: postConcat a scale about 128 when `contrast` is non-zero. */
  method ContrastBlock(m: Matrix, contrast: int) returns (next: Matrix)
    ensures next == if contrast != 0 then PostConcat(m, StepMatrix(Contrast(contrast))) else m
  {
    next := m;
    if contrast != 0 {
      var scale := ContrastScale(contrast);
      var translate := (1.0 - scale) * 128.0;
      var contrastMatrix := Uniform(scale, translate);
      assert contrastMatrix == StepMatrix(Contrast(contrast));
      next := PostConcat(m, contrastMatrix);
    }
  }

  /** The RGB block: postConcat per-channel gains when any of the three is non-zero. */
  method ChannelGainBlock(m: Matrix, red: int, green: int, blue: int) returns (next: Matrix)
    ensures next == if red != 0 || green != 0 || blue != 0 then PostConcat(m, StepMatrix(ChannelGain(red, green, blue))) else m
  {
    next := m;
    if red != 0 || green != 0 || blue != 0 {
      var redScale := 1.0 + red as real / 100.0;
      var greenScale := 1.0 + green as real / 100.0;
      var blueScale := 1.0 + blue as real / 100.0;
      var rgbMatrix := ScaleOffset(redScale, greenScale, blueScale, 0.0, 0.0, 0.0);
      assert rgbMatrix == StepMatrix(ChannelGain(red, green, blue));
      next := PostConcat(m, rgbMatrix);
    }
  }

  /** The gamma block: postConcat the linear gamma approximation when `gamma` is not 100. */
  method GammaBlock(m: Matrix, gamma: int) returns (next: Matrix)
    ensures next == if gamma != 100 then PostConcat(m, StepMatrix(GammaApprox(gamma))) else m
  {
    next := m;
    if gamma != 100 {
      var gammaMatrix := Uniform(GammaFactor(gamma), GammaOffset(gamma));
      assert gammaMatrix == StepMatrix(GammaApprox(gamma));
      next := PostConcat(m, gammaMatrix);
    }
  }

  /**
   * `createColorMatrixFilter`: start from the identity and postConcat each
   * enabled step in turn. The result is the composition of the enabled steps,
   * applies them in order, and never mixes channels.
   */
  method CreateColorMatrixFilter(brightness: int, contrast: int, red: int, green: int, blue: int, gamma: int)
    returns (finalMatrix: Matrix)
    ensures finalMatrix == Compose(EnabledSteps(brightness, contrast, red, green, blue, gamma))
  {
    var m0 := Identity;
    var m1 := BrightnessBlock(m0, brightness);
    ExtendComposition(m0, [], brightness != 0, Brightness(brightness), m1);
    ghost var done1 := [] + Optional(brightness != 0, Brightness(brightness));

    var m2 := ContrastBlock(m1, contrast);
    ExtendComposition(m1, done1, contrast != 0, Contrast(contrast), m2);
    ghost var done2 := done1 + Optional(contrast != 0, Contrast(contrast));

    var m3 := ChannelGainBlock(m2, red, green, blue);
    ExtendComposition(m2, done2, red != 0 || green != 0 || blue != 0, ChannelGain(red, green, blue), m3);
    ghost var done3 := done2 + Optional(red != 0 || green != 0 || blue != 0, ChannelGain(red, green, blue));

    finalMatrix := GammaBlock(m3, gamma);
    ExtendComposition(m3, done3, gamma != 100, GammaApprox(gamma), finalMatrix);

    EnabledStepsBlocks(brightness, contrast, red, green, blue, gamma);
  }

  /**
   * The filter cache: the key of the last filter built and that filter. Both
   * are empty, or the filter is the one built from the key's settings.
   */
  class FilterCache {
    var cachedFilterSettings: Option<seq<int>>
    var cachedFilter: Option<Matrix>
    /** Whether the last lookup built a new filter (the work the cache saves). */
    ghost var lastLookupBuilt: bool

    ghost predicate Valid()
      reads this
    {
      match cachedFilterSettings
      case None => cachedFilter.None?
      case Some(key) => |key| == 7 && cachedFilter == Some(FilterMatrix(KeyAdjustments(key)))
    }

    constructor ()
      ensures Valid() && cachedFilterSettings.None? && cachedFilter.None? && !lastLookupBuilt
    {
      cachedFilterSettings := None;
      cachedFilter := None;
      lastLookupBuilt := false;
    }

    /**
     * `getImageAdjustmentFilter`, on the preferences as they stand when it
     * reads them: the answer is always the filter those settings call for,
     * whether it comes from the cache or is rebuilt. When there is no filter
     * the cache is cleared; otherwise it holds the current key and filter,
     * and a filter is built exactly when the key changed.
     */
    method GetImageAdjustmentFilter(entries: Entries, includeGamma: bool) returns (filter: Option<Matrix>)
      requires Valid()
      modifies this
      ensures Valid()
      ensures filter == ExpectedFilter(entries, includeGamma)
      ensures filter.None? ==> cachedFilterSettings.None? && cachedFilter.None?
      ensures filter.Some? ==>
                && cachedFilterSettings == Some(CacheKey(ReadAdjustments(entries, includeGamma), includeGamma))
                && cachedFilter == filter
      ensures lastLookupBuilt <==> filter.Some? && old(cachedFilterSettings) != cachedFilterSettings
    {
      var settings := ExpectedSettings(entries, includeGamma);
      filter := LookUp(settings, includeGamma);
    }

    /**
     * The cache logic of `getImageAdjustmentFilter` once the settings are
     * read: no settings clear the cache; settings whose key is cached reuse
     * the cached filter; other settings build a filter and cache it.
     */
    method LookUp(settings: Option<Adjustments>, includeGamma: bool) returns (filter: Option<Matrix>)
      requires Valid()
      modifies this
      ensures Valid()
      ensures settings.None? ==> filter.None? && cachedFilterSettings.None? && cachedFilter.None?
      ensures settings.Some? ==>
                && filter == Some(FilterMatrix(settings.value))
                && cachedFilterSettings == Some(CacheKey(settings.value, includeGamma))
                && cachedFilter == filter
      ensures lastLookupBuilt <==> settings.Some? && old(cachedFilterSettings) != cachedFilterSettings
    {
      if settings.None? {
        cachedFilterSettings := None;
        cachedFilter := None;
        lastLookupBuilt := false;
        return None;
      }
      var a := settings.value;
      var currentSettings := CacheKey(a, includeGamma);
      CacheKeyInjective(a, includeGamma, a, includeGamma);
      if cachedFilterSettings == Some(currentSettings) {
        assert cachedFilter == Some(FilterMatrix(a));
        lastLookupBuilt := false;
        return cachedFilter;
      }

      var newFilter := CreateColorMatrixFilter(a.brightness, a.contrast, a.red, a.green, a.blue, a.gamma);
      assert newFilter == FilterMatrix(KeyAdjustments(currentSettings));
      lastLookupBuilt := true;
      cachedFilterSettings := Some(currentSettings);
      cachedFilter := Some(newFilter);
      return Some(newFilter);
    }
  }

  /** Two lookups with unchanged settings agree, and the second is served from the cache. */
  method RepeatedLookupBuildsOnce(cache: FilterCache, entries: Entries, includeGamma: bool)
    returns (first: Option<Matrix>, second: Option<Matrix>)
    requires cache.Valid()
    modifies cache
    ensures cache.Valid()
    ensures first == second == ExpectedFilter(entries, includeGamma)
    ensures !cache.lastLookupBuilt
  {
    first := cache.GetImageAdjustmentFilter(entries, includeGamma);
    second := cache.GetImageAdjustmentFilter(entries, includeGamma);
  }
}
