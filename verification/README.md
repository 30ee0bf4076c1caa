# ImmichFrame for Android: the image-adjustment pipeline and the settings logic

This project models the parts of the ImmichFrame Android client that compute
something. They fall into three groups.

**The image pipeline (`Helpers.kt`).**
- The colour-matrix builder composes brightness, contrast, channel gain and a gamma
  approximation with `postConcat`.
- The filter cache sits in front of the builder. It clamps the stored sliders and
  keys the filter on seven integers.
- The exact gamma pass uses a 256-entry lookup table and a pixel loop that works in place.
- `applyImageAdjustmentsToBitmap` ties these together. It always recycles its input
  and always returns a new bitmap.
- `reduceBitmapQuality` downscales a bitmap and `mergeImages` composes two bitmaps
  side by side.

**Decision functions (`Helpers.kt`).**
- `cssFontSizeToSp` is a dispatcher over keywords and units.
- `createRetrofit` normalises the base URL and adds the bearer header.

**The settings screen (`SettingsFragment.kt`, `SeekBarPreference.kt`).**
- The `HH:mm-HH:mm` dim-time parser.
- The server-URL check done before the screen closes.
- The pincode switch and the creation of a pincode.
- The `imageAdjustments` switch.
- The seek-bar preference: its value↔progress mapping, its reset button, its commit
  rule and its summary.

Stateful code is modelled as classes whose methods state the whole new state:
`SharedPreferences`, `FilterCache`, `Bitmap`, `SettingsFragment`,
`SeekBarPreference` and `SeekBarDialog`. Pure code is modelled as functions, with
lemmas relating them. Each module has one file:

| file | module |
|---|---|
| `wrappers.dfy` | `Option` |
| `text.dfy` | Kotlin string helpers the source relies on: `trim`, `split`, `toInt`, `toString`, `%.2f`, a decimal subset of `toFloatOrNull`, ignore-case comparison, `removeSuffix` |
| `preferences.dfy` | the key-value store |
| `color_matrix.dfy` | 4×5 colour matrices, `postConcat`, the four adjustment steps |
| `adjustment_filter.dfy` | clamping, the cache key, `createColorMatrixFilter`, the filter cache |
| `bitmaps.dfy` | bitmaps with a `recycled` flag, `reduceBitmapQuality`, `mergeImages` |
| `gamma.dfy` | ARGB packing, the gamma table, `applyGammaToBitmap` |
| `adjust_bitmap.dfy` | drawing through a filter, `applyImageAdjustmentsToBitmap` |
| `font_size.dfy` | `cssFontSizeToSp` |
| `api_client.dfy` | `createRetrofit`'s URL and header logic |
| `settings.dfy` | the settings-screen listeners |
| `seekbar.dfy` | `SeekBarPreference` and its dialog |

Three behaviours of the code are easy to miss, and the model keeps them.
- **Gamma table.** `Helpers.kt:435` clamps each entry to [0, 255] and then truncates it
  with `toInt()`, so no entry is rounded. `LutEntry` truncates the same way.
- **Downscaling.** `bitmap.scale` throws for a zero side, which a thin strip produces.
  `ReduceBitmapQuality` returns `None` in that case, and the input is left unrecycled.
  `ReduceStripExample` exhibits the case.
- **Gamma and the switch.** `applyImageAdjustmentsToBitmap` reads the gamma slider
  without consulting the `imageAdjustments` switch. With the switch off, a gamma other
  than 100 is still applied (`GammaAppliedWhenSwitchedOff`).

## Model

| member | source | states |
|---|---|---|
| Preferences.GetBoolean | app/src/main/java/com/immichframe/immichframe/Helpers.kt:242 | a missing key reads as the default; a stored boolean is returned as stored |
| Preferences.GetInt | app/src/main/java/com/immichframe/immichframe/Helpers.kt:252-257 | a missing key reads as the default; a stored integer is returned as stored |
| Preferences.GetString | app/src/main/java/com/immichframe/immichframe/SettingsFragment.kt:109 | a missing key reads as the default; a stored string is returned as stored |
| Preferences.SharedPreferences.constructor | app/src/main/java/com/immichframe/immichframe/SettingsFragment.kt:106 | the store holds exactly the given entries |
| Preferences.SharedPreferences.PutBoolean | app/src/main/java/com/immichframe/immichframe/SettingsFragment.kt:78-81 | the key maps to the boolean; every other entry is unchanged |
| Preferences.SharedPreferences.PutInt | app/src/main/java/com/immichframe/immichframe/SettingsFragment.kt:194-199 | the key maps to the integer; every other entry is unchanged |
| Preferences.SharedPreferences.PutString | app/src/main/java/com/immichframe/immichframe/SettingsFragment.kt:224-226 | the key maps to the string; every other entry is unchanged |
| Preferences.SharedPreferences.Remove | app/src/main/java/com/immichframe/immichframe/SettingsFragment.kt:135-137 | the key is gone; every other entry is unchanged |
| ColorMatrix.DotRowTimes | app/src/main/java/com/immichframe/immichframe/Helpers.kt:307 | a row of the product, applied to a colour, equals that row applied to the second matrix's output |
| ColorMatrix.ApplyConcat | app/src/main/java/com/immichframe/immichframe/Helpers.kt:307 | applying a product of two matrices is applying the right one first, then the left one |
| ColorMatrix.PostConcat | app/src/main/java/com/immichframe/immichframe/Helpers.kt:307 | `m.postConcat(post)` makes m the product post × m; by `ApplyConcat` the result applies m first and then post |
| ColorMatrix.ScaleOffset | app/src/main/java/com/immichframe/immichframe/Helpers.kt:328-333 | the matrix is channelwise, with the given scale and offset on each colour row |
| ColorMatrix.Uniform | app/src/main/java/com/immichframe/immichframe/Helpers.kt:301-306 | a matrix with one scale and one offset for red, green and blue is channelwise |
| ColorMatrix.ChannelwiseApply | app/src/main/java/com/immichframe/immichframe/Helpers.kt:301-362 | a channelwise matrix maps each colour channel through its own scale and offset, with no mixing, and passes alpha through |
| ColorMatrix.ConcatChannelwise | app/src/main/java/com/immichframe/immichframe/Helpers.kt:307 | the product of two channelwise matrices is channelwise; its scales multiply and its offsets compose |
| ColorMatrix.StepMatrix | app/src/main/java/com/immichframe/immichframe/Helpers.kt:299-364 | every one of the four adjustment steps is a channelwise matrix |
| ColorMatrix.EnabledSteps | app/src/main/java/com/immichframe/immichframe/Helpers.kt:299-364 | at most four steps; none exactly when brightness, contrast and the gains are 0 and gamma is 100 |
| ColorMatrix.ComposeFromApplies | app/src/main/java/com/immichframe/immichframe/Helpers.kt:296-366 | folding the steps into an accumulated matrix applies the accumulator first, then the steps in order |
| ColorMatrix.ComposeApplies | app/src/main/java/com/immichframe/immichframe/Helpers.kt:296-366 | the composed matrix applies the enabled steps in their listed order |
| ColorMatrix.ComposeFromChannelwise | app/src/main/java/com/immichframe/immichframe/Helpers.kt:296-366 | folding channelwise steps into a channelwise accumulator stays channelwise |
| ColorMatrix.ComposeChannelwise | app/src/main/java/com/immichframe/immichframe/Helpers.kt:296-366 | the composed filter never mixes colour channels and keeps alpha |
| ColorMatrix.ContrastFixesMidGray | app/src/main/java/com/immichframe/immichframe/Helpers.kt:311-321 | every contrast step maps mid-grey 128 to itself |
| ColorMatrix.LowestContrastIsFlatGray | app/src/main/java/com/immichframe/immichframe/Helpers.kt:311-321 | contrast -100 turns every colour into flat grey 128, with its alpha kept |
| ColorMatrix.GammaApproxMovesMidGray | app/src/main/java/com/immichframe/immichframe/Helpers.kt:341-364 | the gamma approximation darkens mid-grey for gamma above 100 and lightens it below 100; grey stays grey |
| ColorMatrix.GammaFactor | app/src/main/java/com/immichframe/immichframe/Helpers.kt:342-350 | the gamma matrix's scale, 0.7 + (g - 1) × 0.3 above g = 1 and 1 + (1 - g) × 0.5 otherwise; `GammaApproxMovesMidGray` states its effect on mid-gray |
| ColorMatrix.GammaOffset | app/src/main/java/com/immichframe/immichframe/Helpers.kt:351-355 | the gamma matrix's offset, -(g - 1) × 30 above g = 1 and (1 - g) × 40 otherwise; `GammaApproxMovesMidGray` states its effect on mid-gray |
| AdjustmentFilter.CoerceIn | app/src/main/java/com/immichframe/immichframe/Helpers.kt:252-257 | the result lies in [lo, hi]; an in-range value is kept; a value outside becomes the nearer bound |
| AdjustmentFilter.StoredGamma | app/src/main/java/com/immichframe/immichframe/Helpers.kt:384 | the gamma the orchestration reads always lies in [10, 300] |
| AdjustmentFilter.ReadAdjustments | app/src/main/java/com/immichframe/immichframe/Helpers.kt:252-257 | every value read lies in its range; without gamma, gamma reads as 100 |
| AdjustmentFilter.CacheKey | app/src/main/java/com/immichframe/immichframe/Helpers.kt:271-272 | the key has seven integers |
| AdjustmentFilter.CacheKeyInjective | app/src/main/java/com/immichframe/immichframe/Helpers.kt:271-274 | two keys are equal exactly when the settings and the gamma flag are equal; the settings can be read back from the key |
| AdjustmentFilter.ExpectedSettings | app/src/main/java/com/immichframe/immichframe/Helpers.kt:242-267 | no settings exactly when the switch is off or every clamped value is neutral; otherwise the clamped values, all in range |
| AdjustmentFilter.BrightnessIsClamped | app/src/main/java/com/immichframe/immichframe/Helpers.kt:252 | an out-of-range brightness gives the same settings as the nearer bound (150 behaves as 100) |
| AdjustmentFilter.GammaIsClamped | app/src/main/java/com/immichframe/immichframe/Helpers.kt:257 | an out-of-range gamma gives the same settings as the nearer bound (5 behaves as 10) |
| AdjustmentFilter.GammaIgnoredWhenExcluded | app/src/main/java/com/immichframe/immichframe/Helpers.kt:257 | without gamma, the stored gamma has no effect on the settings |
| AdjustmentFilter.ExtendComposition | app/src/main/java/com/immichframe/immichframe/Helpers.kt:299-364 | one guarded `postConcat` extends the composition of the steps done so far by that step, or by nothing when it is disabled |
| AdjustmentFilter.EnabledStepsBlocks | app/src/main/java/com/immichframe/immichframe/Helpers.kt:299-364 | the enabled steps are brightness, contrast, gain and gamma, in that order, each present only when not neutral |
| AdjustmentFilter.ComposedMeaning | app/src/main/java/com/immichframe/immichframe/Helpers.kt:296-366 | the composed matrix applies the steps in order, and it is channelwise |
| AdjustmentFilter.BrightnessBlock | app/src/main/java/com/immichframe/immichframe/Helpers.kt:299-308 | a non-zero brightness postConcats the brightness step's matrix (offset `brightness` on each colour channel); zero leaves the matrix as it is |
| AdjustmentFilter.ContrastBlock | app/src/main/java/com/immichframe/immichframe/Helpers.kt:311-321 | a non-zero contrast postConcats the contrast step's matrix (a scale about 128); zero leaves the matrix as it is |
| AdjustmentFilter.ChannelGainBlock | app/src/main/java/com/immichframe/immichframe/Helpers.kt:324-335 | a non-zero red, green or blue postConcats the gains 1 + value / 100; all three zero leave the matrix as it is |
| AdjustmentFilter.GammaBlock | app/src/main/java/com/immichframe/immichframe/Helpers.kt:341-364 | a gamma other than 100 postConcats the linear gamma approximation; 100 leaves the matrix as it is |
| AdjustmentFilter.CreateColorMatrixFilter | app/src/main/java/com/immichframe/immichframe/Helpers.kt:288-367 | the matrix built by the sequence of guarded `postConcat` calls is the composition of the enabled steps |
| AdjustmentFilter.FilterCache.constructor | app/src/main/java/com/immichframe/immichframe/Helpers.kt:25-26 | both cache fields start empty |
| AdjustmentFilter.FilterCache.GetImageAdjustmentFilter | app/src/main/java/com/immichframe/immichframe/Helpers.kt:238-286 | the filter the stored settings call for, whether cached or rebuilt. With no filter the cache is cleared; otherwise it holds the settings' key and that filter. A filter is built exactly when the key changed |
| AdjustmentFilter.FilterCache.LookUp | app/src/main/java/com/immichframe/immichframe/Helpers.kt:243-285 | no settings clear the cache. A cached key returns the cached filter without building. A new key builds the filter and stores it with its key |
| AdjustmentFilter.RepeatedLookupBuildsOnce | app/src/main/java/com/immichframe/immichframe/Helpers.kt:269-277 | two lookups with unchanged settings return the same filter, and the second is served from the cache without building |
| Bitmaps.Bitmap.constructor | app/src/main/java/com/immichframe/immichframe/Helpers.kt:84 | a new bitmap holds the given size and pixels, and is not recycled |
| Bitmaps.Bitmap.Recycle | app/src/main/java/com/immichframe/immichframe/Helpers.kt:132 | the bitmap is marked recycled |
| Bitmaps.TruncToInt | app/src/main/java/com/immichframe/immichframe/Helpers.kt:136-137 | `toInt()` truncates toward zero |
| Bitmaps.ReductionFor | app/src/main/java/com/immichframe/immichframe/Helpers.kt:127-141 | keep, scale to the truncated sides, or fail; `ReductionFacts` states each case over all inputs |
| Bitmaps.ReductionFacts | app/src/main/java/com/immichframe/immichframe/Helpers.kt:122-143 | kept exactly when the larger side is within maxSize. Fails exactly when a scaled side truncates to 0. Otherwise both sides shrink, the larger becomes maxSize, and each is the truncation of side × maxSize / larger side |
| Bitmaps.KeepSizeExactly | app/src/main/java/com/immichframe/immichframe/Helpers.kt:127-129 | scale factor at least 1 exactly when the larger side is within maxSize |
| Bitmaps.NonPositiveTargetFails | app/src/main/java/com/immichframe/immichframe/Helpers.kt:127-138 | a maxSize of 0 or less always gives a non-positive target, and the scale fails |
| Bitmaps.ReduceLandscapeExample | app/src/main/java/com/immichframe/immichframe/Helpers.kt:122-143 | 2000×1000 with maxSize 1000 becomes 1000×500 |
| Bitmaps.ReduceSmallExample | app/src/main/java/com/immichframe/immichframe/Helpers.kt:122-143 | 200×100 with maxSize 1000 is kept at its size |
| Bitmaps.ReduceStripExample | app/src/main/java/com/immichframe/immichframe/Helpers.kt:122-143 | 1×2001 with maxSize 1000 truncates to width 0 |
| Bitmaps.Resampled | app/src/main/java/com/immichframe/immichframe/Helpers.kt:138 | the resampled pixel grid has the target size |
| Bitmaps.ReduceBitmapQuality | app/src/main/java/com/immichframe/immichframe/Helpers.kt:122-144 | a kept bitmap gives a fresh exact copy; a scaled one gives a fresh bitmap of the truncated size. Both recycle the input; a failed scale returns nothing and recycles nothing |
| Bitmaps.MergedPixels | app/src/main/java/com/immichframe/immichframe/Helpers.kt:78-100 | the composite has (leftW + rightW + 10) × max(leftH, rightH) pixels |
| Bitmaps.MergedPixelAt | app/src/main/java/com/immichframe/immichframe/Helpers.kt:78-100 | each composite pixel comes from the region its coordinates fall in |
| Bitmaps.MergeKeepsLeftImage | app/src/main/java/com/immichframe/immichframe/Helpers.kt:88 | the left image appears unchanged with its corner at (0, 0) |
| Bitmaps.MergeKeepsRightImage | app/src/main/java/com/immichframe/immichframe/Helpers.kt:97 | the right image appears unchanged with its corner at (leftW + 10, 0) |
| Bitmaps.MergeDrawsLine | app/src/main/java/com/immichframe/immichframe/Helpers.kt:91-95 | columns [leftW, leftW + 10) hold the line colour over the full height |
| Bitmaps.MergeLeavesGapUnpainted | app/src/main/java/com/immichframe/immichframe/Helpers.kt:80-84 | below the shorter image the composite keeps the blank bitmap's colour |
| Bitmaps.MergeExample | app/src/main/java/com/immichframe/immichframe/Helpers.kt:78-100 | 100×50 beside 80×60 gives 190×60. (100, 0) is on the line, (189, 59) is the right image's last pixel, and (99, 55) is blank |
| Bitmaps.MergeImages | app/src/main/java/com/immichframe/immichframe/Helpers.kt:78-100 | a fresh bitmap of the merged size holding the merged pixels; the inputs are not recycled |
| GammaCorrection.PackChannels | app/src/main/java/com/immichframe/immichframe/Helpers.kt:444-453 | the four channels of a packed word are the bytes it was packed from |
| GammaCorrection.ChannelsPack | app/src/main/java/com/immichframe/immichframe/Helpers.kt:444-453 | repacking a word's four channels gives the word back |
| GammaCorrection.LutEntry | app/src/main/java/com/immichframe/immichframe/Helpers.kt:435 | the entry lies in [0, 255]; it is clamped at both ends and truncated in between |
| GammaCorrection.LutEntryMonotone | app/src/main/java/com/immichframe/immichframe/Helpers.kt:435 | a larger corrected value never gives a smaller entry |
| GammaCorrection.GammaLut | app/src/main/java/com/immichframe/immichframe/Helpers.kt:432-436 | the table has 256 entries, each in [0, 255] |
| GammaCorrection.UnitGammaIsIdentity | app/src/main/java/com/immichframe/immichframe/Helpers.kt:432-436 | gamma 1 gives the identity table when the power is exact |
| GammaCorrection.GammaLutMonotone | app/src/main/java/com/immichframe/immichframe/Helpers.kt:432-436 | a monotone power gives a monotone table |
| GammaCorrection.GammaLutEndpoints | app/src/main/java/com/immichframe/immichframe/Helpers.kt:432-436 | black stays black and white stays white |
| GammaCorrection.CorrectPixel | app/src/main/java/com/immichframe/immichframe/Helpers.kt:443-452 | one loop iteration's pixel: alpha kept and R, G, B looked up, as stated by `CorrectPixelChannels` |
| GammaCorrection.CorrectPixelChannels | app/src/main/java/com/immichframe/immichframe/Helpers.kt:443-453 | the corrected pixel keeps its alpha and has `lut[r]`, `lut[g]`, `lut[b]` |
| GammaCorrection.MapPixels | app/src/main/java/com/immichframe/immichframe/Helpers.kt:442-454 | correcting every pixel keeps the pixel count |
| GammaCorrection.IdentityLutKeepsPixels | app/src/main/java/com/immichframe/immichframe/Helpers.kt:442-454 | an identity table leaves every pixel as it was |
| GammaCorrection.BuildGammaLut | app/src/main/java/com/immichframe/immichframe/Helpers.kt:432-436 | the filled array is the gamma table |
| GammaCorrection.CorrectWord | app/src/main/java/com/immichframe/immichframe/Helpers.kt:443-453 | the shift-and-mask loop body yields the corrected pixel |
| GammaCorrection.CorrectPixelsInPlace | app/src/main/java/com/immichframe/immichframe/Helpers.kt:442-454 | after the loop, the array holds every original pixel corrected |
| GammaCorrection.ApplyGammaToBitmap | app/src/main/java/com/immichframe/immichframe/Helpers.kt:419-463 | above 4000 × 4000 pixels, the same bitmap, unrecycled. Otherwise a fresh bitmap of the same size with every pixel corrected, and the input is recycled |
| ImageAdjustment.ToChannel | app/src/main/java/com/immichframe/immichframe/Helpers.kt:398 | a filtered channel is clamped to [0, 255] and rounded to the nearest value |
| ImageAdjustment.ToChannelOfChannel | app/src/main/java/com/immichframe/immichframe/Helpers.kt:398 | an 8-bit value survives the conversion unchanged |
| ImageAdjustment.FilterIdentityKeepsPixel | app/src/main/java/com/immichframe/immichframe/Helpers.kt:394-398 | drawing through the identity matrix leaves a pixel unchanged |
| ImageAdjustment.FilterChannels | app/src/main/java/com/immichframe/immichframe/Helpers.kt:394-398 | each filtered channel is its matrix row's value, brought back to 8 bits |
| ImageAdjustment.ChannelwiseFilterKeepsAlpha | app/src/main/java/com/immichframe/immichframe/Helpers.kt:394-398 | a channelwise filter keeps each pixel's alpha |
| ImageAdjustment.Rendered | app/src/main/java/com/immichframe/immichframe/Helpers.kt:394-398 | drawing keeps the pixel count, and without a filter it is an exact copy |
| ImageAdjustment.AdjustedPixels | app/src/main/java/com/immichframe/immichframe/Helpers.kt:382-409 | the adjusted pixels are as many as the input's |
| ImageAdjustment.GammaPass | app/src/main/java/com/immichframe/immichframe/Helpers.kt:403-405 | keeps the pixel count; gamma 100 or a bitmap over the 4000 × 4000 limit of applyGammaToBitmap leaves the pixels as drawn, otherwise each goes through the gamma table (`GammaAppliedWhenSwitchedOff`, `AdjustedKeepsAlpha`) |
| ImageAdjustment.DrawThroughFilter | app/src/main/java/com/immichframe/immichframe/Helpers.kt:389-401 | a fresh bitmap of the same size receives the input drawn through the filter, and the input is recycled |
| ImageAdjustment.GammaStep | app/src/main/java/com/immichframe/immichframe/Helpers.kt:403-405 | gamma 100 keeps the drawn bitmap. Any other gamma runs the gamma pass on it, which hands a too-large bitmap back. The pixels are the gamma pass of the drawn ones |
| ImageAdjustment.AdjustWith | app/src/main/java/com/immichframe/immichframe/Helpers.kt:389-406 | drawing and then the gamma pass give the adjusted pixels in a fresh bitmap; the input is recycled |
| ImageAdjustment.ApplyImageAdjustmentsToBitmap | app/src/main/java/com/immichframe/immichframe/Helpers.kt:382-409 | always a fresh bitmap of the input's size, even with no filter or a skipped gamma pass. The input is always recycled, the pixels are the stored settings' adjustment, and the cache stays consistent |
| ImageAdjustment.SwitchedOffIsCopy | app/src/main/java/com/immichframe/immichframe/Helpers.kt:384-406 | switch off and gamma 100: the output pixels equal the input's |
| ImageAdjustment.GammaAppliedWhenSwitchedOff | app/src/main/java/com/immichframe/immichframe/Helpers.kt:384-406 | switch off but gamma not 100, on a bitmap within the 4000 × 4000 limit: the gamma table is still applied to every pixel |
| ImageAdjustment.ExpectedFilterIsChannelwise | app/src/main/java/com/immichframe/immichframe/Helpers.kt:280 | every filter the stored settings produce is channelwise |
| ImageAdjustment.AdjustedKeepsAlpha | app/src/main/java/com/immichframe/immichframe/Helpers.kt:394-406 | a channelwise filter followed by the gamma pass keeps every pixel's alpha |
| ImageAdjustment.AdjustmentKeepsAlpha | app/src/main/java/com/immichframe/immichframe/Helpers.kt:382-409 | every output pixel of the adjustment has its input pixel's alpha |
| FontSize.KeywordSize | app/src/main/java/com/immichframe/immichframe/Helpers.kt:49-55 | a keyword's size is one of 8, 10, 12, 16, 20, 24, 32 |
| FontSize.NumberBefore | app/src/main/java/com/immichframe/immichframe/Helpers.kt:58-69 | `removeSuffix(unit).toFloatOrNull() ?: fallback`; its value for each unit is stated by `PxSize`, `PtSize` and `EmSize`, and the fallback case by `UnparsableNumberUsesBaseSize` |
| FontSize.CssFontSizeToSp | app/src/main/java/com/immichframe/immichframe/Helpers.kt:39-76 | a null size is medium (16 × fontScale); a keyword gives its size × fontScale. The px, pt and em cases are stated by value in `PxSize`, `PtSize` and `EmSize` |
| FontSize.KeywordSizeIgnoresCase | app/src/main/java/com/immichframe/immichframe/Helpers.kt:49-55 | strings equal up to letter case have the same keyword size |
| FontSize.UpperCaseKeyword | app/src/main/java/com/immichframe/immichframe/Helpers.kt:53 | "LARGE" gives 20 × fontScale |
| FontSize.NumberIsNoKeyword | app/src/main/java/com/immichframe/immichframe/Helpers.kt:49-57 | a string starting with a digit, a sign or a point is no keyword, so the unit branches decide |
| FontSize.NoKeywordEndsWithUnit | app/src/main/java/com/immichframe/immichframe/Helpers.kt:49-56 | no keyword ends in "px", "pt" or "em" in any letter case, so such a size reaches the unit branches |
| FontSize.PxSize | app/src/main/java/com/immichframe/immichframe/Helpers.kt:57-60 | "<w>px": w's number v gives v / (density × fontScale); an unparsable w gives the base size / (density × fontScale) |
| FontSize.PtSize | app/src/main/java/com/immichframe/immichframe/Helpers.kt:62-66 | "<w>pt": w's number v gives v × 160 / 72 / fontScale; an unparsable w gives the base size × 160 / 72 / fontScale |
| FontSize.EmSize | app/src/main/java/com/immichframe/immichframe/Helpers.kt:68-72 | "<w>em": w's number v gives v × base size / (density × fontScale); an unparsable w counts as 1 em, base size / (density × fontScale) |
| FontSize.UnparsableNumberUsesBaseSize | app/src/main/java/com/immichframe/immichframe/Helpers.kt:57-72 | with a foreign character before the unit, px and em give base size / (density × fontScale) and pt gives base size × 160 / 72 / fontScale |
| FontSize.BlankBeforeUnit | app/src/main/java/com/immichframe/immichframe/Helpers.kt:57-60 | "12 px" is 12 / (density × fontScale): the blank left by `removeSuffix` is skipped by `toFloatOrNull` |
| FontSize.PxToSpInverse | app/src/main/java/com/immichframe/immichframe/Helpers.kt:59 | converting sp back with density × fontScale gives the pixels |
| FontSize.PtCancelsDensity | app/src/main/java/com/immichframe/immichframe/Helpers.kt:64-65 | for points the density cancels: pt × 160 / 72 / fontScale |
| FontSize.PxRoundTrip | app/src/main/java/com/immichframe/immichframe/Helpers.kt:57-60 | "<n>px" gives n pixels converted to sp |
| FontSize.UpperCaseUnitUsesBaseSize | app/src/main/java/com/immichframe/immichframe/Helpers.kt:57-59 | "12PX" takes the px branch, but the case-sensitive `removeSuffix` leaves "12PX" unparsable, so the base size is used |
| FontSize.PtIgnoresDensity | app/src/main/java/com/immichframe/immichframe/Helpers.kt:62-66 | a pt size does not depend on the screen density |
| FontSize.EmScalesBaseSize | app/src/main/java/com/immichframe/immichframe/Helpers.kt:68-72 | "<n>em" gives n × base size / (density × fontScale) |
| FontSize.UnknownIsMedium | app/src/main/java/com/immichframe/immichframe/Helpers.kt:74 | anything that is neither a keyword nor px, pt or em gives 16 × fontScale |
| ApiClient.NormalizeBaseUrl | app/src/main/java/com/immichframe/immichframe/Helpers.kt:200 | the URL ends in '/', extends the input by at most one character, and equals the input exactly when the input already ends in '/' |
| ApiClient.NormalizeIdempotent | app/src/main/java/com/immichframe/immichframe/Helpers.kt:200 | normalising twice is normalising once |
| ApiClient.NormalizeIsShortest | app/src/main/java/com/immichframe/immichframe/Helpers.kt:200 | no shorter extension of the input ends in '/' |
| ApiClient.CreateRetrofit | app/src/main/java/com/immichframe/immichframe/Helpers.kt:199-217 | the base URL ends in '/', the model's form of Retrofit's base-URL check, and the interceptor gets the given secret |
| ApiClient.PathWithoutSlashNeedsNormalizing | app/src/main/java/com/immichframe/immichframe/Helpers.kt:200 | "http://frame:8080/immich", whose path lacks the final '/', would be refused as it is, and is normalised to "http://frame:8080/immich/" |
| ApiClient.BearerToken | app/src/main/java/com/immichframe/immichframe/Helpers.kt:206 | the token after "Bearer " is what the value was built from |
| ApiClient.Intercept | app/src/main/java/com/immichframe/immichframe/Helpers.kt:202-212 | keeps the URL, keeps the existing headers as a prefix and adds at most one; `InterceptAddsAuthorization` states which header and when |
| ApiClient.InterceptAddsAuthorization | app/src/main/java/com/immichframe/immichframe/Helpers.kt:202-212 | the URL and the existing headers are kept. A header is added exactly when the secret is non-empty; it is `Authorization` and its bearer token is the secret |
| ApiClient.EndpointJoinsWithOneSlash | app/src/main/java/com/immichframe/immichframe/Helpers.kt:199-216 | the endpoint URL is the typed address plus the path, with a '/' inserted only when the address lacked one |
| ApiClient.ImageEndpointExample | app/src/main/java/com/immichframe/immichframe/Helpers.kt:188-216 | the image endpoint of "http://frame:8080" is that address, one added '/' and the image path `api/Asset/RandomImageAndInfo` |
| Text.Trim | app/src/main/java/com/immichframe/immichframe/SettingsFragment.kt:184 | the result starts and ends with non-whitespace; a string already so is kept |
| Text.TrimPosition | app/src/main/java/com/immichframe/immichframe/SettingsFragment.kt:184 | the result is a slice of the input, and everything cut off before and after it is whitespace |
| Text.TrimIdempotent | app/src/main/java/com/immichframe/immichframe/SettingsFragment.kt:184 | trimming twice is trimming once |
| Text.Split | app/src/main/java/com/immichframe/immichframe/SettingsFragment.kt:188-190 | split always yields at least one piece |
| Text.SplitJoin | app/src/main/java/com/immichframe/immichframe/SettingsFragment.kt:188-190 | joining the pieces with the separator gives the string back |
| Text.SplitWithoutSeparator | app/src/main/java/com/immichframe/immichframe/SettingsFragment.kt:188-190 | a string without the separator is one piece |
| Text.SplitAtSeparator | app/src/main/java/com/immichframe/immichframe/SettingsFragment.kt:188-190 | a separator-free prefix followed by the separator becomes the first piece |
| Text.ParseDecimal | app/src/main/java/com/immichframe/immichframe/Helpers.kt:58 | only a non-empty string can parse; `ParseDecimalOfPadded` and `ParseDecimalShape` state both directions of which strings parse, and to what |
| Text.StripLowOfPadded | app/src/main/java/com/immichframe/immichframe/Helpers.kt:58 | trimming drops exactly the characters '\u0000'..'\u0020' around a core that starts and ends with other characters |
| Text.ParseUnsignedEnds | app/src/main/java/com/immichframe/immichframe/Helpers.kt:58 | an accepted unsigned decimal starts and ends with a digit or the point |
| Text.ParseUnsignedOfDigits | app/src/main/java/com/immichframe/immichframe/Helpers.kt:58 | a run of digits reads as its decimal value |
| Text.ParseUnsignedOfPointed | app/src/main/java/com/immichframe/immichframe/Helpers.kt:58 | digits, a point and digits (at least one digit in all) read as the whole part plus the fraction |
| Text.ParseDecimalOfPadded | app/src/main/java/com/immichframe/immichframe/Helpers.kt:58 | an unsigned decimal with an optional sign and low characters around it reads as its value, negated after a minus |
| Text.ParseUnsignedShape | app/src/main/java/com/immichframe/immichframe/Helpers.kt:58 | conversely, an accepted unsigned decimal is a non-empty run of digits read as its value, or digits, one point and digits (at least one digit in all) read as the whole part plus the fraction |
| Text.ParseDecimalShape | app/src/main/java/com/immichframe/immichframe/Helpers.kt:58 | conversely, a string that parses to x is low padding, an optional sign, an unsigned decimal reading as x (or -x after a minus) and low padding |
| Text.ParsedChars | app/src/main/java/com/immichframe/immichframe/Helpers.kt:58 | every character of a string that parses is padding, a digit, a sign or the point |
| Text.ParsedOnePoint | app/src/main/java/com/immichframe/immichframe/Helpers.kt:58 | a string that parses holds at most one point |
| Text.ForeignCharFails | app/src/main/java/com/immichframe/immichframe/Helpers.kt:58 | any other character anywhere makes the parse fail |
| Text.TwoPointsFail | app/src/main/java/com/immichframe/immichframe/Helpers.kt:58 | two points anywhere make the parse fail |
| Text.RefusedExamples | app/src/main/java/com/immichframe/immichframe/Helpers.kt:58 | "12abc" and "1.2.3" do not parse |
| Text.RemoveSuffix | app/src/main/java/com/immichframe/immichframe/Helpers.kt:58 | removes the suffix exactly when the string ends with it, case-sensitively; otherwise the string is kept |
| Text.IntToString | app/src/main/java/com/immichframe/immichframe/SeekBarPreference.kt:53 | non-empty, and starts with '-' exactly for negative numbers |
| Text.ParseDecimalOfIntToString | app/src/main/java/com/immichframe/immichframe/SeekBarPreference.kt:53 | the decimal text of an integer reads back as that integer |
| Text.FormatHundredths | app/src/main/java/com/immichframe/immichframe/SeekBarPreference.kt:51 | `String.format("%.2f", v / 100.0)`; its shape is stated by `FormatHundredthsShape` and its value by `ParseDecimalOfFormatHundredths` |
| Text.FormatHundredthsShape | app/src/main/java/com/immichframe/immichframe/SeekBarPreference.kt:51 | the two-decimal text has exactly two digits after the point, and a leading '-' exactly for negative values |
| Text.ParseDecimalOfFormatHundredths | app/src/main/java/com/immichframe/immichframe/SeekBarPreference.kt:51 | the two-decimal text of v reads back as exactly v / 100 |
| Settings.IsHourField | app/src/main/java/com/immichframe/immichframe/SettingsFragment.kt:186 | an hour field is one or two digits |
| Settings.IsMinuteField | app/src/main/java/com/immichframe/immichframe/SettingsFragment.kt:186 | a minute field is exactly two digits |
| Settings.HourFieldValue | app/src/main/java/com/immichframe/immichframe/SettingsFragment.kt:186-189 | an hour field's value is at most 23 |
| Settings.MinuteFieldValue | app/src/main/java/com/immichframe/immichframe/SettingsFragment.kt:186-189 | a minute field's value is at most 59 |
| Settings.ParseDimTime | app/src/main/java/com/immichframe/immichframe/SettingsFragment.kt:188-190 | a parsed period has hours in [0, 23] and minutes in [0, 59] |
| Settings.ParseOfParts | app/src/main/java/com/immichframe/immichframe/SettingsFragment.kt:188-190 | `a:b-c:d` parses to the four fields' values exactly when each is well formed, and to nothing otherwise |
| Settings.MatchesDimTimePattern | app/src/main/java/com/immichframe/immichframe/SettingsFragment.kt:186 | a whole-string match of the dim-time regex, field by field; `ParseAcceptsPattern` proves the parse accepts exactly these strings |
| Settings.ParseAcceptsPattern | app/src/main/java/com/immichframe/immichframe/SettingsFragment.kt:186-190 | the split-and-toInt parse succeeds exactly on the strings the regular expression matches |
| Settings.FormatThenParse | app/src/main/java/com/immichframe/immichframe/SettingsFragment.kt:186-190 | every in-range period written as HH:mm-HH:mm is accepted and parses back to itself |
| Settings.OvernightAccepted | app/src/main/java/com/immichframe/immichframe/SettingsFragment.kt:186-190 | "22:00-07:30" is accepted as 22, 0, 7, 30: a start after the end is not rejected |
| Settings.OneDigitHourAccepted | app/src/main/java/com/immichframe/immichframe/SettingsFragment.kt:186-190 | "7:05-9:30" is accepted as 7, 5, 9, 30 |
| Settings.OneDigitMinuteRejected | app/src/main/java/com/immichframe/immichframe/SettingsFragment.kt:186 | "7:5-9:30" does not match |
| Settings.Hour24Rejected | app/src/main/java/com/immichframe/immichframe/SettingsFragment.kt:186 | "24:00-07:00" does not match |
| Settings.IsValidServerUrl | app/src/main/java/com/immichframe/immichframe/SettingsFragment.kt:145-149 | the close button's test: non-empty and a whole match of `^https?://.+`; `ValidUrlShape` and `UrlExamples` state what it accepts |
| Settings.ValidUrlShape | app/src/main/java/com/immichframe/immichframe/SettingsFragment.kt:148-149 | an accepted URL starts with "http://" or "https://" and has at least one character more |
| Settings.NoLineTerminatorFromMeaning | app/src/main/java/com/immichframe/immichframe/SettingsFragment.kt:148-149 | `.+` after the scheme holds exactly when no character from that point on is a line terminator |
| Settings.SchemeStartsLowerCase | app/src/main/java/com/immichframe/immichframe/SettingsFragment.kt:148-149 | the scheme is matched case-sensitively: an empty URL or one whose first character is not a lower-case 'h' is refused |
| Settings.UrlExamples | app/src/main/java/com/immichframe/immichframe/SettingsFragment.kt:148-149 | "https://frame.local" passes; "HTTPS://frame.local", "http://" and "frame.local:8080" do not |
| Settings.SwitchedOffMeansNoFilter | app/src/main/java/com/immichframe/immichframe/Helpers.kt:242-249 | once the switch is stored as off, there is no filter, whatever the sliders hold |
| Settings.SliderVisibility | app/src/main/java/com/immichframe/immichframe/SettingsFragment.kt:70-75 | there is a visibility for exactly the six slider keys |
| Settings.SettingsFragment.constructor | app/src/main/java/com/immichframe/immichframe/SettingsFragment.kt:47-110 | the sliders follow the stored switch. The pincode switch is on exactly when a non-empty pincode is stored, and that state is persisted under "settingsPincode" when it differs from the stored one |
| Settings.SettingsFragment.SetPincodeSwitchChecked | app/src/main/java/com/immichframe/immichframe/SettingsFragment.kt:110 | the switch takes the new state and persists it under its own key only when it changes; a switch that showed its stored state still does |
| Settings.SettingsFragment.OnImageAdjustmentsChange | app/src/main/java/com/immichframe/immichframe/SettingsFragment.kt:68-84 | the six sliders take the new value as visibility. The value is stored at once and the change is accepted; the pincode consistency is kept |
| Settings.SettingsFragment.OnDimTimeChange | app/src/main/java/com/immichframe/immichframe/SettingsFragment.kt:182-206 | accepted exactly when the trimmed value matches the pattern, and then the four in-range integers are stored. Otherwise nothing is stored and the toast is shown |
| Settings.SettingsFragment.OnCloseSettings | app/src/main/java/com/immichframe/immichframe/SettingsFragment.kt:144-157 | finishes exactly when the trimmed stored URL is valid; otherwise it shows the toast and stays open |
| Settings.SettingsFragment.OnPincodeChange | app/src/main/java/com/immichframe/immichframe/SettingsFragment.kt:112-141 | enabling is refused with the store unchanged; disabling removes the pincode and is accepted |
| Settings.SettingsFragment.ClickPincodeSwitch | app/src/main/java/com/immichframe/immichframe/SettingsFragment.kt:112-141 | a tap keeps the switch equal to "a pincode is stored" and to its persisted state. On it turns off, the pincode goes and the switch is persisted as off; off it stays off and the store is unchanged until a pincode is created |
| Settings.SettingsFragment.OnPincodeEntered | app/src/main/java/com/immichframe/immichframe/SettingsFragment.kt:217-233 | an empty pincode is refused with a toast. Otherwise it is stored, the switch is turned on and persisted as on when it was off, keeping the switch consistent with the store |
| SeekBar.ValueLabel | app/src/main/java/com/immichframe/immichframe/SeekBarPreference.kt:49-55 | the summary and dialog text: "%.2f" of value / 100 for gamma, the integer otherwise; `LabelReadsBack` and `LabelInjective` state its meaning |
| SeekBar.LabelReadsBack | app/src/main/java/com/immichframe/immichframe/SeekBarPreference.kt:50-54 | the label reads back as value / 100 for gamma and as value otherwise |
| SeekBar.LabelInjective | app/src/main/java/com/immichframe/immichframe/SeekBarPreference.kt:120-126 | different values get different labels |
| SeekBar.ClampProgress | app/src/main/java/com/immichframe/immichframe/SeekBarPreference.kt:93 | progress lies in [0, max], and a request already in range is kept |
| SeekBar.ProgressFor | app/src/main/java/com/immichframe/immichframe/SeekBarPreference.kt:92-93 | the initial progress lies within the bar |
| SeekBar.ValueProgressRoundTrip | app/src/main/java/com/immichframe/immichframe/SeekBarPreference.kt:92-100 | value → progress → value is the identity exactly on [min, max]; outside, the nearer bound comes back |
| SeekBar.ProgressValueRoundTrip | app/src/main/java/com/immichframe/immichframe/SeekBarPreference.kt:92-100 | progress → value → progress is the identity on the bar |
| SeekBar.ProducedValueInRange | app/src/main/java/com/immichframe/immichframe/SeekBarPreference.kt:100 | every value the bar produces lies in [min, max] |
| SeekBar.ResetValue | app/src/main/java/com/immichframe/immichframe/SeekBarPreference.kt:112 | the reset button's value, 100 for gamma and 0 otherwise; `SeekBarDialog.OnReset` states where it puts the bar and the text |
| SeekBar.SeekBarPreference.constructor | app/src/main/java/com/immichframe/immichframe/SeekBarPreference.kt:18-29 | min and max come from the attributes, defaulting to 0 and 100 |
| SeekBar.SeekBarPreference.OnSetInitialValue | app/src/main/java/com/immichframe/immichframe/SeekBarPreference.kt:38-41 | the persisted integer, else the declared default (0 if not an integer). The summary shows it, in sync with the store |
| SeekBar.SeekBarPreference.SaveValue | app/src/main/java/com/immichframe/immichframe/SeekBarPreference.kt:43-47 | the value becomes current and is persisted; the summary shows it |
| SeekBar.SeekBarDialog.constructor | app/src/main/java/com/immichframe/immichframe/SeekBarPreference.kt:57-62 | nothing is bound yet |
| SeekBar.SeekBarDialog.OnBindDialogView | app/src/main/java/com/immichframe/immichframe/SeekBarPreference.kt:91-117 | the bar has max - min and the current value's progress, and the text shows the current value. Text and bar agree exactly for values in [min, max] |
| SeekBar.SeekBarDialog.OnProgressChanged | app/src/main/java/com/immichframe/immichframe/SeekBarPreference.kt:95-102 | the text shows progress + min |
| SeekBar.SeekBarDialog.OnReset | app/src/main/java/com/immichframe/immichframe/SeekBarPreference.kt:110-115 | the bar moves to the neutral value's progress and the text shows the neutral value (100 for gamma, else 0) |
| SeekBar.SeekBarDialog.OnDialogClosed | app/src/main/java/com/immichframe/immichframe/SeekBarPreference.kt:128-139 | saves progress + min exactly on a positive close the listener accepts; otherwise nothing changes. A saved value is the one the text showed |

## Left out

- Floating point: matrix entries, scale factors, font sizes and `gamma / 100f` are
  exact reals. The source computes them in `float`, so a truncated side or a table
  entry can differ by one there.
- `Math.pow` is a parameter `pow` of the gamma functions. Monotonicity and the
  endpoints are proved under stated assumptions about it. No bound is proved for the
  table of 1/g applied after the table of g, because it depends on `Math.pow`.
- Kotlin `Int` overflow, for example `width * height` in the gamma guard or
  `max - min` in the seek bar: integers are unbounded.
- Rendering through a `ColorMatrixColorFilter`: each channel is clamped to [0, 255] and
  rounded to the nearest value. Premultiplied alpha, dithering and the RGB_565 format
  are not modelled.
- Anti-aliasing and resampling: the pixels of `bitmap.scale` are a parameter `sample`.
- `ReduceBitmapQuality` models `bitmap.copy` as an exact copy. It models the failure of
  `bitmap.scale` for a zero side as a `None` result rather than an exception.
- `decodeBitmapFromBytes`: Base64 and image decoding are platform calls.
- `textSizeMultiplier` and `isServerReachable` are not part of this model.
- The HTTP stack: the interceptor is modelled on a request value.
- ApiClient.CreateRetrofit: its base URL is promised to end in '/', the model's form of
  Retrofit's check. Retrofit parses the URL and requires the last segment of its path to
  be empty. The two differ for a bare host ("http://frame:8080", path "/"), which Retrofit
  accepts as typed, and for a URL with a query or fragment ("http://h/a?x" normalises to
  "http://h/a?x/", which Retrofit refuses). URL parsing is not part of this model.
- Concurrency: the `synchronized` sections around the filter cache are not modelled,
  and the model is sequential.
- `toFloatOrNull` accepts only an optional sign and a plain decimal here, with the
  characters '\u0000'..'\u0020' skipped at both ends. Exponents, hexadecimal, "NaN",
  "Infinity" and the float suffixes are not modelled.
- `equals(ignoreCase = true)` is modelled for ASCII letters only.
- `String.format` is assumed to run in a locale whose decimal separator is '.'.
- `cssFontSizeToSp` requires positive `density` and `fontScale`. Android always
  provides these, and a zero would make the source return infinity.
- A preference stored under a key with another type is read as the default.
  Android throws `ClassCastException` there.
- Dialogs: the confirmation and creation dialogs are not modelled, so their answers
  become separate method calls. Toasts are recorded as the list of messages shown.
  `Log` calls are left out.
- The `settingsLock` switch, the `useWebView`, `screenDim` and `androidSettings`
  listeners, and the visibilities other than the six sliders are not part of this model.
- The seek bar's min and max labels (`%.1f`) are not modelled.
- The `as? SeekBarPreference` checks are not modelled: the dialog is always bound to a
  seek-bar preference.
- Bitmaps.MergeImages: pixels are exact 32-bit ARGB_8888 words. The merged bitmap is
  created as RGB_565 (`Helpers.kt:84`), and that quantisation is not modelled. The
  right image is drawn with the line colour's paint (`Helpers.kt:91`, `Helpers.kt:97`),
  and that paint's alpha is ignored, so a translucent line colour does not fade it.
- GammaCorrection.ApplyGammaToBitmap: pixels are exact ARGB_8888 words. The result
  takes the input's config (`Helpers.kt:456`), which is RGB_565 for a bitmap from
  `decodeBitmapFromBytes` (`Helpers.kt:106`). That quantisation is not modelled.
- The XML default of the `settingsPincode` switch is not part of this model. It is
  taken as off, so the switch starts from the persisted value or from off.
- `SettingsTimeoutReceiver.kt` and `PowerButtonReturnService.kt` are not part of this model.
- `getPersistedInt` and `persistInt` are modelled for a persistent preference: they read
  and write the store directly.
- AdjustmentFilter.FilterCache.GetImageAdjustmentFilter and
  ImageAdjustment.ApplyImageAdjustmentsToBitmap take the stored preferences as a value
  read at the call. A change to the store made by another thread while they run is not
  modelled.
- SeekBar.SeekBarDialog.OnProgressChanged: models the user moving the thumb within the
  bar's range. The widget's own clamping of a drag is assumed.
- ImageAdjustment.ApplyImageAdjustmentsToBitmap: the colour filter's independence per
  channel is proved at the matrix level (`ColorMatrix.ChannelwiseApply`), not restated
  per pixel.
