/**
 * `cssFontSizeToSp`: a CSS font size as the server sends it (a keyword such as
 * "large", or a number with a px, pt or em unit) turned into Android
 * scale-independent pixels. The display's `fontScale` and `density` are
 * parameters; Kotlin's `Float` arithmetic is modelled by exact reals.
 */
module FontSize {
  import opened Wrappers
  import opened Text

  /** The size in sp (before font scaling) of a CSS absolute-size keyword, compared ignoring case. */
  function KeywordSize(s: string): (size: Option<real>)
    ensures size.Some? ==> size.value in {8.0, 10.0, 12.0, 16.0, 20.0, 24.0, 32.0}
  {
    if EqualsIgnoreCase(s, "xx-small") then Some(8.0)
    else if EqualsIgnoreCase(s, "x-small") then Some(10.0)
    else if EqualsIgnoreCase(s, "small") then Some(12.0)
    else if EqualsIgnoreCase(s, "medium") then Some(16.0)
    else if EqualsIgnoreCase(s, "large") then Some(20.0)
    else if EqualsIgnoreCase(s, "x-large") then Some(24.0)
    else if EqualsIgnoreCase(s, "xx-large") then Some(32.0)
    else None
  }

  /**
   * The number in front of a unit, read with `removeSuffix` (which compares
   * case-sensitively) and `toFloatOrNull`, or the fallback when that fails.
   */
  function NumberBefore(s: string, unit: string, fallback: real): real {
    match ParseDecimal(RemoveSuffix(s, unit))
    case Some(v) => v
    case None => fallback
  }

  /** Physical pixels to sp: `px / (density * fontScale)`. */
  function PxToSp(px: real, fontScale: real, density: real): real
    requires fontScale > 0.0 && density > 0.0
  {
    px / (density * fontScale)
  }

  /** Points to physical pixels: `pt * (density * 160f / 72f)`. */
  function PtToPx(pt: real, density: real): real {
    pt * (density * 160.0 / 72.0)
  }

  /** Ems to physical pixels: `em * baseFontSizePx`. */
  function EmToPx(em: real, baseFontSizePx: real): real {
    em * baseFontSizePx
  }

  /**
   * `cssFontSizeToSp`. A missing size reads as "medium"; keywords scale with
   * the font scale; px, pt and em (in units of `baseFontSizePx`) are
   * converted to px and then to sp; anything else is the medium size.
   */
  function CssFontSizeToSp(cssSize: Option<string>, fontScale: real, density: real, baseFontSizePx: real): (sp: real)
    requires fontScale > 0.0 && density > 0.0
    ensures cssSize.None? ==> sp == 16.0 * fontScale
    ensures cssSize.Some? && KeywordSize(cssSize.value).Some? ==> sp == KeywordSize(cssSize.value).value * fontScale
  {
    var css := if cssSize.Some? then cssSize.value else "medium";
    match KeywordSize(css)
    case Some(size) => size * fontScale
    case None =>
      if EndsWithIgnoreCase(css, "px") then
        var px := NumberBefore(css, "px", baseFontSizePx);
        PxToSp(px, fontScale, density)
      else if EndsWithIgnoreCase(css, "pt") then
        var pt := NumberBefore(css, "pt", baseFontSizePx);
        PxToSp(PtToPx(pt, density), fontScale, density)
      else if EndsWithIgnoreCase(css, "em") then
        var em := NumberBefore(css, "em", 1.0);
        PxToSp(EmToPx(em, baseFontSizePx), fontScale, density)
      else
        16.0 * fontScale
  }

  /** Comparison ignoring case is symmetric and transitive. */
  lemma EqualsIgnoreCaseTransitive(a: string, b: string, c: string)
    requires EqualsIgnoreCase(a, b) && EqualsIgnoreCase(b, c)
    ensures EqualsIgnoreCase(a, c) && EqualsIgnoreCase(c, a)
  {
  }

  /** Spellings equal up to case agree on every comparison ignoring case. */
  lemma SameComparison(s: string, t: string, k: string)
    requires EqualsIgnoreCase(s, t)
    ensures EqualsIgnoreCase(s, k) <==> EqualsIgnoreCase(t, k)
  {
    if EqualsIgnoreCase(t, k) {
      EqualsIgnoreCaseTransitive(s, t, k);
    }
    if EqualsIgnoreCase(s, k) {
      assert EqualsIgnoreCase(t, s);
      EqualsIgnoreCaseTransitive(t, s, k);
    }
  }

  /** Two spellings that differ only in case name the same keyword size. */
  lemma KeywordSizeIgnoresCase(s: string, t: string)
    requires EqualsIgnoreCase(s, t)
    ensures KeywordSize(s) == KeywordSize(t)
  {
    SameComparison(s, t, "xx-small");
    SameComparison(s, t, "x-small");
    SameComparison(s, t, "small");
    SameComparison(s, t, "medium");
    SameComparison(s, t, "large");
    SameComparison(s, t, "x-large");
    SameComparison(s, t, "xx-large");
  }

  /** Only the case of the letters distinguishes "LARGE" from "large". */
  lemma UpperCaseKeyword(fontScale: real, density: real, baseFontSizePx: real)
    requires fontScale > 0.0 && density > 0.0
    ensures CssFontSizeToSp(Some("LARGE"), fontScale, density, baseFontSizePx) == 20.0 * fontScale
  {
    assert EqualsIgnoreCase("LARGE", "large");
    assert !EqualsIgnoreCase("LARGE", "medium");
    assert !EqualsIgnoreCase("LARGE", "xx-small") && !EqualsIgnoreCase("LARGE", "x-small");
    assert ToLowerAscii("LARGE"[0]) != "small"[0];
  }

  /** A string that starts with a digit or a sign is never a keyword. */
  lemma NumberIsNoKeyword(s: string)
    requires |s| > 0 && (IsDigit(s[0]) || s[0] == '-' || s[0] == '+' || s[0] == '.')
    ensures KeywordSize(s).None?
  {
    var firsts := ["xx-small", "x-small", "small", "medium", "large", "x-large", "xx-large"];
    forall k | k in firsts
      ensures !EqualsIgnoreCase(s, k)
    {
      assert ToLowerAscii(s[0]) == s[0];
      assert k[0] in {'x', 's', 'm', 'l'};
    }
  }

  /** No keyword ends in "px", "pt" or "em", whatever the case of its letters. */
  lemma NoKeywordEndsWithUnit(w: string, unit: string)
    requires unit == "px" || unit == "pt" || unit == "em"
    ensures KeywordSize(w + unit).None?
  {
    var css := w + unit;
    var keywords := ["xx-small", "x-small", "small", "medium", "large", "x-large", "xx-large"];
    forall k | k in keywords
      ensures !EqualsIgnoreCase(css, k)
    {
      if |css| == |k| {
        var n := |k|;
        assert css[n - 1] == unit[1] && css[n - 2] == unit[0];
        assert ToLowerAscii(css[n - 1]) != ToLowerAscii(k[n - 1])
               || ToLowerAscii(css[n - 2]) != ToLowerAscii(k[n - 2]);
      }
    }
  }

  /**
   * A size in px: the number before "px" in pixels, or the base size when
   * that is no number, divided by density * fontScale.
   */
  lemma PxSize(w: string, fontScale: real, density: real, baseFontSizePx: real)
    requires fontScale > 0.0 && density > 0.0
    ensures var sp := CssFontSizeToSp(Some(w + "px"), fontScale, density, baseFontSizePx);
            match ParseDecimal(w)
            case Some(v) => sp == v / (density * fontScale)
            case None => sp == baseFontSizePx / (density * fontScale)
  {
    var css := w + "px";
    NoKeywordEndsWithUnit(w, "px");
    assert css[|css| - 2..] == "px";
    assert RemoveSuffix(css, "px") == w;
  }

  /**
   * A size in pt: the number before "pt", or the base size when that is no
   * number, at 160/72 px per pt per density unit, divided by density *
   * fontScale, which leaves pt * 160 / 72 / fontScale.
   */
  lemma PtSize(w: string, fontScale: real, density: real, baseFontSizePx: real)
    requires fontScale > 0.0 && density > 0.0
    ensures var sp := CssFontSizeToSp(Some(w + "pt"), fontScale, density, baseFontSizePx);
            match ParseDecimal(w)
            case Some(v) => sp == v * 160.0 / 72.0 / fontScale
            case None => sp == baseFontSizePx * 160.0 / 72.0 / fontScale
  {
    var css := w + "pt";
    NoKeywordEndsWithUnit(w, "pt");
    var tail := css[|css| - 2..];
    assert tail == "pt";
    assert ToLowerAscii(tail[1]) != "px"[1];
    assert RemoveSuffix(css, "pt") == w;
    PtCancelsDensity(NumberBefore(css, "pt", baseFontSizePx), fontScale, density);
  }

  /**
   * A size in em: the number v before "em", or 1 when that is no number,
   * times the base size in px, divided by density * fontScale.
   */
  lemma EmSize(w: string, v: real, fontScale: real, density: real, baseFontSizePx: real)
    requires fontScale > 0.0 && density > 0.0
    ensures ParseDecimal(w) == Some(v) ==>
              CssFontSizeToSp(Some(w + "em"), fontScale, density, baseFontSizePx)
              == v * baseFontSizePx / (density * fontScale)
    ensures ParseDecimal(w).None? ==>
              CssFontSizeToSp(Some(w + "em"), fontScale, density, baseFontSizePx)
              == baseFontSizePx / (density * fontScale)
  {
    var css := w + "em";
    var em := NumberBefore(css, "em", 1.0);
    assert CssFontSizeToSp(Some(css), fontScale, density, baseFontSizePx)
           == PxToSp(EmToPx(em, baseFontSizePx), fontScale, density) by {
      NoKeywordEndsWithUnit(w, "em");
      var tail := css[|css| - 2..];
      assert tail == "em";
      assert ToLowerAscii(tail[1]) != "px"[1] && ToLowerAscii(tail[1]) != "pt"[1];
    }
    assert RemoveSuffix(css, "em") == w;
    if ParseDecimal(w) == Some(v) {
      assert em == v;
      EmArithmetic(v, baseFontSizePx, fontScale, density);
    } else if ParseDecimal(w).None? {
      assert em == 1.0;
      EmArithmetic(1.0, baseFontSizePx, fontScale, density);
    }
  }

  lemma EmArithmetic(em: real, baseFontSizePx: real, fontScale: real, density: real)
    requires fontScale > 0.0 && density > 0.0
    ensures PxToSp(EmToPx(em, baseFontSizePx), fontScale, density) == em * baseFontSizePx / (density * fontScale)
  {
  }

  /** A blank between the number and the unit is skipped: "12 px" is 12 px. */
  lemma BlankBeforeUnit(fontScale: real, density: real, baseFontSizePx: real)
    requires fontScale > 0.0 && density > 0.0
    ensures CssFontSizeToSp(Some("12 px"), fontScale, density, baseFontSizePx) == 12.0 / (density * fontScale)
  {
    assert DigitsValue("12") == 12 by {
      assert "12"[..1] == "1";
    }
    ParseUnsignedOfDigits("12");
    ParseDecimalOfPadded([], "", "12", " ", 12.0);
    assert [] + "" + "12" + " " == "12 ";
    assert "12 " + "px" == "12 px";
    PxSize("12 ", fontScale, density, baseFontSizePx);
  }

  /**
   * A number that does not parse falls back to the base size: with a letter
   * or any other foreign character before the unit ("12abcpx", "1.2.3em"),
   * px and em sizes are the base size and pt sizes are the base size in pt.
   */
  lemma UnparsableNumberUsesBaseSize(w: string, i: int, fontScale: real, density: real, baseFontSizePx: real)
    requires fontScale > 0.0 && density > 0.0
    requires 0 <= i < |w| && !IsNumberChar(w[i])
    ensures CssFontSizeToSp(Some(w + "px"), fontScale, density, baseFontSizePx) == baseFontSizePx / (density * fontScale)
    ensures CssFontSizeToSp(Some(w + "pt"), fontScale, density, baseFontSizePx) == baseFontSizePx * 160.0 / 72.0 / fontScale
    ensures CssFontSizeToSp(Some(w + "em"), fontScale, density, baseFontSizePx) == baseFontSizePx / (density * fontScale)
  {
    ForeignCharFails(w, i);
    PxSize(w, fontScale, density, baseFontSizePx);
    PtSize(w, fontScale, density, baseFontSizePx);
    EmSize(w, 0.0, fontScale, density, baseFontSizePx);
  }

  /** Converting sp back to px undoes PxToSp: `sp * density * fontScale` is the px size again. */
  lemma PxToSpInverse(px: real, fontScale: real, density: real)
    requires fontScale > 0.0 && density > 0.0
    ensures PxToSp(px, fontScale, density) * (density * fontScale) == px
  {
  }

  /** A point size in sp: 160/72 px per pt per density unit, so only the font scale remains. */
  function PtToSp(pt: real, fontScale: real): real
    requires fontScale > 0.0
  {
    pt * 160.0 / 72.0 / fontScale
  }

  /** The density in PtToPx and in PxToSp cancel. */
  lemma PtCancelsDensity(pt: real, fontScale: real, density: real)
    requires fontScale > 0.0 && density > 0.0
    ensures PxToSp(PtToPx(pt, density), fontScale, density) == PtToSp(pt, fontScale)
  {
    var q := PtToSp(pt, fontScale);
    assert q * fontScale == pt * 160.0 / 72.0;
    assert q * (density * fontScale) == pt * (density * 160.0 / 72.0);
  }

  /** An integer in px is that many physical pixels in sp (which PxToSpInverse turns back into n). */
  lemma PxRoundTrip(n: int, fontScale: real, density: real, baseFontSizePx: real)
    requires fontScale > 0.0 && density > 0.0
    ensures CssFontSizeToSp(Some(IntToString(n) + "px"), fontScale, density, baseFontSizePx)
            == PxToSp(n as real, fontScale, density)
  {
    ParseDecimalOfIntToString(n);
    PxSize(IntToString(n), fontScale, density, baseFontSizePx);
  }

  /**
   * `removeSuffix` compares case-sensitively while the unit test ignores case:
   * "12PX" is recognised as px but its number is not read, so the base size
   * is used instead of 12.
   */
  lemma UpperCaseUnitUsesBaseSize(fontScale: real, density: real, baseFontSizePx: real)
    requires fontScale > 0.0 && density > 0.0
    ensures CssFontSizeToSp(Some("12PX"), fontScale, density, baseFontSizePx) == baseFontSizePx / (density * fontScale)
  {
    NumberIsNoKeyword("12PX");
    assert EqualsIgnoreCase("12PX"[2..], "px");
    assert !EndsWith("12PX", "px");
    assert LeadingDigits("12PX") == 2 by {
      assert LeadingDigits("12PX"[2..]) == 0;
      assert "12PX"[1..][1..] == "12PX"[2..];
    }
    StripLowOfPadded([], "12PX", []);
    assert [] + "12PX" + [] == "12PX";
    assert ParseDecimal("12PX").None?;
  }

  /** A size in pt does not depend on the display density, only on the font scale. */
  lemma PtIgnoresDensity(s: string, fontScale: real, density: real, baseFontSizePx: real)
    requires fontScale > 0.0 && density > 0.0
    requires KeywordSize(s).None? && !EndsWithIgnoreCase(s, "px") && EndsWithIgnoreCase(s, "pt")
    ensures CssFontSizeToSp(Some(s), fontScale, density, baseFontSizePx)
            == PtToSp(NumberBefore(s, "pt", baseFontSizePx), fontScale)
  {
    PtCancelsDensity(NumberBefore(s, "pt", baseFontSizePx), fontScale, density);
  }

  /** A size in em is that many base font sizes, in px, converted to sp. */
  lemma EmScalesBaseSize(n: int, fontScale: real, density: real, baseFontSizePx: real)
    requires fontScale > 0.0 && density > 0.0
    ensures CssFontSizeToSp(Some(IntToString(n) + "em"), fontScale, density, baseFontSizePx)
            == n as real * baseFontSizePx / (density * fontScale)
  {
    var w := IntToString(n);
    ParseDecimalOfIntToString(n);
    EmSize(w, n as real, fontScale, density, baseFontSizePx);
  }

  /** Anything that is neither a keyword nor ends in a known unit is the medium size. */
  lemma UnknownIsMedium(s: string, fontScale: real, density: real, baseFontSizePx: real)
    requires fontScale > 0.0 && density > 0.0
    requires KeywordSize(s).None?
    requires !EndsWithIgnoreCase(s, "px") && !EndsWithIgnoreCase(s, "pt") && !EndsWithIgnoreCase(s, "em")
    ensures CssFontSizeToSp(Some(s), fontScale, density, baseFontSizePx)
            == CssFontSizeToSp(None, fontScale, density, baseFontSizePx)
  {
  }
}
