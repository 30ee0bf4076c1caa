/**
 * The pieces of Kotlin's string library that the app's parsers and formatters
 * rely on: decimal digits, `Int.toString()`, the plain-decimal subset of
 * `String.toFloatOrNull()`, `String.format("%.2f", v / 100.0)` for an integer
 * `v`, `trim()`, `startsWith`/`endsWith`/`removeSuffix`, and comparison that
 * ignores case.
 */
module Text {
  import opened Wrappers

  predicate IsDigit(c: char) {
    '0' <= c <= '9'
  }

  function DigitValue(c: char): (d: nat)
    requires IsDigit(c)
    ensures d < 10
  {
    c as int - '0' as int
  }

  function DigitChar(d: nat): (c: char)
    requires d < 10
    ensures IsDigit(c) && DigitValue(c) == d
  {
    (d + '0' as int) as char
  }

  predicate AllDigits(s: string) {
    forall i :: 0 <= i < |s| ==> IsDigit(s[i])
  }

  /** The value of a string of decimal digits, most significant digit first. */
  function DigitsValue(s: string): nat
    requires AllDigits(s)
  {
    if s == [] then 0 else 10 * DigitsValue(s[..|s| - 1]) + DigitValue(s[|s| - 1])
  }

  /** The value of one or two digits. */
  lemma DigitsValueShort(s: string)
    requires AllDigits(s) && 1 <= |s| <= 2
    ensures |s| == 1 ==> DigitsValue(s) == DigitValue(s[0])
    ensures |s| == 2 ==> DigitsValue(s) == 10 * DigitValue(s[0]) + DigitValue(s[1])
  {
    assert s[..1] == [s[0]] && s[..1][..0] == [] && s[..0] == [];
  }

  /** Kotlin's `toString()` on a non-negative `Int`: shortest decimal, no leading zero. */
  function NatToString(n: nat): (s: string)
    ensures |s| > 0 && AllDigits(s)
    ensures n > 0 ==> s[0] != '0'
  {
    if n < 10 then [DigitChar(n)] else NatToString(n / 10) + [DigitChar(n % 10)]
  }

  /** Kotlin's `toString()` on an `Int`. */
  function IntToString(i: int): (s: string)
    ensures |s| > 0
    ensures s[0] == '-' <==> i < 0
  {
    if i < 0 then "-" + NatToString(-i) else NatToString(i)
  }

  /** Reading the digits back gives the number that was written. */
  lemma {:induction false} NatToStringValue(n: nat)
    ensures DigitsValue(NatToString(n)) == n
  {
    var s := NatToString(n);
    if n < 10 {
      assert s[..|s| - 1] == [];
    } else {
      assert s[..|s| - 1] == NatToString(n / 10);
      NatToStringValue(n / 10);
    }
  }

  /** The number of decimal digits at the front of `s`. */
  function LeadingDigits(s: string): (k: nat)
    ensures k <= |s| && AllDigits(s[..k])
    ensures k < |s| ==> !IsDigit(s[k])
  {
    if s == [] || !IsDigit(s[0]) then 0
    else
      var k' := LeadingDigits(s[1..]);
      assert s[..k' + 1] == [s[0]] + s[1..][..k'];
      k' + 1
  }

  /** The value of the digits after a decimal point: "25" is 0.25. */
  function FractionValue(ds: string): (f: real)
    requires AllDigits(ds)
    ensures 0.0 <= f < 1.0
  {
    if ds == [] then 0.0 else (DigitValue(ds[0]) as real + FractionValue(ds[1..])) / 10.0
  }

  /**
   * An unsigned decimal: digits, optionally followed by a point and more digits,
   * or a point followed by at least one digit ("12", "12.", "12.5", ".5").
   */
  function ParseUnsigned(s: string): (r: Option<real>)
    ensures r.Some? ==> r.value >= 0.0
  {
    var k := LeadingDigits(s);
    var whole := DigitsValue(s[..k]) as real;
    if k == |s| then
      if k > 0 then Some(whole) else None
    else if s[k] == '.' && AllDigits(s[k + 1..]) && (k > 0 || k + 1 < |s|) then
      Some(whole + FractionValue(s[k + 1..]))
    else
      None
  }

  /** An optional sign followed by an unsigned decimal. */
  function ParseSigned(s: string): (r: Option<real>)
    ensures r.Some? ==> |s| > 0
  {
    if |s| > 0 && (s[0] == '+' || s[0] == '-') then
      match ParseUnsigned(s[1..])
      case None => None
      case Some(v) => Some(if s[0] == '-' then -v else v)
    else
      ParseUnsigned(s)
  }

  /** The characters '\u0000'..'\u0020', which the float parser skips at both ends. */
  predicate IsLowChar(c: char) {
    c <= ' '
  }

  function StripLowStart(s: string): (t: string)
    ensures |t| <= |s|
  {
    if s != [] && IsLowChar(s[0]) then StripLowStart(s[1..]) else s
  }

  function StripLowEnd(s: string): (t: string)
    ensures |t| <= |s|
  {
    if s != [] && IsLowChar(s[|s| - 1]) then StripLowEnd(s[..|s| - 1]) else s
  }

  /** Java's `String.trim()`: drops the characters '\u0000'..'\u0020' at both ends. */
  function StripLow(s: string): (t: string)
    ensures |t| <= |s|
  {
    StripLowEnd(StripLowStart(s))
  }

  /**
   * The plain-decimal part of Kotlin's `String.toFloatOrNull()`: characters
   * '\u0000'..'\u0020' at either end are skipped, and what is left must be an
   * optional sign and an unsigned decimal; anything else is `None`.
   */
  function ParseDecimal(s: string): (r: Option<real>)
    ensures r.Some? ==> |s| > 0
  {
    ParseSigned(StripLow(s))
  }

  ghost predicate AllLow(s: string) {
    forall i :: 0 <= i < |s| ==> IsLowChar(s[i])
  }

  lemma {:induction false} StripLowStartOfPadded(pre: string, rest: string)
    requires AllLow(pre)
    ensures StripLowStart(pre + rest) == StripLowStart(rest)
  {
    if pre != [] {
      assert IsLowChar(pre[0]);
      assert AllLow(pre[1..]) by {
        forall i | 0 <= i < |pre| - 1
          ensures IsLowChar(pre[1..][i])
        {
          assert pre[1..][i] == pre[i + 1];
        }
      }
      assert (pre + rest)[0] == pre[0];
      assert (pre + rest)[1..] == pre[1..] + rest;
      StripLowStartOfPadded(pre[1..], rest);
    } else {
      assert pre + rest == rest;
    }
  }

  lemma {:induction false} StripLowEndOfPadded(rest: string, post: string)
    requires AllLow(post)
    ensures StripLowEnd(rest + post) == StripLowEnd(rest)
  {
    if post != [] {
      var s := rest + post;
      assert IsLowChar(post[|post| - 1]);
      var front := post[..|post| - 1];
      assert AllLow(front) by {
        forall i | 0 <= i < |front|
          ensures IsLowChar(front[i])
        {
          assert front[i] == post[i];
        }
      }
      assert s[|s| - 1] == post[|post| - 1];
      assert s[..|s| - 1] == rest + front;
      StripLowEndOfPadded(rest, front);
    } else {
      assert rest + post == rest;
    }
  }

  /** Trimming drops exactly the low characters around a core that starts and ends with others. */
  lemma StripLowOfPadded(pre: string, t: string, post: string)
    requires AllLow(pre) && AllLow(post)
    requires t != [] ==> !IsLowChar(t[0]) && !IsLowChar(t[|t| - 1])
    ensures StripLow(pre + t + post) == t
  {
    assert pre + t + post == pre + (t + post);
    StripLowStartOfPadded(pre, t + post);
    if t == [] {
      assert t + post == post + [];
      StripLowStartOfPadded(post, []);
    } else {
      assert (t + post)[0] == t[0];
      StripLowEndOfPadded(t, post);
    }
  }

  /** An unsigned decimal starts and ends with a digit or the point. */
  lemma ParseUnsignedEnds(u: string)
    requires ParseUnsigned(u).Some?
    ensures u != []
    ensures IsDigit(u[0]) || u[0] == '.'
    ensures IsDigit(u[|u| - 1]) || u[|u| - 1] == '.'
  {
    var k := LeadingDigits(u);
    if k > 0 {
      assert u[0] == u[..k][0];
    }
    if k == |u| {
      assert u[|u| - 1] == u[..k][k - 1];
    } else if k + 1 < |u| {
      assert u[|u| - 1] == u[k + 1..][|u| - k - 2];
    }
  }

  /** Digits alone read as their decimal value: "12" is 12. */
  lemma ParseUnsignedOfDigits(whole: string)
    requires whole != [] && AllDigits(whole)
    ensures ParseUnsigned(whole) == Some(DigitsValue(whole) as real)
  {
    LeadingDigitsOfDigits(whole, []);
    assert whole + [] == whole;
    assert whole[..|whole|] == whole;
  }

  /**
   * Digits around a point, with at least one digit in all, read as their
   * decimal value: "12.5" is 12.5, ".5" is 0.5, "12." is 12.
   */
  lemma ParseUnsignedOfPointed(whole: string, frac: string)
    requires AllDigits(whole) && AllDigits(frac)
    requires whole != [] || frac != []
    ensures ParseUnsigned(whole + "." + frac) == Some(DigitsValue(whole) as real + FractionValue(frac))
  {
    PointedShape(whole, frac);
    ParseUnsignedAtPoint(whole + "." + frac, whole, frac);
  }

  /** Where the point sits in digits, a point and digits. */
  lemma PointedShape(whole: string, frac: string)
    requires AllDigits(whole)
    ensures var s := whole + "." + frac;
            && LeadingDigits(s) == |whole| && s[|whole|] == '.'
            && s[..|whole|] == whole && s[|whole| + 1..] == frac
  {
    var rest := "." + frac;
    var s := whole + rest;
    assert whole + "." + frac == s;
    LeadingDigitsOfDigits(whole, rest);
    assert s[..|whole|] == whole;
    assert s[|whole| + 1..] == frac;
  }

  lemma ParseUnsignedAtPoint(s: string, whole: string, frac: string)
    requires LeadingDigits(s) == |whole| < |s| && s[|whole|] == '.'
    requires s[..|whole|] == whole && s[|whole| + 1..] == frac
    requires AllDigits(frac) && (whole != [] || frac != [])
    ensures ParseUnsigned(s) == Some(DigitsValue(whole) as real + FractionValue(frac))
  {
  }

  /**
   * What `toFloatOrNull` accepts in this model: an unsigned decimal with an
   * optional sign, with low characters around it, reads as its value,
   * negated after a minus.
   */
  lemma ParseDecimalOfPadded(pre: string, sign: string, u: string, post: string, x: real)
    requires AllLow(pre) && AllLow(post)
    requires sign == "" || sign == "+" || sign == "-"
    requires ParseUnsigned(u) == Some(x)
    ensures ParseDecimal(pre + sign + u + post) == Some(if sign == "-" then -x else x)
  {
    var t := sign + u;
    assert t != [] ==> !IsLowChar(t[0]) && !IsLowChar(t[|t| - 1]) by {
      ParseUnsignedEnds(u);
      assert t[|t| - 1] == u[|u| - 1];
      assert t[0] == if sign == "" then u[0] else sign[0];
    }
    assert pre + sign + u + post == pre + t + post;
    StripLowOfPadded(pre, t, post);
    ParseSignedOfSign(sign, u, x);
  }

  lemma ParseSignedOfSign(sign: string, u: string, x: real)
    requires sign == "" || sign == "+" || sign == "-"
    requires ParseUnsigned(u) == Some(x)
    ensures ParseSigned(sign + u) == Some(if sign == "-" then -x else x)
  {
    ParseUnsignedEnds(u);
    if sign == "" {
      assert sign + u == u;
    } else {
      assert (sign + u)[0] == sign[0];
      assert (sign + u)[1..] == u;
    }
  }

  /** The whole part, a point and the fraction of `u`, which together read as `x`. */
  predicate PointedParts(u: string, whole: string, frac: string, x: real) {
    && AllDigits(whole) && AllDigits(frac) && (whole != [] || frac != [])
    && u == whole + "." + frac
    && x == DigitsValue(whole) as real + FractionValue(frac)
  }

  /**
   * Only digits, or digits around one point, parse as an unsigned decimal,
   * and to their decimal value: the converse of `ParseUnsignedOfDigits` and
   * `ParseUnsignedOfPointed`.
   */
  lemma ParseUnsignedShape(u: string, x: real)
    requires ParseUnsigned(u) == Some(x)
    ensures || (u != [] && AllDigits(u) && x == DigitsValue(u) as real)
            || exists whole, frac :: PointedParts(u, whole, frac, x)
  {
    var k := LeadingDigits(u);
    if k == |u| {
      DigitsPartAt(u, x);
    } else {
      PointedPartsAt(u, k, x);
    }
  }

  lemma DigitsPartAt(u: string, x: real)
    requires LeadingDigits(u) == |u| && ParseUnsigned(u) == Some(x)
    ensures u != [] && AllDigits(u) && x == DigitsValue(u) as real
  {
    assert u[..|u|] == u;
  }

  lemma PointedPartsAt(u: string, k: nat, x: real)
    requires k == LeadingDigits(u) < |u| && ParseUnsigned(u) == Some(x)
    ensures exists whole, frac :: PointedParts(u, whole, frac, x)
  {
    var whole, frac := u[..k], u[k + 1..];
    assert u[k] == '.' && AllDigits(frac) && (k > 0 || k + 1 < |u|);
    SplitAtPoint(u, k);
    assert PointedParts(u, whole, frac, x);
  }

  lemma SplitAtPoint(u: string, k: int)
    requires 0 <= k < |u| && u[k] == '.'
    ensures u == u[..k] + "." + u[k + 1..]
  {
    assert u[k..] == "." + u[k + 1..];
    assert u == u[..k] + u[k..];
  }

  /** Every character of an unsigned decimal is a digit or the point. */
  lemma ParseUnsignedChars(u: string, i: int)
    requires ParseUnsigned(u).Some? && 0 <= i < |u|
    ensures IsDigit(u[i]) || u[i] == '.'
  {
    var k := LeadingDigits(u);
    if i < k {
      assert u[i] == u[..k][i];
    } else if i > k {
      assert u[i] == u[k + 1..][i - k - 1];
    }
  }

  /** An unsigned decimal holds at most one point. */
  lemma ParseUnsignedOnePoint(u: string, i: int, j: int)
    requires ParseUnsigned(u).Some? && 0 <= i < j < |u|
    ensures !(u[i] == '.' && u[j] == '.')
  {
    var k := LeadingDigits(u);
    if i < k {
      assert u[i] == u[..k][i];
    } else if i > k {
      assert u[i] == u[k + 1..][i - k - 1];
    } else {
      assert u[j] == u[k + 1..][j - k - 1];
    }
  }

  /** `s` is low padding, a sign, an unsigned decimal and low padding, and reads as `x`. */
  ghost predicate DecimalParts(s: string, pre: string, sign: string, u: string, post: string, x: real) {
    && AllLow(pre) && AllLow(post)
    && (sign == "" || sign == "+" || sign == "-")
    && s == pre + sign + u + post
    && ParseUnsigned(u) == Some(if sign == "-" then -x else x)
  }

  /** Stripping the front leaves a suffix, and what it cut off is low. */
  lemma {:induction false} StripLowStartSplit(s: string)
    ensures var t := StripLowStart(s);
            s == s[..|s| - |t|] + t && AllLow(s[..|s| - |t|])
  {
    if s != [] && IsLowChar(s[0]) {
      StripLowStartSplit(s[1..]);
      var t := StripLowStart(s);
      var cut := s[..|s| - |t|];
      assert cut == [s[0]] + s[1..][..|s| - 1 - |t|];
      assert AllLow(cut) by {
        forall i | 0 <= i < |cut|
          ensures IsLowChar(cut[i])
        {
          if i > 0 {
            assert cut[i] == s[1..][..|s| - 1 - |t|][i - 1];
          }
        }
      }
    } else {
      assert s[..0] == [];
    }
  }

  /** Stripping the back leaves a prefix, and what it cut off is low. */
  lemma {:induction false} StripLowEndSplit(s: string)
    ensures var t := StripLowEnd(s);
            s == t + s[|t|..] && AllLow(s[|t|..])
  {
    if s != [] && IsLowChar(s[|s| - 1]) {
      var front := s[..|s| - 1];
      StripLowEndSplit(front);
      var t := StripLowEnd(s);
      var cut := s[|t|..];
      assert cut == front[|t|..] + [s[|s| - 1]];
      assert AllLow(cut) by {
        forall i | 0 <= i < |cut|
          ensures IsLowChar(cut[i])
        {
          if i < |cut| - 1 {
            assert cut[i] == front[|t|..][i];
          }
        }
      }
    } else {
      assert s[|s|..] == [];
    }
  }

  /**
   * Only low padding around a signed unsigned decimal parses: the converse of
   * `ParseDecimalOfPadded`.
   */
  lemma ParseDecimalShape(s: string, x: real)
    requires ParseDecimal(s) == Some(x)
    ensures exists pre, sign, u, post :: DecimalParts(s, pre, sign, u, post, x)
  {
    var front := StripLowStart(s);
    StripLowStartSplit(s);
    var pre := s[..|s| - |front|];
    var t := StripLowEnd(front);
    StripLowEndSplit(front);
    var post := front[|t|..];
    assert s == pre + t + post by {
      Regroup(s, pre, front, t, post);
    }
    DecimalPartsOfTrimmed(s, pre, t, post, x);
  }

  lemma Regroup<T>(s: seq<T>, a: seq<T>, b: seq<T>, c: seq<T>, d: seq<T>)
    requires s == a + b && b == c + d
    ensures s == a + c + d
  {
  }

  /** A signed decimal `t` with low padding around it splits into the four parts. */
  lemma DecimalPartsOfTrimmed(s: string, pre: string, t: string, post: string, x: real)
    requires AllLow(pre) && AllLow(post) && s == pre + t + post
    requires ParseSigned(t) == Some(x)
    ensures exists sign, u :: DecimalParts(s, pre, sign, u, post, x)
  {
    var n := SignLength(t);
    SignedSplit(t, x);
    var sign, u := t[..n], t[n..];
    Regroup(pre + t, pre, t, sign, u);
    assert DecimalParts(s, pre, sign, u, post, x);
  }

  /** The length of the sign at the front of `t`: 1 or 0. */
  function SignLength(t: string): (n: nat)
    ensures n <= |t|
  {
    if |t| > 0 && (t[0] == '+' || t[0] == '-') then 1 else 0
  }

  /** A signed decimal is its sign followed by the unsigned decimal it negates or not. */
  lemma SignedSplit(t: string, x: real)
    requires ParseSigned(t) == Some(x)
    ensures var n := SignLength(t);
            && t == t[..n] + t[n..]
            && (t[..n] == "" || t[..n] == "+" || t[..n] == "-")
            && ParseUnsigned(t[n..]) == Some(if t[..n] == "-" then -x else x)
  {
    var n := SignLength(t);
    if n == 1 {
      assert t[..n] == [t[0]];
    } else {
      assert t[..n] == "" && t[n..] == t;
    }
  }

  /** The characters a parsable decimal can hold: low padding, digits, a sign and the point. */
  predicate IsNumberChar(c: char) {
    IsLowChar(c) || IsDigit(c) || c == '+' || c == '-' || c == '.'
  }

  /** Every character of a string that parses is padding, a digit, a sign or the point. */
  lemma ParsedChars(s: string, i: int)
    requires ParseDecimal(s).Some? && 0 <= i < |s|
    ensures IsNumberChar(s[i])
  {
    var x := ParseDecimal(s).value;
    ParseDecimalShape(s, x);
    var pre, sign, u, post :| DecimalParts(s, pre, sign, u, post, x);
    var a := |pre| + |sign|;
    if i < |pre| {
      assert s[i] == pre[i];
    } else if i < a {
      assert s[i] == sign[i - |pre|];
    } else if i < a + |u| {
      assert s[i] == u[i - a];
      ParseUnsignedChars(u, i - a);
    } else {
      assert s[i] == post[i - a - |u|];
    }
  }

  /** A string that parses holds at most one point. */
  lemma ParsedOnePoint(s: string, i: int, j: int)
    requires ParseDecimal(s).Some? && 0 <= i < j < |s|
    ensures !(s[i] == '.' && s[j] == '.')
  {
    var x := ParseDecimal(s).value;
    ParseDecimalShape(s, x);
    var pre, sign, u, post :| DecimalParts(s, pre, sign, u, post, x);
    var a := |pre| + |sign|;
    if i < |pre| {
      assert s[i] == pre[i];
    } else if i < a {
      assert s[i] == sign[i - |pre|];
    } else if j >= a + |u| {
      assert s[j] == post[j - a - |u|];
    } else {
      assert s[i] == u[i - a] && s[j] == u[j - a];
      ParseUnsignedOnePoint(u, i - a, j - a);
    }
  }

  /** Any other character, anywhere, makes the parse fail: "12abc" is None. */
  lemma ForeignCharFails(s: string, i: int)
    requires 0 <= i < |s| && !IsNumberChar(s[i])
    ensures ParseDecimal(s) == None
  {
    if ParseDecimal(s).Some? {
      ParsedChars(s, i);
      assert false;
    }
  }

  /** Two points anywhere make the parse fail: "1.2.3" is None. */
  lemma TwoPointsFail(s: string, i: int, j: int)
    requires 0 <= i < j < |s| && s[i] == '.' && s[j] == '.'
    ensures ParseDecimal(s) == None
  {
    if ParseDecimal(s).Some? {
      ParsedOnePoint(s, i, j);
      assert false;
    }
  }

  /** Examples of strings `toFloatOrNull` refuses. */
  lemma RefusedExamples()
    ensures ParseDecimal("12abc") == None
    ensures ParseDecimal("1.2.3") == None
  {
    ForeignCharFails("12abc", 2);
    TwoPointsFail("1.2.3", 1, 3);
  }

  lemma {:induction false} LeadingDigitsOfDigits(ds: string, rest: string)
    requires AllDigits(ds)
    requires rest == [] || !IsDigit(rest[0])
    ensures LeadingDigits(ds + rest) == |ds|
  {
    if ds != [] {
      assert (ds + rest)[1..] == ds[1..] + rest;
      LeadingDigitsOfDigits(ds[1..], rest);
    }
  }

  /** `toFloatOrNull` reads back what `Int.toString()` wrote. */
  lemma ParseDecimalOfIntToString(i: int)
    ensures ParseDecimal(IntToString(i)) == Some(i as real)
  {
    var m: nat := if i < 0 then -i else i;
    var digits := NatToString(m);
    ParseUnsignedOfDigits(digits);
    NatToStringValue(m);
    if i < 0 {
      assert IntToString(i) == "-" + digits;
      ParseDecimalOfMinus(digits, m as real);
    } else {
      assert IntToString(i) == digits;
      ParseDecimalOfUnsigned(digits, m as real);
    }
  }

  /** The digits of m / 100 with exactly two decimals, for m >= 0. */
  function HundredthsDigits(m: nat): string {
    NatToString(m / 100) + "." + [DigitChar(m % 100 / 10), DigitChar(m % 100 % 10)]
  }

  /**
   * Java's `String.format("%.2f", v / 100.0)` for an integer `v` (in a locale
   * whose decimal separator is '.'): the sign, the whole hundreds, a point and
   * exactly two digits.
   */
  function FormatHundredths(v: int): string {
    if v < 0 then "-" + HundredthsDigits(-v) else HundredthsDigits(v)
  }

  /** The shape of a two-decimal rendering: digits, a point, exactly two digits, and a sign only for negatives. */
  lemma FormatHundredthsShape(v: int)
    ensures var s := FormatHundredths(v);
            && |s| >= 4
            && s[|s| - 3] == '.' && IsDigit(s[|s| - 2]) && IsDigit(s[|s| - 1])
            && (s[0] == '-' <==> v < 0)
            && (v >= 0 ==> IsDigit(s[0]))
  {
    var m: nat := if v < 0 then -v else v;
    var q := NatToString(m / 100);
    var u := HundredthsDigits(m);
    assert u == q + ("." + [DigitChar(m % 100 / 10), DigitChar(m % 100 % 10)]);
    assert u[0] == q[0];
  }

  /** Two fraction digits d1 d2 are worth (10 * d1 + d2) / 100. */
  lemma FractionOfTwoDigits(d1: nat, d2: nat)
    requires d1 < 10 && d2 < 10
    ensures FractionValue([DigitChar(d1), DigitChar(d2)]) == (10 * d1 + d2) as real / 100.0
  {
    var ds := [DigitChar(d1), DigitChar(d2)];
    assert ds[1..] == [DigitChar(d2)] && ds[1..][1..] == [];
    assert FractionValue(ds[1..]) == d2 as real / 10.0;
  }

  /** m / 100 plus its last two digits as hundredths is m / 100 exactly. */
  lemma HundredthsSplit(m: nat)
    ensures (m / 100) as real + (10 * (m % 100 / 10) + m % 100 % 10) as real / 100.0 == m as real / 100.0
  {
    var q, r := m / 100, m % 100;
    assert 10 * (r / 10) + r % 10 == r;
    assert m == 100 * q + r;
    WholeAndHundredths(q, r);
  }

  lemma WholeAndHundredths(q: int, r: int)
    ensures q as real + r as real / 100.0 == (100 * q + r) as real / 100.0
  {
  }

  lemma ParseUnsignedOfHundredthsDigits(m: nat)
    ensures HundredthsDigits(m) != [] && IsDigit(HundredthsDigits(m)[0])
    ensures ParseUnsigned(HundredthsDigits(m)) == Some(m as real / 100.0)
  {
    var q := NatToString(m / 100);
    var d1, d2 := m % 100 / 10, m % 100 % 10;
    var ds := [DigitChar(d1), DigitChar(d2)];
    var u := HundredthsDigits(m);
    assert u == q + ("." + ds);
    LeadingDigitsOfDigits(q, "." + ds);
    assert u[..|q|] == q;
    assert u[|q| + 1..] == ds;
    NatToStringValue(m / 100);
    FractionOfTwoDigits(d1, d2);
    HundredthsSplit(m);
  }

  /** A minus sign in front of an unsigned decimal negates its value. */
  lemma ParseDecimalOfMinus(u: string, x: real)
    requires ParseUnsigned(u) == Some(x)
    ensures ParseDecimal("-" + u) == Some(-x)
  {
    ParseDecimalOfPadded([], "-", u, [], x);
    assert [] + "-" + u + [] == "-" + u;
  }

  /** Without a sign in front, a decimal is read as unsigned. */
  lemma ParseDecimalOfUnsigned(u: string, x: real)
    requires ParseUnsigned(u) == Some(x)
    ensures ParseDecimal(u) == Some(x)
  {
    ParseDecimalOfPadded([], "", u, [], x);
    assert [] + "" + u + [] == u;
  }

  /** The two-decimal rendering is exact: reading it back gives v / 100. */
  lemma ParseDecimalOfFormatHundredths(v: int)
    ensures ParseDecimal(FormatHundredths(v)) == Some(v as real / 100.0)
  {
    if v < 0 {
      ParseDecimalOfNegativeFormat(v);
    } else {
      ParseDecimalOfNonNegativeFormat(v);
    }
  }

  lemma ParseDecimalOfNonNegativeFormat(v: int)
    requires v >= 0
    ensures ParseDecimal(FormatHundredths(v)) == Some(v as real / 100.0)
  {
    var u := HundredthsDigits(v);
    assert FormatHundredths(v) == u;
    ParseUnsignedOfHundredthsDigits(v);
    ParseDecimalOfUnsigned(u, v as real / 100.0);
  }

  lemma ParseDecimalOfNegativeFormat(v: int)
    requires v < 0
    ensures ParseDecimal(FormatHundredths(v)) == Some(v as real / 100.0)
  {
    var u := HundredthsDigits(-v);
    assert FormatHundredths(v) == "-" + u;
    ParseUnsignedOfHundredthsDigits(-v);
    ParseDecimalOfMinus(u, (-v) as real / 100.0);
    NegatedHundredths(v);
  }

  lemma NegatedHundredths(v: int)
    ensures -((-v) as real / 100.0) == v as real / 100.0
  {
  }

  /** Kotlin's `Char.isWhitespace()`: Java whitespace or a Unicode space separator. */
  predicate IsWhitespace(c: char) {
    || c == ' ' || '\t' <= c <= '\r' || '\U{1C}' <= c <= '\U{1F}'
    || c == '\U{A0}' || c == '\U{1680}' || '\U{2000}' <= c <= '\U{200A}'
    || c == '\U{2028}' || c == '\U{2029}' || c == '\U{202F}' || c == '\U{205F}' || c == '\U{3000}'
  }

  function TrimStart(s: string): (t: string)
    ensures |t| <= |s| && t == s[|s| - |t|..]
    ensures forall i :: 0 <= i < |s| - |t| ==> IsWhitespace(s[i])
    ensures t != [] ==> !IsWhitespace(t[0])
  {
    if s != [] && IsWhitespace(s[0]) then
      var t := TrimStart(s[1..]);
      assert s[1..][|s| - 1 - |t|..] == s[|s| - |t|..];
      assert forall i :: 0 <= i < |s| - |t| ==> IsWhitespace(s[i]) by {
        forall i | 0 <= i < |s| - |t|
          ensures IsWhitespace(s[i])
        {
          if i > 0 {
            assert s[i] == s[1..][i - 1];
          }
        }
      }
      t
    else
      s
  }

  function TrimEnd(s: string): (t: string)
    ensures |t| <= |s| && t == s[..|t|]
    ensures forall i :: |t| <= i < |s| ==> IsWhitespace(s[i])
    ensures t != [] ==> !IsWhitespace(t[|t| - 1])
  {
    if s != [] && IsWhitespace(s[|s| - 1]) then
      var t := TrimEnd(s[..|s| - 1]);
      assert s[..|s| - 1][..|t|] == s[..|t|];
      assert forall i :: |t| <= i < |s| ==> IsWhitespace(s[i]) by {
        forall i | |t| <= i < |s|
          ensures IsWhitespace(s[i])
        {
          if i < |s| - 1 {
            assert s[i] == s[..|s| - 1][i];
          }
        }
      }
      t
    else
      s
  }

  /** `t` is `s` from index `a` on with only whitespace cut off on either side. */
  predicate TrimmedAt(s: string, t: string, a: int) {
    && 0 <= a <= |s| - |t| && t == s[a..a + |t|]
    && (forall i :: 0 <= i < a ==> IsWhitespace(s[i]))
    && (forall i :: a + |t| <= i < |s| ==> IsWhitespace(s[i]))
  }

  /** Kotlin's `String.trim()`: drops leading and trailing whitespace only. */
  function Trim(s: string): (t: string)
    ensures |t| <= |s|
    ensures t != [] ==> !IsWhitespace(t[0]) && !IsWhitespace(t[|t| - 1])
    ensures s != [] && !IsWhitespace(s[0]) && !IsWhitespace(s[|s| - 1]) ==> t == s
  {
    TrimEnd(TrimStart(s))
  }

  /** Trimming cuts only whitespace, and only at the two ends: the result is a slice of the input. */
  lemma TrimPosition(s: string)
    ensures exists a :: TrimmedAt(s, Trim(s), a)
  {
    var u := TrimStart(s);
    TrimmedAtOfParts(s, u, TrimEnd(u));
    assert TrimmedAt(s, Trim(s), |s| - |u|);
  }

  /** Cutting leading whitespace off s to get u, then trailing whitespace off u to get t. */
  lemma TrimmedAtOfParts(s: string, u: string, t: string)
    requires |u| <= |s| && u == s[|s| - |u|..]
    requires forall i :: 0 <= i < |s| - |u| ==> IsWhitespace(s[i])
    requires |t| <= |u| && t == u[..|t|]
    requires forall i :: |t| <= i < |u| ==> IsWhitespace(u[i])
    ensures TrimmedAt(s, t, |s| - |u|)
  {
    var a := |s| - |u|;
    assert t == s[a..a + |t|];
    forall i | a + |t| <= i < |s|
      ensures IsWhitespace(s[i])
    {
      assert s[i] == u[i - a];
    }
  }

  lemma TrimIdempotent(s: string)
    ensures Trim(Trim(s)) == Trim(s)
  {
    var t := Trim(s);
    assert TrimStart(t) == t;
    assert TrimEnd(t) == t;
  }

  function ToLowerAscii(c: char): char {
    if 'A' <= c <= 'Z' then (c as int + 32) as char else c
  }

  /** Kotlin's `equals(other, ignoreCase = true)`, for letters of the ASCII range. */
  predicate EqualsIgnoreCase(a: string, b: string) {
    |a| == |b| && forall i :: 0 <= i < |a| ==> ToLowerAscii(a[i]) == ToLowerAscii(b[i])
  }

  predicate StartsWith(s: string, prefix: string) {
    |prefix| <= |s| && s[..|prefix|] == prefix
  }

  predicate EndsWith(s: string, suffix: string) {
    |suffix| <= |s| && s[|s| - |suffix|..] == suffix
  }

  predicate EndsWithIgnoreCase(s: string, suffix: string) {
    |suffix| <= |s| && EqualsIgnoreCase(s[|s| - |suffix|..], suffix)
  }

  /** Kotlin's `removeSuffix`, which compares case-sensitively. */
  function RemoveSuffix(s: string, suffix: string): (t: string)
    ensures EndsWith(s, suffix) ==> t + suffix == s
    ensures !EndsWith(s, suffix) ==> t == s
  {
    if EndsWith(s, suffix) then s[..|s| - |suffix|] else s
  }

  /** Kotlin's `split(sep)` for a one-character separator: every piece, empty ones included. */
  function Split(s: string, sep: char): (parts: seq<string>)
    ensures |parts| >= 1
  {
    if s == [] then [""]
    else
      var rest := Split(s[1..], sep);
      if s[0] == sep then [""] + rest else [[s[0]] + rest[0]] + rest[1..]
  }

  /** The pieces put back together with the separator between them. */
  function Join(parts: seq<string>, sep: char): string
    requires |parts| >= 1
  {
    if |parts| == 1 then parts[0] else parts[0] + [sep] + Join(parts[1..], sep)
  }

  /** Splitting loses nothing: joining the pieces gives the string back. */
  lemma {:induction false} SplitJoin(s: string, sep: char)
    ensures Join(Split(s, sep), sep) == s
  {
    if s != [] {
      var rest := Split(s[1..], sep);
      SplitJoin(s[1..], sep);
      if s[0] == sep {
        assert Split(s, sep)[1..] == rest;
      } else if |rest| > 1 {
        var parts := Split(s, sep);
        assert parts[1..] == rest[1..];
        assert Join(rest, sep) == rest[0] + [sep] + Join(rest[1..], sep);
        assert Join(parts, sep) == [s[0]] + rest[0] + [sep] + Join(rest[1..], sep);
      }
    }
  }

  /** A string without the separator is a single piece. */
  lemma {:induction false} SplitWithoutSeparator(s: string, sep: char)
    requires sep !in s
    ensures Split(s, sep) == [s]
  {
    if s != [] {
      assert sep !in s[1..] by {
        forall i | 0 <= i < |s[1..]| ensures s[1..][i] != sep {
          assert s[1..][i] == s[i + 1];
        }
      }
      SplitWithoutSeparator(s[1..], sep);
      assert [s[0]] + s[1..] == s;
    }
  }

  /** The first separator ends the first piece. */
  lemma {:induction false} SplitAtSeparator(a: string, sep: char, b: string)
    requires sep !in a
    ensures Split(a + [sep] + b, sep) == [a] + Split(b, sep)
  {
    var s := a + [sep] + b;
    if a == [] {
      assert s[1..] == b;
    } else {
      assert s[1..] == a[1..] + [sep] + b;
      assert sep !in a[1..] by {
        forall i | 0 <= i < |a[1..]| ensures a[1..][i] != sep {
          assert a[1..][i] == a[i + 1];
        }
      }
      SplitAtSeparator(a[1..], sep, b);
      assert [a[0]] + a[1..] == a;
    }
  }
}
