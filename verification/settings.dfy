/**
 * The logic of the settings screen (`SettingsFragment`): the `HH:mm-HH:mm`
 * dim-time validator and the four integers it stores, the server-URL check
 * that guards closing the screen, the pincode switch with its creation step,
 * and the `imageAdjustments` switch that shows or hides the six sliders.
 * Dialogs are not modelled; the toasts are recorded as the messages shown.
 */
module Settings {
  import opened Wrappers
  import opened Text
  import opened Preferences
  import opened AdjustmentFilter

  const DimStartHourKey := "dimStartHour"
  const DimStartMinuteKey := "dimStartMinute"
  const DimEndHourKey := "dimEndHour"
  const DimEndMinuteKey := "dimEndMinute"
  const WebviewUrlKey := "webview_url"
  const PincodeKey := "settings_pincode"
  /** The key under which the pincode switch persists its own state. */
  const PincodeSwitchKey := "settingsPincode"

  /** The seek-bar preferences shown only while image adjustments are switched on. */
  const SliderKeys := [BrightnessKey, ContrastKey, RedKey, GreenKey, BlueKey, GammaKey]

  const InvalidTimeMessage := "Invalid time format. Use HH:mm-HH:mm."
  const InvalidUrlMessage := "Please enter a valid server URL."
  const PincodeRemovedMessage := "Pincode protection removed"
  const PincodeEmptyMessage := "Pincode cannot be empty"
  const PincodeEnabledMessage := "Pincode protection enabled"

  // The dim-time range

  /** An hour as the pattern `[01]?[0-9]|2[0-3]` accepts it: one digit, or 00-19, or 20-23. */
  predicate IsHourField(f: string)
    ensures IsHourField(f) ==> AllDigits(f) && 1 <= |f| <= 2
  {
    || (|f| == 1 && IsDigit(f[0]))
    || (|f| == 2 && (f[0] == '0' || f[0] == '1') && IsDigit(f[1]))
    || (|f| == 2 && f[0] == '2' && '0' <= f[1] <= '3')
  }

  /** A minute as the pattern `[0-5][0-9]` accepts it: exactly two digits. */
  predicate IsMinuteField(f: string)
    ensures IsMinuteField(f) ==> AllDigits(f) && |f| == 2
  {
    |f| == 2 && '0' <= f[0] <= '5' && IsDigit(f[1])
  }

  /**
   * A whole-string match of
   * `^([01]?[0-9]|2[0-3]):([0-5][0-9])-([01]?[0-9]|2[0-3]):([0-5][0-9])$`.
   */
  ghost predicate MatchesDimTimePattern(s: string) {
    exists h1, m1, h2, m2 ::
      && IsHourField(h1) && IsMinuteField(m1) && IsHourField(h2) && IsMinuteField(m2)
      && s == h1 + ":" + m1 + "-" + h2 + ":" + m2
  }

  /** The four integers stored for a dim period. */
  datatype DimTime = DimTime(startHour: int, startMinute: int, endHour: int, endMinute: int)

  predicate InClockRange(t: DimTime) {
    && 0 <= t.startHour <= 23 && 0 <= t.startMinute <= 59
    && 0 <= t.endHour <= 23 && 0 <= t.endMinute <= 59
  }

  /** An hour field's value is at most 23 ... */
  lemma HourFieldValue(f: string)
    requires IsHourField(f)
    ensures DigitsValue(f) <= 23
  {
    DigitsValueShort(f);
  }

  /** ... and a minute field's at most 59. */
  lemma MinuteFieldValue(f: string)
    requires IsMinuteField(f)
    ensures DigitsValue(f) <= 59
  {
    DigitsValueShort(f);
  }

  /**
   * The listener's parse of a (trimmed) dim-time value: the four fields
   * between '-' and ':' when the value has the pattern's shape, read with
   * `toInt`; None when it does not.
   */
  function ParseDimTime(timeRange: string): (r: Option<DimTime>)
    ensures r.Some? ==> InClockRange(r.value)
  {
    var parts := Split(timeRange, '-');
    if |parts| != 2 then None
    else
      var start := Split(parts[0], ':');
      var end := Split(parts[1], ':');
      if && |start| == 2 && |end| == 2
         && IsHourField(start[0]) && IsMinuteField(start[1]) && IsHourField(end[0]) && IsMinuteField(end[1])
      then
        HourFieldValue(start[0]); MinuteFieldValue(start[1]);
        HourFieldValue(end[0]); MinuteFieldValue(end[1]);
        Some(DimTime(DigitsValue(start[0]), DigitsValue(start[1]), DigitsValue(end[0]), DigitsValue(end[1])))
      else None
  }

  predicate NoSeparators(f: string) {
    ':' !in f && '-' !in f
  }

  lemma DigitsHaveNoSeparators(f: string)
    requires AllDigits(f)
    ensures NoSeparators(f)
  {
    assert !IsDigit(':') && !IsDigit('-');
  }

  /**
   * Four pieces without separators, laid out as `a:b-c:d`: the parse reads
   * them as the four fields, and succeeds exactly when each is well formed.
   */
  lemma ParseOfParts(a: string, b: string, c: string, d: string)
    requires NoSeparators(a) && NoSeparators(b) && NoSeparators(c) && NoSeparators(d)
    ensures ParseDimTime(a + ":" + b + "-" + c + ":" + d)
            == if IsHourField(a) && IsMinuteField(b) && IsHourField(c) && IsMinuteField(d)
               then Some(DimTime(DigitsValue(a), DigitsValue(b), DigitsValue(c), DigitsValue(d)))
               else None
  {
    var start, end := a + [':'] + b, c + [':'] + d;
    assert a + ":" + b + "-" + c + ":" + d == start + ['-'] + end;
    SplitPair(start, '-', end);
    SplitPair(a, ':', b);
    SplitPair(c, ':', d);
  }

  /** Two pieces without the separator, joined by it, split back into the two. */
  lemma SplitPair(x: string, sep: char, y: string)
    requires sep !in x && sep !in y
    ensures Split(x + [sep] + y, sep) == [x, y]
  {
    SplitAtSeparator(x, sep, y);
    SplitWithoutSeparator(y, sep);
  }

  /** The parse accepts exactly the strings the regular expression matches. */
  lemma ParseAcceptsPattern(s: string)
    ensures ParseDimTime(s).Some? <==> MatchesDimTimePattern(s)
  {
    if ParseDimTime(s).Some? {
      var parts := Split(s, '-');
      var start := Split(parts[0], ':');
      var end := Split(parts[1], ':');
      SplitJoin(s, '-');
      SplitJoin(parts[0], ':');
      SplitJoin(parts[1], ':');
      assert parts[1..] == [parts[1]] && start[1..] == [start[1]] && end[1..] == [end[1]];
      assert s == start[0] + ":" + start[1] + "-" + end[0] + ":" + end[1];
    }
    if MatchesDimTimePattern(s) {
      var h1, m1, h2, m2 :| && IsHourField(h1) && IsMinuteField(m1) && IsHourField(h2) && IsMinuteField(m2)
                             && s == h1 + ":" + m1 + "-" + h2 + ":" + m2;
      DigitsHaveNoSeparators(h1); DigitsHaveNoSeparators(m1);
      DigitsHaveNoSeparators(h2); DigitsHaveNoSeparators(m2);
      ParseOfParts(h1, m1, h2, m2);
    }
  }

  /** A number below 100 written with exactly two digits, as the pattern's minutes are. */
  function TwoDigits(n: nat): (f: string)
    requires n < 100
    ensures |f| == 2 && AllDigits(f)
  {
    [DigitChar(n / 10), DigitChar(n % 10)]
  }

  /** A dim period written as `HH:mm-HH:mm`. */
  function FormatDimTime(t: DimTime): string
    requires InClockRange(t)
  {
    TwoDigits(t.startHour) + ":" + TwoDigits(t.startMinute) + "-" + TwoDigits(t.endHour) + ":" + TwoDigits(t.endMinute)
  }

  /** An hour or minute in range, written with two digits, is a well-formed field of that value. */
  lemma TwoDigitsField(n: nat, hour: bool)
    requires if hour then n <= 23 else n <= 59
    ensures hour ==> IsHourField(TwoDigits(n))
    ensures !hour ==> IsMinuteField(TwoDigits(n))
    ensures NoSeparators(TwoDigits(n)) && DigitsValue(TwoDigits(n)) == n
  {
    DigitsValueShort(TwoDigits(n));
    DigitsHaveNoSeparators(TwoDigits(n));
  }

  /** Every clock period in range is accepted, and parses back to itself. */
  lemma FormatThenParse(t: DimTime)
    requires InClockRange(t)
    ensures ParseDimTime(FormatDimTime(t)) == Some(t)
  {
    TwoDigitsField(t.startHour, true); TwoDigitsField(t.startMinute, false);
    TwoDigitsField(t.endHour, true); TwoDigitsField(t.endMinute, false);
    ParseOfParts(TwoDigits(t.startHour), TwoDigits(t.startMinute), TwoDigits(t.endHour), TwoDigits(t.endMinute));
  }

  /** A period that runs past midnight is accepted as it is: start after end is not an error. */
  lemma OvernightAccepted()
    ensures ParseDimTime("22:00-07:30") == Some(DimTime(22, 0, 7, 30))
  {
    assert "22:00-07:30" == "22" + ":" + "00" + "-" + "07" + ":" + "30";
    ParseOfParts("22", "00", "07", "30");
    DigitsValueShort("22"); DigitsValueShort("00"); DigitsValueShort("07"); DigitsValueShort("30");
    assert IsHourField("22");
    assert IsMinuteField("00");
    assert IsHourField("07");
    assert IsMinuteField("30");
    assert DigitsValue("22") == 22;
    assert DigitsValue("00") == 0;
    assert DigitsValue("07") == 7;
    assert DigitsValue("30") == 30;
  }

  /** A one-digit hour is accepted. */
  lemma OneDigitHourAccepted()
    ensures ParseDimTime("7:05-9:30") == Some(DimTime(7, 5, 9, 30))
  {
    assert "7:05-9:30" == "7" + ":" + "05" + "-" + "9" + ":" + "30";
    ParseOfParts("7", "05", "9", "30");
    DigitsValueShort("7"); DigitsValueShort("05"); DigitsValueShort("9"); DigitsValueShort("30");
    assert IsHourField("7");
    assert IsMinuteField("05");
    assert IsHourField("9");
    assert IsMinuteField("30");
    assert DigitsValue("7") == 7;
    assert DigitsValue("05") == 5;
    assert DigitsValue("9") == 9;
    assert DigitsValue("30") == 30;
  }

  /** A one-digit minute is rejected. */
  lemma OneDigitMinuteRejected()
    ensures !MatchesDimTimePattern("7:5-9:30")
  {
    assert "7:5-9:30" == "7" + ":" + "5" + "-" + "9" + ":" + "30";
    ParseOfParts("7", "5", "9", "30");
    ParseAcceptsPattern("7:5-9:30");
  }

  /** Hour 24 is rejected. */
  lemma Hour24Rejected()
    ensures !MatchesDimTimePattern("24:00-07:00")
  {
    assert "24:00-07:00" == "24" + ":" + "00" + "-" + "07" + ":" + "00";
    ParseOfParts("24", "00", "07", "00");
    ParseAcceptsPattern("24:00-07:00");
  }

  // The server URL

  /** The characters `.` does not match in a Java regular expression. */
  predicate IsLineTerminator(c: char) {
    c == '\n' || c == '\r' || c == '\U{85}' || c == '\U{2028}' || c == '\U{2029}'
  }

  /** `.*` on what follows position `from`: no line terminator from there on. */
  predicate NoLineTerminatorFrom(s: string, from: nat)
    decreases |s| - from
  {
    from >= |s| || (!IsLineTerminator(s[from]) && NoLineTerminatorFrom(s, from + 1))
  }

  /** `.+` on what follows position `from`: at least one character, none of them a line terminator. */
  predicate IsAnyCharsPlusFrom(s: string, from: nat) {
    from < |s| && NoLineTerminatorFrom(s, from)
  }

  /** The recursive check is the quantified one. */
  lemma {:induction false} NoLineTerminatorFromMeaning(s: string, from: nat)
    ensures NoLineTerminatorFrom(s, from) <==> forall i :: from <= i < |s| ==> !IsLineTerminator(s[i])
    decreases |s| - from
  {
    if from < |s| {
      NoLineTerminatorFromMeaning(s, from + 1);
    }
  }

  /**
   * The close button's check on the trimmed `webview_url`: not empty and a
   * whole-string match of `^https?://.+`, case-sensitively.
   */
  predicate IsValidServerUrl(url: string) {
    && url != []
    && ((StartsWith(url, "http://") && IsAnyCharsPlusFrom(url, 7))
        || (StartsWith(url, "https://") && IsAnyCharsPlusFrom(url, 8)))
  }

  /** An accepted URL names a scheme and at least one more character. */
  lemma ValidUrlShape(url: string)
    requires IsValidServerUrl(url)
    ensures |url| >= 8
    ensures url[..7] == "http://" || url[..8] == "https://"
  {
  }

  /** The scheme is matched case-sensitively: a URL that does not start with a lower-case 'h' is refused. */
  lemma SchemeStartsLowerCase(url: string)
    requires url == [] || url[0] != 'h'
    ensures !IsValidServerUrl(url)
  {
  }

  /** Scheme letters are compared case-sensitively, and the scheme alone is not enough. */
  lemma UrlExamples()
    ensures IsValidServerUrl("https://frame.local")
    ensures !IsValidServerUrl("HTTPS://frame.local")
    ensures !IsValidServerUrl("http://")
    ensures !IsValidServerUrl("frame.local:8080")
  {
    var good := "https://frame.local";
    assert good[..8] == "https://";
    assert good[..7] != "http://" by {
      assert good[4] == 's';
    }
    NoLineTerminatorFromMeaning(good, 8);
    SchemeStartsLowerCase("HTTPS://frame.local");
    SchemeStartsLowerCase("frame.local:8080");
  }

  /** Switched-off adjustments mean no filter at all, whatever the sliders hold. */
  lemma SwitchedOffMeansNoFilter(entries: Entries, includeGamma: bool)
    ensures ExpectedFilter(entries[AdjustmentsKey := BoolPref(false)], includeGamma).None?
  {
  }

  /** The slider visibilities for one switch position: all six shown or all six hidden. */
  function SliderVisibility(visible: bool): (vis: map<string, bool>)
    ensures forall k :: k in vis <==> k in SliderKeys
  {
    map k | k in SliderKeys :: visible
  }

  /** The settings screen's state that these listeners read and write. */
  class SettingsFragment {
    const prefs: SharedPreferences
    /** The `settingsPincode` switch. */
    var pincodeSwitchChecked: bool
    /** The visibility of each slider, by preference key. */
    var sliderVisible: map<string, bool>
    /** Whether the activity has been finished with `RESULT_OK`. */
    var finishedOk: bool
    /** The toasts shown so far, oldest first. */
    var toasts: seq<string>

    /** The pincode switch shows the state persisted under its key. */
    ghost predicate SwitchShowsStored()
      reads this, prefs
    {
      pincodeSwitchChecked == GetBoolean(prefs.entries, PincodeSwitchKey, false)
    }

    /**
     * The pincode switch shows its persisted state, and it is on exactly
     * when a non-empty pincode is stored.
     */
    ghost predicate PincodeConsistent()
      reads this, prefs
    {
      && SwitchShowsStored()
      && (pincodeSwitchChecked <==> GetString(prefs.entries, PincodeKey, "") != "")
    }

    /**
     * `onCreatePreferences`: the sliders follow the `imageAdjustments`
     * switch; the pincode switch starts from its persisted state and is then
     * set to whether a pincode is stored, which persists it when it changes.
     */
    constructor (prefs: SharedPreferences)
      modifies prefs
      ensures this.prefs == prefs
      ensures pincodeSwitchChecked <==> GetString(old(prefs.entries), PincodeKey, "") != ""
      ensures prefs.entries == if GetBoolean(old(prefs.entries), PincodeSwitchKey, false) == pincodeSwitchChecked
                               then old(prefs.entries)
                               else old(prefs.entries)[PincodeSwitchKey := BoolPref(pincodeSwitchChecked)]
      ensures sliderVisible == SliderVisibility(GetBoolean(old(prefs.entries), AdjustmentsKey, false))
      ensures !finishedOk && toasts == []
      ensures PincodeConsistent()
    {
      this.prefs := prefs;
      sliderVisible := SliderVisibility(GetBoolean(prefs.entries, AdjustmentsKey, false));
      pincodeSwitchChecked := GetBoolean(prefs.entries, PincodeSwitchKey, false);
      finishedOk := false;
      toasts := [];
      new;
      var hasPassword := GetString(prefs.entries, PincodeKey, "") != "";
      SetPincodeSwitchChecked(hasPassword);
    }

    /**
     * `chkSettingsPincode.isChecked = checked`: a switch whose state changes
     * persists the new state under its own key; setting the state it already
     * shows writes nothing.
     */
    method SetPincodeSwitchChecked(checked: bool)
      modifies this, prefs
      ensures pincodeSwitchChecked == checked
      ensures prefs.entries == if old(pincodeSwitchChecked) == checked
                               then old(prefs.entries)
                               else old(prefs.entries)[PincodeSwitchKey := BoolPref(checked)]
      ensures sliderVisible == old(sliderVisible) && finishedOk == old(finishedOk) && toasts == old(toasts)
      ensures old(pincodeSwitchChecked) != checked || old(SwitchShowsStored()) ==> SwitchShowsStored()
    {
      if pincodeSwitchChecked != checked {
        pincodeSwitchChecked := checked;
        prefs.PutBoolean(PincodeSwitchKey, checked);
      }
    }

    /**
     * The `imageAdjustments` change listener: the six sliders take the new
     * value as their visibility, the value is stored at once, and the change
     * is accepted.
     */
    method OnImageAdjustmentsChange(value: bool) returns (accepted: bool)
      modifies this, prefs
      ensures accepted
      ensures sliderVisible == SliderVisibility(value)
      ensures prefs.entries == old(prefs.entries)[AdjustmentsKey := BoolPref(value)]
      ensures pincodeSwitchChecked == old(pincodeSwitchChecked)
      ensures finishedOk == old(finishedOk) && toasts == old(toasts)
      ensures old(PincodeConsistent()) ==> PincodeConsistent()
    {
      sliderVisible := SliderVisibility(value);
      prefs.PutBoolean(AdjustmentsKey, value);
      accepted := true;
    }

    /**
     * The `dim_time_range` change listener: a trimmed value of the form
     * `HH:mm-HH:mm` is accepted and its four integers stored; anything else
     * is rejected with a toast and nothing is stored.
     */
    method OnDimTimeChange(newValue: string) returns (accepted: bool)
      modifies this, prefs
      ensures accepted <==> ParseDimTime(Trim(newValue)).Some?
      ensures accepted <==> MatchesDimTimePattern(Trim(newValue))
      ensures accepted ==>
                && var t := ParseDimTime(Trim(newValue)).value;
                && prefs.entries == old(prefs.entries)[DimStartHourKey := IntPref(t.startHour)]
                                                      [DimStartMinuteKey := IntPref(t.startMinute)]
                                                      [DimEndHourKey := IntPref(t.endHour)]
                                                      [DimEndMinuteKey := IntPref(t.endMinute)]
                && InClockRange(t)
                && toasts == old(toasts)
      ensures !accepted ==> prefs.entries == old(prefs.entries) && toasts == old(toasts) + [InvalidTimeMessage]
      ensures pincodeSwitchChecked == old(pincodeSwitchChecked) && sliderVisible == old(sliderVisible)
      ensures finishedOk == old(finishedOk)
    {
      var timeRange := Trim(newValue);
      ParseAcceptsPattern(timeRange);
      var parsed := ParseDimTime(timeRange);
      if parsed.Some? {
        var t := parsed.value;
        prefs.PutInt(DimStartHourKey, t.startHour);
        prefs.PutInt(DimStartMinuteKey, t.startMinute);
        prefs.PutInt(DimEndHourKey, t.endHour);
        prefs.PutInt(DimEndMinuteKey, t.endMinute);
        accepted := true;
      } else {
        toasts := toasts + [InvalidTimeMessage];
        accepted := false;
      }
    }

    /**
     * The `closeSettings` click listener: with a valid server URL stored the
     * activity is finished with `RESULT_OK`; otherwise a toast asks for one
     * and the screen stays open.
     */
    method OnCloseSettings() returns (handled: bool)
      modifies this
      ensures handled <==> IsValidServerUrl(Trim(GetString(prefs.entries, WebviewUrlKey, "")))
      ensures handled ==> finishedOk && toasts == old(toasts)
      ensures !handled ==> finishedOk == old(finishedOk) && toasts == old(toasts) + [InvalidUrlMessage]
      ensures pincodeSwitchChecked == old(pincodeSwitchChecked) && sliderVisible == old(sliderVisible)
    {
      var entries := prefs.entries;
      handled := IsValidServerUrl(Trim(GetString(entries, WebviewUrlKey, "")));
      if handled {
        finishedOk := true;
      } else {
        toasts := toasts + [InvalidUrlMessage];
      }
      assert prefs.entries == entries;
    }

    /**
     * The `settingsPincode` change listener. Enabling is refused for now (a
     * pincode must be created first); disabling deletes the stored pincode
     * and is accepted.
     */
    method OnPincodeChange(enabling: bool) returns (accepted: bool)
      modifies this, prefs
      ensures accepted <==> !enabling
      ensures enabling ==> prefs.entries == old(prefs.entries) && toasts == old(toasts)
      ensures !enabling ==> prefs.entries == old(prefs.entries) - {PincodeKey}
                            && toasts == old(toasts) + [PincodeRemovedMessage]
      ensures pincodeSwitchChecked == old(pincodeSwitchChecked) && sliderVisible == old(sliderVisible)
      ensures finishedOk == old(finishedOk)
    {
      if enabling {
        accepted := false;
      } else {
        prefs.Remove(PincodeKey);
        toasts := toasts + [PincodeRemovedMessage];
        accepted := true;
      }
    }

    /**
     * A tap on the pincode switch, as the preference library handles it: the
     * listener is asked about the opposite state and the switch flips only
     * when it agrees. Turning it off removes the pincode and persists the
     * switch as off; turning it on leaves everything as it was until a
     * pincode is created.
     */
    method ClickPincodeSwitch()
      requires PincodeConsistent()
      modifies this, prefs
      ensures PincodeConsistent()
      ensures old(pincodeSwitchChecked) ==> && !pincodeSwitchChecked
                                            && prefs.entries == (old(prefs.entries) - {PincodeKey})[PincodeSwitchKey := BoolPref(false)]
                                            && toasts == old(toasts) + [PincodeRemovedMessage]
      ensures !old(pincodeSwitchChecked) ==> && !pincodeSwitchChecked
                                             && prefs.entries == old(prefs.entries)
                                             && toasts == old(toasts)
    {
      var newValue := !pincodeSwitchChecked;
      var accepted := OnPincodeChange(newValue);
      if accepted {
        SetPincodeSwitchChecked(newValue);
      }
    }

    /**
     * The "Set" button of the pincode-creation dialog: an empty pincode is
     * refused with a toast; otherwise it is stored and the switch turned on,
     * which persists the switch when it was off.
     */
    method OnPincodeEntered(password: string)
      modifies this, prefs
      ensures password == [] ==> && prefs.entries == old(prefs.entries)
                                 && pincodeSwitchChecked == old(pincodeSwitchChecked)
                                 && toasts == old(toasts) + [PincodeEmptyMessage]
      ensures password != [] ==> && prefs.entries == (if old(pincodeSwitchChecked)
                                                      then old(prefs.entries)[PincodeKey := StringPref(password)]
                                                      else old(prefs.entries)[PincodeKey := StringPref(password)]
                                                                             [PincodeSwitchKey := BoolPref(true)])
                                 && pincodeSwitchChecked
                                 && toasts == old(toasts) + [PincodeEnabledMessage]
      ensures sliderVisible == old(sliderVisible) && finishedOk == old(finishedOk)
      ensures old(PincodeConsistent()) ==> PincodeConsistent()
    {
      if password == [] {
        toasts := toasts + [PincodeEmptyMessage];
      } else {
        prefs.PutString(PincodeKey, password);
        SetPincodeSwitchChecked(true);
        toasts := toasts + [PincodeEnabledMessage];
      }
    }
  }
}
