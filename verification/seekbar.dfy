/**
 * `SeekBarPreference` and its dialog: an integer preference in [min, max]
 * edited with a seek bar whose progress runs from 0 to max - min. The value
 * shown and committed is always progress + min; the reset button moves the
 * bar to the key's neutral value; a positive close saves the value when the
 * change listener agrees.
 */
module SeekBar {
  import opened Wrappers
  import opened Text
  import opened Preferences
  import opened AdjustmentFilter

  /** The optional `min` and `max` attributes of the preference's XML declaration. */
  datatype Attrs = Attrs(min: Option<int>, max: Option<int>)

  const DefaultMin := 0
  const DefaultMax := 100

  /** The text shown for a value: value / 100 with two decimals for gamma, the integer otherwise. */
  function ValueLabel(isGamma: bool, value: int): (text: string)
  {
    if isGamma then FormatHundredths(value) else IntToString(value)
  }

  /** A label reads back as the number it stands for: value / 100 for gamma, value otherwise. */
  lemma LabelReadsBack(isGamma: bool, value: int)
    ensures ParseDecimal(ValueLabel(isGamma, value)) == Some(if isGamma then value as real / 100.0 else value as real)
  {
    if isGamma {
      ParseDecimalOfFormatHundredths(value);
    } else {
      ParseDecimalOfIntToString(value);
    }
  }

  /** Different values get different labels, so the label identifies the value. */
  lemma LabelInjective(isGamma: bool, v: int, w: int)
    requires ValueLabel(isGamma, v) == ValueLabel(isGamma, w)
    ensures v == w
  {
    LabelReadsBack(isGamma, v);
    LabelReadsBack(isGamma, w);
  }

  /** The value the reset button restores: 100 for gamma, 0 for every other slider. */
  function ResetValue(isGamma: bool): int {
    if isGamma then 100 else 0
  }

  /** The seek bar's maximum: max - min, raised to 0 as `SeekBar.setMax` does when it is negative. */
  function WidgetMax(min: int, max: int): nat {
    if max - min < 0 then 0 else max - min
  }

  /** `SeekBar.setProgress`: a requested progress clamped to [0, widgetMax]. */
  function ClampProgress(requested: int, widgetMax: nat): (p: nat)
    ensures p <= widgetMax
    ensures 0 <= requested <= widgetMax <==> p == requested
  {
    if requested < 0 then 0 else if requested > widgetMax then widgetMax else requested
  }

  /** The progress the bar shows for a preference value. */
  function ProgressFor(value: int, min: int, max: int): (p: nat)
    ensures p <= WidgetMax(min, max)
  {
    ClampProgress(value - min, WidgetMax(min, max))
  }

  /** The value a progress stands for. */
  function ValueFor(progress: int, min: int): int {
    progress + min
  }

  /**
   * value -> progress -> value is the identity exactly for the values in
   * [min, max]; a value outside comes back as the nearer bound.
   */
  lemma ValueProgressRoundTrip(value: int, min: int, max: int)
    requires min <= max
    ensures ValueFor(ProgressFor(value, min, max), min) == value <==> min <= value <= max
    ensures value < min ==> ValueFor(ProgressFor(value, min, max), min) == min
    ensures value > max ==> ValueFor(ProgressFor(value, min, max), min) == max
  {
  }

  /** progress -> value -> progress is the identity for every progress the bar can show. */
  lemma ProgressValueRoundTrip(progress: int, min: int, max: int)
    requires 0 <= progress <= WidgetMax(min, max)
    ensures ProgressFor(ValueFor(progress, min), min, max) == progress
  {
  }

  /** Every value the bar can produce lies in [min, max] when min <= max. */
  lemma ProducedValueInRange(progress: int, min: int, max: int)
    requires min <= max && 0 <= progress <= WidgetMax(min, max)
    ensures min <= ValueFor(progress, min) <= max
  {
  }

  /** The preference: its bounds, its current value and summary, persisted in a store. */
  class SeekBarPreference {
    const key: string
    const store: SharedPreferences
    var min: int
    var max: int
    var currentValue: int
    /** The summary line under the preference's title; none until a value is set. */
    var summary: Option<string>

    /** Whether this is the gamma slider, whose values are hundredths. */
    predicate IsGamma() {
      key == GammaKey
    }

    /** The value held is the one stored, and the summary shows it. */
    ghost predicate InSync()
      reads this, store
    {
      && GetInt(store.entries, key, currentValue) == currentValue
      && summary == Some(ValueLabel(IsGamma(), currentValue))
    }

    /** The constructor: `min` and `max` from the XML attributes, 0 and 100 when absent. */
    constructor (key: string, store: SharedPreferences, attrs: Option<Attrs>)
      ensures this.key == key && this.store == store
      ensures min == if attrs.Some? && attrs.value.min.Some? then attrs.value.min.value else DefaultMin
      ensures max == if attrs.Some? && attrs.value.max.Some? then attrs.value.max.value else DefaultMax
      ensures currentValue == 0 && summary == None
    {
      this.key := key;
      this.store := store;
      min, max := DefaultMin, DefaultMax;
      if attrs.Some? {
        if attrs.value.min.Some? {
          min := attrs.value.min.value;
        }
        if attrs.value.max.Some? {
          max := attrs.value.max.value;
        }
      }
      currentValue := 0;
      summary := None;
    }

    /**
     * `onSetInitialValue`: the persisted integer, or the declared default
     * (0 when that is not an integer) when nothing is persisted.
     */
    method OnSetInitialValue(defaultValue: Option<int>)
      modifies this
      ensures currentValue == GetInt(store.entries, key, if defaultValue.Some? then defaultValue.value else 0)
      ensures key in store.entries && store.entries[key].IntPref? ==> currentValue == store.entries[key].i
      ensures InSync()
      ensures min == old(min) && max == old(max)
    {
      currentValue := GetInt(store.entries, key, if defaultValue.Some? then defaultValue.value else 0);
      summary := Some(ValueLabel(IsGamma(), currentValue));
    }

    /** `saveValue`: the value becomes current, is persisted, and the summary shows it. */
    method SaveValue(value: int)
      modifies this, store
      ensures currentValue == value
      ensures store.entries == old(store.entries)[key := IntPref(value)]
      ensures GetInt(store.entries, key, 0) == value
      ensures InSync()
      ensures min == old(min) && max == old(max)
    {
      currentValue := value;
      store.PutInt(key, value);
      summary := Some(ValueLabel(IsGamma(), currentValue));
    }
  }

  /** The seek bar widget's state: its maximum and its progress. */
  datatype Widget = Widget(max: nat, progress: nat)

  /** The dialog fragment that edits a `SeekBarPreference`. */
  class SeekBarDialog {
    const preference: SeekBarPreference
    /** The seek bar, once the dialog's view is bound. */
    var seekBar: Option<Widget>
    /** The value text, once the dialog's view is bound. */
    var valueText: Option<string>

    /** The value text shows the value the bar's progress stands for. */
    predicate TextMatchesProgress()
      reads this, preference
    {
      seekBar.Some? && valueText == Some(ValueLabel(preference.IsGamma(), ValueFor(seekBar.value.progress, preference.min)))
    }

    constructor (preference: SeekBarPreference)
      ensures this.preference == preference
      ensures seekBar == None && valueText == None
    {
      this.preference := preference;
      seekBar := None;
      valueText := None;
    }

    /**
     * `onBindDialogView`: the bar runs from 0 to max - min, starts at the
     * current value's progress, and the text shows the current value.
     */
    method OnBindDialogView()
      modifies this
      ensures seekBar == Some(Widget(WidgetMax(preference.min, preference.max),
                                     ProgressFor(preference.currentValue, preference.min, preference.max)))
      ensures valueText == Some(ValueLabel(preference.IsGamma(), preference.currentValue))
      ensures preference.min <= preference.max ==>
                (preference.min <= preference.currentValue <= preference.max <==> TextMatchesProgress())
    {
      var widgetMax := WidgetMax(preference.min, preference.max);
      seekBar := Some(Widget(widgetMax, ClampProgress(preference.currentValue - preference.min, widgetMax)));
      valueText := Some(ValueLabel(preference.IsGamma(), preference.currentValue));
      if TextMatchesProgress() {
        assert ValueLabel(preference.IsGamma(), ValueFor(seekBar.value.progress, preference.min))
            == ValueLabel(preference.IsGamma(), preference.currentValue);
        LabelInjective(preference.IsGamma(), ValueFor(seekBar.value.progress, preference.min), preference.currentValue);
      }
      if preference.min <= preference.max {
        ValueProgressRoundTrip(preference.currentValue, preference.min, preference.max);
      }
    }

    /**
     * The user moves the thumb to `progress`: the bar takes it and the
     * `onProgressChanged` listener shows progress + min.
     */
    method OnProgressChanged(progress: nat)
      requires seekBar.Some? && progress <= seekBar.value.max
      modifies this
      ensures seekBar == Some(Widget(old(seekBar.value.max), progress))
      ensures valueText == Some(ValueLabel(preference.IsGamma(), ValueFor(progress, preference.min)))
      ensures TextMatchesProgress()
    {
      seekBar := Some(Widget(seekBar.value.max, progress));
      valueText := Some(ValueLabel(preference.IsGamma(), progress + preference.min));
    }

    /**
     * The reset button: the bar moves to the neutral value's progress (as far
     * as its range allows) and the text shows the neutral value.
     */
    method OnReset()
      modifies this
      ensures seekBar == if old(seekBar).None? then None
                         else Some(Widget(old(seekBar.value.max),
                                          ClampProgress(ResetValue(preference.IsGamma()) - preference.min, old(seekBar.value.max))))
      ensures valueText == Some(ValueLabel(preference.IsGamma(), ResetValue(preference.IsGamma())))
      ensures old(seekBar).Some? && old(seekBar).value.max == WidgetMax(preference.min, preference.max)
              && preference.min <= ResetValue(preference.IsGamma()) <= preference.max
              ==> TextMatchesProgress()
    {
      var neutral := ResetValue(preference.IsGamma());
      if seekBar.Some? {
        seekBar := Some(Widget(seekBar.value.max, ClampProgress(neutral - preference.min, seekBar.value.max)));
      }
      valueText := Some(ValueLabel(preference.IsGamma(), neutral));
    }

    /**
     * `onDialogClosed`: a negative close changes nothing; a positive one
     * offers progress + min (progress 0 without a bar) to the change
     * listener `accepts` and saves it when the listener agrees.
     */
    method OnDialogClosed(positiveResult: bool, accepts: int -> bool) returns (saved: bool)
      modifies preference, preference.store
      ensures var value := ValueFor(if seekBar.Some? then seekBar.value.progress else 0, preference.min);
              && (saved <==> positiveResult && accepts(value))
              && (saved ==> preference.currentValue == value
                            && preference.store.entries == old(preference.store.entries)[preference.key := IntPref(value)]
                            && preference.InSync())
      ensures !saved ==> preference.currentValue == old(preference.currentValue)
                         && preference.store.entries == old(preference.store.entries)
                         && preference.summary == old(preference.summary)
      ensures preference.min == old(preference.min) && preference.max == old(preference.max)
      ensures saved && old(TextMatchesProgress()) ==> old(valueText) == Some(ValueLabel(preference.IsGamma(), preference.currentValue))
    {
      saved := false;
      if positiveResult {
        var value := (if seekBar.Some? then seekBar.value.progress else 0) + preference.min;
        if accepts(value) {
          preference.SaveValue(value);
          saved := true;
        }
      }
    }
  }
}
