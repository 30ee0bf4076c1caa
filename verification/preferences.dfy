/**
 * The app's default SharedPreferences: one key/value store shared by the
 * settings screen, the seek-bar preferences and the image pipeline. Edits are
 * applied at once (the asynchronous `apply()` commit is not modelled).
 */
module Preferences {
  datatype PrefValue = BoolPref(b: bool) | IntPref(i: int) | StringPref(s: string)

  type Entries = map<string, PrefValue>

  /** `getBoolean(key, default)`. */
  function GetBoolean(entries: Entries, key: string, default: bool): (b: bool)
    ensures key !in entries ==> b == default
    ensures key in entries && entries[key].BoolPref? ==> b == entries[key].b
  {
    if key in entries && entries[key].BoolPref? then entries[key].b else default
  }

  /** `getInt(key, default)`. */
  function GetInt(entries: Entries, key: string, default: int): (i: int)
    ensures key !in entries ==> i == default
    ensures key in entries && entries[key].IntPref? ==> i == entries[key].i
  {
    if key in entries && entries[key].IntPref? then entries[key].i else default
  }

  /** `getString(key, default)`. */
  function GetString(entries: Entries, key: string, default: string): (s: string)
    ensures key !in entries ==> s == default
    ensures key in entries && entries[key].StringPref? ==> s == entries[key].s
  {
    if key in entries && entries[key].StringPref? then entries[key].s else default
  }

  class SharedPreferences {
    var entries: Entries

    constructor (initial: Entries)
      ensures entries == initial
    {
      entries := initial;
    }

    method PutBoolean(key: string, value: bool)
      modifies this
      ensures entries == old(entries)[key := BoolPref(value)]
    {
      entries := entries[key := BoolPref(value)];
    }

    method PutInt(key: string, value: int)
      modifies this
      ensures entries == old(entries)[key := IntPref(value)]
    {
      entries := entries[key := IntPref(value)];
    }

    method PutString(key: string, value: string)
      modifies this
      ensures entries == old(entries)[key := StringPref(value)]
    {
      entries := entries[key := StringPref(value)];
    }

    method Remove(key: string)
      modifies this
      ensures entries == old(entries) - {key}
    {
      entries := entries - {key};
    }
  }
}
