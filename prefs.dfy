/**
 The first-run flag kept in the app's shared preferences (utils/UtilsPrefs.java).
 The preference file is a map from key to boolean; a key that was never
 written is absent from the map.
 */
module Prefs {

  /** The one key this component writes. */
  const FirstRunKey: string := "first_run_flag"

  /** The first-run flag as the entries hold it: true until the key has been written. */
  predicate FirstRunFlag(entries: map<string, bool>)
  {
    FirstRunKey in entries ==> entries[FirstRunKey]
  }

  /** The entries after one write of `value` under `key`. */
  function Put(entries: map<string, bool>, key: string, value: bool): (r: map<string, bool>)
    ensures key in r && r[key] == value
    ensures forall k | k != key :: (k in r <==> k in entries) && (k in r ==> r[k] == entries[k])
  {
    entries[key := value]
  }

  /** A key that was never written reads as "first run". */
  lemma UnsetFlagReadsFirstRun(entries: map<string, bool>)
    requires FirstRunKey !in entries
    ensures FirstRunFlag(entries)
  {
  }

  /** Writing `value` under the flag key and then reading the flag gives `value` back. */
  lemma FlagReadsLastWrite(entries: map<string, bool>, value: bool)
    ensures FirstRunFlag(Put(entries, FirstRunKey, value)) == value
  {
  }

  /** Clearing the flag twice is the same as clearing it once. */
  lemma ClearFlagIdempotent(entries: map<string, bool>)
    ensures Put(Put(entries, FirstRunKey, false), FirstRunKey, false) == Put(entries, FirstRunKey, false)
  {
  }

  /** The platform's preference file, shared by every object that holds it. */
  class SharedPreferences {
    var entries: map<string, bool>

    constructor (entries: map<string, bool>)
      ensures this.entries == entries
    {
      this.entries := entries;
    }
  }

  class UtilsPrefs {
    const sharedPreferences: SharedPreferences

    constructor (sharedPreferences: SharedPreferences)
      ensures this.sharedPreferences == sharedPreferences
    {
      this.sharedPreferences := sharedPreferences;
    }

    /** True when the app runs for the first time: the flag reads true when it was never written. */
    method IsFirstRun() returns (firstRun: bool)
      ensures FirstRunKey !in sharedPreferences.entries ==> firstRun
      ensures FirstRunKey in sharedPreferences.entries ==> firstRun == sharedPreferences.entries[FirstRunKey]
      ensures firstRun == FirstRunFlag(sharedPreferences.entries)
    {
      firstRun := GetBooleanFromSharedPreferences(FirstRunKey, true);
    }

    /** Records that the first run is over. */
    method SetNotFirstRun()
      modifies sharedPreferences
      ensures sharedPreferences.entries == Put(old(sharedPreferences.entries), FirstRunKey, false)
      ensures !FirstRunFlag(sharedPreferences.entries)
    {
      PutBooleanToSharedPreferences(FirstRunKey, false);
    }

    /** Sets the flag to `value`; a later IsFirstRun returns `value`. */
    method SetFirstRunFlagValue(value: bool)
      modifies sharedPreferences
      ensures sharedPreferences.entries == Put(old(sharedPreferences.entries), FirstRunKey, value)
      ensures FirstRunFlag(sharedPreferences.entries) == value
    {
      PutBooleanToSharedPreferences(FirstRunKey, value);
    }

    /** The value stored under `key`, or `defValue` when the key is absent. */
    method GetBooleanFromSharedPreferences(key: string, defValue: bool) returns (b: bool)
      ensures key in sharedPreferences.entries ==> b == sharedPreferences.entries[key]
      ensures key !in sharedPreferences.entries ==> b == defValue
    {
      b := if key in sharedPreferences.entries then sharedPreferences.entries[key] else defValue;
    }

    /** Stores `value` under `key` (an edit committed with apply); other keys keep their values. */
    method PutBooleanToSharedPreferences(key: string, value: bool)
      modifies sharedPreferences
      ensures sharedPreferences.entries == Put(old(sharedPreferences.entries), key, value)
    {
      sharedPreferences.entries := sharedPreferences.entries[key := value];
    }
  }

}
