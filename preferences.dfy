/** The editor's preference store (EditorPrefs): integer and string values by key. */
module Preferences {
  class PreferenceStore {
    var ints: map<string, bv32>
    var strings: map<string, string>

    constructor (ints: map<string, bv32>, strings: map<string, string>)
      ensures this.ints == ints && this.strings == strings
    {
      this.ints := ints;
      this.strings := strings;
    }

    /** `EditorPrefs.GetInt(key, defaultValue)`. */
    function GetInt(key: string, defaultValue: bv32): (r: bv32)
      reads this
      ensures key in ints ==> r == ints[key]
      ensures key !in ints ==> r == defaultValue
    {
      if key in ints then ints[key] else defaultValue
    }

    /** `EditorPrefs.GetString(key, defaultValue)`. */
    function GetString(key: string, defaultValue: string): (r: string)
      reads this
      ensures key in strings ==> r == strings[key]
      ensures key !in strings ==> r == defaultValue
    {
      if key in strings then strings[key] else defaultValue
    }

    method SetInt(key: string, value: bv32)
      modifies this
      ensures ints == old(ints)[key := value] && strings == old(strings)
      ensures GetInt(key, 0) == value
    {
      ints := ints[key := value];
    }

    method SetString(key: string, value: string)
      modifies this
      ensures strings == old(strings)[key := value] && ints == old(ints)
      ensures GetString(key, "") == value
    {
      strings := strings[key := value];
    }
  }
}
