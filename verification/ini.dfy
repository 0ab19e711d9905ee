/**
 A parsed INI file: section name to (key to value). Reading through C++'s
 `operator[]` never fails: a missing section or key reads as empty. Names
 are matched exactly, as written.
 */
module IniData {

  type Ini = map<string, map<string, string>>

  /** `ini[section]` as a value: the section's entries, or none. */
  function Section(ini: Ini, section: string): (entries: map<string, string>)
    ensures section !in ini ==> entries == map[]
  {
    if section in ini then ini[section] else map[]
  }

  /** `entries[key]` as a value: the stored string, or "" for a missing key. */
  function Value(entries: map<string, string>, key: string): (v: string)
    ensures key !in entries ==> v == ""
  {
    if key in entries then entries[key] else ""
  }

  /** `ini[section][key]` as a value. */
  function Entry(ini: Ini, section: string, key: string): (v: string)
    ensures section !in ini ==> v == ""
  {
    Value(Section(ini, section), key)
  }
}
