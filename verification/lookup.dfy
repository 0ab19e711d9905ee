/** `SettingManager::get_setting`: first-match search of the frontend table by name. */
module Lookup {
  import opened Wrappers
  import opened IniData
  import opened Settings
  import opened Load

  /**
   The entry of `settings` named `name` that comes first, with its position;
   when no entry has that name, `NullSetting` and no position. `settings` is
   the frontend table with its current values.
   */
  method GetSetting(settings: seq<Setting>, name: string) returns (r: Setting, at: Option<nat>)
    ensures at.Some? ==>
      && at.value < |settings|
      && settings[at.value].name == name
      && (forall j :: 0 <= j < at.value ==> settings[j].name != name)
      && r == settings[at.value]
    ensures at.None? ==>
      && (forall j :: 0 <= j < |settings| ==> settings[j].name != name)
      && r == NullSetting
  {
    for i := 0 to |settings|
      invariant forall j :: 0 <= j < i ==> settings[j].name != name
    {
      if settings[i].name == name {
        return settings[i], Some(i);
      }
    }
    return NullSetting, None;
  }

  /** Each name of the table finds its own entry, since the names are distinct. */
  method GetTableSetting(k: nat) returns (r: Setting)
    requires k < |FrontendTable()|
    ensures r == FrontendTable()[k]
  {
    FrontendNamesDistinct();
    var table := FrontendTable();
    var at;
    r, at := GetSetting(table, table[k].name);
    assert at == Some(k);
  }

  /**
   The list `get_setting` searches holds the records `read` updates: after
   `read`, looking up the name of entry `k` gives that entry as loaded. The
   frontend table meets the precondition (`FrontendNamesDistinct`).
   */
  method GetSettingAfterRead(ini: Ini, settings: seq<Setting>, core: seq<Setting>, k: nat)
    returns (r: Setting)
    requires DistinctNames(settings) && k < |settings|
    ensures r == Read(ini, settings, core).frontend[k]
    ensures r.(val := settings[k].val) == settings[k]
  {
    var loaded := Read(ini, settings, core).frontend;
    assert forall i :: 0 <= i < |loaded| ==> loaded[i].name == settings[i].name;
    var at;
    r, at := GetSetting(loaded, settings[k].name);
    assert at == Some(k);
  }
}
