/**
 `SettingManager` as a value: the frontend settings list (whose entries are
 the table's own records, so `read` updates what `get_setting` sees) and the
 input bindings kept in memory.
 */
module Manager {
  import opened IniData
  import opened Settings

  datatype Manager = Manager(settings: seq<Setting>, input: Ini)

  /** The constructor: the table's entries, in table order, and no input bindings yet. */
  method Construct() returns (m: Manager)
    ensures m.settings == FrontendTable()
    ensures m.input == map[]
  {
    var table := FrontendTable();
    var settings: seq<Setting> := [];
    for i := 0 to |table|
      invariant settings == table[..i]
    {
      settings := settings + [table[i]];
    }
    m := Manager(settings, map[]);
  }
}
