/**
 The input bindings: a two-level string map kept in memory and reached
 through `get_input` and `set_input`, both of which go through `operator[]`.
 */
module InputBindings {
  import opened IniData

  /** The string `get_input` returns, and the map after `operator[]` created any missing entry. */
  datatype Got = Got(value: string, bindings: Ini)

  /**
   `bindings[section][key]`: the stored string, or "" when there is none, in
   which case an empty entry (and the section, if it too was missing) is
   created. No value any reader sees is changed, and every other section is
   left exactly as it was.
   */
  function GetInput(bindings: Ini, section: string, key: string): (r: Got)
    ensures r.value == Entry(bindings, section, key)
    ensures section in r.bindings && key in r.bindings[section]
    ensures r.bindings.Keys == bindings.Keys + {section}
    ensures r.bindings[section].Keys == Section(bindings, section).Keys + {key}
    ensures forall s, k :: Entry(r.bindings, s, k) == Entry(bindings, s, k)
    ensures forall s :: s != section ==>
      (s in r.bindings <==> s in bindings) && (s in bindings ==> r.bindings[s] == bindings[s])
  {
    var entries := Section(bindings, section);
    var value := Value(entries, key);
    Got(value, bindings[section := entries[key := value]])
  }

  /**
   `bindings[section][key] = value`: that one entry now holds `value`, the
   section is created if missing, every other entry keeps its value, and
   every other section is left exactly as it was.
   */
  function SetInput(bindings: Ini, section: string, key: string, value: string): (r: Ini)
    ensures Entry(r, section, key) == value
    ensures forall s, k :: (s, k) != (section, key) ==> Entry(r, s, k) == Entry(bindings, s, k)
    ensures r.Keys == bindings.Keys + {section}
    ensures r[section].Keys == Section(bindings, section).Keys + {key}
    ensures forall s :: s != section ==> (s in r <==> s in bindings) && (s in bindings ==> r[s] == bindings[s])
  {
    bindings[section := Section(bindings, section)[key := value]]
  }

  /** What `set_input` stores, `get_input` gives back. */
  lemma GetAfterSet(bindings: Ini, section: string, key: string, value: string)
    ensures GetInput(SetInput(bindings, section, key, value), section, key).value == value
    ensures GetInput(SetInput(bindings, section, key, value), section, key).bindings
         == SetInput(bindings, section, key, value)
  {
    var set1 := SetInput(bindings, section, key, value);
    var entries := Section(set1, section);
    assert entries[key := value] == entries;
  }

  /** A second `set_input` of the same entry replaces the first. */
  lemma SetTwice(bindings: Ini, section: string, key: string, v1: string, v2: string)
    ensures SetInput(SetInput(bindings, section, key, v1), section, key, v2)
         == SetInput(bindings, section, key, v2)
  {
    var entries := Section(bindings, section);
    var once := SetInput(bindings, section, key, v1);
    assert once == bindings[section := entries[key := v1]];
    assert Section(once, section) == entries[key := v1];
    assert entries[key := v1][key := v2] == entries[key := v2];
    assert once[section := entries[key := v2]] == bindings[section := entries[key := v2]];
  }

  /** Storing what `get_input` returned changes nothing further. */
  lemma SetWhatWasGot(bindings: Ini, section: string, key: string)
    ensures var got := GetInput(bindings, section, key);
      SetInput(got.bindings, section, key, got.value) == got.bindings
  {
    var got := GetInput(bindings, section, key);
    var entries := got.bindings[section];
    assert entries[key := got.value] == entries;
  }
}
