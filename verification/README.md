# Nestopia frontend settings, modelled in Dafny

This project models the settings layer of the Nestopia UE FLTK frontend,
`SettingManager` in `source/fltkui/setmanager.cpp`. The layer does four things:

- It keeps a fixed table of seven frontend settings. Each has a name, a
  display name, an options line, a description, a current value, bounds and
  flags.
- It loads values from a parsed INI file. Each setting looks up its own key in
  `[frontend]` (emulator core settings look in `[nestopia]`). A non-empty value
  goes through `std::stoi` and is taken only when it lies within the setting's
  bounds.
- It writes the settings back out in a fixed commented layout.
- It answers name lookups and reads and writes in-memory input bindings.

Module map:

- `Settings`: the setting record, the table and the null setting.
- `IntText`: decimal text. `std::stoi` and `operator<<` for `int` are written
  out concretely.
- `Text`: line and whitespace helpers.
- `IniData`: the parsed file as a two-level string map. `operator[]` reads a
  missing entry as "".
- `Load`: the two loading loops of `read`. Both run `RunLoop`, a loop over
  the list that applies one step per setting and stops at the first throw.
- `Render`: the text `write` produces.
- `IniReader`: a minimal line-oriented INI reader. It is the partner of
  `Render` for the round trip.
- `RoundTrip`: writing and then reading again gives back the same values.
- `Lookup`: `get_setting`.
- `InputBindings`: `get_input` and `set_input`.
- `Manager`: the constructor.

Modelling choices:

- The settings vector holds pointers into the static table. Here it is one
  `seq<Setting>` whose entries are the table's records. `get_setting` is
  modelled on that list, so after `read` a lookup returns the loaded record
  (`Lookup.GetSettingAfterRead`).
- The table and the input bindings are namespace-scope statics. The model
  folds them into a single `SettingManager` value.
- Values are `int`, restricted to the 32-bit range of C++ `int`.
- An exception thrown by `std::stoi` inside `read` ends the function. It is
  modelled as an `Abort` value that records:
  - the section being loaded;
  - the index of the failing setting;
  - the error, which is invalid argument or out of range;
  - the lists as they stood at that point.
- `nullsetting` is a zero-initialised static. Its null strings are modelled as "".

## Model

| member | source | states |
|---|---|---|
| Settings.FrontendTable | source/fltkui/setmanager.cpp:39-75 | the table has seven entries; each starting value lies within its bounds; each carries the frontend flag; the names are `v_scale`, `v_linearfilter`, `v_aspect`, `a_rsqual`, `m_ffspeed`, `m_hidecursor`, `m_hidecrosshair` in that order |
| Settings.FrontendNamesDistinct | source/fltkui/setmanager.cpp:39-75 | no two table entries share a name, so a lookup by name is unambiguous |
| Manager.Construct | source/fltkui/setmanager.cpp:84-89 | after construction the settings list is exactly the table, in table order, and no input bindings are held |
| Load.LoadOne | source/fltkui/setmanager.cpp:109-120 | one loading step changes at most the value of a setting; name, texts, bounds and flags stay the same |
| Load.LoadOneCases | source/fltkui/setmanager.cpp:110-119 | an empty or missing value leaves the setting alone; the step throws exactly when the text is non-empty and `std::stoi` rejects it; an in-bounds number becomes the value; an out-of-bounds number is ignored |
| Load.LoadOneChangesOnlyToInRange | source/fltkui/setmanager.cpp:116-119 | a value only changes to the number parsed from its key, and only when that number is within the bounds |
| Load.LoadSection | source/fltkui/setmanager.cpp:109-120 | the loading loop keeps the list's length; an exception names a position inside the list |
| Load.LoadSectionShape | source/fltkui/setmanager.cpp:109-120 | the loading loop keeps the list's order and every field except the values, whether or not it throws |
| Load.LoadSectionCompleted | source/fltkui/setmanager.cpp:109-120 | when the loop runs to the end, every entry is the result of one loading step on the original entry |
| Load.LoadSectionAborted | source/fltkui/setmanager.cpp:109-120 | when `std::stoi` throws, the exception names the first rejected setting; the entries before it are loaded; it and every later entry are untouched |
| Load.LoadSectionCompletes | source/fltkui/setmanager.cpp:109-120 | the loop completes if and only if `std::stoi` accepts every non-empty value it meets |
| Load.LoadSectionKeeps | source/fltkui/setmanager.cpp:110-119 | a setting whose key is missing or empty keeps its value; if every value was within bounds before loading, every value is within bounds after it, even when the loop is cut short |
| Load.LoadSectionChangesOnlyToInRange | source/fltkui/setmanager.cpp:109-120 | across the whole loop, a value changes only to the in-bounds number `std::stoi` reads from that setting's own key |
| Load.Read | source/fltkui/setmanager.cpp:103-135 | `read` keeps the shape of both lists; an exception comes from `[frontend]` or from `[nestopia]`; an exception in the frontend loop leaves the core settings untouched |
| Load.ReadKeepsInRange | source/fltkui/setmanager.cpp:109-133 | bounds are an invariant of `read` for both lists |
| Load.ReadKeepsUnlisted | source/fltkui/setmanager.cpp:109-133 | a setting with no value (or an empty one) in its own section keeps its value |
| Load.ReadChangesOnlyToInRange | source/fltkui/setmanager.cpp:109-133 | each changed value is the number read from the setting's own section, and it lies within the bounds |
| Load.ReadSeesOnlyItsSections | source/fltkui/setmanager.cpp:110-123 | only `[frontend]` and `[nestopia]` matter: two files that agree on those sections load identically |
| Load.ReadOfEmptyFile | source/fltkui/setmanager.cpp:109-133 | a file with neither section changes nothing and throws nothing |
| IntText.StoI | source/fltkui/setmanager.cpp:116 | `std::stoi` in base 10 and the C locale: skips `isspace` characters, takes one optional sign, then the longest run of digits, and ignores what follows; its contract states that it succeeds only on text that holds a digit |
| IntText.StoIRejects | source/fltkui/setmanager.cpp:116 | `std::stoi` throws `invalid_argument` exactly when, after leading white space, the text starts neither with a digit nor with a sign followed by a digit |
| IntText.StoIOutOfRange | source/fltkui/setmanager.cpp:116 | `std::stoi` throws `out_of_range` for a magnitude above 2147483647 without a sign and above 2147483648 after a minus |
| IntText.StoIOfDigits | source/fltkui/setmanager.cpp:116 | a run of digits, with or without a minus, reads as its decimal value, or as `out_of_range` when that value lies outside `int` |
| IntText.StoISkipsLeadingSpace | source/fltkui/setmanager.cpp:116 | leading whitespace does not change what `std::stoi` reads |
| IntText.StoIIgnoresTrailingText | source/fltkui/setmanager.cpp:116 | `std::stoi` reads a printed number back even when other text follows that does not start with a digit |
| IntText.IntToString | source/fltkui/setmanager.cpp:157 | a printed `int` is non-empty, single-line, free of `=`, and has no surrounding whitespace |
| IntText.StoIOfIntToString | source/fltkui/setmanager.cpp:157 | `std::stoi` of a printed `int` gives back that `int` |
| Render.WriteIsLines | source/fltkui/setmanager.cpp:150-166 | the written text is a title line, a blank line, `[frontend]`, four lines per frontend setting, `[nestopia]`, and four lines per core setting |
| Render.WriteSplitsIntoLayout | source/fltkui/setmanager.cpp:150-166 | when no description, options line or name contains a newline, splitting the written text at newlines gives back exactly that line layout |
| Render.WriteLayoutPositions | source/fltkui/setmanager.cpp:150-166 | the layout has 4 + 4·(frontend + core) lines; the header sits at lines 0-2 and `[nestopia]` right after the frontend blocks; the block of the i-th setting sits at a fixed offset |
| RoundTrip.ParseWrite | source/fltkui/setmanager.cpp:150-166 | reading the written text yields exactly two sections; each maps every setting name to its printed value |
| RoundTrip.LoadAssignments | source/fltkui/setmanager.cpp:109-120 | loading the assignments written for a list of in-bounds settings into a list of the same settings restores every value, whatever the values were before |
| RoundTrip.WriteThenRead | source/fltkui/setmanager.cpp:103-166 | `write` followed by `read` restores every in-bounds value of both lists and throws nothing |
| Lookup.GetSetting | source/fltkui/setmanager.cpp:191-199 | the result is the first entry with the given name; when none has it, the result is the null setting |
| Lookup.GetSettingAfterRead | source/fltkui/setmanager.cpp:191-199 | for a list with distinct names, such as the table: after `read`, looking up the name of entry `k` returns that entry as `read` left it, the same record up to its value |
| Lookup.GetTableSetting | source/fltkui/setmanager.cpp:191-199 | looking up the name of any table entry returns that very entry |
| InputBindings.GetInput | source/fltkui/setmanager.cpp:201-203 | `get_input` returns the stored string, or "" if none; the entry exists afterwards; the only new keys are that section and key; no value any reader sees changes; every other section is left exactly as it was |
| InputBindings.SetInput | source/fltkui/setmanager.cpp:205-207 | `set_input` stores the value at that one entry; every other entry keeps its value; the section is created if missing; every other section is left exactly as it was |
| InputBindings.GetAfterSet | source/fltkui/setmanager.cpp:201-207 | `get_input` after `set_input` returns the stored value and changes nothing further |
| InputBindings.SetTwice | source/fltkui/setmanager.cpp:205-207 | a second `set_input` of the same entry replaces the first |
| InputBindings.SetWhatWasGot | source/fltkui/setmanager.cpp:201-207 | storing back what `get_input` returned changes nothing |

## Left out

- Choice of the configuration directory from `XDG_CONFIG_HOME` or `HOME`, and `create_directories` (lines 91-100): environment and file-system access.
- Opening and reading `nestopia.conf` with mINI (lines 105-107): file I/O. `read` is modelled on an already parsed file.
- The mINI reader itself is outside this model. It lower-cases keys and has its own rules for quoting and comments. `IniReader` is a minimal reader covering the layout `write` produces, and it exists only for the round trip.
- `jgm.rehash()` and the emulator core's own settings list (lines 122, 135, 162): the core list is a parameter.
- Reading and writing `input.conf` (lines 137-139, 170-171): file I/O. The bindings are the in-memory map.
- The early return when the output file cannot be opened (lines 143-148): file I/O. `write` is modelled as the text it would produce.
- The commented-out debug dump (lines 173-184): it is not code.
- `get_settings` (lines 187-189) returns the list itself. In the model the list is `Manager.settings`.
- Only one `SettingManager` is modelled. The table and `inputini` are process-wide statics, and the constructor neither resets values nor clears the bindings. `Manager.Construct` therefore describes the first instance in a process.
- `get_setting` returns a writable pointer into the table. Writes made through that pointer are not modelled.
- mINI's `operator[]` trims names and lower-cases them (unless it is built case-sensitive); `ini.h` is not part of this model. `IniData` models `operator[]` as an exact-match lookup, with trimming and case folding left out. Keys that differ only in case are therefore distinct entries in the model.
- `get_input` returns a writable reference. Writing through that reference is the same as calling `set_input`.
- The numeric values of `FLAG_FRONTEND` and `JG_SETTING_RESTART`: they come from headers outside this model. Flags are a set of names.
- Settings.FrontendTable: nothing proves that its descriptions and options lines are free of newlines. The table's long literal strings are too expensive for the solver to unfold. `RoundTrip.WriteThenRead` therefore requires single-line texts instead of assuming them for the table.
- IntText.StoI: the locale is fixed to the C locale, and only base 10 is modelled, which is what the source uses.
